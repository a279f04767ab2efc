/** The users table (`crud/user.py`): lookups by email and id, account
    creation, and the partial profile update. */
module UserStore {
  import opened Base
  import opened Tables

  /** `get_user_by_email(db, email)`. */
  function GetUserByEmail(users: seq<User>, email: string): (r: Option<User>)
    ensures r.Some? ==> r.value in users && r.value.email == email
    ensures r.None? <==> forall i :: 0 <= i < |users| ==> users[i].email != email
  {
    First(users, (u: User) => u.email == email)
  }

  /** The email column is unique, so the lookup finds the one user with that email. */
  lemma GetUserByEmailUnique(users: seq<User>, i: nat)
    requires UsersValid(users) && i < |users|
    ensures GetUserByEmail(users, users[i].email) == Some(users[i])
  {
    var r := GetUserByEmail(users, users[i].email);
    var j :| 0 <= j < |users| && users[j] == r.value;
    assert !(i < j) && !(j < i);
  }

  /** `get_user_by_id(db, user_id)`, also the `db.query(User)` lookups of the routes. */
  function GetUserById(users: seq<User>, userId: int): (r: Option<User>)
    ensures r.Some? ==> r.value in users && r.value.id == userId
    ensures r.None? <==> forall i :: 0 <= i < |users| ==> users[i].id != userId
  {
    First(users, (u: User) => u.id == userId)
  }

  /** With ids assigned in order, the user with id `k` is the `k`-th row. */
  lemma GetUserByIdPosition(users: seq<User>, userId: int)
    requires UsersValid(users)
    ensures GetUserById(users, userId).Some? <==> 1 <= userId <= |users|
    ensures 1 <= userId <= |users| ==> GetUserById(users, userId) == Some(users[userId - 1])
  {
    if 1 <= userId <= |users| {
      assert users[userId - 1].id == userId;
    }
  }

  /** The row `create_user` inserts: the password only as its hash, and
      `is_verified` set. */
  function NewUser(id: int, email: string, password: string, hash: string -> string, displayName: string,
                   studentId: Option<string>, course: Option<string>, year: Option<int>,
                   faculty: Option<string>, showCourse: bool, showYear: bool, showFaculty: bool): (u: User)
    ensures u.isVerified && u.hashedPassword == hash(password) && u.email == email && u.id == id
    ensures u.spotifyEmail.None?
  {
    User(id, email, hash(password), displayName, studentId, course, year, faculty,
         showCourse, showYear, showFaculty, None, true)
  }

  /** `create_user`: inserts the next user. `hash` stands for bcrypt's
      `hash_password`. A second account for an email fails on the unique
      constraint (a 500), and nothing changes. */
  method CreateUser(db: Db, email: string, password: string, hash: string -> string, displayName: string,
                    studentId: Option<string>, course: Option<string>, year: Option<int>,
                    faculty: Option<string>, showCourse: bool, showYear: bool, showFaculty: bool)
    returns (r: Option<User>)
    requires db.Valid()
    modifies db`users
    ensures db.Valid()
    ensures r.None? <==> GetUserByEmail(old(db.users), email).Some?
    ensures r.None? ==> db.users == old(db.users)
    ensures r.Some? ==>
              && r.value == NewUser(|old(db.users)| + 1, email, password, hash, displayName, studentId,
                                    course, year, faculty, showCourse, showYear, showFaculty)
              && db.users == old(db.users) + [r.value]
  {
    if GetUserByEmail(db.users, email).Some? {
      return None;
    }
    var u := NewUser(|db.users| + 1, email, password, hash, displayName, studentId,
                     course, year, faculty, showCourse, showYear, showFaculty);
    db.users := db.users + [u];
    return Some(u);
  }

  /** One entry of the `ProfileUpdate` dict: a field the client sent, with
      the value it sent, which may be null. */
  datatype Update =
    | SetDisplayName(displayName: Option<string>)
    | SetCourse(course: Option<string>)
    | SetYear(year: Option<int>)
    | SetFaculty(faculty: Option<string>)
    | SetShowCourse(showCourse: Option<bool>)
    | SetShowYear(showYear: Option<bool>)
    | SetShowFaculty(showFaculty: Option<bool>)
    | SetSpotifyEmail(spotifyEmail: Option<string>)

  predicate IsNull(e: Update)
  {
    match e
    case SetDisplayName(v) => v.None?
    case SetCourse(v) => v.None?
    case SetYear(v) => v.None?
    case SetFaculty(v) => v.None?
    case SetShowCourse(v) => v.None?
    case SetShowYear(v) => v.None?
    case SetShowFaculty(v) => v.None?
    case SetSpotifyEmail(v) => v.None?
  }

  /** One `setattr`, skipped when the value is None. */
  function Apply(u: User, e: Update): (v: User)
    ensures v.id == u.id && v.email == u.email && v.hashedPassword == u.hashedPassword
    ensures v.studentId == u.studentId && v.isVerified == u.isVerified
    ensures IsNull(e) ==> v == u
    ensures !IsNull(e) ==> Get(v, Names(e)) == Sent(e)
    ensures u.course.Some? ==> v.course.Some?
    ensures u.year.Some? ==> v.year.Some?
    ensures u.faculty.Some? ==> v.faculty.Some?
    ensures u.spotifyEmail.Some? ==> v.spotifyEmail.Some?
    ensures Names(e) != DisplayName ==> v.displayName == u.displayName
    ensures Names(e) != Course ==> v.course == u.course
    ensures Names(e) != Year ==> v.year == u.year
    ensures Names(e) != Faculty ==> v.faculty == u.faculty
    ensures Names(e) != ShowCourse ==> v.showCourse == u.showCourse
    ensures Names(e) != ShowYear ==> v.showYear == u.showYear
    ensures Names(e) != ShowFaculty ==> v.showFaculty == u.showFaculty
    ensures Names(e) != SpotifyEmail ==> v.spotifyEmail == u.spotifyEmail
  {
    match e
    case SetDisplayName(x) => if x.Some? then u.(displayName := x.value) else u
    case SetCourse(x) => if x.Some? then u.(course := x) else u
    case SetYear(x) => if x.Some? then u.(year := x) else u
    case SetFaculty(x) => if x.Some? then u.(faculty := x) else u
    case SetShowCourse(x) => if x.Some? then u.(showCourse := x.value) else u
    case SetShowYear(x) => if x.Some? then u.(showYear := x.value) else u
    case SetShowFaculty(x) => if x.Some? then u.(showFaculty := x.value) else u
    case SetSpotifyEmail(x) => if x.Some? then u.(spotifyEmail := x) else u
  }

  /** The user after every entry of `updates`, taken in dict order. */
  function ApplyAll(u: User, updates: seq<Update>): User
  {
    if updates == [] then u else Apply(ApplyAll(u, updates[..|updates| - 1]), updates[|updates| - 1])
  }

  /** `update_user`: the loop of `setattr` calls on the caller's own row. */
  method UpdateUser(db: Db, userId: int, updates: seq<Update>) returns (u: User)
    requires db.Valid()
    requires 1 <= userId <= |db.users|
    modifies db`users
    ensures db.Valid()
    ensures u == ApplyAll(old(db.users)[userId - 1], updates)
    ensures db.users == old(db.users)[userId - 1 := u]
  {
    u := db.users[userId - 1];
    for i := 0 to |updates|
      invariant u == ApplyAll(db.users[userId - 1], updates[..i])
    {
      assert updates[..i + 1][..i] == updates[..i];
      u := Apply(u, updates[i]);
    }
    assert updates[..|updates|] == updates;
    UpdateKeepsIdentity(db.users[userId - 1], updates);
    db.users := db.users[userId - 1 := u];
  }

  /** The id, the email, the password hash, the student id and the verified
      flag are not part of `ProfileUpdate` and never change. */
  lemma {:induction false} UpdateKeepsIdentity(u: User, updates: seq<Update>)
    ensures var v := ApplyAll(u, updates);
            v.id == u.id && v.email == u.email && v.hashedPassword == u.hashedPassword
            && v.studentId == u.studentId && v.isVerified == u.isVerified
  {
    if updates != [] {
      UpdateKeepsIdentity(u, updates[..|updates| - 1]);
    }
  }

  /** Null values are ignored: an update of only nulls changes nothing. */
  lemma {:induction false} NullsIgnored(u: User, updates: seq<Update>)
    requires forall i :: 0 <= i < |updates| ==> IsNull(updates[i])
    ensures ApplyAll(u, updates) == u
  {
    if updates != [] {
      NullsIgnored(u, updates[..|updates| - 1]);
    }
  }

  /** The fields of `ProfileUpdate`, and a field's value read off a user. */
  datatype Field = DisplayName | Course | Year | Faculty | ShowCourse | ShowYear | ShowFaculty | SpotifyEmail

  datatype Value = Text(text: string) | OptText(optText: Option<string>) | OptNumber(optNumber: Option<int>) | Flag(flag: bool)

  function Names(e: Update): Field
  {
    match e
    case SetDisplayName(_) => DisplayName
    case SetCourse(_) => Course
    case SetYear(_) => Year
    case SetFaculty(_) => Faculty
    case SetShowCourse(_) => ShowCourse
    case SetShowYear(_) => ShowYear
    case SetShowFaculty(_) => ShowFaculty
    case SetSpotifyEmail(_) => SpotifyEmail
  }

  /** The value a non-null entry carries, as it is stored. */
  function Sent(e: Update): Value
    requires !IsNull(e)
  {
    match e
    case SetDisplayName(x) => Text(x.value)
    case SetCourse(x) => OptText(x)
    case SetYear(x) => OptNumber(x)
    case SetFaculty(x) => OptText(x)
    case SetShowCourse(x) => Flag(x.value)
    case SetShowYear(x) => Flag(x.value)
    case SetShowFaculty(x) => Flag(x.value)
    case SetSpotifyEmail(x) => OptText(x)
  }

  function Get(u: User, f: Field): Value
  {
    match f
    case DisplayName => Text(u.displayName)
    case Course => OptText(u.course)
    case Year => OptNumber(u.year)
    case Faculty => OptText(u.faculty)
    case ShowCourse => Flag(u.showCourse)
    case ShowYear => Flag(u.showYear)
    case ShowFaculty => Flag(u.showFaculty)
    case SpotifyEmail => OptText(u.spotifyEmail)
  }

  /** A field that no entry names keeps its value. */
  lemma {:induction false} UnnamedFieldsUnchanged(u: User, updates: seq<Update>, f: Field)
    requires forall i :: 0 <= i < |updates| ==> Names(updates[i]) != f
    ensures Get(ApplyAll(u, updates), f) == Get(u, f)
  {
    if updates != [] {
      var prefix := updates[..|updates| - 1];
      assert forall i :: 0 <= i < |prefix| ==> prefix[i] == updates[i];
      UnnamedFieldsUnchanged(u, prefix, f);
      ApplyUnnamed(ApplyAll(u, prefix), updates[|updates| - 1], f);
    }
  }

  lemma ApplyUnnamed(u: User, e: Update, f: Field)
    requires Names(e) != f
    ensures Get(Apply(u, e), f) == Get(u, f)
  {
  }

  /** A set optional field cannot be cleared through `update_user`. */
  lemma {:induction false} CannotClear(u: User, updates: seq<Update>)
    ensures var v := ApplyAll(u, updates);
            && (u.course.Some? ==> v.course.Some?)
            && (u.year.Some? ==> v.year.Some?)
            && (u.faculty.Some? ==> v.faculty.Some?)
            && (u.spotifyEmail.Some? ==> v.spotifyEmail.Some?)
  {
    if updates != [] {
      CannotClear(u, updates[..|updates| - 1]);
    }
  }

  /** A non-null value sent for a field is what the field holds afterwards
      when no later entry names the same field (the dict has each key once). */
  lemma {:induction false} LastValueStored(u: User, updates: seq<Update>, k: nat)
    requires k < |updates| && !IsNull(updates[k])
    requires forall j :: k < j < |updates| ==> Names(updates[j]) != Names(updates[k])
    ensures Get(ApplyAll(u, updates), Names(updates[k])) == Sent(updates[k])
  {
    if k < |updates| - 1 {
      var prefix := updates[..|updates| - 1];
      assert prefix[k] == updates[k];
      assert forall j :: k < j < |prefix| ==> prefix[j] == updates[j];
      LastValueStored(u, prefix, k);
      ApplyUnnamed(ApplyAll(u, prefix), updates[|updates| - 1], Names(updates[k]));
    }
  }
}
