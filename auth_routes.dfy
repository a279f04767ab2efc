/** The account handlers (`api/routes/auth.py`): the two SSO steps, the
    password login and the profile update. The access token is modelled by
    the user id it carries as `sub`; its signing is not part of the model.
    `hash` stands for bcrypt's `hash_password` and `verify` for
    `verify_password`. */
module AuthRoutes {
  import opened Base
  import opened Tables
  import opened UserStore
  import opened AuthService

  /** `sso_initiate`: 403 for a disallowed domain, then 409 for an email
      that already has an account, else the simulated SSO answer. */
  function SsoInitiate(users: seq<User>, email: string, draws: seq<nat>): (r: Result<SsoData>)
    requires |draws| >= 10
    ensures r.Ok? ==> SimulateSso(email, draws) == Some(r.value)
  {
    if !ValidateEmailDomain(email) then Err(Forbidden)
    else if GetUserByEmail(users, email).Some? then Err(Conflict)
    else Ok(SimulateSso(email, draws).value)
  }

  /** The domain check comes before the account check, and an answer is
      given exactly when both pass. */
  lemma SsoInitiateOrder(users: seq<User>, email: string, draws: seq<nat>)
    requires |draws| >= 10
    ensures !ValidateEmailDomain(email) ==> SsoInitiate(users, email, draws) == Err(Forbidden)
    ensures (ValidateEmailDomain(email) && exists i :: 0 <= i < |users| && users[i].email == email) ==>
              SsoInitiate(users, email, draws) == Err(Conflict)
    ensures SsoInitiate(users, email, draws).Ok? <==>
              ValidateEmailDomain(email) && forall i :: 0 <= i < |users| ==> users[i].email != email
    ensures SsoInitiate(users, email, draws).Ok? ==> SsoInitiate(users, email, draws).value.email == email
  {
  }

  /** The body of `SSOCompleteRequest`. */
  datatype SignUp = SignUp(
    email: string,
    password: string,
    displayName: string,
    studentId: Option<string>,
    course: Option<string>,
    year: Option<int>,
    faculty: Option<string>,
    showCourse: bool,
    showYear: bool,
    showFaculty: bool)

  function Account(id: int, req: SignUp, hash: string -> string): User
  {
    NewUser(id, req.email, req.password, hash, req.displayName, req.studentId, req.course, req.year,
            req.faculty, req.showCourse, req.showYear, req.showFaculty)
  }

  /** The response (the new user's id) and the users table after
      `sso_complete`. */
  function SsoCompleteSpec(users: seq<User>, req: SignUp, hash: string -> string): (Result<int>, seq<User>)
  {
    if !ValidateEmailDomain(req.email) then (Err(Forbidden), users)
    else if GetUserByEmail(users, req.email).Some? then (Err(Conflict), users)
    else (Ok(|users| + 1), users + [Account(|users| + 1, req, hash)])
  }

  method SsoComplete(db: Db, req: SignUp, hash: string -> string) returns (r: Result<int>)
    requires db.Valid()
    modifies db`users
    ensures db.Valid()
    ensures (r, db.users) == SsoCompleteSpec(old(db.users), req, hash)
  {
    if !ValidateEmailDomain(req.email) {
      return Err(Forbidden);
    }
    if GetUserByEmail(db.users, req.email).Some? {
      return Err(Conflict);
    }
    var created := CreateUser(db, req.email, req.password, hash, req.displayName, req.studentId, req.course,
                              req.year, req.faculty, req.showCourse, req.showYear, req.showFaculty);
    r := if created.Some? then Ok(created.value.id) else Err(ServerError);
  }

  /** An account is created only when both checks pass, with the domain
      check first; emails stay unique and the new account is verified and
      stores only the password's hash. */
  lemma SsoCompleteOutcome(users: seq<User>, req: SignUp, hash: string -> string)
    requires UsersValid(users)
    ensures var (r, after) := SsoCompleteSpec(users, req, hash);
            && UsersValid(after)
            && (!ValidateEmailDomain(req.email) ==> r == Err(Forbidden))
            && (r.Ok? <==> ValidateEmailDomain(req.email) && forall i :: 0 <= i < |users| ==> users[i].email != req.email)
            && (r.Err? ==> after == users)
            && (r.Ok? ==> |after| == |users| + 1 && after[..|users|] == users
                          && after[|users|].id == r.value && after[|users|].email == req.email
                          && after[|users|].isVerified && after[|users|].hashedPassword == hash(req.password))
  {
    if !ValidateEmailDomain(req.email) {
      assert SsoCompleteSpec(users, req, hash) == (Err(Forbidden), users);
    } else if GetUserByEmail(users, req.email).Some? {
      assert SsoCompleteSpec(users, req, hash) == (Err(Conflict), users);
    } else {
      var a := Account(|users| + 1, req, hash);
      assert SsoCompleteSpec(users, req, hash) == (Ok(|users| + 1), users + [a]);
      assert (users + [a])[..|users|] == users;
      AppendUserValid(users, a);
    }
  }

  lemma AppendUserValid(users: seq<User>, a: User)
    requires UsersValid(users) && a.id == |users| + 1
    requires forall i :: 0 <= i < |users| ==> users[i].email != a.email
    ensures UsersValid(users + [a])
  {
  }

  /** `login`: the same 401 for an unknown email and for a wrong password. */
  function Login(users: seq<User>, email: string, password: string, verify: (string, string) -> bool)
    : (r: Result<int>)
    ensures r.Err? ==> r == Err(Unauthorized)
  {
    match GetUserByEmail(users, email)
    case None => Err(Unauthorized)
    case Some(u) => if !verify(password, u.hashedPassword) then Err(Unauthorized) else Ok(u.id)
  }

  /** A login succeeds exactly for the account with that email whose stored
      hash accepts the password, and answers with that account's id. */
  lemma LoginCases(users: seq<User>, email: string, password: string, verify: (string, string) -> bool)
    requires UsersValid(users)
    ensures Login(users, email, password, verify).Ok? <==>
              exists i :: 0 <= i < |users| && users[i].email == email && verify(password, users[i].hashedPassword)
    ensures Login(users, email, password, verify).Ok? ==>
              exists i :: 0 <= i < |users| && users[i].email == email && Login(users, email, password, verify).value == users[i].id
  {
    var r := GetUserByEmail(users, email);
    if r.Some? {
      var i :| 0 <= i < |users| && users[i] == r.value;
      GetUserByEmailUnique(users, i);
      forall j | 0 <= j < |users| && users[j].email == email
        ensures users[j] == users[i]
      {
        GetUserByEmailUnique(users, j);
      }
    }
  }

  /** Signing up and then logging in with the same password gives back the
      new account, for a `verify` that accepts a password against its own
      hash. */
  lemma SignUpThenLogin(users: seq<User>, req: SignUp, hash: string -> string, verify: (string, string) -> bool)
    requires UsersValid(users)
    requires forall p :: verify(p, hash(p))
    requires SsoCompleteSpec(users, req, hash).0.Ok?
    ensures var (r, after) := SsoCompleteSpec(users, req, hash);
            Login(after, req.email, req.password, verify) == r
  {
    var after := SsoCompleteSpec(users, req, hash).1;
    SsoCompleteOutcome(users, req, hash);
    GetUserByEmailUnique(after, |users|);
  }

  /** `update_me`. `updates` holds the fields the client set, nulls
      included; an empty body is rejected with 400 before `update_user`. */
  method UpdateMe(db: Db, userId: int, updates: seq<Update>) returns (r: Result<User>)
    requires db.Valid()
    requires 1 <= userId <= |db.users|
    modifies db`users
    ensures db.Valid()
    ensures updates == [] ==> r == Err(BadRequest) && db.users == old(db.users)
    ensures updates != [] ==>
              && r == Ok(ApplyAll(old(db.users)[userId - 1], updates))
              && db.users == old(db.users)[userId - 1 := r.value]
  {
    if updates == [] {
      return Err(BadRequest);
    }
    var u := UpdateUser(db, userId, updates);
    return Ok(u);
  }
}
