/** The swipe ledger and the match table (`crud/match.py`): two inserts and
    the filter queries the feed and the swipe handler are built from. */
module MatchStore {
  import opened Base
  import opened Compatibility
  import opened Sorting
  import opened Tables

  /** `get_swipe(db, user_id, target_id)`: the row for the ordered pair. */
  function GetSwipe(swipes: seq<Swipe>, userId: int, targetId: int): (r: Option<Swipe>)
    ensures r.Some? ==> r.value in swipes && r.value.userId == userId && r.value.targetId == targetId
    ensures r.None? <==> forall i :: 0 <= i < |swipes| ==>
                           !(swipes[i].userId == userId && swipes[i].targetId == targetId)
  {
    First(swipes, (s: Swipe) => s.userId == userId && s.targetId == targetId)
  }

  /** Under the unique constraint the row found is the only row for the pair. */
  lemma GetSwipeUnique(swipes: seq<Swipe>, i: nat)
    requires SwipesValid(swipes) && i < |swipes|
    ensures GetSwipe(swipes, swipes[i].userId, swipes[i].targetId) == Some(swipes[i])
  {
    var r := GetSwipe(swipes, swipes[i].userId, swipes[i].targetId);
    var j :| 0 <= j < |swipes| && swipes[j] == r.value;
    assert !(i < j) && !(j < i);
  }

  /** Direction matters: a swipe by the user on the target is found for the
      pair (user, target) and leaves the answer for (target, user) as it was. */
  lemma SwipeDirection(swipes: seq<Swipe>, userId: int, targetId: int, action: Action)
    requires userId != targetId
    ensures GetSwipe(swipes + [Swipe(userId, targetId, action)], userId, targetId).Some?
    ensures GetSwipe(swipes + [Swipe(userId, targetId, action)], targetId, userId) == GetSwipe(swipes, targetId, userId)
  {
    var s := swipes + [Swipe(userId, targetId, action)];
    assert s[|swipes|] == Swipe(userId, targetId, action);
    var p := (w: Swipe) => w.userId == targetId && w.targetId == userId;
    assert forall i :: 0 <= i < |swipes| ==> s[i] == swipes[i];
    if First(s, p).Some? {
      var i :| 0 <= i < |s| && s[i] == First(s, p).value && forall j :: 0 <= j < i ==> !p(s[j]);
      assert i < |swipes| && p(swipes[i]);
      assert First(swipes, p).Some? && p(First(swipes, p).value);
      var k :| 0 <= k < |swipes| && swipes[k] == First(swipes, p).value && forall j :: 0 <= j < k ==> !p(swipes[j]);
      assert !(i < k) && !(k < i);
    }
  }

  /** `check_mutual_like(db, user_id, target_id)`: has the target liked the user? */
  function CheckMutualLike(swipes: seq<Swipe>, userId: int, targetId: int): (r: bool)
    ensures r <==> Swipe(targetId, userId, Like) in swipes
  {
    First(swipes, (s: Swipe) => s.userId == targetId && s.targetId == userId && s.action == Like).Some?
  }

  /** A pass by the target does not count as a like: under the unique
      constraint the target's one row for the pair is that pass. */
  lemma PassIsNotMutual(swipes: seq<Swipe>, userId: int, targetId: int)
    requires SwipesValid(swipes)
    requires Swipe(targetId, userId, Pass) in swipes
    ensures !CheckMutualLike(swipes, userId, targetId)
  {
  }

  /** `create_swipe`: inserts one row. The insert fails on the unique
      constraint when the pair already has a row, and then nothing changes. */
  method CreateSwipe(db: Db, userId: int, targetId: int, action: Action) returns (ok: bool)
    requires db.Valid()
    modifies db`swipes
    ensures db.Valid()
    ensures ok <==> GetSwipe(old(db.swipes), userId, targetId).None?
    ensures ok ==> db.swipes == old(db.swipes) + [Swipe(userId, targetId, action)]
    ensures !ok ==> db.swipes == old(db.swipes)
  {
    if GetSwipe(db.swipes, userId, targetId).Some? {
      return false;
    }
    db.swipes := db.swipes + [Swipe(userId, targetId, action)];
    return true;
  }

  /** `create_match`: appends a match unconditionally, with the user ids in
      the order given and `created_at` set to `now`; nothing prevents a
      second match for the same pair. */
  method CreateMatch(db: Db, user1: int, user2: int, score: int, breakdown: Option<Breakdown>, now: int)
    returns (m: Match)
    requires db.Valid()
    modifies db`matches
    ensures db.Valid()
    ensures m == Match(|old(db.matches)| + 1, user1, user2, score, breakdown, now)
    ensures db.matches == old(db.matches) + [m]
  {
    m := Match(|db.matches| + 1, user1, user2, score, breakdown, now);
    db.matches := db.matches + [m];
  }

  /** Creating a match for a pair that already has one adds a second match
      for that pair: two distinct entries of the table then carry it. */
  method MatchesAreNotDeduplicated(db: Db, user1: int, user2: int, score: int, breakdown: Option<Breakdown>,
                                   now: int)
    returns (m: Match)
    requires db.Valid()
    requires exists i :: 0 <= i < |db.matches| && db.matches[i].user1 == user1 && db.matches[i].user2 == user2
    modifies db`matches
    ensures db.Valid()
    ensures exists i, j :: 0 <= i < j < |db.matches|
              && db.matches[i].user1 == user1 && db.matches[i].user2 == user2
              && db.matches[j].user1 == user1 && db.matches[j].user2 == user2
  {
    ghost var i :| 0 <= i < |db.matches| && db.matches[i].user1 == user1 && db.matches[i].user2 == user2;
    m := CreateMatch(db, user1, user2, score, breakdown, now);
    assert db.matches[i].user1 == user1 && db.matches[|db.matches| - 1] == m;
  }

  predicate Involves(m: Match, userId: int)
  {
    m.user1 == userId || m.user2 == userId
  }

  function CreatedAt(m: Match): int
  {
    m.createdAt
  }

  /** The rows of `get_matches` before ordering, in table order. */
  function MatchesOf(matches: seq<Match>, userId: int): seq<Match>
  {
    Filter(matches, (m: Match) => Involves(m, userId))
  }

  /** `get_matches(db, user_id)`: the user's matches, newest `created_at`
      first; matches created at the same time keep table order. */
  function GetMatches(matches: seq<Match>, userId: int): (r: seq<Match>)
    ensures |r| <= |matches|
    ensures forall i :: 0 <= i < |r| ==> r[i] in matches && Involves(r[i], userId)
    ensures forall i :: 0 <= i < |matches| && Involves(matches[i], userId) ==> matches[i] in r
    ensures NonIncreasing(r, CreatedAt)
    ensures forall t :: WithKey(r, CreatedAt, t) == WithKey(MatchesOf(matches, userId), CreatedAt, t)
  {
    var mine := MatchesOf(matches, userId);
    SortDescCorrect(mine, CreatedAt);
    var r := SortDesc(mine, CreatedAt);
    forall i | 0 <= i < |r|
      ensures r[i] in matches && Involves(r[i], userId)
    {
      assert r[i] in multiset(mine);
    }
    assert forall m :: m in mine ==> m in multiset(r);
    r
  }

  /** Newest first, and under id-ordered rows each of the user's matches
      once: the ids are distinct row ids. */
  lemma GetMatchesNewestFirst(matches: seq<Match>, userId: int)
    requires MatchesValid(matches)
    ensures forall i, j :: 0 <= i < j < |GetMatches(matches, userId)| ==>
              GetMatches(matches, userId)[i].createdAt >= GetMatches(matches, userId)[j].createdAt
    ensures forall i :: 0 <= i < |GetMatches(matches, userId)| ==> 1 <= GetMatches(matches, userId)[i].id <= |matches|
    ensures forall i, j :: 0 <= i < j < |GetMatches(matches, userId)| ==>
              GetMatches(matches, userId)[i].id != GetMatches(matches, userId)[j].id
  {
    var mine := MatchesOf(matches, userId);
    var r := GetMatches(matches, userId);
    assert NoDup(matches);
    FilterNoDup(matches, (m: Match) => Involves(m, userId));
    SortDescNoDup(mine, CreatedAt);
    forall i | 0 <= i < |r|
      ensures 1 <= r[i].id <= |matches| && matches[r[i].id - 1] == r[i]
    {
      var k :| 0 <= k < |matches| && matches[k] == r[i];
    }
  }

  /** `get_match_by_id(db, match_id)`. */
  function GetMatchById(matches: seq<Match>, matchId: int): (r: Option<Match>)
    ensures r.Some? ==> r.value in matches && r.value.id == matchId
    ensures r.None? <==> forall i :: 0 <= i < |matches| ==> matches[i].id != matchId
  {
    First(matches, (m: Match) => m.id == matchId)
  }

  /** With ids assigned in order, the match with id `k` is the `k`-th row. */
  lemma GetMatchByIdPosition(matches: seq<Match>, matchId: int)
    requires MatchesValid(matches)
    ensures 1 <= matchId <= |matches| ==> GetMatchById(matches, matchId) == Some(matches[matchId - 1])
    ensures !(1 <= matchId <= |matches|) ==> GetMatchById(matches, matchId) == None
  {
  }

  /** `get_swiped_user_ids(db, user_id)`: everyone the user has swiped on. */
  function GetSwipedUserIds(swipes: seq<Swipe>, userId: int): (r: set<int>)
    ensures forall t :: t in r <==> GetSwipe(swipes, userId, t).Some?
  {
    set i | 0 <= i < |swipes| && swipes[i].userId == userId :: swipes[i].targetId
  }

  /** The optional equality filters of the feed query. */
  datatype Filters = Filters(course: Option<string>, year: Option<int>, faculty: Option<string>)

  /** Python truthiness of an optional string or integer filter value. */
  predicate TruthyText(o: Option<string>)
  {
    o.Some? && o.value != ""
  }

  predicate TruthyNumber(o: Option<int>)
  {
    o.Some? && o.value != 0
  }

  predicate PassesFilters(u: User, f: Filters)
  {
    && (TruthyText(f.course) ==> u.course == f.course)
    && (TruthyNumber(f.year) ==> u.year == f.year)
    && (TruthyText(f.faculty) ==> u.faculty == f.faculty)
  }

  /** A falsy filter value (None, "" or 0) imposes no constraint. */
  lemma FalsyFiltersIgnored(u: User)
    ensures PassesFilters(u, Filters(None, None, None))
    ensures PassesFilters(u, Filters(Some(""), Some(0), Some("")))
  {
  }

  /** `get_candidates`: users, in table order, that have a music profile,
      are not the requester, have not been swiped on by the requester, and
      satisfy every truthy filter. */
  function GetCandidates(users: seq<User>, swipes: seq<Swipe>, profiles: map<int, StoredProfile>,
                         userId: int, f: Filters): (r: seq<User>)
    ensures forall i :: 0 <= i < |r| ==>
              && r[i] in users
              && r[i].id in profiles
              && r[i].id != userId
              && r[i].id !in GetSwipedUserIds(swipes, userId)
              && PassesFilters(r[i], f)
    ensures forall i :: 0 <= i < |users| ==>
              (users[i].id in profiles && users[i].id != userId
               && GetSwipe(swipes, userId, users[i].id).None? && PassesFilters(users[i], f))
              ==> users[i] in r
  {
    var exclude := GetSwipedUserIds(swipes, userId) + {userId};
    Filter(users, (u: User) => u.id in profiles && u.id !in exclude && PassesFilters(u, f))
  }

  /** Being swiped on does not hide anyone: a swipe by another user `t`
      on `me`, whatever its action, leaves the candidates of `me` unchanged. */
  lemma SwipedOnMeStillCandidate(users: seq<User>, swipes: seq<Swipe>, profiles: map<int, StoredProfile>,
                                 me: int, f: Filters, t: int, a: Action)
    requires t != me
    ensures GetCandidates(users, swipes + [Swipe(t, me, a)], profiles, me, f)
            == GetCandidates(users, swipes, profiles, me, f)
  {
    var after := swipes + [Swipe(t, me, a)];
    assert GetSwipedUserIds(after, me) == GetSwipedUserIds(swipes, me) by {
      forall x
        ensures GetSwipe(after, me, x).Some? <==> GetSwipe(swipes, me, x).Some?
      {
        if GetSwipe(swipes, me, x).Some? {
          var k :| 0 <= k < |swipes| && swipes[k].userId == me && swipes[k].targetId == x;
          assert after[k] == swipes[k];
        }
        if GetSwipe(after, me, x).Some? {
          var k :| 0 <= k < |after| && after[k].userId == me && after[k].targetId == x;
          assert k < |swipes| && swipes[k] == after[k];
        }
      }
    }
  }
}
