/** The match handlers (`api/routes/match.py`): the candidate feed, the
    swipe state machine, the match listings with their visibility masking,
    and the shared playlist created when a match forms. */
module MatchRoutes {
  import opened Base
  import opened Music
  import opened Sorting
  import opened Compatibility
  import opened Tables
  import opened MatchStore
  import opened PlaylistStore
  import opened Seeding
  import opened SpotifyStore
  import opened UserStore
  import opened SpotifyService

  /** The dict handed to `compute_compatibility`: a stored profile without
      its recent tracks. */
  function ScoringData(p: StoredProfile): ProfileData
  {
    ProfileData(p.data.topArtists, p.data.topGenres, [], p.data.patterns)
  }

  /** A user as other users see them. */
  datatype PublicUser = PublicUser(id: int, displayName: string, course: Option<string>,
                                   year: Option<int>, faculty: Option<string>)

  /** `course`, `year` and `faculty` are shown only where the user's flag allows. */
  function Visible(u: User): (v: PublicUser)
    ensures v.id == u.id && v.displayName == u.displayName
    ensures !u.showCourse ==> v.course.None?
    ensures !u.showYear ==> v.year.None?
    ensures !u.showFaculty ==> v.faculty.None?
    ensures u.showCourse ==> v.course == u.course
    ensures u.showYear ==> v.year == u.year
    ensures u.showFaculty ==> v.faculty == u.faculty
  {
    PublicUser(u.id, u.displayName,
               if u.showCourse then u.course else None,
               if u.showYear then u.year else None,
               if u.showFaculty then u.faculty else None)
  }

  // ---------------------------------------------------------------------
  // Feed

  /** A `CandidateResponse`. */
  datatype Candidate = Candidate(user: PublicUser, score: int, breakdown: Breakdown, topArtists: seq<string>)

  function ArtistNames(artists: seq<Artist>): (r: seq<string>)
    ensures |r| == |artists|
    ensures forall i :: 0 <= i < |r| ==> r[i] == artists[i].name
  {
    if artists == [] then [] else ArtistNames(artists[..|artists| - 1]) + [artists[|artists| - 1].name]
  }

  /** The names of the first five top artists. */
  function TopArtistNames(artists: seq<Artist>): (r: seq<string>)
    ensures |r| == Min(5, |artists|)
    ensures forall i :: 0 <= i < |r| ==> r[i] == artists[i].name
  {
    ArtistNames(artists[..Min(5, |artists|)])
  }

  /** The feed entry for one candidate with a profile. */
  function Entry(mine: StoredProfile, u: User, theirs: StoredProfile): Candidate
  {
    var c := Compute(ScoringData(mine), ScoringData(theirs));
    Candidate(Visible(u), c.score, c, TopArtistNames(theirs.data.topArtists))
  }

  /** The `results` list of the loop: one entry per candidate that has a profile. */
  function Entries(mine: StoredProfile, candidates: seq<User>, profiles: map<int, StoredProfile>): seq<Candidate>
  {
    if candidates == [] then []
    else
      var u := candidates[|candidates| - 1];
      Entries(mine, candidates[..|candidates| - 1], profiles)
      + (if u.id in profiles then [Entry(mine, u, profiles[u.id])] else [])
  }

  /** Every entry comes from a candidate that has a profile. */
  lemma {:induction false} EntriesFromCandidates(mine: StoredProfile, candidates: seq<User>,
                                                 profiles: map<int, StoredProfile>, e: Candidate)
    requires e in Entries(mine, candidates, profiles)
    ensures exists k :: 0 <= k < |candidates| && candidates[k].id in profiles
                        && e == Entry(mine, candidates[k], profiles[candidates[k].id])
  {
    var n := |candidates| - 1;
    var prefix := candidates[..n];
    if e in Entries(mine, prefix, profiles) {
      EntriesFromCandidates(mine, prefix, profiles, e);
      var k :| 0 <= k < |prefix| && prefix[k].id in profiles && e == Entry(mine, prefix[k], profiles[prefix[k].id]);
      assert candidates[k] == prefix[k];
    } else {
      assert candidates[n].id in profiles && e == Entry(mine, candidates[n], profiles[candidates[n].id]);
    }
  }

  /** Every candidate that has a profile has an entry. */
  lemma {:induction false} EntriesComplete(mine: StoredProfile, candidates: seq<User>,
                                           profiles: map<int, StoredProfile>, u: User)
    requires u in candidates && u.id in profiles
    ensures Entry(mine, u, profiles[u.id]) in Entries(mine, candidates, profiles)
  {
    var prefix := candidates[..|candidates| - 1];
    var last := candidates[|candidates| - 1];
    assert candidates == prefix + [last];
    if u != last {
      assert u in prefix;
      EntriesComplete(mine, prefix, profiles, u);
    }
  }

  function CandidateScore(c: Candidate): int
  {
    c.score
  }

  /** What `match_feed` returns. */
  function Feed(users: seq<User>, swipes: seq<Swipe>, profiles: map<int, StoredProfile>, me: int, f: Filters)
    : Result<seq<Candidate>>
  {
    if me !in profiles then Err(BadRequest)
    else Ok(SortDesc(Entries(profiles[me], GetCandidates(users, swipes, profiles, me, f), profiles), CandidateScore))
  }

  /** `match_feed`: the loop over the candidates, then the sort by score. */
  method MatchFeed(db: Db, me: int, f: Filters) returns (r: Result<seq<Candidate>>)
    ensures r == Feed(db.users, db.swipes, db.profiles, me, f)
  {
    var mine := GetMusicProfile(db.profiles, me);
    if mine.None? {
      return Err(BadRequest);
    }
    var candidates := GetCandidates(db.users, db.swipes, db.profiles, me, f);
    var results: seq<Candidate> := [];
    for i := 0 to |candidates|
      invariant results == Entries(mine.value, candidates[..i], db.profiles)
    {
      var u := candidates[i];
      EntriesStep(mine.value, candidates, db.profiles, i);
      var theirs := GetMusicProfile(db.profiles, u.id);
      if theirs.Some? {
        results := results + [Entry(mine.value, u, theirs.value)];
      }
    }
    assert candidates[..|candidates|] == candidates;
    assert results == Entries(mine.value, candidates, db.profiles);
    return Ok(SortDesc(results, CandidateScore));
  }

  /** One more candidate: an entry when they have a profile. */
  lemma EntriesStep(mine: StoredProfile, candidates: seq<User>, profiles: map<int, StoredProfile>, i: nat)
    requires i < |candidates|
    ensures var u := candidates[i];
            Entries(mine, candidates[..i + 1], profiles)
            == Entries(mine, candidates[..i], profiles) + (if u.id in profiles then [Entry(mine, u, profiles[u.id])] else [])
  {
    assert candidates[..i + 1][..i] == candidates[..i];
  }

  /** The feed is refused exactly when the requester has no profile. */
  lemma FeedNeedsProfile(users: seq<User>, swipes: seq<Swipe>, profiles: map<int, StoredProfile>, me: int, f: Filters)
    ensures Feed(users, swipes, profiles, me, f).Err? <==> me !in profiles
    ensures Feed(users, swipes, profiles, me, f).Err? ==> Feed(users, swipes, profiles, me, f).status == BadRequest
  {
  }

  /** The feed is sorted by score, highest first, and equal scores keep the
      candidates' table order. */
  lemma FeedSorted(users: seq<User>, swipes: seq<Swipe>, profiles: map<int, StoredProfile>, me: int, f: Filters)
    requires me in profiles
    ensures var entries := Entries(profiles[me], GetCandidates(users, swipes, profiles, me, f), profiles);
            var r := Feed(users, swipes, profiles, me, f).value;
            && NonIncreasing(r, CandidateScore)
            && multiset(r) == multiset(entries)
            && forall k :: WithKey(r, CandidateScore, k) == WithKey(entries, CandidateScore, k)
  {
    SortDescCorrect(Entries(profiles[me], GetCandidates(users, swipes, profiles, me, f), profiles), CandidateScore);
  }

  /** Every feed entry is an eligible user: one with a profile, not the
      requester, not swiped on by the requester, passing the filters, and
      shown through the visibility mask. */
  lemma FeedOnlyEligible(users: seq<User>, swipes: seq<Swipe>, profiles: map<int, StoredProfile>,
                         me: int, f: Filters, e: Candidate)
    requires me in profiles
    requires e in Feed(users, swipes, profiles, me, f).value
    ensures exists u :: u in users && u.id in profiles && u.id != me && GetSwipe(swipes, me, u.id).None?
                        && PassesFilters(u, f) && e == Entry(profiles[me], u, profiles[u.id])
                        && e.user == Visible(u)
  {
    var cands := GetCandidates(users, swipes, profiles, me, f);
    var entries := Entries(profiles[me], cands, profiles);
    SortDescCorrect(entries, CandidateScore);
    assert e in multiset(entries);
    EntriesFromCandidates(profiles[me], cands, profiles, e);
    var k :| 0 <= k < |cands| && cands[k].id in profiles && e == Entry(profiles[me], cands[k], profiles[cands[k].id]);
    var u := cands[k];
    CandidateEligible(users, swipes, profiles, me, f, u);
    assert e.user == Visible(u);
  }

  lemma CandidateEligible(users: seq<User>, swipes: seq<Swipe>, profiles: map<int, StoredProfile>,
                          me: int, f: Filters, u: User)
    requires u in GetCandidates(users, swipes, profiles, me, f)
    ensures u in users && u.id in profiles && u.id != me && GetSwipe(swipes, me, u.id).None? && PassesFilters(u, f)
  {
    var cands := GetCandidates(users, swipes, profiles, me, f);
    var j :| 0 <= j < |cands| && cands[j] == u;
    assert u.id !in GetSwipedUserIds(swipes, me);
  }

  /** Every eligible user is in the feed. */
  lemma FeedComplete(users: seq<User>, swipes: seq<Swipe>, profiles: map<int, StoredProfile>,
                     me: int, f: Filters, i: nat)
    requires me in profiles && i < |users|
    requires users[i].id in profiles && users[i].id != me && GetSwipe(swipes, me, users[i].id).None?
    requires PassesFilters(users[i], f)
    ensures Entry(profiles[me], users[i], profiles[users[i].id]) in Feed(users, swipes, profiles, me, f).value
  {
    var cands := GetCandidates(users, swipes, profiles, me, f);
    var entries := Entries(profiles[me], cands, profiles);
    SortDescCorrect(entries, CandidateScore);
    EntriesComplete(profiles[me], cands, profiles, users[i]);
    assert Entry(profiles[me], users[i], profiles[users[i].id]) in multiset(entries);
  }

  // ---------------------------------------------------------------------
  // Match playlist

  function SharedNames(b: Option<Breakdown>): set<string>
  {
    if b.Some? then b.value.sharedArtists else {}
  }

  function MixName(mine: string, theirs: string): string
  {
    mine + " & " + theirs + "'s Mix"
  }

  /** The initial tracks: seeded from both users' recent tracks, the
      caller's first, when both have a profile. */
  function MatchSeeds(profiles: map<int, StoredProfile>, meId: int, targetId: int, b: Option<Breakdown>, now: int)
    : seq<Track>
  {
    if meId in profiles && targetId in profiles
    then Seeds(profiles[meId].data.recentTracks + profiles[targetId].data.recentTracks, SharedNames(b), meId, now)
    else []
  }

  /** The seeded tracks are by shared artists, carry distinct Spotify ids,
      and are the caller's seeds followed by the other user's fresh ones. */
  lemma MatchSeedsShape(profiles: map<int, StoredProfile>, meId: int, targetId: int, b: Option<Breakdown>, now: int)
    ensures var r := MatchSeeds(profiles, meId, targetId, b, now);
            && (forall i :: 0 <= i < |r| ==> r[i].artist in SharedNames(b) && r[i].addedBy == meId)
            && (forall i, j :: 0 <= i < j < |r| ==> r[i].spotifyId != r[j].spotifyId)
    ensures meId in profiles && targetId in profiles ==>
              var mineSeeds := Seeds(profiles[meId].data.recentTracks, SharedNames(b), meId, now);
              MatchSeeds(profiles, meId, targetId, b, now)
              == mineSeeds + SeedsFrom(profiles[targetId].data.recentTracks, SharedNames(b),
                                       SpotifyIds(mineSeeds), meId, now)
  {
    var r := MatchSeeds(profiles, meId, targetId, b, now);
    if meId in profiles && targetId in profiles {
      var all := profiles[meId].data.recentTracks + profiles[targetId].data.recentTracks;
      forall i | 0 <= i < |r| ensures r[i].addedBy == meId {
        assert r[i] in SeedCandidates(all, meId, now);
      }
      SeedsConcat(profiles[meId].data.recentTracks, profiles[targetId].data.recentTracks, SharedNames(b), {}, meId, now);
      assert {} + SpotifyIds(Seeds(profiles[meId].data.recentTracks, SharedNames(b), meId, now))
          == SpotifyIds(Seeds(profiles[meId].data.recentTracks, SharedNames(b), meId, now));
    }
  }

  /** The playlists and members after `_auto_create_playlist`. */
  function AutoPlaylist(users: seq<User>, profiles: map<int, StoredProfile>, playlists: seq<Playlist>,
                        members: seq<Member>, m: Match, me: User, targetId: int, b: Option<Breakdown>, now: int)
    : (seq<Playlist>, seq<Member>)
  {
    if GetPlaylistByMatch(playlists, m.id).Some? || GetUserById(users, targetId).None? then (playlists, members)
    else
      var p := Playlist(|playlists| + 1, Some(m.id), MixName(me.displayName, GetUserById(users, targetId).value.displayName),
                        MatchBlurb(m.score), me.id, MatchPlaylist, MatchSeeds(profiles, me.id, targetId, b, now), true, now);
      (playlists + [p], members + [Member(p.id, me.id, Owner), Member(p.id, targetId, Owner)])
  }

  /** Running the auto-creation a second time for the same match changes nothing. */
  lemma AutoPlaylistIdempotent(users: seq<User>, profiles: map<int, StoredProfile>, playlists: seq<Playlist>,
                               members: seq<Member>, m: Match, me: User, targetId: int, b: Option<Breakdown>, now: int)
    ensures var once := AutoPlaylist(users, profiles, playlists, members, m, me, targetId, b, now);
            AutoPlaylist(users, profiles, once.0, once.1, m, me, targetId, b, now) == once
  {
    var once := AutoPlaylist(users, profiles, playlists, members, m, me, targetId, b, now);
    if once.0 != playlists {
      assert once.0[|playlists|].matchId == Some(m.id) && once.0[|playlists|].isActive;
      assert GetPlaylistByMatch(once.0, m.id).Some?;
    }
  }

  /** A playlist is created exactly when the match has no active playlist and
      the other user exists; it is the match's playlist, made by the caller,
      and both users are its owners. */
  lemma AutoPlaylistOwners(users: seq<User>, profiles: map<int, StoredProfile>, playlists: seq<Playlist>,
                           members: seq<Member>, m: Match, me: User, targetId: int, b: Option<Breakdown>, now: int)
    requires MembersValid(members, |playlists|) && me.id != targetId
    ensures var after := AutoPlaylist(users, profiles, playlists, members, m, me, targetId, b, now);
            |after.0| == |playlists| + 1 <==> GetPlaylistByMatch(playlists, m.id).None? && GetUserById(users, targetId).Some?
    ensures var after := AutoPlaylist(users, profiles, playlists, members, m, me, targetId, b, now);
            |after.0| == |playlists| + 1 ==>
              var p := after.0[|playlists|];
              && after.0[..|playlists|] == playlists
              && p.id == |playlists| + 1 && p.matchId == Some(m.id) && p.kind == MatchPlaylist && p.createdBy == me.id
              && p.tracks == MatchSeeds(profiles, me.id, targetId, b, now)
              && GetMember(after.1, p.id, me.id) == Some(Member(p.id, me.id, Owner))
              && GetMember(after.1, p.id, targetId) == Some(Member(p.id, targetId, Owner))
  {
    if GetPlaylistByMatch(playlists, m.id).None? && GetUserById(users, targetId).Some? {
      var id := |playlists| + 1;
      var p := Playlist(id, Some(m.id), MixName(me.displayName, GetUserById(users, targetId).value.displayName),
                        MatchBlurb(m.score), me.id, MatchPlaylist, MatchSeeds(profiles, me.id, targetId, b, now), true, now);
      var owners := [Member(id, me.id, Owner), Member(id, targetId, Owner)];
      assert AutoPlaylist(users, profiles, playlists, members, m, me, targetId, b, now) == (playlists + [p], members + owners);
      assert (playlists + [p])[..|playlists|] == playlists;
      OwnerRows(members, id, me.id, targetId);
    }
  }

  /** The two owner rows appended for a new playlist are the ones found. */
  lemma OwnerRows(members: seq<Member>, id: int, a: int, b: int)
    requires forall i :: 0 <= i < |members| ==> members[i].playlistId != id
    requires a != b
    ensures var rows := members + [Member(id, a, Owner), Member(id, b, Owner)];
            GetMember(rows, id, a) == Some(Member(id, a, Owner)) && GetMember(rows, id, b) == Some(Member(id, b, Owner))
  {
    var owners := [Member(id, a, Owner), Member(id, b, Owner)];
    FirstSkips(members, owners, (r: Member) => r.playlistId == id && r.userId == a);
    var q := (r: Member) => r.playlistId == id && r.userId == b;
    FirstSkips(members, owners, q);
    FirstSkips([owners[0]], [owners[1]], q);
    assert [owners[0]] + [owners[1]] == owners;
  }

  /** `_auto_create_playlist`. It is called only after the self-swipe guard,
      so the two owners are different users. */
  method AutoCreatePlaylist(db: Db, m: Match, me: User, targetId: int, b: Option<Breakdown>, now: int)
    requires db.Valid()
    requires me.id != targetId
    modifies db`playlists, db`members
    ensures db.Valid()
    ensures (db.playlists, db.members)
         == AutoPlaylist(db.users, db.profiles, old(db.playlists), old(db.members), m, me, targetId, b, now)
  {
    if GetPlaylistByMatch(db.playlists, m.id).Some? {
      return;
    }
    var other := GetUserById(db.users, targetId);
    if other.None? {
      return;
    }
    var mine := GetMusicProfile(db.profiles, me.id);
    var theirs := GetMusicProfile(db.profiles, targetId);
    var tracks: seq<Track> := [];
    if mine.Some? && theirs.Some? {
      tracks := SeedTracks(mine.value.data.recentTracks + theirs.value.data.recentTracks, SharedNames(b), me.id, now);
    }
    assert tracks == MatchSeeds(db.profiles, me.id, targetId, b, now);
    InsertMatchPlaylist(db, MixName(me.displayName, other.value.displayName), m, me.id, targetId, tracks, now);
  }

  /** The insert of the playlist row and its two owner rows. */
  method InsertMatchPlaylist(db: Db, name: string, m: Match, meId: int, targetId: int, tracks: seq<Track>, now: int)
    requires db.Valid() && meId != targetId
    modifies db`playlists, db`members
    ensures db.Valid()
    ensures var id := |old(db.playlists)| + 1;
            && db.playlists == old(db.playlists) + [Playlist(id, Some(m.id), name, MatchBlurb(m.score), meId,
                                                             MatchPlaylist, tracks, true, now)]
            && db.members == old(db.members) + [Member(id, meId, Owner), Member(id, targetId, Owner)]
  {
    var p := CreatePlaylist(db, name, meId, MatchPlaylist, MatchBlurb(m.score), Some(m.id), tracks, now);
    var members := db.members;
    assert forall i :: 0 <= i < |members| ==> members[i].playlistId != p.id;
    var ok1 := AddMember(db, p.id, meId, Owner);
    assert db.members == members + [Member(p.id, meId, Owner)];
    assert GetMember(db.members, p.id, targetId).None? by {
      assert forall i :: 0 <= i < |db.members| ==> db.members[i].playlistId != p.id || db.members[i].userId == meId;
    }
    var ok2 := AddMember(db, p.id, targetId, Owner);
    assert db.members == members + [Member(p.id, meId, Owner), Member(p.id, targetId, Owner)];
  }

  // ---------------------------------------------------------------------
  // Swipe

  datatype SwipeResponse = SwipeResponse(isMatch: bool, matchId: Option<int>)

  function ParseAction(action: string): Option<Action>
  {
    if action == "like" then Some(Like) else if action == "pass" then Some(Pass) else None
  }

  /** The three guards of `swipe`, in their order. */
  function SwipeGuard(swipes: seq<Swipe>, actor: int, targetId: int, action: string): Result<Action>
  {
    if ParseAction(action).None? then Err(BadRequest)
    else if targetId == actor then Err(BadRequest)
    else if GetSwipe(swipes, actor, targetId).Some? then Err(Conflict)
    else Ok(ParseAction(action).value)
  }

  lemma SwipeGuardOrder(swipes: seq<Swipe>, actor: int, targetId: int, action: string)
    ensures action != "like" && action != "pass" ==> SwipeGuard(swipes, actor, targetId, action) == Err(BadRequest)
    ensures (action == "like" || action == "pass") && targetId == actor ==>
              SwipeGuard(swipes, actor, targetId, action) == Err(BadRequest)
    ensures (action == "like" || action == "pass") && targetId != actor && GetSwipe(swipes, actor, targetId).Some? ==>
              SwipeGuard(swipes, actor, targetId, action) == Err(Conflict)
    ensures SwipeGuard(swipes, actor, targetId, action).Ok? <==>
              (action == "like" || action == "pass") && targetId != actor && GetSwipe(swipes, actor, targetId).None?
    ensures SwipeGuard(swipes, actor, targetId, action).Ok? ==>
              (SwipeGuard(swipes, actor, targetId, action).value == Like <==> action == "like")
  {
  }

  /** The ledger after an accepted swipe: the actor's row, and in mock mode
      the reciprocal like when the target has no row on the actor yet. */
  function SwipesAfter(swipes: seq<Swipe>, actor: int, targetId: int, a: Action, mock: bool): seq<Swipe>
  {
    var s1 := swipes + [Swipe(actor, targetId, a)];
    if a == Like && mock && GetSwipe(s1, targetId, actor).None? then s1 + [Swipe(targetId, actor, Like)] else s1
  }

  /** Score and breakdown stored with a new match: zero and an empty
      breakdown unless both users have a profile. */
  function MatchScore(profiles: map<int, StoredProfile>, actor: int, targetId: int): (int, Option<Breakdown>)
  {
    if actor in profiles && targetId in profiles then
      var c := Compute(ScoringData(profiles[actor]), ScoringData(profiles[targetId]));
      (c.score, Some(c))
    else (0, None)
  }

  /** Whether an accepted swipe forms a match: it is a like, and after the
      ledger update the target has liked the actor. */
  predicate Matched(swipes: seq<Swipe>, actor: int, targetId: int, a: Action, mock: bool)
  {
    a == Like && CheckMutualLike(SwipesAfter(swipes, actor, targetId, a, mock), actor, targetId)
  }

  /** The tables `swipe` writes. */
  datatype SwipeState = SwipeState(swipes: seq<Swipe>, matches: seq<Match>, playlists: seq<Playlist>, members: seq<Member>)

  /** The response of `swipe` and the tables after it. */
  function SwipeSpec(users: seq<User>, profiles: map<int, StoredProfile>, s: SwipeState, mock: bool,
                     me: User, targetId: int, action: string, now: int): (Result<SwipeResponse>, SwipeState)
  {
    match SwipeGuard(s.swipes, me.id, targetId, action)
    case Err(e) => (Err(e), s)
    case Ok(a) =>
      var swipes := SwipesAfter(s.swipes, me.id, targetId, a, mock);
      if Matched(s.swipes, me.id, targetId, a, mock) then
        var ms := MatchScore(profiles, me.id, targetId);
        var m := Match(|s.matches| + 1, me.id, targetId, ms.0, ms.1, now);
        var after := AutoPlaylist(users, profiles, s.playlists, s.members, m, me, targetId, ms.1, now);
        (Ok(SwipeResponse(true, Some(m.id))), SwipeState(swipes, s.matches + [m], after.0, after.1))
      else
        (Ok(SwipeResponse(false, None)), SwipeState(swipes, s.matches, s.playlists, s.members))
  }

  /** The ledger writes of an accepted swipe. */
  method RecordSwipe(db: Db, actor: int, targetId: int, a: Action, mock: bool)
    requires db.Valid()
    requires actor != targetId && GetSwipe(db.swipes, actor, targetId).None?
    modifies db`swipes
    ensures db.Valid()
    ensures db.swipes == SwipesAfter(old(db.swipes), actor, targetId, a, mock)
  {
    var created := CreateSwipe(db, actor, targetId, a);
    if a == Like && mock {
      var reverse := GetSwipe(db.swipes, targetId, actor);
      if reverse.None? {
        created := CreateSwipe(db, targetId, actor, Like);
      }
    }
  }

  /** The match row and its playlist. */
  method RecordMatch(db: Db, me: User, targetId: int, now: int) returns (m: Match)
    requires db.Valid() && me.id != targetId
    modifies db`matches, db`playlists, db`members
    ensures db.Valid()
    ensures m == Match(|old(db.matches)| + 1, me.id, targetId, MatchScore(db.profiles, me.id, targetId).0,
                       MatchScore(db.profiles, me.id, targetId).1, now)
    ensures db.matches == old(db.matches) + [m]
    ensures (db.playlists, db.members)
         == AutoPlaylist(db.users, db.profiles, old(db.playlists), old(db.members), m, me, targetId,
                         MatchScore(db.profiles, me.id, targetId).1, now)
  {
    var ms := MatchScore(db.profiles, me.id, targetId);
    m := CreateMatch(db, me.id, targetId, ms.0, ms.1, now);
    AutoCreatePlaylist(db, m, me, targetId, ms.1, now);
  }

  /** `swipe`. `clientId` is the configured Spotify client id, which decides mock mode. */
  method DoSwipe(db: Db, clientId: string, me: User, targetId: int, action: string, now: int)
    returns (r: Result<SwipeResponse>)
    requires db.Valid()
    modifies db`swipes, db`matches, db`playlists, db`members
    ensures db.Valid()
    ensures (r, SwipeState(db.swipes, db.matches, db.playlists, db.members))
         == SwipeSpec(db.users, db.profiles,
                      SwipeState(old(db.swipes), old(db.matches), old(db.playlists), old(db.members)),
                      IsMockMode(clientId), me, targetId, action, now)
  {
    ghost var s0 := SwipeState(db.swipes, db.matches, db.playlists, db.members);
    ghost var mock := IsMockMode(clientId);
    var g := SwipeGuard(db.swipes, me.id, targetId, action);
    if g.Err? {
      assert SwipeSpec(db.users, db.profiles, s0, mock, me, targetId, action, now) == (Err(g.status), s0);
      return Err(g.status);
    }
    var a := g.value;
    RecordSwipe(db, me.id, targetId, a, IsMockMode(clientId));
    if a == Like && CheckMutualLike(db.swipes, me.id, targetId) {
      assert Matched(s0.swipes, me.id, targetId, a, mock);
      var m := RecordMatch(db, me, targetId, now);
      assert SwipeSpec(db.users, db.profiles, s0, mock, me, targetId, action, now)
          == (Ok(SwipeResponse(true, Some(m.id))), SwipeState(db.swipes, db.matches, db.playlists, db.members));
      return Ok(SwipeResponse(true, Some(m.id)));
    }
    assert !Matched(s0.swipes, me.id, targetId, a, mock);
    assert SwipeSpec(db.users, db.profiles, s0, mock, me, targetId, action, now)
        == (Ok(SwipeResponse(false, None)), SwipeState(db.swipes, s0.matches, s0.playlists, s0.members));
    return Ok(SwipeResponse(false, None));
  }

  /** A rejected swipe changes no table; an accepted one records the ledger
      update, and adds one match, numbered next, exactly when it matches. */
  lemma SwipeOutcome(users: seq<User>, profiles: map<int, StoredProfile>, s: SwipeState, mock: bool,
                     me: User, targetId: int, action: string, now: int)
    ensures var g := SwipeGuard(s.swipes, me.id, targetId, action);
            g.Err? ==> SwipeSpec(users, profiles, s, mock, me, targetId, action, now) == (Err(g.status), s)
    ensures var g := SwipeGuard(s.swipes, me.id, targetId, action);
            var out := SwipeSpec(users, profiles, s, mock, me, targetId, action, now);
            g.Ok? ==>
              var hit := Matched(s.swipes, me.id, targetId, g.value, mock);
              && out.0 == Ok(SwipeResponse(hit, if hit then Some(|s.matches| + 1) else None))
              && out.1.swipes == SwipesAfter(s.swipes, me.id, targetId, g.value, mock)
              && (hit ==> out.1.matches == s.matches + [Match(|s.matches| + 1, me.id, targetId,
                                                              MatchScore(profiles, me.id, targetId).0,
                                                              MatchScore(profiles, me.id, targetId).1, now)])
              && (!hit ==> out.1.matches == s.matches && out.1.playlists == s.playlists && out.1.members == s.members)
  {
  }

  /** A pass never matches and records only the actor's row. */
  lemma PassNeverMatches(swipes: seq<Swipe>, actor: int, targetId: int, mock: bool)
    ensures !Matched(swipes, actor, targetId, Pass, mock)
    ensures SwipesAfter(swipes, actor, targetId, Pass, mock) == swipes + [Swipe(actor, targetId, Pass)]
  {
  }

  /** Outside mock mode a like matches exactly when the target has already
      liked the actor. */
  lemma LikeMatchesIffReciprocated(swipes: seq<Swipe>, actor: int, targetId: int)
    requires actor != targetId
    ensures Matched(swipes, actor, targetId, Like, false) <==> Swipe(targetId, actor, Like) in swipes
  {
    var s1 := swipes + [Swipe(actor, targetId, Like)];
    assert Swipe(targetId, actor, Like) in s1 <==> Swipe(targetId, actor, Like) in swipes;
  }

  /** In mock mode a like matches unless the target has already passed on
      the actor: the pass row blocks the reciprocal like. */
  lemma MockLikeMatchesUnlessPassed(swipes: seq<Swipe>, actor: int, targetId: int)
    requires SwipesValid(swipes) && actor != targetId
    ensures Matched(swipes, actor, targetId, Like, true) <==> Swipe(targetId, actor, Pass) !in swipes
  {
    var s1 := swipes + [Swipe(actor, targetId, Like)];
    var after := SwipesAfter(swipes, actor, targetId, Like, true);
    if Swipe(targetId, actor, Pass) in swipes {
      var i :| 0 <= i < |swipes| && swipes[i] == Swipe(targetId, actor, Pass);
      assert s1[i] == swipes[i];
      assert GetSwipe(s1, targetId, actor).Some?;
      assert after == s1;
      assert Swipe(targetId, actor, Like) !in swipes by {
        forall j | 0 <= j < |swipes| ensures swipes[j] != Swipe(targetId, actor, Like) {
          if j < i || i < j {
          }
        }
      }
    } else if Swipe(targetId, actor, Like) in swipes {
      assert Swipe(targetId, actor, Like) in s1;
    } else {
      assert forall i :: 0 <= i < |swipes| && swipes[i].userId == targetId && swipes[i].targetId == actor ==>
               swipes[i] in swipes && (swipes[i] == Swipe(targetId, actor, Like) || swipes[i] == Swipe(targetId, actor, Pass));
      assert GetSwipe(swipes, targetId, actor).None?;
      assert forall i :: 0 <= i < |swipes| ==> s1[i] == swipes[i];
      assert after == s1 + [Swipe(targetId, actor, Like)];
      assert Swipe(targetId, actor, Like) in after;
    }
  }

  /** The stored score is zero with no breakdown when a profile is missing,
      and otherwise the compatibility of the two profiles. */
  lemma MatchScoreCases(profiles: map<int, StoredProfile>, actor: int, targetId: int)
    ensures actor !in profiles || targetId !in profiles ==> MatchScore(profiles, actor, targetId) == (0, None)
    ensures actor in profiles && targetId in profiles ==>
              && MatchScore(profiles, actor, targetId).1.Some?
              && 0 <= MatchScore(profiles, actor, targetId).0 <= 100
  {
  }

  // ---------------------------------------------------------------------
  // Listings

  /** A `MatchResponse`; the breakdown fields default to empty and zero. */
  datatype MatchView = MatchView(id: int, other: PublicUser, score: int, sharedArtists: set<string>,
                                 sharedGenres: set<string>, genreOverlap: real, artistOverlap: real,
                                 createdAt: int)

  function OtherId(m: Match, me: int): int
  {
    if m.user1 == me then m.user2 else m.user1
  }

  lemma OtherIdIsTheOtherParticipant(m: Match, me: int)
    requires Involves(m, me)
    ensures Involves(m, OtherId(m, me))
    ensures m.user1 != m.user2 ==> OtherId(m, me) != me
  {
  }

  function View(m: Match, other: User): MatchView
  {
    match m.breakdown
    case None => MatchView(m.id, Visible(other), m.score, {}, {}, 0.0, 0.0, m.createdAt)
    case Some(b) =>
      MatchView(m.id, Visible(other), m.score, b.sharedArtists, b.sharedGenres, b.genreOverlap, b.artistOverlap,
                m.createdAt)
  }

  /** The `results` list of `list_matches`: one view per match whose other
      user exists, in the order of the matches. */
  function Views(users: seq<User>, matches: seq<Match>, me: int): seq<MatchView>
  {
    if matches == [] then []
    else
      var m := matches[|matches| - 1];
      var other := GetUserById(users, OtherId(m, me));
      Views(users, matches[..|matches| - 1], me) + (if other.Some? then [View(m, other.value)] else [])
  }

  /** Every view comes from one of the matches whose other user exists. */
  lemma {:induction false} ViewsFromMatches(users: seq<User>, matches: seq<Match>, me: int, v: MatchView)
    requires v in Views(users, matches, me)
    ensures exists m :: m in matches && GetUserById(users, OtherId(m, me)).Some?
                        && v == View(m, GetUserById(users, OtherId(m, me)).value)
  {
    var prefix := matches[..|matches| - 1];
    var last := matches[|matches| - 1];
    assert matches == prefix + [last];
    if v in Views(users, prefix, me) {
      ViewsFromMatches(users, prefix, me, v);
      var m :| m in prefix && GetUserById(users, OtherId(m, me)).Some?
               && v == View(m, GetUserById(users, OtherId(m, me)).value);
      assert m in matches;
    } else {
      assert last in matches;
    }
  }

  /** A match is skipped only when its other user no longer exists. */
  lemma {:induction false} ViewsComplete(users: seq<User>, matches: seq<Match>, me: int, m: Match)
    requires m in matches && GetUserById(users, OtherId(m, me)).Some?
    ensures View(m, GetUserById(users, OtherId(m, me)).value) in Views(users, matches, me)
  {
    var prefix := matches[..|matches| - 1];
    var last := matches[|matches| - 1];
    assert matches == prefix + [last];
    if m != last {
      assert m in prefix;
      ViewsComplete(users, prefix, me, m);
    }
  }

  /** `list_matches`. */
  method ListMatches(db: Db, me: int) returns (views: seq<MatchView>)
    ensures views == Views(db.users, GetMatches(db.matches, me), me)
  {
    var matches := GetMatches(db.matches, me);
    views := [];
    for i := 0 to |matches|
      invariant views == Views(db.users, matches[..i], me)
    {
      var m := matches[i];
      assert matches[..i + 1][..i] == matches[..i];
      var other := GetUserById(db.users, OtherId(m, me));
      if other.Some? {
        views := views + [View(m, other.value)];
      }
    }
    assert matches[..|matches|] == matches;
  }

  /** `match_detail`: 404 for an unknown match, 403 for a non-participant,
      and a 500 when the other user no longer exists. */
  function MatchDetail(users: seq<User>, matches: seq<Match>, me: int, matchId: int): Result<MatchView>
  {
    match GetMatchById(matches, matchId)
    case None => Err(NotFound)
    case Some(m) =>
      if me != m.user1 && me != m.user2 then Err(Forbidden)
      else
        match GetUserById(users, OtherId(m, me))
        case None => Err(ServerError)
        case Some(u) => Ok(View(m, u))
  }

  lemma MatchDetailGuards(users: seq<User>, matches: seq<Match>, me: int, matchId: int)
    ensures MatchDetail(users, matches, me, matchId) == Err(NotFound) <==>
              forall i :: 0 <= i < |matches| ==> matches[i].id != matchId
    ensures MatchDetail(users, matches, me, matchId) == Err(Forbidden) ==>
              exists i :: 0 <= i < |matches| && matches[i].id == matchId && !Involves(matches[i], me)
    ensures MatchDetail(users, matches, me, matchId).Ok? ==>
              MatchDetail(users, matches, me, matchId).value.id == matchId
  {
  }

  /** Every listed match is what the detail handler returns for its id, so
      the listing and the detail apply the same masking. */
  lemma ListingAgreesWithDetail(users: seq<User>, matches: seq<Match>, me: int, v: MatchView)
    requires MatchesValid(matches)
    requires v in Views(users, GetMatches(matches, me), me)
    ensures MatchDetail(users, matches, me, v.id) == Ok(v)
  {
    ViewsFromMatches(users, GetMatches(matches, me), me, v);
    var m :| m in GetMatches(matches, me) && GetUserById(users, OtherId(m, me)).Some?
             && v == View(m, GetUserById(users, OtherId(m, me)).value);
    assert m in matches && Involves(m, me);
    assert v.id == m.id;
    DetailOfMatch(users, matches, me, m);
  }

  lemma DetailOfMatch(users: seq<User>, matches: seq<Match>, me: int, m: Match)
    requires MatchesValid(matches)
    requires m in matches && Involves(m, me) && GetUserById(users, OtherId(m, me)).Some?
    ensures MatchDetail(users, matches, me, m.id) == Ok(View(m, GetUserById(users, OtherId(m, me)).value))
  {
    var k :| 0 <= k < |matches| && matches[k] == m;
    GetMatchByIdPosition(matches, m.id);
  }

  /** Listed other users are masked by their own visibility flags. */
  lemma ListingMasked(users: seq<User>, matches: seq<Match>, me: int, v: MatchView)
    requires v in Views(users, GetMatches(matches, me), me)
    ensures exists u :: u in users && v.other == Visible(u)
  {
    ViewsFromMatches(users, GetMatches(matches, me), me, v);
    var m :| m in GetMatches(matches, me) && GetUserById(users, OtherId(m, me)).Some?
             && v == View(m, GetUserById(users, OtherId(m, me)).value);
    var u := GetUserById(users, OtherId(m, me)).value;
    assert v.other == Visible(u);
  }
}
