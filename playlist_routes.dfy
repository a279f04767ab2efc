/** The playlist handlers (`api/routes/playlist.py`). A handler that
    answers with a `PlaylistResponse` is modelled as returning the playlist
    row the response is built from; `BuildPlaylistResponse` models that
    building step. */
module PlaylistRoutes {
  import opened Base
  import opened Music
  import opened Tables
  import opened MatchStore
  import opened PlaylistStore
  import opened Seeding
  import opened UserStore
  import opened MatchRoutes
  import opened SpotifyStore

  // ---------------------------------------------------------------------
  // Responses

  datatype MemberView = MemberView(userId: int, displayName: string, role: Role)

  datatype PlaylistView = PlaylistView(playlist: Playlist, trackCount: int, memberCount: int, members: seq<MemberView>)

  /** The `member_responses` list: one entry per membership row whose user exists. */
  function MemberViews(users: seq<User>, rows: seq<Member>): seq<MemberView>
  {
    if rows == [] then []
    else
      var m := rows[|rows| - 1];
      var u := GetUserById(users, m.userId);
      MemberViews(users, rows[..|rows| - 1]) + (if u.Some? then [MemberView(m.userId, u.value.displayName, m.role)] else [])
  }

  lemma {:induction false} MemberViewsFromRows(users: seq<User>, rows: seq<Member>, v: MemberView)
    requires v in MemberViews(users, rows)
    ensures exists m :: m in rows && GetUserById(users, m.userId).Some?
                        && v == MemberView(m.userId, GetUserById(users, m.userId).value.displayName, m.role)
  {
    var prefix := rows[..|rows| - 1];
    var last := rows[|rows| - 1];
    assert rows == prefix + [last];
    if v in MemberViews(users, prefix) {
      MemberViewsFromRows(users, prefix, v);
      var m :| m in prefix && GetUserById(users, m.userId).Some?
               && v == MemberView(m.userId, GetUserById(users, m.userId).value.displayName, m.role);
      assert m in rows;
    } else {
      assert last in rows;
    }
  }

  lemma {:induction false} MemberViewsComplete(users: seq<User>, rows: seq<Member>, m: Member)
    requires m in rows && GetUserById(users, m.userId).Some?
    ensures MemberView(m.userId, GetUserById(users, m.userId).value.displayName, m.role) in MemberViews(users, rows)
  {
    var prefix := rows[..|rows| - 1];
    var last := rows[|rows| - 1];
    assert rows == prefix + [last];
    if m != last {
      assert m in prefix;
      MemberViewsComplete(users, prefix, m);
    }
  }

  /** `_build_playlist_response`: the playlist with its track count, and
      its members whose user still exists. */
  method BuildPlaylistResponse(db: Db, p: Playlist) returns (v: PlaylistView)
    ensures v.playlist == p && v.trackCount == |p.tracks| && v.memberCount == |v.members|
    ensures v.members == MemberViews(db.users, GetMembers(db.members, p.id))
  {
    var rows := GetMembers(db.members, p.id);
    var views: seq<MemberView> := [];
    for i := 0 to |rows|
      invariant views == MemberViews(db.users, rows[..i])
    {
      var m := rows[i];
      assert rows[..i + 1][..i] == rows[..i];
      var u := GetUserById(db.users, m.userId);
      if u.Some? {
        views := views + [MemberView(m.userId, u.value.displayName, m.role)];
      }
    }
    assert rows[..|rows|] == rows;
    return PlaylistView(p, |p.tracks|, |views|, views);
  }

  /** The members shown are exactly the playlist's membership rows whose user exists. */
  lemma ResponseMembers(users: seq<User>, members: seq<Member>, p: Playlist, v: MemberView)
    ensures v in MemberViews(users, GetMembers(members, p.id)) <==>
              exists m :: m in members && m.playlistId == p.id && GetUserById(users, m.userId).Some?
                          && v == MemberView(m.userId, GetUserById(users, m.userId).value.displayName, m.role)
  {
    var rows := GetMembers(members, p.id);
    if v in MemberViews(users, rows) {
      MemberViewsFromRows(users, rows, v);
      var m :| m in rows && GetUserById(users, m.userId).Some?
               && v == MemberView(m.userId, GetUserById(users, m.userId).value.displayName, m.role);
      var i :| 0 <= i < |rows| && rows[i] == m;
    } else if exists m :: m in members && m.playlistId == p.id && GetUserById(users, m.userId).Some?
                          && v == MemberView(m.userId, GetUserById(users, m.userId).value.displayName, m.role) {
      var m :| m in members && m.playlistId == p.id && GetUserById(users, m.userId).Some?
               && v == MemberView(m.userId, GetUserById(users, m.userId).value.displayName, m.role);
      var i :| 0 <= i < |members| && members[i] == m;
      MemberViewsComplete(users, rows, m);
    }
  }

  /** A `PlaylistSummaryResponse`. */
  datatype Summary = Summary(playlist: Playlist, trackCount: int, memberCount: int)

  /** `list_playlists`: one summary per playlist of `get_user_playlists`, in its order. */
  method ListPlaylists(db: Db, userId: int) returns (r: seq<Summary>)
    ensures var ps := GetUserPlaylists(db.playlists, db.members, userId);
            && |r| == |ps|
            && forall i :: 0 <= i < |r| ==>
                 r[i] == Summary(ps[i], |ps[i].tracks|, |GetMembers(db.members, ps[i].id)|)
  {
    var ps := GetUserPlaylists(db.playlists, db.members, userId);
    r := [];
    for i := 0 to |ps|
      invariant |r| == i
      invariant forall j :: 0 <= j < i ==> r[j] == Summary(ps[j], |ps[j].tracks|, |GetMembers(db.members, ps[j].id)|)
    {
      var rows := GetMembers(db.members, ps[i].id);
      r := r + [Summary(ps[i], |ps[i].tracks|, |rows|)];
    }
  }

  // ---------------------------------------------------------------------
  // Guards

  /** The guard of the detail, track and recap handlers: 404 without an
      active playlist, then 403 for a caller who is not a member. */
  function MemberGuard(playlists: seq<Playlist>, members: seq<Member>, playlistId: int, userId: int): Result<Playlist>
  {
    match GetPlaylist(playlists, playlistId)
    case None => Err(NotFound)
    case Some(p) => if GetMember(members, playlistId, userId).None? then Err(Forbidden) else Ok(p)
  }

  lemma MemberGuardCases(playlists: seq<Playlist>, members: seq<Member>, playlistId: int, userId: int)
    ensures MemberGuard(playlists, members, playlistId, userId) == Err(NotFound) <==>
              forall i :: 0 <= i < |playlists| ==> !(playlists[i].id == playlistId && playlists[i].isActive)
    ensures MemberGuard(playlists, members, playlistId, userId) == Err(Forbidden) <==>
              GetPlaylist(playlists, playlistId).Some? && GetMember(members, playlistId, userId).None?
    ensures MemberGuard(playlists, members, playlistId, userId).Ok? ==>
              var p := MemberGuard(playlists, members, playlistId, userId).value;
              p in playlists && p.id == playlistId && p.isActive && GetMember(members, playlistId, userId).Some?
  {
  }

  /** The guard of the member handlers: 404, then 400 for a match playlist,
      then 403 unless the caller is an owner. */
  function OwnerGuard(playlists: seq<Playlist>, members: seq<Member>, playlistId: int, userId: int): Result<Playlist>
  {
    match GetPlaylist(playlists, playlistId)
    case None => Err(NotFound)
    case Some(p) =>
      if p.kind != Group then Err(BadRequest)
      else
        var m := GetMember(members, playlistId, userId);
        if m.None? || m.value.role != Owner then Err(Forbidden) else Ok(p)
  }

  lemma OwnerGuardCases(playlists: seq<Playlist>, members: seq<Member>, playlistId: int, userId: int)
    ensures OwnerGuard(playlists, members, playlistId, userId) == Err(NotFound) <==> GetPlaylist(playlists, playlistId).None?
    ensures OwnerGuard(playlists, members, playlistId, userId) == Err(BadRequest) <==>
              GetPlaylist(playlists, playlistId).Some? && GetPlaylist(playlists, playlistId).value.kind == MatchPlaylist
    ensures OwnerGuard(playlists, members, playlistId, userId).Ok? <==>
              && GetPlaylist(playlists, playlistId).Some?
              && GetPlaylist(playlists, playlistId).value.kind == Group
              && GetMember(members, playlistId, userId) == Some(Member(playlistId, userId, Owner))
  {
  }

  /** `get_playlist_detail`: the member guard, then the full response. */
  method GetPlaylistDetail(db: Db, playlistId: int, userId: int) returns (r: Result<PlaylistView>)
    ensures var g := MemberGuard(db.playlists, db.members, playlistId, userId);
            && (g.Err? ==> r == Err(g.status))
            && (g.Ok? ==> r.Ok? && r.value.playlist == g.value && r.value.trackCount == |g.value.tracks|
                          && r.value.members == MemberViews(db.users, GetMembers(db.members, playlistId)))
  {
    var g := MemberGuard(db.playlists, db.members, playlistId, userId);
    if g.Err? {
      return Err(g.status);
    }
    var v := BuildPlaylistResponse(db, g.value);
    return Ok(v);
  }

  // ---------------------------------------------------------------------
  // Tracks

  /** An `AddTrackRequest`. */
  datatype TrackRequest = TrackRequest(trackName: string, artist: string, album: Option<string>,
                                       imageUrl: Option<string>, spotifyUrl: Option<string>, spotifyId: string)

  /** `request.model_dump()`; `add_track` then sets who added it and when. */
  function RequestTrack(req: TrackRequest): Track
  {
    Track(req.trackName, req.artist, req.album, req.imageUrl, req.spotifyUrl, req.spotifyId, 0, None)
  }

  /** The response and the playlists after `add_playlist_track`. */
  function AddTrackSpec(playlists: seq<Playlist>, members: seq<Member>, playlistId: int, userId: int,
                        req: TrackRequest, now: int): (Result<Playlist>, seq<Playlist>)
    requires PlaylistsValid(playlists)
  {
    match MemberGuard(playlists, members, playlistId, userId)
    case Err(e) => (Err(e), playlists)
    case Ok(p) =>
      if req.spotifyId in SpotifyIds(p.tracks) then (Err(Conflict), playlists)
      else
        GetPlaylistPosition(playlists, playlistId);
        var q := WithTrack(p, RequestTrack(req), userId, now);
        (Ok(q), playlists[playlistId - 1 := q])
  }

  /** `add_playlist_track`. */
  method AddPlaylistTrack(db: Db, playlistId: int, userId: int, req: TrackRequest, now: int) returns (r: Result<Playlist>)
    requires db.Valid()
    modifies db`playlists
    ensures db.Valid()
    ensures (r, db.playlists) == AddTrackSpec(old(db.playlists), db.members, playlistId, userId, req, now)
  {
    var g := MemberGuard(db.playlists, db.members, playlistId, userId);
    if g.Err? {
      return Err(g.status);
    }
    var existing := SpotifyIds(g.value.tracks);
    if req.spotifyId in existing {
      return Err(Conflict);
    }
    var updated := AddTrack(db, playlistId, RequestTrack(req), userId, now);
    return Ok(updated.value);
  }

  /** Adding a track appends it, stamped, and changes no other playlist; a
      second add of the same Spotify id is refused with 409. */
  lemma AddTrackThenDuplicate(playlists: seq<Playlist>, members: seq<Member>, playlistId: int, userId: int,
                              req: TrackRequest, now: int, later: int)
    requires PlaylistsValid(playlists)
    requires AddTrackSpec(playlists, members, playlistId, userId, req, now).0.Ok?
    ensures var out := AddTrackSpec(playlists, members, playlistId, userId, req, now);
            var p := MemberGuard(playlists, members, playlistId, userId).value;
            && out.0.value.tracks == p.tracks + [Stamped(RequestTrack(req), userId, now)]
            && |out.1| == |playlists|
            && (forall i :: 0 <= i < |playlists| && i != playlistId - 1 ==> out.1[i] == playlists[i])
            && PlaylistsValid(out.1)
            && AddTrackSpec(out.1, members, playlistId, userId, req, later) == (Err(Conflict), out.1)
  {
    var out := AddTrackSpec(playlists, members, playlistId, userId, req, now);
    var p := MemberGuard(playlists, members, playlistId, userId).value;
    GetPlaylistPosition(playlists, playlistId);
    var q := out.0.value;
    assert q.tracks == p.tracks + [Stamped(RequestTrack(req), userId, now)];
    assert PlaylistsValid(out.1);
    GetPlaylistPosition(out.1, playlistId);
    assert q.tracks[|p.tracks|] in q.tracks;
    assert req.spotifyId in SpotifyIds(q.tracks);
  }

  /** The response and the playlists after `remove_playlist_track`. */
  function RemoveTrackSpec(playlists: seq<Playlist>, members: seq<Member>, playlistId: int, userId: int,
                           spotifyId: string, now: int): (Result<Playlist>, seq<Playlist>)
    requires PlaylistsValid(playlists)
  {
    match MemberGuard(playlists, members, playlistId, userId)
    case Err(e) => (Err(e), playlists)
    case Ok(p) =>
      GetPlaylistPosition(playlists, playlistId);
      var q := p.(tracks := WithoutTrack(p.tracks, spotifyId), updatedAt := now);
      (Ok(q), playlists[playlistId - 1 := q])
  }

  /** `remove_playlist_track`. */
  method RemovePlaylistTrack(db: Db, playlistId: int, userId: int, spotifyId: string, now: int) returns (r: Result<Playlist>)
    requires db.Valid()
    modifies db`playlists
    ensures db.Valid()
    ensures (r, db.playlists) == RemoveTrackSpec(old(db.playlists), db.members, playlistId, userId, spotifyId, now)
  {
    var g := MemberGuard(db.playlists, db.members, playlistId, userId);
    if g.Err? {
      return Err(g.status);
    }
    var updated := RemoveTrack(db, playlistId, spotifyId, now);
    return Ok(updated.value);
  }

  /** Removing the same track twice leaves the tracks of the first removal. */
  lemma RemoveTrackTwice(playlists: seq<Playlist>, members: seq<Member>, playlistId: int, userId: int,
                         spotifyId: string, now: int, later: int)
    requires PlaylistsValid(playlists)
    requires RemoveTrackSpec(playlists, members, playlistId, userId, spotifyId, now).0.Ok?
    ensures var once := RemoveTrackSpec(playlists, members, playlistId, userId, spotifyId, now);
            && PlaylistsValid(once.1)
            && RemoveTrackSpec(once.1, members, playlistId, userId, spotifyId, later).0.Ok?
            && RemoveTrackSpec(once.1, members, playlistId, userId, spotifyId, later).0.value.tracks
               == once.0.value.tracks
  {
    var once := RemoveTrackSpec(playlists, members, playlistId, userId, spotifyId, now);
    var p := MemberGuard(playlists, members, playlistId, userId).value;
    GetPlaylistPosition(playlists, playlistId);
    assert PlaylistsValid(once.1);
    GetPlaylistPosition(once.1, playlistId);
    WithoutTrackIdempotent(p.tracks, spotifyId);
  }

  // ---------------------------------------------------------------------
  // Members

  /** The checks of `add_playlist_member`, in their order. */
  function AddMemberGuard(users: seq<User>, playlists: seq<Playlist>, members: seq<Member>,
                          playlistId: int, userId: int, targetId: int): Result<Playlist>
  {
    match OwnerGuard(playlists, members, playlistId, userId)
    case Err(e) => Err(e)
    case Ok(p) =>
      if GetMember(members, playlistId, targetId).Some? then Err(Conflict)
      else if GetUserById(users, targetId).None? then Err(NotFound)
      else Ok(p)
  }

  /** `add_playlist_member`: the target becomes an editor. */
  method AddPlaylistMember(db: Db, playlistId: int, userId: int, targetId: int) returns (r: Result<Playlist>)
    requires db.Valid()
    modifies db`members
    ensures db.Valid()
    ensures r == AddMemberGuard(db.users, db.playlists, old(db.members), playlistId, userId, targetId)
    ensures r.Err? ==> db.members == old(db.members)
    ensures r.Ok? ==> db.members == old(db.members) + [Member(playlistId, targetId, Editor)]
  {
    r := AddMemberGuard(db.users, db.playlists, db.members, playlistId, userId, targetId);
    if r.Err? {
      return;
    }
    GetPlaylistPosition(db.playlists, playlistId);
    var ok := AddMember(db, playlistId, targetId, Editor);
  }

  /** The order of the checks, and an accepted target ends up an editor. */
  lemma AddMemberGuardOrder(users: seq<User>, playlists: seq<Playlist>, members: seq<Member>,
                            playlistId: int, userId: int, targetId: int)
    ensures OwnerGuard(playlists, members, playlistId, userId).Err? ==>
              AddMemberGuard(users, playlists, members, playlistId, userId, targetId)
              == Err(OwnerGuard(playlists, members, playlistId, userId).status)
    ensures OwnerGuard(playlists, members, playlistId, userId).Ok? && GetMember(members, playlistId, targetId).Some? ==>
              AddMemberGuard(users, playlists, members, playlistId, userId, targetId) == Err(Conflict)
    ensures OwnerGuard(playlists, members, playlistId, userId).Ok? && GetMember(members, playlistId, targetId).None?
            && GetUserById(users, targetId).None? ==>
              AddMemberGuard(users, playlists, members, playlistId, userId, targetId) == Err(NotFound)
    ensures AddMemberGuard(users, playlists, members, playlistId, userId, targetId).Ok? ==>
              GetMember(members + [Member(playlistId, targetId, Editor)], playlistId, targetId)
              == Some(Member(playlistId, targetId, Editor))
  {
    if AddMemberGuard(users, playlists, members, playlistId, userId, targetId).Ok? {
      assert (members + [Member(playlistId, targetId, Editor)])[|members|] == Member(playlistId, targetId, Editor);
    }
  }

  /** The checks of `remove_playlist_member`, in their order. */
  function RemoveMemberGuard(playlists: seq<Playlist>, members: seq<Member>,
                             playlistId: int, userId: int, targetId: int): Result<Playlist>
  {
    match OwnerGuard(playlists, members, playlistId, userId)
    case Err(e) => Err(e)
    case Ok(p) =>
      if targetId == userId then Err(BadRequest)
      else if GetMember(members, playlistId, targetId).None? then Err(NotFound)
      else Ok(p)
  }

  /** Deleting one row under `uq_playlist_member` removes exactly the rows
      with its key. */
  lemma RemoveAtKeepsOthers(members: seq<Member>, playlistCount: int, i: nat)
    requires MembersValid(members, playlistCount) && i < |members|
    ensures forall m :: m in members[..i] + members[i + 1..] <==>
              m in members && !(m.playlistId == members[i].playlistId && m.userId == members[i].userId)
  {
    var r := members[..i] + members[i + 1..];
    forall m | m in members && !(m.playlistId == members[i].playlistId && m.userId == members[i].userId)
      ensures m in r
    {
      var j :| 0 <= j < |members| && members[j] == m;
      RemoveAtHas(members, i, j);
    }
    forall m | m in r
      ensures m in members && !(m.playlistId == members[i].playlistId && m.userId == members[i].userId)
    {
      var j :| 0 <= j < |r| && r[j] == m;
      var j' := RemoveAtIndex(members, i, j);
      assert j' < i || i < j';
    }
  }

  /** Every element other than the `i`th survives its removal. */
  lemma RemoveAtHas<T>(s: seq<T>, i: nat, j: nat)
    requires i < |s| && j < |s| && j != i
    ensures s[j] in s[..i] + s[i + 1..]
  {
    if j < i {
      assert (s[..i] + s[i + 1..])[j] == s[j];
    } else {
      assert (s[..i] + s[i + 1..])[j - 1] == s[j];
    }
  }

  /** The position in `s` of the `j`th element left after removing the `i`th. */
  lemma RemoveAtIndex<T>(s: seq<T>, i: nat, j: nat) returns (j': nat)
    requires i < |s| && j < |s| - 1
    ensures j' < |s| && j' != i && (s[..i] + s[i + 1..])[j] == s[j']
  {
    j' := if j < i then j else j + 1;
  }

  /** `remove_playlist_member`: exactly the target's membership row goes;
      the owner's row and every other row stay. */
  method RemovePlaylistMember(db: Db, playlistId: int, userId: int, targetId: int) returns (r: Result<Playlist>)
    requires db.Valid()
    modifies db`members
    ensures db.Valid()
    ensures r == RemoveMemberGuard(db.playlists, old(db.members), playlistId, userId, targetId)
    ensures r.Err? ==> db.members == old(db.members)
    ensures r.Ok? ==> forall m :: m in db.members <==>
                        m in old(db.members) && !(m.playlistId == playlistId && m.userId == targetId)
    ensures r.Ok? ==> GetMember(db.members, playlistId, userId) == GetMember(old(db.members), playlistId, userId)
  {
    r := RemoveMemberGuard(db.playlists, db.members, playlistId, userId, targetId);
    if r.Err? {
      return;
    }
    ghost var before := db.members;
    var removed := RemoveMember(db, playlistId, targetId);
    ghost var i :| && 0 <= i < |before|
             && before[i] == GetMember(before, playlistId, targetId).value
             && db.members == before[..i] + before[i + 1..];
    RemovalKeepsOwner(before, db.members, |db.playlists|, i, playlistId, userId);
  }

  /** Removing another user's row leaves the owner's row findable. */
  lemma RemovalKeepsOwner(before: seq<Member>, after: seq<Member>, playlistCount: int, i: nat,
                          playlistId: int, userId: int)
    requires MembersValid(before, playlistCount) && MembersValid(after, playlistCount)
    requires i < |before| && after == before[..i] + before[i + 1..]
    requires before[i].playlistId == playlistId && before[i].userId != userId
    ensures forall m :: m in after <==>
              m in before && !(m.playlistId == before[i].playlistId && m.userId == before[i].userId)
    ensures GetMember(after, playlistId, userId) == GetMember(before, playlistId, userId)
  {
    RemoveAtKeepsOthers(before, playlistCount, i);
    var owner := GetMember(before, playlistId, userId);
    if owner.Some? {
      var j :| 0 <= j < |before| && before[j] == owner.value;
      GetMemberUnique(before, playlistCount, j);
      assert owner.value in after;
      var k :| 0 <= k < |after| && after[k] == owner.value;
      GetMemberUnique(after, playlistCount, k);
    }
  }

  lemma RemoveMemberGuardOrder(playlists: seq<Playlist>, members: seq<Member>, playlistId: int, userId: int, targetId: int)
    ensures OwnerGuard(playlists, members, playlistId, userId).Err? ==>
              RemoveMemberGuard(playlists, members, playlistId, userId, targetId)
              == Err(OwnerGuard(playlists, members, playlistId, userId).status)
    ensures OwnerGuard(playlists, members, playlistId, userId).Ok? && targetId == userId ==>
              RemoveMemberGuard(playlists, members, playlistId, userId, targetId) == Err(BadRequest)
    ensures RemoveMemberGuard(playlists, members, playlistId, userId, targetId).Ok? <==>
              && OwnerGuard(playlists, members, playlistId, userId).Ok?
              && targetId != userId
              && GetMember(members, playlistId, targetId).Some?
  {
  }

  // ---------------------------------------------------------------------
  // New group playlist

  /** The membership rows the loop of `create_new_playlist` adds, walking
      `ids` from the front with `seen` the editors added so far. `complete`
      is false when an id repeats: its insert fails on `uq_playlist_member`
      after the earlier rows were committed, and the request ends in a 500. */
  datatype Added = Added(complete: bool, rows: seq<Member>)

  predicate Eligible(users: seq<User>, creator: int, id: int)
  {
    id != creator && GetUserById(users, id).Some?
  }

  function EditorRows(ids: seq<int>, users: seq<User>, creator: int, playlistId: int, seen: set<int>): Added
  {
    if ids == [] then Added(true, [])
    else if !Eligible(users, creator, ids[0]) then EditorRows(ids[1..], users, creator, playlistId, seen)
    else if ids[0] in seen then Added(false, [])
    else
      var rest := EditorRows(ids[1..], users, creator, playlistId, seen + {ids[0]});
      Added(rest.complete, [Member(playlistId, ids[0], Editor)] + rest.rows)
  }

  /** The rows added are editor rows of eligible listed users not yet seen. */
  lemma {:induction false} EditorRowsSound(ids: seq<int>, users: seq<User>, creator: int, playlistId: int,
                                           seen: set<int>, m: Member)
    requires m in EditorRows(ids, users, creator, playlistId, seen).rows
    ensures && m.playlistId == playlistId && m.role == Editor && m.userId in ids
            && Eligible(users, creator, m.userId) && m.userId !in seen
  {
    if !Eligible(users, creator, ids[0]) {
      EditorRowsSound(ids[1..], users, creator, playlistId, seen, m);
      assert m.userId in ids[1..];
    } else if m != Member(playlistId, ids[0], Editor) {
      EditorRowsSound(ids[1..], users, creator, playlistId, seen + {ids[0]}, m);
      assert m.userId in ids[1..];
    }
  }

  predicate DistinctUsers(rows: seq<Member>)
  {
    forall a, b :: 0 <= a < b < |rows| ==> rows[a].userId != rows[b].userId
  }

  /** No user gets two rows. */
  lemma {:induction false} EditorRowsDistinct(ids: seq<int>, users: seq<User>, creator: int, playlistId: int,
                                              seen: set<int>)
    ensures DistinctUsers(EditorRows(ids, users, creator, playlistId, seen).rows)
  {
    if ids != [] {
      if !Eligible(users, creator, ids[0]) {
        EditorRowsDistinct(ids[1..], users, creator, playlistId, seen);
      } else if ids[0] !in seen {
        var rest := EditorRows(ids[1..], users, creator, playlistId, seen + {ids[0]}).rows;
        var rows := [Member(playlistId, ids[0], Editor)] + rest;
        assert EditorRows(ids, users, creator, playlistId, seen).rows == rows;
        EditorRowsDistinct(ids[1..], users, creator, playlistId, seen + {ids[0]});
        forall a | 0 <= a < |rest| ensures rest[a].userId != ids[0] {
          EditorRowsSound(ids[1..], users, creator, playlistId, seen + {ids[0]}, rest[a]);
        }
        assert forall a :: 1 <= a < |rows| ==> rows[a] == rest[a - 1];
      }
    }
  }

  /** When the loop completes, every eligible listed user has an editor row. */
  lemma {:induction false} EditorRowsComplete(ids: seq<int>, users: seq<User>, creator: int, playlistId: int,
                                              seen: set<int>, j: nat)
    requires EditorRows(ids, users, creator, playlistId, seen).complete
    requires j < |ids| && Eligible(users, creator, ids[j])
    ensures ids[j] !in seen && Member(playlistId, ids[j], Editor) in EditorRows(ids, users, creator, playlistId, seen).rows
  {
    if j > 0 {
      assert ids[j] == ids[1..][j - 1];
      if !Eligible(users, creator, ids[0]) {
        EditorRowsComplete(ids[1..], users, creator, playlistId, seen, j - 1);
      } else {
        EditorRowsComplete(ids[1..], users, creator, playlistId, seen + {ids[0]}, j - 1);
      }
    }
  }

  /** No eligible listed id is in `seen`, and no eligible id is listed twice. */
  predicate FreshEligible(ids: seq<int>, users: seq<User>, creator: int, seen: set<int>)
  {
    && (forall i :: 0 <= i < |ids| && Eligible(users, creator, ids[i]) ==> ids[i] !in seen)
    && (forall i, j :: 0 <= i < j < |ids| && Eligible(users, creator, ids[i]) ==> ids[i] != ids[j])
  }

  /** The loop runs to the end exactly when no eligible id repeats (one
      already in `seen` counts as a repeat). */
  lemma {:induction false} EditorRowsCompleteIff(ids: seq<int>, users: seq<User>, creator: int, playlistId: int,
                                                 seen: set<int>)
    ensures EditorRows(ids, users, creator, playlistId, seen).complete <==> FreshEligible(ids, users, creator, seen)
  {
    if ids != [] {
      var x, tail := ids[0], ids[1..];
      assert forall i :: 1 <= i < |ids| ==> ids[i] == tail[i - 1];
      if !Eligible(users, creator, x) {
        EditorRowsCompleteIff(tail, users, creator, playlistId, seen);
        if FreshEligible(tail, users, creator, seen) {
          forall i, j | 0 <= i < j < |ids| && Eligible(users, creator, ids[i])
            ensures ids[i] != ids[j]
          {
            assert i > 0 && ids[i] == tail[i - 1] && ids[j] == tail[j - 1];
          }
        }
      } else if x in seen {
      } else {
        EditorRowsCompleteIff(tail, users, creator, playlistId, seen + {x});
        if FreshEligible(tail, users, creator, seen + {x}) {
          forall i, j | 0 <= i < j < |ids| && Eligible(users, creator, ids[i])
            ensures ids[i] != ids[j]
          {
            if i > 0 {
              assert ids[i] == tail[i - 1] && ids[j] == tail[j - 1];
            } else {
              assert ids[j] == tail[j - 1];
            }
          }
        }
        if FreshEligible(ids, users, creator, seen) {
          forall i | 0 <= i < |tail| && Eligible(users, creator, tail[i])
            ensures tail[i] !in seen + {x}
          {
            assert tail[i] == ids[i + 1];
          }
          forall i, j | 0 <= i < j < |tail| && Eligible(users, creator, tail[i])
            ensures tail[i] != tail[j]
          {
            assert tail[i] == ids[i + 1] && tail[j] == ids[j + 1];
          }
        }
      }
    }
  }

  /** An eligible id listed twice makes the loop stop early, so
      `create_new_playlist` answers 500. */
  lemma RepeatedEditorFails(ids: seq<int>, users: seq<User>, creator: int, playlistId: int, i: nat, j: nat)
    requires i < j < |ids| && ids[i] == ids[j] && Eligible(users, creator, ids[i])
    ensures !EditorRows(ids, users, creator, playlistId, {}).complete
  {
    EditorRowsCompleteIff(ids, users, creator, playlistId, {});
  }

  /** The response and the tables after `create_new_playlist`. */
  function CreateSpec(users: seq<User>, playlists: seq<Playlist>, members: seq<Member>, name: string,
                      description: Option<string>, creator: int, ids: Option<seq<int>>, now: int)
    : (Result<Playlist>, seq<Playlist>, seq<Member>)
  {
    var p := Playlist(|playlists| + 1, None, name, Given(description), creator, Group, [], true, now);
    var added := EditorRows(if ids.Some? then ids.value else [], users, creator, p.id, {});
    (if added.complete then Ok(p) else Err(ServerError),
     playlists + [p],
     members + [Member(p.id, creator, Owner)] + added.rows)
  }

  /** `create_new_playlist`. The request's `match_id` is not used. */
  method CreateNewPlaylist(db: Db, name: string, description: Option<string>, creator: int,
                           ids: Option<seq<int>>, now: int) returns (r: Result<Playlist>)
    requires db.Valid()
    modifies db`playlists, db`members
    ensures db.Valid()
    ensures (r, db.playlists, db.members)
         == CreateSpec(db.users, old(db.playlists), old(db.members), name, description, creator, ids, now)
  {
    ghost var spec := CreateSpec(db.users, db.playlists, db.members, name, description, creator, ids, now);
    ghost var ps, ms := db.playlists, db.members;
    var list := if ids.Some? then ids.value else [];
    var p := CreatePlaylist(db, name, creator, Group, Given(description), None, [], now);
    ghost var target := EditorRows(list, db.users, creator, p.id, {});
    assert spec == (if target.complete then Ok(p) else Err(ServerError), ps + [p], ms + [Member(p.id, creator, Owner)] + target.rows);
    assert forall i :: 0 <= i < |ms| ==> ms[i].playlistId != p.id;
    var ok := AddMember(db, p.id, creator, Owner);
    var complete := AddEditors(db, p.id, creator, list, ms);
    r := if complete then Ok(p) else Err(ServerError);
  }

  /** The loop of `create_new_playlist` over `member_ids`: one editor row per
      listed user that exists and is not the creator, stopping at the first
      insert that fails. */
  method AddEditors(db: Db, pid: int, creator: int, list: seq<int>, ghost before: seq<Member>)
    returns (complete: bool)
    requires db.Valid() && |db.playlists| == pid
    requires forall i :: 0 <= i < |before| ==> before[i].playlistId != pid
    requires db.members == before + [Member(pid, creator, Owner)]
    modifies db`members
    ensures db.Valid() && db.playlists == old(db.playlists)
    ensures var target := EditorRows(list, db.users, creator, pid, {});
            complete == target.complete && db.members == old(db.members) + target.rows
  {
    ghost var withOwner := db.members;
    ghost var target := EditorRows(list, db.users, creator, pid, {});
    ghost var added: seq<Member> := [];
    ghost var seen: set<int> := {};
    assert list[0..] == list;
    for i := 0 to |list|
      invariant db.Valid() && db.playlists == old(db.playlists)
      invariant db.members == withOwner + added
      invariant forall m :: m in added ==> m.playlistId == pid && m.userId in seen && m.userId != creator
      invariant forall u :: u in seen ==> Member(pid, u, Editor) in added
      invariant var rest := EditorRows(list[i..], db.users, creator, pid, seen);
                target == Added(rest.complete, added + rest.rows)
    {
      var uid := list[i];
      assert list[i..][0] == uid && list[i..][1..] == list[i + 1..];
      ghost var rest := EditorRows(list[i..], db.users, creator, pid, seen);
      var u := GetUserById(db.users, uid);
      if uid != creator && u.Some? {
        NewPlaylistMember(before, creator, added, pid, uid, seen);
        var inserted := AddMember(db, pid, uid, Editor);
        if !inserted {
          assert rest == Added(false, []);
          assert added + [] == added;
          return false;
        }
        ghost var next := EditorRows(list[i + 1..], db.users, creator, pid, seen + {uid});
        assert rest == Added(next.complete, [Member(pid, uid, Editor)] + next.rows);
        assert added + ([Member(pid, uid, Editor)] + next.rows) == (added + [Member(pid, uid, Editor)]) + next.rows;
        added := added + [Member(pid, uid, Editor)];
        seen := seen + {uid};
      } else {
        assert rest == EditorRows(list[i + 1..], db.users, creator, pid, seen);
      }
    }
    assert list[|list|..] == [];
    assert added + [] == added;
    return true;
  }

  /** While the loop runs, a listed user already has a row in the new
      playlist exactly when the loop has added them. */
  lemma NewPlaylistMember(before: seq<Member>, creator: int, added: seq<Member>, playlistId: int, uid: int,
                          seen: set<int>)
    requires forall i :: 0 <= i < |before| ==> before[i].playlistId != playlistId
    requires uid != creator
    requires forall m :: m in added ==> m.userId in seen
    requires forall u :: u in seen ==> Member(playlistId, u, Editor) in added
    ensures GetMember(before + [Member(playlistId, creator, Owner)] + added, playlistId, uid).Some? <==> uid in seen
  {
    var rows := before + [Member(playlistId, creator, Owner)] + added;
    if uid in seen {
      assert Member(playlistId, uid, Editor) in rows;
    }
    var r := GetMember(rows, playlistId, uid);
    if r.Some? {
      var i :| 0 <= i < |rows| && rows[i] == r.value;
      assert i >= |before| + 1;
      assert r.value == added[i - |before| - 1];
    }
  }

  /** After a complete creation the creator is the only owner, and every
      other listed user that exists is an editor. */
  lemma CreatedMembership(users: seq<User>, playlists: seq<Playlist>, members: seq<Member>, name: string,
                          description: Option<string>, creator: int, ids: seq<int>, now: int)
    requires MembersValid(members, |playlists|)
    requires CreateSpec(users, playlists, members, name, description, creator, Some(ids), now).0.Ok?
    ensures var out := CreateSpec(users, playlists, members, name, description, creator, Some(ids), now);
            var pid := |playlists| + 1;
            && out.0.value.kind == Group && out.0.value.createdBy == creator && out.0.value.tracks == []
            && Member(pid, creator, Owner) in out.2
            && (forall m :: m in out.2 && m.playlistId == pid && m.role == Owner ==> m.userId == creator)
            && (forall j :: 0 <= j < |ids| && Eligible(users, creator, ids[j]) ==> Member(pid, ids[j], Editor) in out.2)
            && (forall m :: m in out.2 && m.playlistId == pid && m.userId != creator ==>
                  m.role == Editor && m.userId in ids && Eligible(users, creator, m.userId))
  {
    var pid := |playlists| + 1;
    var out := CreateSpec(users, playlists, members, name, description, creator, Some(ids), now);
    var added := EditorRows(ids, users, creator, pid, {});
    assert out.2 == members + [Member(pid, creator, Owner)] + added.rows;
    assert forall m :: m in members ==> m.playlistId != pid;
    forall m | m in added.rows
      ensures m.playlistId == pid && m.role == Editor && m.userId in ids && Eligible(users, creator, m.userId)
    {
      EditorRowsSound(ids, users, creator, pid, {}, m);
    }
    forall j | 0 <= j < |ids| && Eligible(users, creator, ids[j])
      ensures Member(pid, ids[j], Editor) in out.2
    {
      EditorRowsComplete(ids, users, creator, pid, {}, j);
    }
  }

  // ---------------------------------------------------------------------
  // Recap

  /** The response and the recaps after `get_recap`. The handler's `None`
      answer cannot occur: a recap is generated whenever the guard passes. */
  function RecapSpec(playlists: seq<Playlist>, members: seq<Member>, recaps: seq<Recap>,
                     playlistId: int, userId: int, now: int): (Result<Recap>, seq<Recap>)
  {
    match MemberGuard(playlists, members, playlistId, userId)
    case Err(e) => (Err(e), recaps)
    case Ok(p) =>
      match GetLatestRecap(recaps, playlistId)
      case Some(latest) => (Ok(latest), recaps)
      case None =>
        var made := Recap(|recaps| + 1, playlistId, WeekStart(now), RecapOf(p.tracks, now), now);
        (Ok(made), recaps + [made])
  }

  /** `get_recap`. */
  method GetRecap(db: Db, playlistId: int, userId: int, now: int) returns (r: Result<Recap>)
    requires db.Valid()
    modifies db`recaps
    ensures db.Valid()
    ensures (r, db.recaps) == RecapSpec(db.playlists, db.members, old(db.recaps), playlistId, userId, now)
  {
    var g := MemberGuard(db.playlists, db.members, playlistId, userId);
    if g.Err? {
      return Err(g.status);
    }
    var latest := GetLatestRecap(db.recaps, playlistId);
    if latest.Some? {
      return Ok(latest.value);
    }
    var generated := GenerateWeeklyRecap(db, playlistId, now);
    return Ok(generated.value);
  }

  /** A recap is generated only when the playlist has none; asking again
      returns that same recap and adds nothing. */
  lemma RecapGeneratedOnce(playlists: seq<Playlist>, members: seq<Member>, recaps: seq<Recap>,
                           playlistId: int, userId: int, now: int, later: int)
    requires RecapSpec(playlists, members, recaps, playlistId, userId, now).0.Ok?
    ensures var once := RecapSpec(playlists, members, recaps, playlistId, userId, now);
            && (|once.1| == |recaps| + 1 <==> GetLatestRecap(recaps, playlistId).None?)
            && RecapSpec(playlists, members, once.1, playlistId, userId, later) == (once.0, once.1)
  {
    var once := RecapSpec(playlists, members, recaps, playlistId, userId, now);
    if GetLatestRecap(recaps, playlistId).None? {
      var made := once.0.value;
      assert once.1 == recaps + [made] && made.playlistId == playlistId;
      assert once.1[|recaps|] == made;
      var found := GetLatestRecap(once.1, playlistId);
      assert found.Some?;
      var k :| 0 <= k < |once.1| && once.1[k] == found.value;
      assert k == |recaps|;
    }
  }

  /** A recap is not renewed: once one exists it is the answer in every
      later week too, with the week start of the week it was made in. */
  lemma RecapIsNotRenewed(playlists: seq<Playlist>, members: seq<Member>, recaps: seq<Recap>,
                          playlistId: int, userId: int, now: int, later: int)
    requires RecapSpec(playlists, members, recaps, playlistId, userId, now).0.Ok?
    requires GetLatestRecap(recaps, playlistId).None?
    requires Day(later) >= Day(now) + 7
    ensures var once := RecapSpec(playlists, members, recaps, playlistId, userId, now);
            var again := RecapSpec(playlists, members, once.1, playlistId, userId, later);
            again.0.value.weekStart == WeekStart(now) < WeekStart(later)
  {
    RecapGeneratedOnce(playlists, members, recaps, playlistId, userId, now, later);
  }

  // ---------------------------------------------------------------------
  // Auto-created match playlist

  function TopArtistNameSet(p: StoredProfile): set<string>
  {
    set a | a in p.data.topArtists :: a.name
  }

  /** The initial tracks of `auto_create_match_playlist`: seeded with the
      names both users have among their top artists. */
  function RouteSeeds(profiles: map<int, StoredProfile>, meId: int, otherId: int, now: int): seq<Track>
  {
    if meId in profiles && otherId in profiles
    then Seeds(profiles[meId].data.recentTracks + profiles[otherId].data.recentTracks,
               TopArtistNameSet(profiles[meId]) * TopArtistNameSet(profiles[otherId]), meId, now)
    else []
  }

  lemma RouteSeedsShape(profiles: map<int, StoredProfile>, meId: int, otherId: int, now: int)
    requires meId in profiles && otherId in profiles
    ensures var r := RouteSeeds(profiles, meId, otherId, now);
            var shared := TopArtistNameSet(profiles[meId]) * TopArtistNameSet(profiles[otherId]);
            var mineSeeds := Seeds(profiles[meId].data.recentTracks, shared, meId, now);
            && (forall i :: 0 <= i < |r| ==> r[i].artist in shared)
            && (forall i, j :: 0 <= i < j < |r| ==> r[i].spotifyId != r[j].spotifyId)
            && r == mineSeeds + SeedsFrom(profiles[otherId].data.recentTracks, shared, SpotifyIds(mineSeeds), meId, now)
  {
    var shared := TopArtistNameSet(profiles[meId]) * TopArtistNameSet(profiles[otherId]);
    SeedsConcat(profiles[meId].data.recentTracks, profiles[otherId].data.recentTracks, shared, {}, meId, now);
    assert {} + SpotifyIds(Seeds(profiles[meId].data.recentTracks, shared, meId, now))
        == SpotifyIds(Seeds(profiles[meId].data.recentTracks, shared, meId, now));
  }

  /** The response and the tables after `auto_create_match_playlist`. A
      missing other user fails (500) before anything is written; a match of
      a user with themself fails on the second owner row after the playlist
      and the first row were committed. */
  function AutoSpec(users: seq<User>, matches: seq<Match>, profiles: map<int, StoredProfile>,
                    playlists: seq<Playlist>, members: seq<Member>, matchId: int, me: User, now: int)
    : (Result<Playlist>, seq<Playlist>, seq<Member>)
  {
    match GetMatchById(matches, matchId)
    case None => (Err(NotFound), playlists, members)
    case Some(m) =>
      if me.id != m.user1 && me.id != m.user2 then (Err(Forbidden), playlists, members)
      else if GetPlaylistByMatch(playlists, matchId).Some? then (Ok(GetPlaylistByMatch(playlists, matchId).value), playlists, members)
      else AutoCreate(users, profiles, playlists, members, m, matchId, me, now)
  }

  /** The creating part of `AutoSpec`, once the guards have passed. */
  function AutoCreate(users: seq<User>, profiles: map<int, StoredProfile>, playlists: seq<Playlist>,
                      members: seq<Member>, m: Match, matchId: int, me: User, now: int)
    : (Result<Playlist>, seq<Playlist>, seq<Member>)
  {
    var otherId := OtherId(m, me.id);
    match GetUserById(users, otherId)
    case None => (Err(ServerError), playlists, members)
    case Some(other) =>
      var p := Playlist(|playlists| + 1, Some(matchId), MixName(me.displayName, other.displayName),
                        MatchBlurb(m.score), me.id, MatchPlaylist, RouteSeeds(profiles, me.id, otherId, now), true, now);
      if otherId == me.id then (Err(ServerError), playlists + [p], members + [Member(p.id, me.id, Owner)])
      else (Ok(p), playlists + [p], members + [Member(p.id, me.id, Owner), Member(p.id, otherId, Owner)])
  }

  /** `auto_create_match_playlist`. */
  method AutoCreateMatchPlaylist(db: Db, matchId: int, me: User, now: int) returns (r: Result<Playlist>)
    requires db.Valid()
    modifies db`playlists, db`members
    ensures db.Valid()
    ensures (r, db.playlists, db.members)
         == AutoSpec(db.users, db.matches, db.profiles, old(db.playlists), old(db.members), matchId, me, now)
  {
    ghost var spec := AutoSpec(db.users, db.matches, db.profiles, db.playlists, db.members, matchId, me, now);
    ghost var ps, ms := db.playlists, db.members;
    var m := GetMatchById(db.matches, matchId);
    if m.None? {
      assert spec == (Err(NotFound), ps, ms);
      return Err(NotFound);
    }
    if me.id != m.value.user1 && me.id != m.value.user2 {
      assert spec == (Err(Forbidden), ps, ms);
      return Err(Forbidden);
    }
    var existing := GetPlaylistByMatch(db.playlists, matchId);
    if existing.Some? {
      assert spec == (Ok(existing.value), ps, ms);
      return Ok(existing.value);
    }
    assert spec == AutoCreate(db.users, db.profiles, ps, ms, m.value, matchId, me, now);
    r := CreateForMatch(db, m.value, matchId, me, now);
  }

  /** The inserts and the failures of `auto_create_match_playlist` after
      the guards. */
  method CreateForMatch(db: Db, m: Match, matchId: int, me: User, now: int) returns (r: Result<Playlist>)
    requires db.Valid() && m.id == matchId
    modifies db`playlists, db`members
    ensures db.Valid()
    ensures (r, db.playlists, db.members) == AutoCreate(db.users, db.profiles, old(db.playlists), old(db.members), m, matchId, me, now)
  {
    ghost var ps, ms := db.playlists, db.members;
    var otherId := OtherId(m, me.id);
    var other := GetUserById(db.users, otherId);
    var mine := GetMusicProfile(db.profiles, me.id);
    var theirs := GetMusicProfile(db.profiles, otherId);
    var tracks: seq<Track> := [];
    if mine.Some? && theirs.Some? {
      var shared := TopArtistNameSet(mine.value) * TopArtistNameSet(theirs.value);
      tracks := SeedTracks(mine.value.data.recentTracks + theirs.value.data.recentTracks, shared, me.id, now);
    }
    assert tracks == RouteSeeds(db.profiles, me.id, otherId, now);
    if other.None? {
      return Err(ServerError);
    }
    var name := MixName(me.displayName, other.value.displayName);
    ghost var p := Playlist(|ps| + 1, Some(matchId), name, MatchBlurb(m.score), me.id, MatchPlaylist, tracks, true, now);
    if otherId == me.id {
      InsertSelfMatchPlaylist(db, name, m, me.id, tracks, now);
      assert db.playlists == ps + [p] && db.members == ms + [Member(p.id, me.id, Owner)];
      return Err(ServerError);
    }
    InsertMatchPlaylist(db, name, m, me.id, otherId, tracks, now);
    assert db.playlists == ps + [p] && db.members == ms + [Member(p.id, me.id, Owner), Member(p.id, otherId, Owner)];
    r := Ok(db.playlists[|db.playlists| - 1]);
  }

  /** The inserts for a match of a user with themself: the playlist and the
      first owner row commit, and the second owner row fails. */
  method InsertSelfMatchPlaylist(db: Db, name: string, m: Match, meId: int, tracks: seq<Track>, now: int)
    requires db.Valid()
    modifies db`playlists, db`members
    ensures db.Valid()
    ensures var id := |old(db.playlists)| + 1;
            && db.playlists == old(db.playlists) + [Playlist(id, Some(m.id), name, MatchBlurb(m.score), meId,
                                                             MatchPlaylist, tracks, true, now)]
            && db.members == old(db.members) + [Member(id, meId, Owner)]
  {
    var p := CreatePlaylist(db, name, meId, MatchPlaylist, MatchBlurb(m.score), Some(m.id), tracks, now);
    var members := db.members;
    assert forall i :: 0 <= i < |members| ==> members[i].playlistId != p.id;
    var ok := AddMember(db, p.id, meId, Owner);
    assert db.members[|members|] == Member(p.id, meId, Owner);
    ok := AddMember(db, p.id, meId, Owner);
  }

  /** The guards come first; a match that already has a playlist gets it
      back unchanged, so a second call after a creation creates nothing. */
  lemma AutoSpecIdempotent(users: seq<User>, matches: seq<Match>, profiles: map<int, StoredProfile>,
                           playlists: seq<Playlist>, members: seq<Member>, matchId: int, me: User, now: int, later: int)
    requires AutoSpec(users, matches, profiles, playlists, members, matchId, me, now).0.Ok?
    ensures var once := AutoSpec(users, matches, profiles, playlists, members, matchId, me, now);
            AutoSpec(users, matches, profiles, once.1, once.2, matchId, me, later) == (once.0, once.1, once.2)
  {
    var once := AutoSpec(users, matches, profiles, playlists, members, matchId, me, now);
    if once.1 != playlists {
      assert once.1[|playlists|] == once.0.value;
      assert GetPlaylistByMatch(once.1, matchId).Some?;
    }
  }

  lemma AutoSpecGuards(users: seq<User>, matches: seq<Match>, profiles: map<int, StoredProfile>,
                       playlists: seq<Playlist>, members: seq<Member>, matchId: int, me: User, now: int)
    ensures var out := AutoSpec(users, matches, profiles, playlists, members, matchId, me, now);
            && (out.0 == Err(NotFound) <==> GetMatchById(matches, matchId).None?)
            && (out.0 == Err(Forbidden) <==>
                  GetMatchById(matches, matchId).Some? && !Involves(GetMatchById(matches, matchId).value, me.id))
            && (out.0.Err? && out.0.status in {NotFound, Forbidden} ==> out.1 == playlists && out.2 == members)
            && (GetMatchById(matches, matchId).Some? && Involves(GetMatchById(matches, matchId).value, me.id)
                && GetPlaylistByMatch(playlists, matchId).Some? ==>
                  out == (Ok(GetPlaylistByMatch(playlists, matchId).value), playlists, members))
  {
  }

  /** A created playlist belongs to the match, is seeded from the shared top
      artists, and both participants are its owners. */
  lemma AutoSpecCreated(users: seq<User>, matches: seq<Match>, profiles: map<int, StoredProfile>,
                        playlists: seq<Playlist>, members: seq<Member>, matchId: int, me: User, now: int)
    requires MembersValid(members, |playlists|)
    requires GetPlaylistByMatch(playlists, matchId).None?
    requires AutoSpec(users, matches, profiles, playlists, members, matchId, me, now).0.Ok?
    ensures var out := AutoSpec(users, matches, profiles, playlists, members, matchId, me, now);
            var m := GetMatchById(matches, matchId).value;
            var p := out.0.value;
            && out.1 == playlists + [p]
            && p.id == |playlists| + 1 && p.matchId == Some(matchId) && p.kind == MatchPlaylist
            && p.tracks == RouteSeeds(profiles, me.id, OtherId(m, me.id), now)
            && GetMember(out.2, p.id, me.id) == Some(Member(p.id, me.id, Owner))
            && GetMember(out.2, p.id, OtherId(m, me.id)) == Some(Member(p.id, OtherId(m, me.id), Owner))
  {
    var m := GetMatchById(matches, matchId).value;
    var otherId := OtherId(m, me.id);
    assert AutoSpec(users, matches, profiles, playlists, members, matchId, me, now)
        == AutoCreate(users, profiles, playlists, members, m, matchId, me, now);
    var other := GetUserById(users, otherId).value;
    var id := |playlists| + 1;
    var p := Playlist(id, Some(matchId), MixName(me.displayName, other.displayName),
                      MatchBlurb(m.score), me.id, MatchPlaylist, RouteSeeds(profiles, me.id, otherId, now), true, now);
    assert AutoCreate(users, profiles, playlists, members, m, matchId, me, now)
        == (Ok(p), playlists + [p], members + [Member(id, me.id, Owner), Member(id, otherId, Owner)]);
    assert forall i :: 0 <= i < |members| ==> members[i].playlistId != id;
    OwnerRows(members, id, me.id, otherId);
  }
}
