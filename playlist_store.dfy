/** Shared playlists, their membership table and their weekly recaps
    (`crud/playlist.py`). Only active playlists are ever found; the track
    list is a JSON list the crud functions copy, change, and write back. */
module PlaylistStore {
  import opened Base
  import opened Sorting
  import opened Tables

  // ---------------------------------------------------------------------
  // Queries

  /** `get_playlist(db, playlist_id)`: the active playlist with that id. */
  function GetPlaylist(playlists: seq<Playlist>, playlistId: int): (r: Option<Playlist>)
    ensures r.Some? ==> r.value in playlists && r.value.id == playlistId && r.value.isActive
    ensures r.None? <==> forall i :: 0 <= i < |playlists| ==>
                           !(playlists[i].id == playlistId && playlists[i].isActive)
  {
    First(playlists, (p: Playlist) => p.id == playlistId && p.isActive)
  }

  /** With ids assigned in order, the playlist with id `k` is the `k`-th row,
      and it is found exactly when it is active. */
  lemma GetPlaylistPosition(playlists: seq<Playlist>, playlistId: int)
    requires PlaylistsValid(playlists)
    ensures GetPlaylist(playlists, playlistId).Some? <==>
              1 <= playlistId <= |playlists| && playlists[playlistId - 1].isActive
    ensures GetPlaylist(playlists, playlistId).Some? ==>
              GetPlaylist(playlists, playlistId) == Some(playlists[playlistId - 1])
  {
    if 1 <= playlistId <= |playlists| && playlists[playlistId - 1].isActive {
      assert !(GetPlaylist(playlists, playlistId).None?);
    }
  }

  /** `get_playlist_by_match(db, match_id)`: the first active playlist of that match. */
  function GetPlaylistByMatch(playlists: seq<Playlist>, matchId: int): (r: Option<Playlist>)
    ensures r.Some? ==> r.value in playlists && r.value.matchId == Some(matchId) && r.value.isActive
    ensures r.None? <==> forall i :: 0 <= i < |playlists| ==>
                           !(playlists[i].matchId == Some(matchId) && playlists[i].isActive)
  {
    First(playlists, (p: Playlist) => p.matchId == Some(matchId) && p.isActive)
  }

  /** `get_member(db, playlist_id, user_id)`. */
  function GetMember(members: seq<Member>, playlistId: int, userId: int): (r: Option<Member>)
    ensures r.Some? ==> r.value in members && r.value.playlistId == playlistId && r.value.userId == userId
    ensures r.None? <==> forall i :: 0 <= i < |members| ==>
                           !(members[i].playlistId == playlistId && members[i].userId == userId)
  {
    First(members, (m: Member) => m.playlistId == playlistId && m.userId == userId)
  }

  /** Under `uq_playlist_member` the membership found is the only one. */
  lemma GetMemberUnique(members: seq<Member>, playlistCount: int, i: nat)
    requires MembersValid(members, playlistCount) && i < |members|
    ensures GetMember(members, members[i].playlistId, members[i].userId) == Some(members[i])
  {
    var r := GetMember(members, members[i].playlistId, members[i].userId);
    var j :| 0 <= j < |members| && members[j] == r.value;
    assert !(i < j) && !(j < i);
  }

  /** `get_members(db, playlist_id)`: that playlist's rows, in table order. */
  function GetMembers(members: seq<Member>, playlistId: int): (r: seq<Member>)
    ensures forall i :: 0 <= i < |r| ==> r[i] in members && r[i].playlistId == playlistId
    ensures forall i :: 0 <= i < |members| && members[i].playlistId == playlistId ==> members[i] in r
  {
    Filter(members, (m: Member) => m.playlistId == playlistId)
  }

  function UpdatedAt(p: Playlist): int
  {
    p.updatedAt
  }

  /** `get_user_playlists(db, user_id)`: the active playlists the user is a
      member of, most recently updated first; ties keep table order. */
  function GetUserPlaylists(playlists: seq<Playlist>, members: seq<Member>, userId: int): seq<Playlist>
  {
    SortDesc(Filter(playlists, (p: Playlist) => p.isActive && GetMember(members, p.id, userId).Some?), UpdatedAt)
  }

  lemma UserPlaylistsCorrect(playlists: seq<Playlist>, members: seq<Member>, userId: int)
    ensures NonIncreasing(GetUserPlaylists(playlists, members, userId), UpdatedAt)
    ensures forall p :: p in GetUserPlaylists(playlists, members, userId) <==>
              p in playlists && p.isActive && GetMember(members, p.id, userId).Some?
  {
    var mine := Filter(playlists, (p: Playlist) => p.isActive && GetMember(members, p.id, userId).Some?);
    SortDescCorrect(mine, UpdatedAt);
    assert forall p :: p in GetUserPlaylists(playlists, members, userId) <==> p in multiset(mine);
  }

  // ---------------------------------------------------------------------
  // Track lists

  /** The track as `add_track` stores it: stamped with who added it and when. */
  function Stamped(t: Track, addedBy: int, now: int): Track
  {
    t.(addedBy := addedBy, addedAt := Some(now))
  }

  /** The playlist after `add_track`: one stamped track at the end, a new
      `updated_at`, and nothing else changed. */
  function WithTrack(p: Playlist, t: Track, addedBy: int, now: int): (q: Playlist)
    ensures |q.tracks| == |p.tracks| + 1
    ensures q.tracks[..|p.tracks|] == p.tracks
    ensures q.tracks[|p.tracks|] == Stamped(t, addedBy, now)
    ensures q == p.(tracks := q.tracks, updatedAt := now)
  {
    p.(tracks := p.tracks + [Stamped(t, addedBy, now)], updatedAt := now)
  }

  /** The comprehension of `remove_track`: the tracks with another Spotify id. */
  function WithoutTrack(tracks: seq<Track>, spotifyId: string): (r: seq<Track>)
    ensures |r| <= |tracks|
    ensures forall i :: 0 <= i < |r| ==> r[i] in tracks && r[i].spotifyId != spotifyId
    ensures forall i :: 0 <= i < |tracks| && tracks[i].spotifyId != spotifyId ==> tracks[i] in r
  {
    if tracks == [] then []
    else (if tracks[0].spotifyId != spotifyId then [tracks[0]] else []) + WithoutTrack(tracks[1..], spotifyId)
  }

  /** Removing twice is removing once. */
  lemma {:induction false} WithoutTrackIdempotent(tracks: seq<Track>, spotifyId: string)
    ensures WithoutTrack(WithoutTrack(tracks, spotifyId), spotifyId) == WithoutTrack(tracks, spotifyId)
  {
    if tracks != [] {
      WithoutTrackIdempotent(tracks[1..], spotifyId);
      if tracks[0].spotifyId != spotifyId {
        var r := WithoutTrack(tracks, spotifyId);
        assert r[0] == tracks[0] && r[1..] == WithoutTrack(tracks[1..], spotifyId);
        assert WithoutTrack(r, spotifyId) == [r[0]] + WithoutTrack(r[1..], spotifyId);
      } else {
        assert WithoutTrack(tracks, spotifyId) == WithoutTrack(tracks[1..], spotifyId);
      }
    }
  }

  /** The others keep their order: removal distributes over concatenation. */
  lemma {:induction false} WithoutTrackConcat(a: seq<Track>, b: seq<Track>, spotifyId: string)
    ensures WithoutTrack(a + b, spotifyId) == WithoutTrack(a, spotifyId) + WithoutTrack(b, spotifyId)
  {
    if a == [] {
      assert a + b == b;
    } else {
      assert (a + b)[1..] == a[1..] + b;
      WithoutTrackConcat(a[1..], b, spotifyId);
    }
  }

  /** Removing an id that is not in the list changes nothing. */
  lemma {:induction false} WithoutAbsentTrack(tracks: seq<Track>, spotifyId: string)
    requires forall i :: 0 <= i < |tracks| ==> tracks[i].spotifyId != spotifyId
    ensures WithoutTrack(tracks, spotifyId) == tracks
  {
    if tracks != [] {
      WithoutAbsentTrack(tracks[1..], spotifyId);
    }
  }

  // ---------------------------------------------------------------------
  // Updates

  /** `create_playlist`: a new active playlist with the next id. */
  method CreatePlaylist(db: Db, name: string, createdBy: int, kind: Kind, description: Description,
                        matchId: Option<int>, tracks: seq<Track>, now: int)
    returns (p: Playlist)
    requires db.Valid()
    modifies db`playlists
    ensures db.Valid()
    ensures p == Playlist(|old(db.playlists)| + 1, matchId, name, description, createdBy, kind, tracks, true, now)
    ensures db.playlists == old(db.playlists) + [p]
  {
    p := Playlist(|db.playlists| + 1, matchId, name, description, createdBy, kind, tracks, true, now);
    db.playlists := db.playlists + [p];
  }

  /** `add_member`: inserts the row, or fails on `uq_playlist_member` (the
      request then ends in a 500) and changes nothing. */
  method AddMember(db: Db, playlistId: int, userId: int, role: Role) returns (ok: bool)
    requires db.Valid()
    requires 1 <= playlistId <= |db.playlists|
    modifies db`members
    ensures db.Valid()
    ensures ok <==> GetMember(old(db.members), playlistId, userId).None?
    ensures ok ==> db.members == old(db.members) + [Member(playlistId, userId, role)]
    ensures !ok ==> db.members == old(db.members)
  {
    if GetMember(db.members, playlistId, userId).Some? {
      return false;
    }
    db.members := db.members + [Member(playlistId, userId, role)];
    return true;
  }

  /** Deleting one row keeps the table's invariant. */
  lemma RemoveAtValid(members: seq<Member>, playlistCount: int, i: nat)
    requires MembersValid(members, playlistCount) && i < |members|
    ensures MembersValid(members[..i] + members[i + 1..], playlistCount)
  {
    var r := members[..i] + members[i + 1..];
    assert forall a :: 0 <= a < |r| ==> r[a] == members[if a < i then a else a + 1];
  }

  /** `remove_member`: deletes the membership row if there is one. */
  method RemoveMember(db: Db, playlistId: int, userId: int) returns (removed: bool)
    requires db.Valid()
    modifies db`members
    ensures db.Valid()
    ensures removed <==> GetMember(old(db.members), playlistId, userId).Some?
    ensures !removed ==> db.members == old(db.members)
    ensures removed ==>
              exists i ::
                && 0 <= i < |old(db.members)|
                && old(db.members)[i] == GetMember(old(db.members), playlistId, userId).value
                && db.members == old(db.members)[..i] + old(db.members)[i + 1..]
    ensures GetMember(db.members, playlistId, userId).None?
  {
    var found := Find(db.members, (m: Member) => m.playlistId == playlistId && m.userId == userId);
    if found.None? {
      return false;
    }
    var i := found.value;
    GetMemberUnique(db.members, |db.playlists|, i);
    RemoveAtValid(db.members, |db.playlists|, i);
    ghost var before := db.members;
    db.members := db.members[..i] + db.members[i + 1..];
    assert forall a :: 0 <= a < |db.members| ==> db.members[a] == before[if a < i then a else a + 1];
    return true;
  }

  /** `add_track`: appends the stamped track to an active playlist; a
      missing or inactive playlist gives `None` and no change. */
  method AddTrack(db: Db, playlistId: int, track: Track, addedBy: int, now: int) returns (r: Option<Playlist>)
    requires db.Valid()
    modifies db`playlists
    ensures db.Valid()
    ensures GetPlaylist(old(db.playlists), playlistId).None? ==> r.None? && db.playlists == old(db.playlists)
    ensures GetPlaylist(old(db.playlists), playlistId).Some? ==>
              && 1 <= playlistId <= |old(db.playlists)|
              && r == Some(WithTrack(GetPlaylist(old(db.playlists), playlistId).value, track, addedBy, now))
              && db.playlists == old(db.playlists)[playlistId - 1 := r.value]
  {
    var p := GetPlaylist(db.playlists, playlistId);
    GetPlaylistPosition(db.playlists, playlistId);
    if p.None? {
      return None;
    }
    var updated := WithTrack(p.value, track, addedBy, now);
    db.playlists := db.playlists[playlistId - 1 := updated];
    return Some(updated);
  }

  /** `remove_track`: drops every track with the Spotify id from an active
      playlist and sets `updated_at`, even when nothing was removed. */
  method RemoveTrack(db: Db, playlistId: int, spotifyId: string, now: int) returns (r: Option<Playlist>)
    requires db.Valid()
    modifies db`playlists
    ensures db.Valid()
    ensures GetPlaylist(old(db.playlists), playlistId).None? ==> r.None? && db.playlists == old(db.playlists)
    ensures GetPlaylist(old(db.playlists), playlistId).Some? ==>
              var p := GetPlaylist(old(db.playlists), playlistId).value;
              && 1 <= playlistId <= |old(db.playlists)|
              && r == Some(p.(tracks := WithoutTrack(p.tracks, spotifyId), updatedAt := now))
              && db.playlists == old(db.playlists)[playlistId - 1 := r.value]
  {
    var p := GetPlaylist(db.playlists, playlistId);
    GetPlaylistPosition(db.playlists, playlistId);
    if p.None? {
      return None;
    }
    var updated := p.value.(tracks := WithoutTrack(p.value.tracks, spotifyId), updatedAt := now);
    db.playlists := db.playlists[playlistId - 1 := updated];
    return Some(updated);
  }

  // ---------------------------------------------------------------------
  // Weekly recap. Times are seconds since 1970-01-01 00:00 UTC; a date is a
  // day number, and day 0 was a Thursday.

  function Day(t: int): int
  {
    t / 86400
  }

  /** `date.weekday()`: Monday is 0. */
  function Weekday(day: int): (w: int)
    ensures 0 <= w < 7
  {
    (day + 3) % 7
  }

  /** The Monday of the week containing `now`. */
  function WeekStart(now: int): (ws: int)
    ensures Weekday(ws) == 0
    ensures ws <= Day(now) < ws + 7
  {
    var d := Day(now);
    var q := (d + 3) / 7;
    assert d + 3 == 7 * q + Weekday(d);
    assert d - Weekday(d) + 3 == 7 * q;
    d - Weekday(d)
  }

  /** The track has a readable `added_at` on or after the week start. */
  predicate AddedSince(t: Track, weekStart: int)
  {
    t.addedAt.Some? && Day(t.addedAt.value) >= weekStart
  }

  /** `week_tracks`: the tracks added since the week start, in list order. */
  function WeekTracks(tracks: seq<Track>, weekStart: int): seq<Track>
  {
    if tracks == [] then []
    else
      WeekTracks(tracks[..|tracks| - 1], weekStart)
      + (if AddedSince(tracks[|tracks| - 1], weekStart) then [tracks[|tracks| - 1]] else [])
  }

  /** The week's tracks are exactly the tracks added since the week start. */
  lemma {:induction false} WeekTracksMembers(tracks: seq<Track>, weekStart: int)
    ensures |WeekTracks(tracks, weekStart)| <= |tracks|
    ensures forall t :: t in WeekTracks(tracks, weekStart) <==> t in tracks && AddedSince(t, weekStart)
  {
    if tracks != [] {
      var prefix := tracks[..|tracks| - 1];
      WeekTracksMembers(prefix, weekStart);
      assert tracks == prefix + [tracks[|tracks| - 1]];
    }
  }

  /** The `added_by` of each track. */
  function Adders(tracks: seq<Track>): (r: seq<int>)
    ensures |r| == |tracks|
    ensures forall i :: 0 <= i < |r| ==> r[i] == tracks[i].addedBy
  {
    if tracks == [] then [] else Adders(tracks[..|tracks| - 1]) + [tracks[|tracks| - 1].addedBy]
  }

  function WeekRows(tracks: seq<Track>): (r: seq<WeekTrack>)
    ensures |r| == |tracks|
    ensures forall i :: 0 <= i < |r| ==> r[i] == WeekTrack(tracks[i].trackName, tracks[i].artist)
  {
    if tracks == [] then []
    else WeekRows(tracks[..|tracks| - 1]) + [WeekTrack(tracks[|tracks| - 1].trackName, tracks[|tracks| - 1].artist)]
  }

  /** `max(d, key=d.get)`: the first key, in key order, with the largest count. */
  function MaxKey(keys: seq<int>, counts: map<int, int>): (r: int)
    requires keys != []
    requires forall k :: k in keys ==> k in counts
    ensures r in keys
    ensures forall k :: k in keys ==> counts[k] <= counts[r]
    ensures exists i :: 0 <= i < |keys| && keys[i] == r
                        && forall j :: 0 <= j < i ==> keys[j] in counts && counts[keys[j]] < counts[r]
  {
    if |keys| == 1 then
      assert keys[0] == keys[0];
      keys[0]
    else
      var t := keys[..|keys| - 1];
      var y := keys[|keys| - 1];
      assert forall k :: k in keys <==> k in t || k == y;
      var m := MaxKey(t, counts);
      if counts[y] > counts[m] then
        assert forall j :: 0 <= j < |t| ==> keys[j] in counts && counts[keys[j]] < counts[y] by {
          assert forall j :: 0 <= j < |t| ==> keys[j] == t[j] && t[j] in t;
        }
        assert forall k :: k in keys ==> counts[k] <= counts[y];
        y
      else
        var i :| 0 <= i < |t| && t[i] == m && forall j :: 0 <= j < i ==> t[j] in counts && counts[t[j]] < counts[m];
        assert keys[i] == m && forall j :: 0 <= j < i ==> keys[j] == t[j];
        assert forall k :: k in keys ==> counts[k] <= counts[m];
        m
  }

  /** The contributor with most tracks this week, ties to the one counted first. */
  function TopContributor(adders: seq<int>): Option<int>
  {
    if adders == [] then None else Some(MaxKey(Distinct(adders), Tally(adders)))
  }

  /** The `recap_data` of a playlist's tracks at time `now`. */
  function RecapOf(tracks: seq<Track>, now: int): RecapData
  {
    var week := WeekTracks(tracks, WeekStart(now));
    RecapData(|week|, TopContributor(Adders(week)), |tracks|, WeekRows(week))
  }

  /** `tracks_added` counts the tracks with a readable `added_at` on or after
      the Monday of the current week, and `total_tracks` counts them all. */
  lemma RecapCounts(tracks: seq<Track>, now: int)
    ensures RecapOf(tracks, now).tracksAdded == |WeekTracks(tracks, WeekStart(now))|
    ensures RecapOf(tracks, now).totalTracks == |tracks|
    ensures forall t :: t in WeekTracks(tracks, WeekStart(now)) <==> t in tracks && AddedSince(t, WeekStart(now))
  {
    WeekTracksMembers(tracks, WeekStart(now));
  }

  /** The per-contributor counts add up to `tracks_added`. */
  lemma RecapContributorsSum(tracks: seq<Track>, now: int)
    ensures var adders := Adders(WeekTracks(tracks, WeekStart(now)));
            SumOver(Distinct(adders), Tally(adders)) == RecapOf(tracks, now).tracksAdded
  {
    TallySum(Adders(WeekTracks(tracks, WeekStart(now))));
  }

  /** There is a top contributor exactly when a track was added this week,
      and nobody added more tracks this week than they did. */
  lemma RecapTopContributor(tracks: seq<Track>, now: int)
    ensures RecapOf(tracks, now).topContributor.None? <==> RecapOf(tracks, now).tracksAdded == 0
    ensures var adders := Adders(WeekTracks(tracks, WeekStart(now)));
            var top := RecapOf(tracks, now).topContributor;
            top.Some? ==> top.value in adders
                          && forall k :: Occurrences(adders, k) <= Occurrences(adders, top.value)
  {
    var adders := Adders(WeekTracks(tracks, WeekStart(now)));
    TallyCounts(adders);
    if adders != [] {
      var top := MaxKey(Distinct(adders), Tally(adders));
      forall k ensures Occurrences(adders, k) <= Occurrences(adders, top) {
        if k in adders {
          assert k in Distinct(adders);
        }
      }
    }
  }

  /** Week tracks added on the same day as `now` always count. */
  lemma RecapCountsToday(t: Track, now: int)
    requires t.addedAt == Some(now)
    ensures RecapOf([t], now).tracksAdded == 1
    ensures RecapOf([t], now).topContributor == Some(t.addedBy)
  {
    var week := WeekTracks([t], WeekStart(now));
    assert [t][..0] == [];
    assert AddedSince(t, WeekStart(now));
    assert WeekTracks([t][..0], WeekStart(now)) == [];
    assert week == [t];
    assert Adders(week) == [t.addedBy];
    assert Distinct([t.addedBy]) == [t.addedBy] by {
      assert [t.addedBy][..0] == [];
    }
  }

  lemma WeekTracksSnoc(tracks: seq<Track>, i: nat, weekStart: int)
    requires i < |tracks|
    ensures WeekTracks(tracks[..i + 1], weekStart)
         == WeekTracks(tracks[..i], weekStart) + (if AddedSince(tracks[i], weekStart) then [tracks[i]] else [])
  {
    assert tracks[..i + 1][..i] == tracks[..i];
  }

  lemma AddersSnoc(week: seq<Track>, t: Track)
    ensures Adders(week + [t]) == Adders(week) + [t.addedBy]
  {
    assert (week + [t])[..|week|] == week;
  }

  /** The loop of `generate_weekly_recap`: the week's tracks, and the
      `contributor_counts` dict as its key order and its counts. */
  method CountWeek(tracks: seq<Track>, weekStart: int)
    returns (week: seq<Track>, keys: seq<int>, counts: map<int, int>)
    ensures week == WeekTracks(tracks, weekStart)
    ensures keys == Distinct(Adders(week))
    ensures counts == Tally(Adders(week))
  {
    week, keys, counts := [], [], map[];
    for i := 0 to |tracks|
      invariant week == WeekTracks(tracks[..i], weekStart)
      invariant keys == Distinct(Adders(week))
      invariant counts == Tally(Adders(week))
    {
      var t := tracks[i];
      WeekTracksSnoc(tracks, i, weekStart);
      if AddedSince(t, weekStart) {
        ghost var after := Adders(week) + [t.addedBy];
        TallySnoc(Adders(week), t.addedBy);
        AddersSnoc(week, t);
        if t.addedBy in counts {
          counts := counts[t.addedBy := counts[t.addedBy] + 1];
          assert keys == Distinct(after);
        } else {
          keys := keys + [t.addedBy];
          counts := counts[t.addedBy := 1];
          assert keys == Distinct(after);
        }
        week := week + [t];
      }
    }
    assert tracks[..|tracks|] == tracks;
  }

  /** The `recap_data` that `generate_weekly_recap` builds from the loop's
      results. */
  method ComputeRecap(tracks: seq<Track>, now: int) returns (data: RecapData)
    ensures data == RecapOf(tracks, now)
  {
    var week, keys, counts := CountWeek(tracks, WeekStart(now));
    if Adders(week) != [] {
      assert Adders(week)[0] in keys;
    }
    var top := if keys == [] then None else Some(MaxKey(keys, counts));
    data := RecapData(|week|, top, |tracks|, WeekRows(week));
  }

  /** `generate_weekly_recap`: inserts the recap of an active playlist,
      created at `now`. */
  method GenerateWeeklyRecap(db: Db, playlistId: int, now: int) returns (r: Option<Recap>)
    requires db.Valid()
    modifies db`recaps
    ensures db.Valid()
    ensures GetPlaylist(db.playlists, playlistId).None? ==> r.None? && db.recaps == old(db.recaps)
    ensures GetPlaylist(db.playlists, playlistId).Some? ==>
              && r == Some(Recap(|old(db.recaps)| + 1, playlistId, WeekStart(now),
                                 RecapOf(GetPlaylist(db.playlists, playlistId).value.tracks, now), now))
              && db.recaps == old(db.recaps) + [r.value]
  {
    var p := GetPlaylist(db.playlists, playlistId);
    if p.None? {
      return None;
    }
    var data := ComputeRecap(p.value.tracks, now);
    var recap := Recap(|db.recaps| + 1, playlistId, WeekStart(now), data, now);
    db.recaps := db.recaps + [recap];
    return Some(recap);
  }

  function RecapCreatedAt(r: Recap): int
  {
    r.createdAt
  }

  /** `get_latest_recap(db, playlist_id)`: the first row of the playlist's
      recaps ordered by `created_at` descending. Recaps created at the same
      time keep table order. */
  function GetLatestRecap(recaps: seq<Recap>, playlistId: int): (r: Option<Recap>)
    ensures r.Some? ==> r.value in recaps && r.value.playlistId == playlistId
    ensures r.None? <==> forall i :: 0 <= i < |recaps| ==> recaps[i].playlistId != playlistId
  {
    var mine := Filter(recaps, (x: Recap) => x.playlistId == playlistId);
    var sorted := SortDesc(mine, RecapCreatedAt);
    SortDescCorrect(mine, RecapCreatedAt);
    if sorted == [] then
      None
    else
      assert sorted[0] in multiset(mine);
      Some(sorted[0])
  }

  /** The latest recap is one created last: no recap of the playlist has a
      later `created_at`. */
  lemma LatestRecapNewest(recaps: seq<Recap>, playlistId: int)
    ensures GetLatestRecap(recaps, playlistId).Some? ==>
              forall i :: 0 <= i < |recaps| && recaps[i].playlistId == playlistId ==>
                recaps[i].createdAt <= GetLatestRecap(recaps, playlistId).value.createdAt
  {
    var mine := Filter(recaps, (x: Recap) => x.playlistId == playlistId);
    var sorted := SortDesc(mine, RecapCreatedAt);
    SortDescCorrect(mine, RecapCreatedAt);
    forall i | 0 <= i < |recaps| && recaps[i].playlistId == playlistId
      ensures recaps[i].createdAt <= sorted[0].createdAt
    {
      assert recaps[i] in multiset(sorted);
      var j :| 0 <= j < |sorted| && sorted[j] == recaps[i];
      if j > 0 {
        assert RecapCreatedAt(sorted[0]) >= RecapCreatedAt(sorted[j]);
      }
    }
  }
}
