/** The initial tracks of an auto-created match playlist: the recent tracks
    of both users whose artist is shared, first occurrence of each Spotify
    id only, in the order of the concatenated recent-track lists. The same
    loop appears in `_auto_create_playlist` (`api/routes/match.py`) and in
    `auto_create_match_playlist` (`api/routes/playlist.py`). */
module Seeding {
  import opened Base
  import opened Music
  import opened Tables

  /** The playlist track made from a recent track: no Spotify URL, stamped
      with the adding user and the creation time. */
  function SeedTrack(t: RecentTrack, addedBy: int, now: int): Track
  {
    Track(t.name, t.artist, Some(t.album), t.imageUrl, None, t.spotifyId, addedBy, Some(now))
  }

  function SpotifyIds(tracks: seq<Track>): set<string>
  {
    set t | t in tracks :: t.spotifyId
  }

  /** The tracks the loop appends when `seen` starts as the given set. */
  function SeedsFrom(all: seq<RecentTrack>, names: set<string>, seen: set<string>, addedBy: int, now: int)
    : (r: seq<Track>)
    ensures forall i :: 0 <= i < |r| ==> r[i].artist in names && r[i].spotifyId !in seen
    ensures forall i, j :: 0 <= i < j < |r| ==> r[i].spotifyId != r[j].spotifyId
    ensures forall i :: 0 <= i < |r| ==> r[i] in SeedCandidates(all, addedBy, now)
    ensures forall j :: 0 <= j < |all| && all[j].artist in names && all[j].spotifyId !in seen
              ==> all[j].spotifyId in SpotifyIds(r)
  {
    if all == [] then []
    else
      var prev := SeedsFrom(all[..|all| - 1], names, seen, addedBy, now);
      var t := all[|all| - 1];
      assert forall j :: 0 <= j < |all| - 1 ==> all[..|all| - 1][j] == all[j];
      if t.artist in names && t.spotifyId !in seen && t.spotifyId !in SpotifyIds(prev)
      then prev + [SeedTrack(t, addedBy, now)]
      else prev
  }

  /** Every track the loop could append. */
  function SeedCandidates(all: seq<RecentTrack>, addedBy: int, now: int): set<Track>
  {
    set t | t in all :: SeedTrack(t, addedBy, now)
  }

  function Seeds(all: seq<RecentTrack>, names: set<string>, addedBy: int, now: int): seq<Track>
  {
    SeedsFrom(all, names, {}, addedBy, now)
  }

  /** The loop over `all_tracks` with its `seen_ids` set. */
  method SeedTracks(all: seq<RecentTrack>, names: set<string>, addedBy: int, now: int)
    returns (tracks: seq<Track>)
    ensures tracks == Seeds(all, names, addedBy, now)
  {
    var seen: set<string> := {};
    tracks := [];
    for i := 0 to |all|
      invariant tracks == SeedsFrom(all[..i], names, {}, addedBy, now)
      invariant seen == SpotifyIds(tracks)
    {
      var t := all[i];
      assert all[..i + 1][..i] == all[..i];
      if t.artist in names && t.spotifyId !in seen {
        seen := seen + {t.spotifyId};
        tracks := tracks + [SeedTrack(t, addedBy, now)];
      }
    }
    assert all[..|all|] == all;
  }

  /** Seeding the caller's tracks followed by the other user's is seeding the
      caller's, then the other user's minus every id already taken. */
  lemma {:induction false} SeedsConcat(a: seq<RecentTrack>, b: seq<RecentTrack>, names: set<string>,
                                       seen: set<string>, addedBy: int, now: int)
    ensures SeedsFrom(a + b, names, seen, addedBy, now)
         == SeedsFrom(a, names, seen, addedBy, now)
            + SeedsFrom(b, names, seen + SpotifyIds(SeedsFrom(a, names, seen, addedBy, now)), addedBy, now)
  {
    var sa := SeedsFrom(a, names, seen, addedBy, now);
    var seen' := seen + SpotifyIds(sa);
    if b == [] {
      assert a + b == a;
    } else {
      var b', t := b[..|b| - 1], b[|b| - 1];
      assert (a + b)[..|a + b| - 1] == a + b';
      assert (a + b)[|a + b| - 1] == t;
      SeedsConcat(a, b', names, seen, addedBy, now);
      var sb' := SeedsFrom(b', names, seen', addedBy, now);
      assert SpotifyIds(sa + sb') == SpotifyIds(sa) + SpotifyIds(sb');
    }
  }
}
