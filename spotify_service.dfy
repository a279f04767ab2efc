/** The pure parts of the Spotify service: the mock-mode switch, the
    rank-assigning item mappings, and `build_music_profile`, which counts
    genres across the top artists into a bounded list ordered by count. */
module SpotifyService {
  import opened Base
  import opened Music
  import opened Sorting

  /** The placeholder client id shipped in the example configuration. */
  const PlaceholderClientId := "your_spotify_client_id_here"

  /** `is_mock_mode()`: mock data is served when no real client id is configured. */
  function IsMockMode(clientId: string): (r: bool)
    ensures r <==> clientId in {"", PlaceholderClientId}
  {
    clientId == "" || clientId == PlaceholderClientId
  }

  lemma MockModeCases()
    ensures IsMockMode("")
    ensures IsMockMode(PlaceholderClientId)
    ensures !IsMockMode("0123456789abcdef")
  {
  }

  // ---------------------------------------------------------------------
  // Item mappings

  /** An artist item of the Spotify `/me/top/artists` response: only the
      fields the mapping reads; `images` lists the image urls in order. */
  datatype ArtistItem = ArtistItem(name: string, id: string, genres: seq<string>, images: seq<string>)

  /** An entry of the mock artist pool. */
  datatype PoolArtist = PoolArtist(name: string, spotifyId: string, genres: seq<string>)

  /** `fetch_top_artists`' mapping of the i-th item (counting from 0). */
  function FromItem(item: ArtistItem, i: nat): Artist
  {
    Artist(item.name, item.id, item.genres,
           if item.images != [] then Some(item.images[0]) else None, i + 1)
  }

  /** The list comprehension over `enumerate(items)` in `fetch_top_artists`. */
  function RankItems(items: seq<ArtistItem>): (r: seq<Artist>)
    ensures |r| == |items|
    ensures forall i :: 0 <= i < |items| ==> r[i] == FromItem(items[i], i)
  {
    if items == [] then []
    else RankItems(items[..|items| - 1]) + [FromItem(items[|items| - 1], |items| - 1)]
  }

  /** The list comprehension over `enumerate(artists)` in `generate_mock_profile`. */
  function RankPool(artists: seq<PoolArtist>): (r: seq<Artist>)
    ensures |r| == |artists|
    ensures forall i :: 0 <= i < |artists| ==>
              r[i] == Artist(artists[i].name, artists[i].spotifyId, artists[i].genres, None, i + 1)
  {
    if artists == [] then []
    else
      var n := |artists| - 1;
      RankPool(artists[..n]) + [Artist(artists[n].name, artists[n].spotifyId, artists[n].genres, None, n + 1)]
  }

  /** Ranks run 1..n in list order, so they are distinct and the first is 1. */
  lemma RanksAreOneToN(items: seq<ArtistItem>, pool: seq<PoolArtist>)
    ensures forall i :: 0 <= i < |items| ==> RankItems(items)[i].rank == i + 1
    ensures forall i :: 0 <= i < |pool| ==> RankPool(pool)[i].rank == i + 1
    ensures forall i, j :: 0 <= i < j < |items| ==> RankItems(items)[i].rank < RankItems(items)[j].rank
    ensures forall i :: 0 <= i < |items| ==>
              (RankItems(items)[i].imageUrl.None? <==> items[i].images == [])
  {
  }

  // ---------------------------------------------------------------------
  // Genre counting

  /** Every genre of every artist, in list order: the sequence of values the
      nested loop of `build_music_profile` visits. */
  function Genres(artists: seq<Artist>): seq<string>
  {
    if artists == [] then []
    else Genres(artists[..|artists| - 1]) + artists[|artists| - 1].genres
  }

  /** `[{"genre": g, "count": n} for g, n in counter.items()]` for a counter
      filled from `s`, listed over the keys `keys`. */
  function CountsOf(s: seq<string>, keys: seq<string>): (r: seq<GenreCount>)
    ensures |r| == |keys|
    ensures forall i :: 0 <= i < |keys| ==> r[i] == GenreCount(keys[i], Occurrences(s, keys[i]))
  {
    if keys == [] then []
    else CountsOf(s, keys[..|keys| - 1]) + [GenreCount(keys[|keys| - 1], Occurrences(s, keys[|keys| - 1]))]
  }

  function CountOf(g: GenreCount): int
  {
    g.count
  }

  /** `top_genres`: `genre_counter.most_common(15)` as a list of dicts. */
  function TopGenres(s: seq<string>): seq<GenreCount>
  {
    MostCommon(CountsOf(s, Distinct(s)), CountOf, 15)
  }

  /** What `build_music_profile(top_artists, top_tracks, recent_tracks)` returns. */
  function Profile(topArtists: seq<Artist>, recentTracks: seq<RecentTrack>): ProfileData
  {
    var flat := Genres(topArtists);
    var top := TopGenres(flat);
    ProfileData(
      topArtists, top, recentTracks,
      ListeningPatterns(|topArtists|, |Distinct(flat)|,
                        if top != [] then Some(top[0].genre) else None, 0))
  }

  // ---------------------------------------------------------------------
  // The counting loop

  lemma SliceSnoc(a: seq<string>, b: seq<string>, j: nat)
    requires j < |b|
    ensures a + b[..j + 1] == (a + b[..j]) + [b[j]]
  {
    assert b[..j + 1] == b[..j] + [b[j]];
  }

  lemma GenresSnoc(artists: seq<Artist>, i: nat)
    requires i < |artists|
    ensures Genres(artists[..i + 1]) == Genres(artists[..i]) + artists[i].genres
  {
    assert artists[..i + 1][..i] == artists[..i];
  }

  /** `counter.items()`, listed over the keys `keys`. */
  function CounterItems(keys: seq<string>, counts: map<string, int>): (r: seq<GenreCount>)
    requires forall i :: 0 <= i < |keys| ==> keys[i] in counts
    ensures |r| == |keys|
    ensures forall i :: 0 <= i < |keys| ==> r[i] == GenreCount(keys[i], counts[keys[i]])
  {
    if keys == [] then []
    else CounterItems(keys[..|keys| - 1], counts) + [GenreCount(keys[|keys| - 1], counts[keys[|keys| - 1]])]
  }

  /** Reading the counter's items gives the occurrence counts. */
  lemma TallyItems(s: seq<string>)
    ensures forall i :: 0 <= i < |Distinct(s)| ==> Distinct(s)[i] in Tally(s)
    ensures CounterItems(Distinct(s), Tally(s)) == CountsOf(s, Distinct(s))
  {
    TallyCounts(s);
  }

  /** `build_music_profile`. `topTracks` is accepted and not used, as in the source. */
  method BuildMusicProfile(topArtists: seq<Artist>, topTracks: seq<RecentTrack>, recentTracks: seq<RecentTrack>)
    returns (p: ProfileData)
    ensures p == Profile(topArtists, recentTracks)
  {
    var keys: seq<string> := [];
    var counter: map<string, int> := map[];
    for i := 0 to |topArtists|
      invariant keys == Distinct(Genres(topArtists[..i]))
      invariant counter == Tally(Genres(topArtists[..i]))
    {
      keys, counter := CountGenres(keys, counter, Genres(topArtists[..i]), topArtists[i].genres);
      GenresSnoc(topArtists, i);
    }
    assert topArtists[..|topArtists|] == topArtists;
    TallyItems(Genres(topArtists));
    var topGenres := MostCommon(CounterItems(keys, counter), CountOf, 15);
    var topGenre := if topGenres != [] then Some(topGenres[0].genre) else None;
    p := ProfileData(topArtists, topGenres, recentTracks,
                     ListeningPatterns(|topArtists|, |keys|, topGenre, 0));
  }

  /** The inner loop of `build_music_profile`: one artist's genres counted
      into the counter, new genres appended to its keys. */
  method CountGenres(keys0: seq<string>, counter0: map<string, int>, ghost before: seq<string>, genres: seq<string>)
    returns (keys: seq<string>, counter: map<string, int>)
    requires keys0 == Distinct(before) && counter0 == Tally(before)
    ensures keys == Distinct(before + genres) && counter == Tally(before + genres)
  {
    keys, counter := keys0, counter0;
    assert before + genres[..0] == before;
    for j := 0 to |genres|
      invariant keys == Distinct(before + genres[..j])
      invariant counter == Tally(before + genres[..j])
    {
      var g := genres[j];
      TallySnoc(before + genres[..j], g);
      SliceSnoc(before, genres, j);
      if g in counter {
        counter := counter[g := counter[g] + 1];
      } else {
        keys := keys + [g];
        counter := counter[g := 1];
      }
    }
    assert genres[..|genres|] == genres;
  }

  // ---------------------------------------------------------------------
  // Properties of the profile

  /** The genre list is a count-ordered permutation of the full tally, cut at 15. */
  lemma TopGenresIsSortedTally(s: seq<string>)
    ensures var all := SortDesc(CountsOf(s, Distinct(s)), CountOf);
            && multiset(all) == multiset(CountsOf(s, Distinct(s)))
            && |all| == |Distinct(s)|
            && NonIncreasing(all, CountOf)
            && TopGenres(s) == all[..Min(15, |all|)]
  {
    SortDescCorrect(CountsOf(s, Distinct(s)), CountOf);
  }

  /** At most 15 entries; fewer only when there are fewer distinct genres. */
  lemma TopGenresLength(s: seq<string>)
    ensures |TopGenres(s)| == Min(15, |Distinct(s)|) <= 15
  {
  }

  /** Each entry counts exactly its genre's occurrences, and every listed genre occurs. */
  lemma TopGenresCounts(s: seq<string>)
    ensures forall i :: 0 <= i < |TopGenres(s)| ==>
              TopGenres(s)[i].genre in s && TopGenres(s)[i].count == Occurrences(s, TopGenres(s)[i].genre)
  {
    var all := CountsOf(s, Distinct(s));
    TopGenresIsSortedTally(s);
    var sorted := SortDesc(all, CountOf);
    forall i | 0 <= i < |TopGenres(s)|
      ensures TopGenres(s)[i].genre in s && TopGenres(s)[i].count == Occurrences(s, TopGenres(s)[i].genre)
    {
      assert TopGenres(s)[i] == sorted[i];
      assert sorted[i] in multiset(all);
      var k :| 0 <= k < |all| && all[k] == sorted[i];
      assert Distinct(s)[k] in Distinct(s);
    }
  }

  /** No genre is listed twice. */
  lemma TopGenresDistinct(s: seq<string>)
    ensures forall i, j :: 0 <= i < j < |TopGenres(s)| ==> TopGenres(s)[i].genre != TopGenres(s)[j].genre
  {
    var all := CountsOf(s, Distinct(s));
    assert NoDup(all) by {
      forall i, j | 0 <= i < j < |all|
        ensures all[i] != all[j]
      {
        assert all[i].genre == Distinct(s)[i] != Distinct(s)[j] == all[j].genre;
      }
    }
    SortDescNoDup(all, CountOf);
    TopGenresCounts(s);
    TopGenresIsSortedTally(s);
    var t := TopGenres(s);
    forall i, j | 0 <= i < j < |t|
      ensures t[i].genre != t[j].genre
    {
      assert t[i] == SortDesc(all, CountOf)[i] && t[j] == SortDesc(all, CountOf)[j];
      assert t[i] != t[j];
    }
  }

  /** Counts never increase along the list. */
  lemma TopGenresOrdered(s: seq<string>)
    ensures NonIncreasing(TopGenres(s), CountOf)
  {
    TopGenresIsSortedTally(s);
  }

  /** Ties keep first-encountered order: the entries with any one count are
      a prefix of the genres with that count, taken in order of first
      occurrence. */
  lemma TopGenresTiesInFirstSeenOrder(s: seq<string>, k: int)
    ensures var tied := WithKey(CountsOf(s, Distinct(s)), CountOf, k);
            var listed := WithKey(TopGenres(s), CountOf, k);
            |listed| <= |tied| && listed == tied[..|listed|]
    ensures forall i, j :: 0 <= i < j < |Distinct(s)| ==>
              FirstIndex(s, Distinct(s)[i]) < FirstIndex(s, Distinct(s)[j])
  {
    var all := CountsOf(s, Distinct(s));
    SortDescCorrect(all, CountOf);
    var sorted := SortDesc(all, CountOf);
    WithKeyOfPrefix(sorted, Min(15, |sorted|), CountOf, k);
    DistinctFirstOccurrence(s);
  }

  /** `most_common` keeps the most frequent genres: a genre that occurs but
      is not listed occurs no more often than any listed one. */
  lemma TopGenresAreMostCommon(s: seq<string>, g: string)
    requires g in s
    requires forall i :: 0 <= i < |TopGenres(s)| ==> TopGenres(s)[i].genre != g
    ensures forall i :: 0 <= i < |TopGenres(s)| ==> TopGenres(s)[i].count >= Occurrences(s, g)
  {
    var all := CountsOf(s, Distinct(s));
    TopGenresIsSortedTally(s);
    var sorted := SortDesc(all, CountOf);
    var n := |TopGenres(s)|;
    var k :| 0 <= k < |Distinct(s)| && Distinct(s)[k] == g;
    assert all[k] in multiset(sorted);
    var m :| 0 <= m < |sorted| && sorted[m] == all[k];
    forall i | 0 <= i < n
      ensures TopGenres(s)[i] == sorted[i] && sorted[i] != all[k]
    {
      assert TopGenres(s)[i] == sorted[i];
    }
    assert n <= m;
    Dominates(sorted, CountOf, n, m);
  }

  /** In a list ordered by count, the first `n` entries count at least as
      much as any later one. */
  lemma Dominates(sorted: seq<GenreCount>, key: GenreCount -> int, n: nat, m: nat)
    requires NonIncreasing(sorted, key) && n <= m < |sorted|
    ensures forall i :: 0 <= i < n ==> key(sorted[i]) >= key(sorted[m])
  {
  }

  /** The patterns: `total_artists` is the artist count, `total_genres` the
      number of distinct genres (a list without repetition holding exactly
      the genres that occur, which may be longer than `top_genres`), and
      `top_genre` is the first entry's genre, absent exactly when no artist
      lists a genre. The artists and recent tracks pass through unchanged. */
  lemma ProfileShape(topArtists: seq<Artist>, recentTracks: seq<RecentTrack>)
    ensures var p := Profile(topArtists, recentTracks);
            var flat := Genres(topArtists);
            && p.topArtists == topArtists
            && p.recentTracks == recentTracks
            && p.patterns.totalArtists == |topArtists|
            && p.patterns.totalGenres == |Distinct(flat)| >= |p.topGenres|
            && (p.patterns.topGenre.None? <==> flat == [])
            && (p.topGenres != [] ==> p.patterns.topGenre == Some(p.topGenres[0].genre))
            && p.patterns.avgPopularity == 0
  {
    var flat := Genres(topArtists);
    if flat != [] {
      assert flat[0] in Distinct(flat);
    }
  }

  /** A genre occurs in the flattened list exactly when some artist lists it. */
  lemma {:induction false} GenresMembers(artists: seq<Artist>, g: string)
    ensures g in Genres(artists) <==> exists i :: 0 <= i < |artists| && g in artists[i].genres
  {
    if artists != [] {
      var n := |artists| - 1;
      GenresMembers(artists[..n], g);
      assert forall i :: 0 <= i < n ==> artists[..n][i] == artists[i];
    }
  }
}
