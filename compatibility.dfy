/** The compatibility scorer: artist overlap (by Spotify id), the Jaccard
    index of the genre names and a listening-pattern similarity built from
    the artist and genre totals, weighted 40/40/20, clamped to [0,100] and
    rounded half-to-even as Python's `round` does. Ratios are exact reals. */
module Compatibility {
  import opened Base
  import opened Music

  const ArtistWeight: real := 40.0
  const GenreWeight: real := 40.0
  const PatternWeight: real := 20.0

  /** The compatibility dict, with `shared_artists` and `shared_genres` as
      sets (the source builds them by iterating over a set). */
  datatype Breakdown = Breakdown(
    score: int,
    sharedArtists: set<string>,
    sharedGenres: set<string>,
    genreOverlap: real,
    artistOverlap: real)

  /** `{a["spotify_id"] for a in artists}`. */
  function ArtistIds(artists: seq<Artist>): (r: set<string>)
    ensures forall i :: 0 <= i < |artists| ==> artists[i].spotifyId in r
    ensures forall id :: id in r ==> exists i :: 0 <= i < |artists| && artists[i].spotifyId == id
  {
    if artists == [] then {} else {artists[0].spotifyId} + ArtistIds(artists[1..])
  }

  /** `{g["genre"] for g in genres}`. */
  function GenreNames(genres: seq<GenreCount>): (r: set<string>)
    ensures forall i :: 0 <= i < |genres| ==> genres[i].genre in r
    ensures forall g :: g in r ==> exists i :: 0 <= i < |genres| && genres[i].genre == g
  {
    if genres == [] then {} else {genres[0].genre} + GenreNames(genres[1..])
  }

  /** Python's `max(a, b, c)`. */
  function Max3(a: int, b: int, c: int): (m: int)
    ensures m >= a && m >= b && m >= c
    ensures m == a || m == b || m == c
  {
    Max(Max(a, b), c)
  }

  function Abs(x: int): nat
  {
    if x < 0 then -x else x
  }

  lemma {:induction false} SubsetCard<T>(a: set<T>, b: set<T>)
    requires a <= b
    ensures |a| <= |b|
    decreases |b|
  {
    if a != {} {
      var x :| x in a;
      SubsetCard(a - {x}, b - {x});
    }
  }

  /** `n / d` for a positive denominator. */
  function Ratio(n: nat, d: int): (r: real)
    requires d >= 1
    ensures 0.0 <= r
    ensures n <= d ==> r <= 1.0
    ensures n == 0 <==> r == 0.0
    ensures n == d ==> r == 1.0
  {
    n as real / d as real
  }

  /** `len(artists1 & artists2) / max(len(artists1), len(artists2), 1)`. */
  function ArtistOverlap(p1: ProfileData, p2: ProfileData): (r: real)
    ensures 0.0 <= r <= 1.0
    ensures ArtistIds(p1.topArtists) * ArtistIds(p2.topArtists) == {} <==> r == 0.0
    ensures ArtistIds(p1.topArtists) == ArtistIds(p2.topArtists) != {} ==> r == 1.0
  {
    var a1 := ArtistIds(p1.topArtists);
    var a2 := ArtistIds(p2.topArtists);
    SubsetCard(a1 * a2, a1);
    assert a1 == a2 ==> a1 * a2 == a1;
    Ratio(|a1 * a2|, Max3(|a1|, |a2|, 1))
  }

  /** `len(genres1 & genres2) / max(len(genres1 | genres2), 1)`: the Jaccard index. */
  function GenreOverlap(p1: ProfileData, p2: ProfileData): (r: real)
    ensures 0.0 <= r <= 1.0
    ensures GenreNames(p1.topGenres) * GenreNames(p2.topGenres) == {} <==> r == 0.0
    ensures GenreNames(p1.topGenres) == GenreNames(p2.topGenres) != {} ==> r == 1.0
  {
    var g1 := GenreNames(p1.topGenres);
    var g2 := GenreNames(p2.topGenres);
    SubsetCard(g1 * g2, g1 + g2);
    assert g1 == g2 ==> g1 * g2 == g1 && g1 + g2 == g1;
    Ratio(|g1 * g2|, Max(|g1 + g2|, 1))
  }

  /** `1 - abs(x - y) / max(x, y, 1)`. */
  function CountSim(x: int, y: int): (r: real)
    ensures x == y ==> r == 1.0
    ensures x >= 0 && y >= 0 ==> 0.0 <= r <= 1.0
  {
    1.0 - Ratio(Abs(x - y), Max3(x, y, 1))
  }

  /** The mean of the artist-count and genre-count similarities. */
  function PatternSim(p1: ProfileData, p2: ProfileData): (r: real)
    ensures (p1.patterns.totalArtists == p2.patterns.totalArtists
             && p1.patterns.totalGenres == p2.patterns.totalGenres) ==> r == 1.0
    ensures (p1.patterns.totalArtists >= 0 && p2.patterns.totalArtists >= 0
             && p1.patterns.totalGenres >= 0 && p2.patterns.totalGenres >= 0) ==> 0.0 <= r <= 1.0
  {
    (CountSim(p1.patterns.totalArtists, p2.patterns.totalArtists)
     + CountSim(p1.patterns.totalGenres, p2.patterns.totalGenres)) / 2.0
  }

  /** The weighted sum before clamping and rounding. For profiles whose
      totals are not negative it already lies in [0, 100]. */
  function RawScore(p1: ProfileData, p2: ProfileData): (r: real)
    ensures (p1.patterns.totalArtists >= 0 && p2.patterns.totalArtists >= 0
             && p1.patterns.totalGenres >= 0 && p2.patterns.totalGenres >= 0) ==> 0.0 <= r <= 100.0
  {
    ArtistOverlap(p1, p2) * ArtistWeight
    + GenreOverlap(p1, p2) * GenreWeight
    + PatternSim(p1, p2) * PatternWeight
  }

  /** `min(max(x, 0), 100)`. */
  function Clamp(x: real): (r: real)
    ensures 0.0 <= r <= 100.0
    ensures 0.0 <= x <= 100.0 ==> r == x
  {
    if x < 0.0 then 0.0 else if x > 100.0 then 100.0 else x
  }

  /** Python's `round(x)`: the nearest integer, ties to the even one. */
  function RoundHalfEven(x: real): (r: int)
    ensures x - 0.5 <= r as real <= x + 0.5
    ensures x == (x.Floor) as real ==> r == x.Floor
    ensures (r as real - x == 0.5 || x - r as real == 0.5) ==> r % 2 == 0
  {
    var f := x.Floor;
    var d := x - f as real;
    if d < 0.5 then f
    else if d > 0.5 then f + 1
    else if f % 2 == 0 then f
    else f + 1
  }

  /** The final `score`, an integer in [0, 100]. */
  function Score(p1: ProfileData, p2: ProfileData): (r: int)
    ensures 0 <= r <= 100
  {
    RoundHalfEven(Clamp(RawScore(p1, p2)))
  }

  /** `artist_names[aid]`: the name of the last artist listed with that id
      (a dict comprehension keeps the last write). */
  function NameById(artists: seq<Artist>, id: string): (name: string)
    ensures id in ArtistIds(artists) ==>
              exists i :: 0 <= i < |artists| && artists[i].spotifyId == id && artists[i].name == name
  {
    if artists == [] then ""
    else if artists[|artists| - 1].spotifyId == id then artists[|artists| - 1].name
    else
      assert id in ArtistIds(artists) && artists[|artists| - 1].spotifyId != id ==>
               id in ArtistIds(artists[..|artists| - 1]);
      NameById(artists[..|artists| - 1], id)
  }

  /** `artist_names1.get(aid) or artist_names2.get(aid)`. */
  function SharedName(p1: ProfileData, p2: ProfileData, id: string): string
  {
    var n1 := NameById(p1.topArtists, id);
    if n1 != "" then n1 else NameById(p2.topArtists, id)
  }

  function SharedArtistIds(p1: ProfileData, p2: ProfileData): set<string>
  {
    ArtistIds(p1.topArtists) * ArtistIds(p2.topArtists)
  }

  function SharedArtistNames(p1: ProfileData, p2: ProfileData): set<string>
  {
    set id | id in SharedArtistIds(p1, p2) :: SharedName(p1, p2, id)
  }

  /** `compute_compatibility(profile1, profile2)`. */
  function Compute(p1: ProfileData, p2: ProfileData): (b: Breakdown)
    ensures 0 <= b.score <= 100
    ensures 0.0 <= b.artistOverlap <= 1.0 && 0.0 <= b.genreOverlap <= 1.0
    ensures b.sharedGenres == GenreNames(p1.topGenres) * GenreNames(p2.topGenres)
  {
    Breakdown(
      Score(p1, p2),
      SharedArtistNames(p1, p2),
      GenreNames(p1.topGenres) * GenreNames(p2.topGenres),
      GenreOverlap(p1, p2),
      ArtistOverlap(p1, p2))
  }

  /** Every shared-artist name is the name under which one of the two
      profiles lists an artist whose id both profiles contain. */
  lemma SharedNamesComeFromSharedIds(p1: ProfileData, p2: ProfileData, n: string)
    requires n in Compute(p1, p2).sharedArtists
    ensures exists id :: id in SharedArtistIds(p1, p2) &&
              ((exists i :: 0 <= i < |p1.topArtists| && p1.topArtists[i].spotifyId == id && p1.topArtists[i].name == n)
               || (exists i :: 0 <= i < |p2.topArtists| && p2.topArtists[i].spotifyId == id && p2.topArtists[i].name == n))
  {
    var id :| id in SharedArtistIds(p1, p2) && SharedName(p1, p2, id) == n;
    assert id in ArtistIds(p1.topArtists) && id in ArtistIds(p2.topArtists);
  }

  /** There is a shared artist name exactly when there is a shared artist id. */
  lemma SharedArtistsIffSharedIds(p1: ProfileData, p2: ProfileData)
    ensures Compute(p1, p2).sharedArtists == {} <==> SharedArtistIds(p1, p2) == {}
  {
    if id :| id in SharedArtistIds(p1, p2) {
      assert SharedName(p1, p2, id) in Compute(p1, p2).sharedArtists;
    }
  }

  /** The score and both overlap ratios do not depend on argument order, nor
      does the set of shared genres or of shared artist ids. */
  lemma Symmetric(p1: ProfileData, p2: ProfileData)
    ensures Compute(p1, p2).score == Compute(p2, p1).score
    ensures Compute(p1, p2).artistOverlap == Compute(p2, p1).artistOverlap
    ensures Compute(p1, p2).genreOverlap == Compute(p2, p1).genreOverlap
    ensures Compute(p1, p2).sharedGenres == Compute(p2, p1).sharedGenres
    ensures SharedArtistIds(p1, p2) == SharedArtistIds(p2, p1)
    ensures RawScore(p1, p2) == RawScore(p2, p1)
  {
    RawScoreSymmetric(p1, p2);
    var a1, a2 := ArtistIds(p1.topArtists), ArtistIds(p2.topArtists);
    var g1, g2 := GenreNames(p1.topGenres), GenreNames(p2.topGenres);
    assert a1 * a2 == a2 * a1;
    assert g1 * g2 == g2 * g1;
  }

  lemma RawScoreSymmetric(p1: ProfileData, p2: ProfileData)
    ensures ArtistOverlap(p1, p2) == ArtistOverlap(p2, p1)
    ensures GenreOverlap(p1, p2) == GenreOverlap(p2, p1)
    ensures RawScore(p1, p2) == RawScore(p2, p1)
    ensures Score(p1, p2) == Score(p2, p1)
  {
    ArtistOverlapSymmetric(p1, p2);
    GenreOverlapSymmetric(p1, p2);
    PatternSimSymmetric(p1, p2);
  }

  lemma ArtistOverlapSymmetric(p1: ProfileData, p2: ProfileData)
    ensures ArtistOverlap(p1, p2) == ArtistOverlap(p2, p1)
  {
    var a1, a2 := ArtistIds(p1.topArtists), ArtistIds(p2.topArtists);
    assert a1 * a2 == a2 * a1;
    assert Max3(|a1|, |a2|, 1) == Max3(|a2|, |a1|, 1);
  }

  lemma GenreOverlapSymmetric(p1: ProfileData, p2: ProfileData)
    ensures GenreOverlap(p1, p2) == GenreOverlap(p2, p1)
  {
    var g1, g2 := GenreNames(p1.topGenres), GenreNames(p2.topGenres);
    assert g1 * g2 == g2 * g1 && g1 + g2 == g2 + g1;
  }

  lemma PatternSimSymmetric(p1: ProfileData, p2: ProfileData)
    ensures PatternSim(p1, p2) == PatternSim(p2, p1)
  {
    var pa1, pa2 := p1.patterns, p2.patterns;
    assert Abs(pa1.totalArtists - pa2.totalArtists) == Abs(pa2.totalArtists - pa1.totalArtists);
    assert Abs(pa1.totalGenres - pa2.totalGenres) == Abs(pa2.totalGenres - pa1.totalGenres);
    assert Max3(pa1.totalArtists, pa2.totalArtists, 1) == Max3(pa2.totalArtists, pa1.totalArtists, 1);
    assert Max3(pa1.totalGenres, pa2.totalGenres, 1) == Max3(pa2.totalGenres, pa1.totalGenres, 1);
  }

  /** The shared-artist NAMES are not symmetric: for an id both profiles
      list under different non-empty names, each argument order reports the
      first profile's name. */
  lemma SharedNamesDependOnOrder()
    ensures var p := ProfileData([Artist("A", "x", [], None, 1)], [], [], ListeningPatterns(1, 0, None, 0));
            var q := ProfileData([Artist("B", "x", [], None, 1)], [], [], ListeningPatterns(1, 0, None, 0));
            Compute(p, q).sharedArtists == {"A"} && Compute(q, p).sharedArtists == {"B"}
  {
    var p := ProfileData([Artist("A", "x", [], None, 1)], [], [], ListeningPatterns(1, 0, None, 0));
    var q := ProfileData([Artist("B", "x", [], None, 1)], [], [], ListeningPatterns(1, 0, None, 0));
    assert ArtistIds(p.topArtists) == {"x"};
    assert ArtistIds(q.topArtists) == {"x"};
    assert SharedArtistIds(p, q) == {"x"};
    assert SharedName(p, q, "x") == "A";
    assert SharedName(q, p, "x") == "B";
  }

  /** Artist identity is the Spotify id: the two profiles share no artist,
      and their artist overlap is 0, exactly when no artist of one has the
      Spotify id of an artist of the other, whatever the names. */
  lemma IdentityIsSpotifyId(p: ProfileData, q: ProfileData)
    ensures (Compute(p, q).artistOverlap == 0.0 && Compute(p, q).sharedArtists == {})
            <==> forall i, j :: 0 <= i < |p.topArtists| && 0 <= j < |q.topArtists| ==>
                   p.topArtists[i].spotifyId != q.topArtists[j].spotifyId
  {
    SharedArtistsIffSharedIds(p, q);
    if i, j :| 0 <= i < |p.topArtists| && 0 <= j < |q.topArtists| &&
               p.topArtists[i].spotifyId == q.topArtists[j].spotifyId {
      assert p.topArtists[i].spotifyId in SharedArtistIds(p, q);
    } else {
      assert SharedArtistIds(p, q) == {};
    }
  }

  /** A profile compared with itself, when it lists at least one artist and
      one genre, has both overlaps 1 and scores 100. */
  lemma Identical(p: ProfileData)
    requires p.topArtists != [] && p.topGenres != []
    ensures Compute(p, p).artistOverlap == 1.0
    ensures Compute(p, p).genreOverlap == 1.0
    ensures PatternSim(p, p) == 1.0
    ensures Compute(p, p).score == 100
  {
    assert p.topArtists[0].spotifyId in ArtistIds(p.topArtists);
    assert p.topGenres[0].genre in GenreNames(p.topGenres);
    assert RawScore(p, p) == 100.0;
  }

  /** Two profiles without artists, genres or totals: both overlaps are 0, but
      the pattern similarity is 1, so the score is 20, not 0. */
  lemma EmptyProfiles(p1: ProfileData, p2: ProfileData)
    requires p1.topArtists == [] && p2.topArtists == []
    requires p1.topGenres == [] && p2.topGenres == []
    requires p1.patterns.totalArtists == 0 && p1.patterns.totalGenres == 0
    requires p2.patterns.totalArtists == 0 && p2.patterns.totalGenres == 0
    ensures Compute(p1, p2).artistOverlap == 0.0
    ensures Compute(p1, p2).genreOverlap == 0.0
    ensures PatternSim(p1, p2) == 1.0
    ensures Compute(p1, p2).score == 20
  {
    assert ArtistIds(p1.topArtists) == {};
    assert GenreNames(p1.topGenres) == {} && GenreNames(p2.topGenres) == {};
    assert RawScore(p1, p2) == 20.0;
  }

  /** The two profiles of a worked example: artists {x, y} against {y, z},
      genres {rock, pop} against {rock, jazz}, equal totals. */
  const ExampleA := ProfileData([Artist("X", "x", [], None, 1), Artist("Y", "y", [], None, 2)],
                                [GenreCount("rock", 1), GenreCount("pop", 1)], [],
                                ListeningPatterns(2, 2, Some("rock"), 0))
  const ExampleB := ProfileData([Artist("Y", "y", [], None, 1), Artist("Z", "z", [], None, 2)],
                                [GenreCount("rock", 1), GenreCount("jazz", 1)], [],
                                ListeningPatterns(2, 2, Some("rock"), 0))

  /** The artist overlap of the example is 1/2: the denominator is the larger
      artist set, not the union. */
  lemma ExampleArtists()
    ensures ArtistOverlap(ExampleA, ExampleB) == 0.5
    ensures SharedArtistNames(ExampleA, ExampleB) == {"Y"}
  {
    var a1, a2 := ArtistIds(ExampleA.topArtists), ArtistIds(ExampleB.topArtists);
    assert a1 == {"x", "y"} && |a1| == 2;
    assert a2 == {"y", "z"} && |a2| == 2;
    assert a1 * a2 == {"y"} && |a1 * a2| == 1;
    assert Max3(|a1|, |a2|, 1) == 2;
    assert Ratio(1, 2) == 0.5;
    assert ArtistOverlap(ExampleA, ExampleB) == 0.5;
    assert SharedArtistIds(ExampleA, ExampleB) == {"y"};
    assert SharedName(ExampleA, ExampleB, "y") == "Y";
    var names := SharedArtistNames(ExampleA, ExampleB);
    assert "Y" in names;
    assert forall n :: n in names ==> n == "Y";
  }

  /** The genre overlap of the example is the Jaccard index 1/3. */
  lemma ExampleGenres()
    ensures GenreOverlap(ExampleA, ExampleB) == 1.0 / 3.0
    ensures GenreNames(ExampleA.topGenres) * GenreNames(ExampleB.topGenres) == {"rock"}
  {
    var g1, g2 := GenreNames(ExampleA.topGenres), GenreNames(ExampleB.topGenres);
    assert g1 == {"rock", "pop"};
    assert g2 == {"rock", "jazz"};
    assert g1 * g2 == {"rock"} && |g1 * g2| == 1;
    assert g1 + g2 == {"rock", "pop", "jazz"} && |g1 + g2| == 3;
    assert Max(|g1 + g2|, 1) == 3;
    assert Ratio(1, 3) == 1.0 / 3.0;
    assert GenreOverlap(ExampleA, ExampleB) == 1.0 / 3.0;
  }

  /** The example scores round(20 + 40/3 + 20) = round(53.33...) = 53. */
  lemma ExampleScore()
    ensures Score(ExampleA, ExampleB) == 53
  {
    ExampleArtists();
    ExampleGenres();
    var raw := RawScore(ExampleA, ExampleB);
    assert PatternSim(ExampleA, ExampleB) == 1.0;
    assert raw == 160.0 / 3.0;
    assert raw.Floor == 53;
  }

  /** The whole breakdown of the example. */
  lemma Example()
    ensures var c := Compute(ExampleA, ExampleB);
            c.score == 53 && c.artistOverlap == 0.5 && c.genreOverlap == 1.0 / 3.0
            && c.sharedArtists == {"Y"} && c.sharedGenres == {"rock"}
  {
    ExampleArtists();
    ExampleGenres();
    ExampleScore();
  }
}
