/** The JSON shapes of a music profile as the backend stores and exchanges
    them (the dicts produced by the Spotify item mappings and by
    `build_music_profile`, and the columns of `MusicProfile`). */
module Music {
  import opened Base

  /** One entry of `top_artists`. */
  datatype Artist = Artist(
    name: string,
    spotifyId: string,
    genres: seq<string>,
    imageUrl: Option<string>,
    rank: int)

  /** One entry of `top_genres`. */
  datatype GenreCount = GenreCount(genre: string, count: int)

  /** The `listening_patterns` dict. */
  datatype ListeningPatterns = ListeningPatterns(
    totalArtists: int,
    totalGenres: int,
    topGenre: Option<string>,
    avgPopularity: int)

  /** One entry of `recent_tracks` (also the shape of `top_tracks`). */
  datatype RecentTrack = RecentTrack(
    name: string,
    artist: string,
    album: string,
    imageUrl: Option<string>,
    playedAt: Option<string>,
    spotifyId: string)

  /** The profile dict: what `build_music_profile` returns, what
      `save_music_profile` stores and what `compute_compatibility` reads. */
  datatype ProfileData = ProfileData(
    topArtists: seq<Artist>,
    topGenres: seq<GenreCount>,
    recentTracks: seq<RecentTrack>,
    patterns: ListeningPatterns)

  /** A profile with no artists, no genres, no tracks and zero totals. */
  const EmptyProfile := ProfileData([], [], [], ListeningPatterns(0, 0, None, 0))
}
