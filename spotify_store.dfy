/** The two per-user tables of `crud/spotify.py`: Spotify tokens and the
    saved music profile. Each has a unique `user_id`, so each is a map from
    user id to row, and saving is an upsert. */
module SpotifyStore {
  import opened Base
  import opened Music
  import opened Tables

  /** `get_spotify_tokens(db, user_id)`. */
  function GetSpotifyTokens(tokens: map<int, Token>, userId: int): (r: Option<Token>)
    ensures r.Some? <==> userId in tokens
    ensures r.Some? ==> r.value == tokens[userId]
  {
    if userId in tokens then Some(tokens[userId]) else None
  }

  predicate Truthy(s: Option<string>)
  {
    s.Some? && s.value != ""
  }

  /** The row `save_spotify_tokens` leaves: the existing row with the three
      token fields overwritten and the Spotify user id replaced only by a
      truthy value, or a new row that stores the id as given. */
  function SavedToken(existing: Option<Token>, accessToken: string, refreshToken: string, expiresAt: int,
                      spotifyUserId: Option<string>): (t: Token)
    ensures t.accessToken == accessToken && t.refreshToken == refreshToken && t.expiresAt == expiresAt
    ensures existing.None? ==> t.spotifyUserId == spotifyUserId
    ensures existing.Some? && !Truthy(spotifyUserId) ==> t.spotifyUserId == existing.value.spotifyUserId
    ensures Truthy(spotifyUserId) ==> t.spotifyUserId == spotifyUserId
  {
    match existing
    case None => Token(accessToken, refreshToken, expiresAt, spotifyUserId)
    case Some(row) =>
      row.(accessToken := accessToken, refreshToken := refreshToken, expiresAt := expiresAt,
           spotifyUserId := if Truthy(spotifyUserId) then spotifyUserId else row.spotifyUserId)
  }

  /** A refresh that does not report a Spotify user id keeps the one stored. */
  lemma RefreshKeepsSpotifyUser(existing: Token, accessToken: string, refreshToken: string, expiresAt: int)
    ensures SavedToken(Some(existing), accessToken, refreshToken, expiresAt, None).spotifyUserId
         == existing.spotifyUserId
    ensures SavedToken(Some(existing), accessToken, refreshToken, expiresAt, Some("")).spotifyUserId
         == existing.spotifyUserId
  {
  }

  /** `save_spotify_tokens`: update in place or insert. */
  method SaveSpotifyTokens(db: Db, userId: int, accessToken: string, refreshToken: string, expiresAt: int,
                           spotifyUserId: Option<string>) returns (t: Token)
    requires db.Valid()
    modifies db`tokens
    ensures db.Valid()
    ensures t == SavedToken(GetSpotifyTokens(old(db.tokens), userId), accessToken, refreshToken, expiresAt, spotifyUserId)
    ensures db.tokens == old(db.tokens)[userId := t]
  {
    var existing := GetSpotifyTokens(db.tokens, userId);
    if existing.Some? {
      var row := existing.value;
      row := row.(accessToken := accessToken, refreshToken := refreshToken, expiresAt := expiresAt);
      if Truthy(spotifyUserId) {
        row := row.(spotifyUserId := spotifyUserId);
      }
      db.tokens := db.tokens[userId := row];
      return row;
    }
    t := Token(accessToken, refreshToken, expiresAt, spotifyUserId);
    db.tokens := db.tokens[userId := t];
  }

  /** `delete_spotify_tokens`: only that user's row goes. */
  method DeleteSpotifyTokens(db: Db, userId: int)
    requires db.Valid()
    modifies db`tokens
    ensures db.Valid()
    ensures db.tokens == old(db.tokens) - {userId}
    ensures GetSpotifyTokens(db.tokens, userId).None?
    ensures forall u :: u != userId ==> GetSpotifyTokens(db.tokens, u) == GetSpotifyTokens(old(db.tokens), u)
  {
    db.tokens := db.tokens - {userId};
  }

  /** `get_music_profile(db, user_id)`. */
  function GetMusicProfile(profiles: map<int, StoredProfile>, userId: int): (r: Option<StoredProfile>)
    ensures r.Some? <==> userId in profiles
    ensures r.Some? ==> r.value == profiles[userId]
  {
    if userId in profiles then Some(profiles[userId]) else None
  }

  /** `save_music_profile`: both branches store the four profile fields and
      the save time, so the row afterwards does not depend on the old one. */
  method SaveMusicProfile(db: Db, userId: int, data: ProfileData, now: int) returns (p: StoredProfile)
    requires db.Valid()
    modifies db`profiles
    ensures db.Valid()
    ensures p == StoredProfile(data, now)
    ensures db.profiles == old(db.profiles)[userId := p]
    ensures GetMusicProfile(db.profiles, userId) == Some(StoredProfile(data, now))
  {
    var existing := GetMusicProfile(db.profiles, userId);
    if existing.Some? {
      var row := existing.value;
      row := row.(data := row.data.(topArtists := data.topArtists, topGenres := data.topGenres,
                                    recentTracks := data.recentTracks, patterns := data.patterns),
                  lastSynced := now);
      db.profiles := db.profiles[userId := row];
      return row;
    }
    p := StoredProfile(data, now);
    db.profiles := db.profiles[userId := p];
  }

  /** `delete_music_profile`: only that user's row goes. */
  method DeleteMusicProfile(db: Db, userId: int)
    requires db.Valid()
    modifies db`profiles
    ensures db.Valid()
    ensures db.profiles == old(db.profiles) - {userId}
    ensures GetMusicProfile(db.profiles, userId).None?
    ensures forall u :: u != userId ==> GetMusicProfile(db.profiles, u) == GetMusicProfile(old(db.profiles), u)
  {
    db.profiles := db.profiles - {userId};
  }
}
