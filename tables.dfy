/** The database the backend works on: one row datatype per SQLAlchemy
    model, and a `Db` object holding every table, which the crud functions
    update in place. A table is a sequence in insertion order; a row
    that has a `created_at` column carries the time it was inserted, which
    the caller passes in. The two tables keyed by a unique `user_id` are
    maps. Row ids are assigned as SQLite does for a table that is never
    deleted from: the n-th row inserted gets id n. */
module Tables {
  import opened Base
  import opened Music
  import opened Compatibility

  datatype User = User(
    id: int,
    email: string,
    hashedPassword: string,
    displayName: string,
    studentId: Option<string>,
    course: Option<string>,
    year: Option<int>,
    faculty: Option<string>,
    showCourse: bool,
    showYear: bool,
    showFaculty: bool,
    spotifyEmail: Option<string>,
    isVerified: bool)

  datatype Action = Like | Pass

  datatype Swipe = Swipe(userId: int, targetId: int, action: Action)

  /** A match; `breakdown` is `None` for the empty dict stored when a
      profile was missing at match time. */
  datatype Match = Match(id: int, user1: int, user2: int, score: int, breakdown: Option<Breakdown>, createdAt: int)

  /** A `music_profiles` row: the saved profile and its `last_synced` time. */
  datatype StoredProfile = StoredProfile(data: ProfileData, lastSynced: int)

  /** A `spotify_tokens` row. */
  datatype Token = Token(accessToken: string, refreshToken: string, expiresAt: int, spotifyUserId: Option<string>)

  datatype Kind = MatchPlaylist | Group

  /** A playlist description: the text a caller gave, or the sentence about
      the match score written when a match playlist is created. */
  datatype Description = Given(text: Option<string>) | MatchBlurb(score: int)

  /** A track entry of a playlist's `tracks` list. `addedAt` is the seconds
      timestamp of `added_at`, or `None` when it is absent or does not parse. */
  datatype Track = Track(
    trackName: string,
    artist: string,
    album: Option<string>,
    imageUrl: Option<string>,
    spotifyUrl: Option<string>,
    spotifyId: string,
    addedBy: int,
    addedAt: Option<int>)

  datatype Playlist = Playlist(
    id: int,
    matchId: Option<int>,
    name: string,
    description: Description,
    createdBy: int,
    kind: Kind,
    tracks: seq<Track>,
    isActive: bool,
    updatedAt: int)

  datatype Role = Owner | Editor

  datatype Member = Member(playlistId: int, userId: int, role: Role)

  datatype WeekTrack = WeekTrack(trackName: string, artist: string)

  /** The `recap_data` dict. */
  datatype RecapData = RecapData(
    tracksAdded: int,
    topContributor: Option<int>,
    totalTracks: int,
    weekTracks: seq<WeekTrack>)

  /** A `weekly_recaps` row; `weekStart` is a day number (days since 1970-01-01). */
  datatype Recap = Recap(id: int, playlistId: int, weekStart: int, data: RecapData, createdAt: int)

  datatype SongData = SongData(
    trackName: string,
    artist: string,
    album: Option<string>,
    imageUrl: Option<string>,
    spotifyUrl: Option<string>,
    spotifyId: Option<string>)

  datatype Message = Message(
    id: int,
    matchId: int,
    senderId: int,
    content: string,
    kind: string,
    songData: Option<SongData>,
    isRead: bool,
    createdAt: int)

  // ---------------------------------------------------------------------
  // Table invariants

  predicate UsersValid(users: seq<User>)
  {
    && (forall i :: 0 <= i < |users| ==> users[i].id == i + 1)
    && (forall i, j :: 0 <= i < j < |users| ==> users[i].email != users[j].email)
  }

  /** The `uq_user_target_swipe` constraint. */
  predicate SwipesValid(swipes: seq<Swipe>)
  {
    forall i, j :: 0 <= i < j < |swipes| ==>
      !(swipes[i].userId == swipes[j].userId && swipes[i].targetId == swipes[j].targetId)
  }

  predicate MatchesValid(matches: seq<Match>)
  {
    forall i :: 0 <= i < |matches| ==> matches[i].id == i + 1
  }

  predicate PlaylistsValid(playlists: seq<Playlist>)
  {
    forall i :: 0 <= i < |playlists| ==> playlists[i].id == i + 1
  }

  /** The `uq_playlist_member` constraint, and every member row refers to an
      existing playlist. */
  predicate MembersValid(members: seq<Member>, playlistCount: int)
  {
    && (forall i :: 0 <= i < |members| ==> 1 <= members[i].playlistId <= playlistCount)
    && (forall i, j :: 0 <= i < j < |members| ==>
          !(members[i].playlistId == members[j].playlistId && members[i].userId == members[j].userId))
  }

  predicate RecapsValid(recaps: seq<Recap>)
  {
    forall i :: 0 <= i < |recaps| ==> recaps[i].id == i + 1
  }

  predicate MessagesValid(messages: seq<Message>)
  {
    forall i :: 0 <= i < |messages| ==> messages[i].id == i + 1
  }

  /** The database session: every table a crud function reads or writes. */
  class Db {
    var users: seq<User>
    var swipes: seq<Swipe>
    var matches: seq<Match>
    var profiles: map<int, StoredProfile>
    var tokens: map<int, Token>
    var playlists: seq<Playlist>
    var members: seq<Member>
    var recaps: seq<Recap>
    var messages: seq<Message>

    ghost predicate Valid()
      reads this
    {
      && UsersValid(users)
      && SwipesValid(swipes)
      && MatchesValid(matches)
      && PlaylistsValid(playlists)
      && MembersValid(members, |playlists|)
      && RecapsValid(recaps)
      && MessagesValid(messages)
    }

    /** An empty database. */
    constructor()
      ensures Valid()
      ensures users == [] && swipes == [] && matches == [] && profiles == map[] && tokens == map[]
      ensures playlists == [] && members == [] && recaps == [] && messages == []
    {
      users := [];
      swipes := [];
      matches := [];
      profiles := map[];
      tokens := map[];
      playlists := [];
      members := [];
      recaps := [];
      messages := [];
    }
  }
}
