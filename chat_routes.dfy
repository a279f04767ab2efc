/** The chat handlers (`api/routes/chat.py`): the participant guard, reading
    a conversation, sending and reading messages, the unread totals and the
    song search over the built-in pool. */
module ChatRoutes {
  import opened Base
  import opened Text
  import opened Tables
  import opened MatchStore
  import opened MessageStore

  /** `_verify_match_access`: 404 for an unknown match, 403 for a user who
      is neither participant. */
  function VerifyMatchAccess(matches: seq<Match>, matchId: int, userId: int): (r: Result<Match>)
    ensures r.Ok? ==> r.value in matches && r.value.id == matchId && Involves(r.value, userId)
  {
    match GetMatchById(matches, matchId)
    case None => Err(NotFound)
    case Some(m) => if userId !in {m.user1, m.user2} then Err(Forbidden) else Ok(m)
  }

  /** With ids assigned in order, the guard passes exactly for a participant
      of the `matchId`-th match. */
  lemma VerifyMatchAccessCases(matches: seq<Match>, matchId: int, userId: int)
    requires MatchesValid(matches)
    ensures VerifyMatchAccess(matches, matchId, userId) == Err(NotFound) <==> !(1 <= matchId <= |matches|)
    ensures VerifyMatchAccess(matches, matchId, userId) == Err(Forbidden) <==>
              1 <= matchId <= |matches| && !Involves(matches[matchId - 1], userId)
    ensures VerifyMatchAccess(matches, matchId, userId).Ok? <==>
              1 <= matchId <= |matches| && Involves(matches[matchId - 1], userId)
  {
    GetMatchByIdPosition(matches, matchId);
  }

  // ---------------------------------------------------------------------
  // Reading a conversation

  /** `get_conversation` as declared: `limit` has an upper bound of 100 and
      no lower bound, `offset` must not be negative. FastAPI rejects a query
      parameter outside its bounds with 422 before the handler runs. */
  function GetConversationAsWritten(matches: seq<Match>, messages: seq<Message>, matchId: int, userId: int,
                                    limit: int, offset: int): (r: Result<seq<Message>>)
    ensures (limit > 100 || offset < 0) ==> r == Err(Unprocessable)
  {
    if limit > 100 || offset < 0 then Err(Unprocessable)
    else
      match VerifyMatchAccess(matches, matchId, userId)
      case Err(e) => Err(e)
      case Ok(_) => Ok(GetMessages(messages, matchId, limit, offset))
  }

  /** A negative `limit` passes validation and, on SQLite, places no bound
      on the page: a participant of a match with more than 100 messages gets
      all of them in one response. */
  lemma NegativeLimitIsUnbounded(matches: seq<Match>, messages: seq<Message>, matchId: int, userId: int)
    requires VerifyMatchAccess(matches, matchId, userId).Ok?
    requires Count(messages, (m: Message) => m.matchId == matchId) > 100
    ensures var r := GetConversationAsWritten(matches, messages, matchId, userId, -1, 0);
            r.Ok? && |r.value| > 100
  {
    FirstPageIsWholeConversation(messages, matchId, -1);
    CountIsFilterLength(messages, (m: Message) => m.matchId == matchId);
    var c := Conversation(messages, matchId);
    assert |c| == |multiset(c)| == |InMatch(messages, matchId)|;
  }

  /** `get_conversation` with the page size bounded on both sides, as the
      declared maximum of 100 evidently intends. */
  function GetConversation(matches: seq<Match>, messages: seq<Message>, matchId: int, userId: int,
                           limit: int, offset: int): Result<seq<Message>>
  {
    if limit < 0 || limit > 100 || offset < 0 then Err(Unprocessable)
    else
      match VerifyMatchAccess(matches, matchId, userId)
      case Err(e) => Err(e)
      case Ok(_) => Ok(GetMessages(messages, matchId, limit, offset))
  }

  /** Every answered page holds at most 100 messages of the requested
      match, oldest first, and only a participant gets one. */
  lemma ConversationBounded(matches: seq<Match>, messages: seq<Message>, matchId: int, userId: int,
                            limit: int, offset: int)
    ensures var r := GetConversation(matches, messages, matchId, userId, limit, offset);
            && (r.Ok? ==> |r.value| <= limit <= 100)
            && (r.Ok? ==> forall i :: 0 <= i < |r.value| ==> r.value[i] in messages && r.value[i].matchId == matchId)
            && (r.Ok? ==> forall i, j :: 0 <= i < j < |r.value| ==> r.value[i].createdAt <= r.value[j].createdAt)
            && (r.Ok? ==> VerifyMatchAccess(matches, matchId, userId).Ok?)
            && (!(0 <= limit <= 100 && offset >= 0) <==> r == Err(Unprocessable))
  {
    if 0 <= limit <= 100 && offset >= 0 {
      GetMessagesPage(messages, matchId, limit, offset);
    }
  }

  /** The correction changes only the answer to a negative `limit`. */
  lemma ConversationCorrectionIsNarrow(matches: seq<Match>, messages: seq<Message>, matchId: int, userId: int,
                                       limit: int, offset: int)
    ensures limit >= 0 ==>
              GetConversation(matches, messages, matchId, userId, limit, offset)
              == GetConversationAsWritten(matches, messages, matchId, userId, limit, offset)
    ensures limit < 0 ==> GetConversation(matches, messages, matchId, userId, limit, offset) == Err(Unprocessable)
  {
  }

  // ---------------------------------------------------------------------
  // Sending

  /** The two message types `send_message` accepts. */
  predicate KnownKind(kind: string)
  {
    kind == "text" || kind == "song_share"
  }

  /** The shape every stored message has when all of them came through
      `send_message`: a known type, and song data on every song share. */
  predicate WellFormed(messages: seq<Message>)
  {
    forall i :: 0 <= i < |messages| ==>
      KnownKind(messages[i].kind) && (messages[i].kind == "song_share" ==> messages[i].songData.Some?)
  }

  /** The response and the messages table after `send_message`. The guard
      runs first, then the type check, then the song-data check. A
      `SongShareData` model is always truthy, so only a missing one fails. */
  function SendSpec(matches: seq<Match>, messages: seq<Message>, matchId: int, userId: int, content: string,
                    kind: string, songData: Option<SongData>, now: int): (Result<Message>, seq<Message>)
  {
    match VerifyMatchAccess(matches, matchId, userId)
    case Err(e) => (Err(e), messages)
    case Ok(_) =>
      if !KnownKind(kind) then (Err(BadRequest), messages)
      else if kind == "song_share" && songData.None? then (Err(BadRequest), messages)
      else
        var m := Message(|messages| + 1, matchId, userId, content, kind, songData, false, now);
        (Ok(m), messages + [m])
  }

  method SendMessage(db: Db, matchId: int, userId: int, content: string, kind: string,
                     songData: Option<SongData>, now: int) returns (r: Result<Message>)
    requires db.Valid()
    modifies db`messages
    ensures db.Valid()
    ensures (r, db.messages) == SendSpec(db.matches, old(db.messages), matchId, userId, content, kind, songData, now)
  {
    var access := VerifyMatchAccess(db.matches, matchId, userId);
    if access.Err? {
      return Err(access.status);
    }
    if !KnownKind(kind) {
      return Err(BadRequest);
    }
    if kind == "song_share" && songData.None? {
      return Err(BadRequest);
    }
    var m := CreateMessage(db, matchId, userId, content, kind, songData, now);
    return Ok(m);
  }

  /** A message is stored exactly when the guard passes, the type is known
      and a song share carries its song; the stored message is the
      response, unread, from the caller. */
  lemma SendOutcome(matches: seq<Match>, messages: seq<Message>, matchId: int, userId: int, content: string,
                    kind: string, songData: Option<SongData>, now: int)
    ensures var (r, after) := SendSpec(matches, messages, matchId, userId, content, kind, songData, now);
            && (r.Ok? <==> VerifyMatchAccess(matches, matchId, userId).Ok? && KnownKind(kind)
                           && (kind == "song_share" ==> songData.Some?))
            && (r.Ok? ==> after == messages + [r.value] && !r.value.isRead && r.value.senderId == userId
                          && r.value.matchId == matchId && r.value.content == content)
            && (r.Err? ==> after == messages)
            && (VerifyMatchAccess(matches, matchId, userId).Err? ==> r == Err(VerifyMatchAccess(matches, matchId, userId).status))
            && (VerifyMatchAccess(matches, matchId, userId).Ok? && !KnownKind(kind) ==> r == Err(BadRequest))
  {
  }

  /** Sending keeps every stored message well formed. */
  lemma SendKeepsWellFormed(matches: seq<Match>, messages: seq<Message>, matchId: int, userId: int, content: string,
                            kind: string, songData: Option<SongData>, now: int)
    requires WellFormed(messages)
    ensures WellFormed(SendSpec(matches, messages, matchId, userId, content, kind, songData, now).1)
  {
    var after := SendSpec(matches, messages, matchId, userId, content, kind, songData, now).1;
    if after != messages {
      assert forall i :: 0 <= i < |messages| ==> after[i] == messages[i];
    }
  }

  // ---------------------------------------------------------------------
  // Reading

  /** The response (`marked_read`) and the table after `read_messages`. */
  function ReadSpec(matches: seq<Match>, messages: seq<Message>, matchId: int, userId: int): (Result<nat>, seq<Message>)
  {
    match VerifyMatchAccess(matches, matchId, userId)
    case Err(e) => (Err(e), messages)
    case Ok(_) => (Ok(Unread(messages, matchId, userId)), MarkedRead(messages, matchId, userId))
  }

  method ReadMessages(db: Db, matchId: int, userId: int) returns (r: Result<nat>)
    requires db.Valid()
    modifies db`messages
    ensures db.Valid()
    ensures (r, db.messages) == ReadSpec(db.matches, old(db.messages), matchId, userId)
  {
    var access := VerifyMatchAccess(db.matches, matchId, userId);
    if access.Err? {
      return Err(access.status);
    }
    var count := MarkMessagesRead(db, matchId, userId);
    return Ok(count);
  }

  /** Reading twice: the second read marks nothing, and after the first the
      reader has nothing unread in the match. */
  lemma ReadTwice(matches: seq<Match>, messages: seq<Message>, matchId: int, userId: int)
    requires VerifyMatchAccess(matches, matchId, userId).Ok?
    ensures var after := ReadSpec(matches, messages, matchId, userId).1;
            && ReadSpec(matches, after, matchId, userId).0 == Ok(0)
            && Unread(after, matchId, userId) == 0
  {
    MarkTwiceReturnsZero(messages, matchId, userId);
  }

  // ---------------------------------------------------------------------
  // Unread totals

  function MatchIds(ms: seq<Match>): (ids: seq<int>)
    ensures |ids| == |ms| && forall i :: 0 <= i < |ms| ==> ids[i] == ms[i].id
  {
    seq(|ms|, i requires 0 <= i < |ms| => ms[i].id)
  }

  /** `unread_count`: the per-match counts over the caller's matches and
      their total. The total sums the counts over the caller's match ids,
      which are distinct, so it is the sum of the dict's values. */
  function UnreadCount(matches: seq<Match>, messages: seq<Message>, userId: int): (int, map<int, int>)
  {
    var ids := MatchIds(GetMatches(matches, userId));
    var byMatch := GetUnreadCount(messages, userId, ids);
    (SumOver(ids, byMatch), byMatch)
  }

  /** The counts are keyed only by the caller's own matches, and the total
      is the number of messages the caller has not read across them. */
  lemma UnreadCountTotal(matches: seq<Match>, messages: seq<Message>, userId: int)
    requires MatchesValid(matches)
    ensures var (total, byMatch) := UnreadCount(matches, messages, userId);
            && (forall k :: k in byMatch ==> exists i :: 0 <= i < |matches| && matches[i].id == k && Involves(matches[i], userId))
            && (forall k :: k in byMatch ==> byMatch[k] == Unread(messages, k, userId) && byMatch[k] > 0)
            && total == UnreadIn(messages, MatchIds(GetMatches(matches, userId)), userId)
  {
    var ms := GetMatches(matches, userId);
    var ids := MatchIds(ms);
    GetMatchesNewestFirst(matches, userId);
    assert NoDup(ids);
    UnreadCountSum(messages, userId, ids);
    forall k | k in GetUnreadCount(messages, userId, ids)
      ensures exists i :: 0 <= i < |matches| && matches[i].id == k && Involves(matches[i], userId)
    {
      var j :| 0 <= j < |ids| && ids[j] == k;
      assert ms[j] in matches && Involves(ms[j], userId);
      var i :| 0 <= i < |matches| && matches[i] == ms[j];
    }
  }

  // ---------------------------------------------------------------------
  // Song search

  datatype SongResult = SongResult(
    trackName: string,
    artist: string,
    album: string,
    imageUrl: Option<string>,
    spotifyUrl: Option<string>,
    spotifyId: string)

  function Song(trackName: string, artist: string, album: string, spotifyId: string): SongResult
  {
    SongResult(trackName, artist, album, None, None, spotifyId)
  }

  /** `MOCK_SONG_RESULTS`. */
  const MockSongs: seq<SongResult> := [
    Song("Blinding Lights", "The Weeknd", "After Hours", "0VjIjW4GlUZAMYd2vXMi4"),
    Song("Bohemian Rhapsody", "Queen", "A Night at the Opera", "4u7EnebtmKWzUH433cf5Qv"),
    Song("Levitating", "Dua Lipa", "Future Nostalgia", "39LLxExYz6ewLAo9BKIMH8"),
    Song("Heat Waves", "Glass Animals", "Dreamland", "02MWAaffLxlfxAUY7c5dvx"),
    Song("As It Was", "Harry Styles", "Harry's House", "4LRPiXqCikLlN15c3yImP7"),
    Song("Pink + White", "Frank Ocean", "Blonde", "3xKsf9qdS1CyvXSMEid6g8"),
    Song("505", "Arctic Monkeys", "Favourite Worst Nightmare", "0BxE4FqsDD1Ot4YuBXwAPp"),
    Song("Redbone", "Childish Gambino", "Awaken, My Love!", "0wXuerDYIBRqxJGzjEmjY4"),
    Song("Electric Feel", "MGMT", "Oracular Spectacular", "3FtYbEfBqAlGO46NUDQSAt"),
    Song("Ivy", "Frank Ocean", "Blonde", "2ZWlPOoWh0626oTaHrnl2a")
  ]

  /** The lowercased query is a substring of the lowercased track name or artist. */
  predicate Hit(s: SongResult, query: string)
  {
    Contains(Lower(s.trackName), query) || Contains(Lower(s.artist), query)
  }

  /** The pool has ten distinct entries. */
  lemma MockSongsShape()
    ensures |MockSongs| == 10 && NoDup(MockSongs)
  {
  }

  /** The filter of `search_song` over a pool: the entries the query hits,
      in pool order, at most 10. An empty `q` fails its `min_length=1`
      with 422. */
  function Search(pool: seq<SongResult>, q: string): (r: Result<seq<SongResult>>)
    ensures q == [] <==> r == Err(Unprocessable)
    ensures r.Ok? ==> |r.value| <= 10
    ensures r.Ok? ==> forall i :: 0 <= i < |r.value| ==> r.value[i] in pool && Hit(r.value[i], Lower(q))
  {
    if q == [] then Err(Unprocessable)
    else
      var hits := Filter(pool, (s: SongResult) => Hit(s, Lower(q)));
      Ok(hits[..Min(10, |hits|)])
  }

  /** `search_song`. The mock and the non-mock branches filter the same
      pool, so the Spotify mode does not matter. */
  function SearchSong(q: string): Result<seq<SongResult>>
  {
    Search(MockSongs, q)
  }

  /** On a pool of at most ten distinct entries the cut at 10 never drops a
      hit: every entry the query hits is returned, in pool order. */
  lemma SearchComplete(pool: seq<SongResult>, q: string)
    requires q != [] && |pool| <= 10 && NoDup(pool)
    ensures forall s :: s in pool && Hit(s, Lower(q)) ==> s in Search(pool, q).value
    ensures forall i, j :: 0 <= i < j < |Search(pool, q).value| ==>
              FirstIndex(pool, Search(pool, q).value[i]) < FirstIndex(pool, Search(pool, q).value[j])
  {
    var p := (s: SongResult) => Hit(s, Lower(q));
    var hits := Filter(pool, p);
    assert hits[..Min(10, |hits|)] == hits;
    forall i, j | 0 <= i < j < |hits|
      ensures FirstIndex(pool, hits[i]) < FirstIndex(pool, hits[j])
    {
      FilterKeepsOrder(pool, p, i, j);
    }
  }

  /** Every song of the pool that the query hits is found, in pool order. */
  lemma SearchSongComplete(q: string)
    requires q != []
    ensures forall s :: s in MockSongs && Hit(s, Lower(q)) ==> s in SearchSong(q).value
    ensures forall i, j :: 0 <= i < j < |SearchSong(q).value| ==>
              FirstIndex(MockSongs, SearchSong(q).value[i]) < FirstIndex(MockSongs, SearchSong(q).value[j])
  {
    MockSongsShape();
    SearchComplete(MockSongs, q);
  }

  /** The search ignores the case of the query. */
  lemma SearchCaseInsensitive(pool: seq<SongResult>, q: string, q': string)
    requires Lower(q) == Lower(q')
    ensures Search(pool, q) == Search(pool, q')
  {
    assert |q| == |Lower(q)| == |q'|;
  }
}
