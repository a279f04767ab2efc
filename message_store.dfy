/** The chat messages of a match (`crud/message.py`): one insert, one bulk
    update and two queries. */
module MessageStore {
  import opened Base
  import opened Sorting
  import opened Tables

  /** `create_message`: appends the message; it starts unread and carries
      the insertion time. */
  method CreateMessage(db: Db, matchId: int, senderId: int, content: string, kind: string,
                       songData: Option<SongData>, now: int) returns (m: Message)
    requires db.Valid()
    modifies db`messages
    ensures db.Valid()
    ensures m == Message(|old(db.messages)| + 1, matchId, senderId, content, kind, songData, false, now)
    ensures db.messages == old(db.messages) + [m]
  {
    m := Message(|db.messages| + 1, matchId, senderId, content, kind, songData, false, now);
    db.messages := db.messages + [m];
  }

  // ---------------------------------------------------------------------
  // Reading a conversation

  /** The sort key of `order_by(created_at.asc())`, negated for the
      descending stable sort. */
  function Earliness(m: Message): int
  {
    -m.createdAt
  }

  function InMatch(messages: seq<Message>, matchId: int): seq<Message>
  {
    Filter(messages, (m: Message) => m.matchId == matchId)
  }

  /** All messages of the match, oldest first; messages with the same
      timestamp stay in table order. */
  function Conversation(messages: seq<Message>, matchId: int): (r: seq<Message>)
    ensures multiset(r) == multiset(InMatch(messages, matchId))
    ensures forall i, j :: 0 <= i < j < |r| ==> r[i].createdAt <= r[j].createdAt
    ensures forall t :: WithKey(r, Earliness, t) == WithKey(InMatch(messages, matchId), Earliness, t)
  {
    var mine := InMatch(messages, matchId);
    SortDescCorrect(mine, Earliness);
    SortDesc(mine, Earliness)
  }

  /** The conversation holds exactly the messages of the match. */
  lemma ConversationMembers(messages: seq<Message>, matchId: int)
    ensures var r := Conversation(messages, matchId);
            && (forall i :: 0 <= i < |r| ==> r[i] in messages && r[i].matchId == matchId)
            && (forall m :: m in messages && m.matchId == matchId ==> m in r)
  {
    var r := Conversation(messages, matchId);
    var mine := InMatch(messages, matchId);
    forall i | 0 <= i < |r| ensures r[i] in mine {
      assert r[i] in multiset(r);
    }
    forall m | m in messages && m.matchId == matchId ensures m in r {
      assert m in multiset(mine);
    }
  }

  /** SQL `OFFSET offset LIMIT limit` on SQLite: a negative offset skips
      nothing and a negative limit places no bound. */
  function Page<T>(s: seq<T>, offset: int, limit: int): (r: seq<T>)
    ensures var k := if offset <= 0 then 0 else Min(offset, |s|);
            && k + |r| <= |s| && r == s[k..k + |r|]
            && (limit < 0 ==> |r| == |s| - k)
            && (limit >= 0 ==> |r| == Min(limit, |s| - k))
  {
    var k := if offset <= 0 then 0 else Min(offset, |s|);
    var rest := s[k..];
    if limit < 0 then rest else rest[..Min(limit, |rest|)]
  }

  /** `get_messages(db, match_id, limit, offset)`. */
  function GetMessages(messages: seq<Message>, matchId: int, limit: int, offset: int): seq<Message>
  {
    Page(Conversation(messages, matchId), offset, limit)
  }

  /** A page holds only the match's messages, oldest first, at most `limit`
      of them, and is a contiguous run of the conversation that starts after
      the first `offset` messages. */
  lemma GetMessagesPage(messages: seq<Message>, matchId: int, limit: int, offset: nat)
    ensures var r := GetMessages(messages, matchId, limit, offset);
            var c := Conversation(messages, matchId);
            && (forall i :: 0 <= i < |r| ==> r[i] in messages && r[i].matchId == matchId)
            && (forall i, j :: 0 <= i < j < |r| ==> r[i].createdAt <= r[j].createdAt)
            && (limit >= 0 ==> |r| <= limit)
            && (offset <= |c| ==> r == c[offset..offset + |r|])
            && (offset >= |c| ==> r == [])
  {
    var c := Conversation(messages, matchId);
    ConversationMembers(messages, matchId);
    PageOfConversation(messages, matchId, c, limit, offset);
  }

  /** The same facts for a page of any oldest-first run of the match. */
  lemma PageOfConversation(messages: seq<Message>, matchId: int, c: seq<Message>, limit: int, offset: nat)
    requires forall i :: 0 <= i < |c| ==> c[i] in messages && c[i].matchId == matchId
    requires forall i, j :: 0 <= i < j < |c| ==> c[i].createdAt <= c[j].createdAt
    ensures var r := Page(c, offset, limit);
            && (forall i :: 0 <= i < |r| ==> r[i] in messages && r[i].matchId == matchId)
            && (forall i, j :: 0 <= i < j < |r| ==> r[i].createdAt <= r[j].createdAt)
            && (limit >= 0 ==> |r| <= limit)
            && (offset <= |c| ==> r == c[offset..offset + |r|])
            && (offset >= |c| ==> r == [])
  {
    PageWindow(c, offset, limit);
    WindowKeepsOrder(messages, matchId, c, Page(c, offset, limit), Min(offset, |c|));
  }

  /** A page is the run of `s` that starts after the first `offset` elements. */
  lemma PageWindow<T>(s: seq<T>, offset: nat, limit: int)
    ensures var r := Page(s, offset, limit);
            && Min(offset, |s|) + |r| <= |s|
            && (forall i :: 0 <= i < |r| ==> r[i] == s[Min(offset, |s|) + i])
            && (limit >= 0 ==> |r| <= limit)
            && (offset <= |s| ==> r == s[offset..offset + |r|])
            && (offset >= |s| ==> r == [])
  {
    var r := Page(s, offset, limit);
    var k := Min(offset, |s|);
    assert r == s[k..k + |r|];
    forall i | 0 <= i < |r|
      ensures r[i] == s[k + i]
    {
    }
  }

  /** A run of a conversation keeps its members and its order. */
  lemma WindowKeepsOrder(messages: seq<Message>, matchId: int, c: seq<Message>, r: seq<Message>, k: nat)
    requires k + |r| <= |c| && forall i :: 0 <= i < |r| ==> r[i] == c[k + i]
    requires forall i :: 0 <= i < |c| ==> c[i] in messages && c[i].matchId == matchId
    requires forall i, j :: 0 <= i < j < |c| ==> c[i].createdAt <= c[j].createdAt
    ensures forall i :: 0 <= i < |r| ==> r[i] in messages && r[i].matchId == matchId
    ensures forall i, j :: 0 <= i < j < |r| ==> r[i].createdAt <= r[j].createdAt
  {
    forall i, j | 0 <= i < j < |r|
      ensures r[i].createdAt <= r[j].createdAt
    {
      assert r[i] == c[k + i] && r[j] == c[k + j];
    }
  }

  /** The first page with room for every message is the whole conversation. */
  lemma FirstPageIsWholeConversation(messages: seq<Message>, matchId: int, limit: int)
    requires limit < 0 || limit >= Count(messages, (m: Message) => m.matchId == matchId)
    ensures GetMessages(messages, matchId, limit, 0) == Conversation(messages, matchId)
  {
    var c := Conversation(messages, matchId);
    CountIsFilterLength(messages, (m: Message) => m.matchId == matchId);
    assert |c| == |multiset(c)| == |InMatch(messages, matchId)|;
    assert c[0..|c|] == c;
  }

  /** A new message appears in its match's conversation. */
  lemma CreatedMessageListed(messages: seq<Message>, m: Message)
    ensures m in Conversation(messages + [m], m.matchId)
  {
    ConversationMembers(messages + [m], m.matchId);
  }

  // ---------------------------------------------------------------------
  // Read state

  /** A message the user has not read: in the match, sent by the other
      participant, not yet marked. */
  predicate UnreadBy(m: Message, matchId: int, userId: int)
  {
    m.matchId == matchId && m.senderId != userId && !m.isRead
  }

  function Unread(messages: seq<Message>, matchId: int, userId: int): nat
  {
    Count(messages, (m: Message) => UnreadBy(m, matchId, userId))
  }

  function MarkRead(m: Message, matchId: int, readerId: int): Message
  {
    if UnreadBy(m, matchId, readerId) then m.(isRead := true) else m
  }

  /** The table after the bulk `update({"is_read": True})`. */
  function MarkedRead(messages: seq<Message>, matchId: int, readerId: int): (r: seq<Message>)
    ensures |r| == |messages|
  {
    seq(|messages|, i requires 0 <= i < |messages| => MarkRead(messages[i], matchId, readerId))
  }

  /** `mark_messages_read`: marks every message the reader has not read in
      the match and returns how many there were. */
  method MarkMessagesRead(db: Db, matchId: int, readerId: int) returns (count: nat)
    requires db.Valid()
    modifies db`messages
    ensures db.Valid()
    ensures count == Unread(old(db.messages), matchId, readerId)
    ensures db.messages == MarkedRead(old(db.messages), matchId, readerId)
  {
    count := Unread(db.messages, matchId, readerId);
    db.messages := MarkedRead(db.messages, matchId, readerId);
  }

  /** Exactly the unread messages change, and only in `is_read`. */
  lemma MarkedReadEffect(messages: seq<Message>, matchId: int, readerId: int)
    ensures var r := MarkedRead(messages, matchId, readerId);
            && (forall i :: 0 <= i < |r| ==> r[i].isRead == (messages[i].isRead || UnreadBy(messages[i], matchId, readerId)))
            && (forall i :: 0 <= i < |r| ==> r[i].(isRead := messages[i].isRead) == messages[i])
            && (forall i :: 0 <= i < |r| && !UnreadBy(messages[i], matchId, readerId) ==> r[i] == messages[i])
            && MessagesValid(r) == MessagesValid(messages)
  {
  }

  /** `Count` over a table depends only on the rows the predicate picks. */
  lemma {:induction false} CountSame<T>(s: seq<T>, t: seq<T>, p: T -> bool, q: T -> bool)
    requires |s| == |t|
    requires forall i :: 0 <= i < |s| ==> p(s[i]) == q(t[i])
    ensures Count(s, p) == Count(t, q)
  {
    if s != [] {
      CountSame(s[1..], t[1..], p, q);
    }
  }

  /** After marking, the reader has nothing unread in that match, and their
      unread messages in every other match are untouched. */
  lemma {:induction false} MarkedReadClears(messages: seq<Message>, matchId: int, readerId: int, other: int)
    requires other != matchId
    ensures Unread(MarkedRead(messages, matchId, readerId), matchId, readerId) == 0
    ensures Unread(MarkedRead(messages, matchId, readerId), other, readerId) == Unread(messages, other, readerId)
  {
    var r := MarkedRead(messages, matchId, readerId);
    CountSame(r, messages, (m: Message) => UnreadBy(m, other, readerId), (m: Message) => UnreadBy(m, other, readerId));
  }

  /** A second `mark_messages_read` with the same arguments marks nothing. */
  lemma MarkTwiceReturnsZero(messages: seq<Message>, matchId: int, readerId: int)
    ensures Unread(MarkedRead(messages, matchId, readerId), matchId, readerId) == 0
    ensures MarkedRead(MarkedRead(messages, matchId, readerId), matchId, readerId)
         == MarkedRead(messages, matchId, readerId)
  {
    MarkedReadClears(messages, matchId, readerId, matchId + 1);
  }

  /** A new message is unread for everyone but its sender. */
  lemma CreatedMessageUnread(messages: seq<Message>, m: Message, userId: int)
    requires !m.isRead
    ensures userId != m.senderId ==> Unread(messages + [m], m.matchId, userId) == Unread(messages, m.matchId, userId) + 1
    ensures userId == m.senderId ==> Unread(messages + [m], m.matchId, userId) == Unread(messages, m.matchId, userId)
  {
    CountConcat(messages, [m], (x: Message) => UnreadBy(x, m.matchId, userId));
    assert [m][1..] == [];
  }

  // ---------------------------------------------------------------------
  // Unread counts

  /** `get_unread_count(db, user_id, match_ids)`: grouped by match, only the
      listed matches, and only groups that exist, so a match with nothing
      unread has no key. */
  function GetUnreadCount(messages: seq<Message>, userId: int, matchIds: seq<int>): (r: map<int, int>)
    ensures matchIds == [] ==> r == map[]
    ensures forall k :: k in r <==> k in matchIds && Unread(messages, k, userId) > 0
    ensures forall k :: k in r ==> r[k] == Unread(messages, k, userId) && r[k] > 0
  {
    if matchIds == [] then map[]
    else map k | k in matchIds && Unread(messages, k, userId) > 0 :: Unread(messages, k, userId)
  }

  /** Unread messages in any of the listed matches. */
  function UnreadIn(messages: seq<Message>, matchIds: seq<int>, userId: int): nat
  {
    Count(messages, (m: Message) => m.matchId in matchIds && m.senderId != userId && !m.isRead)
  }

  lemma {:induction false} SumOverAgree(keys: seq<int>, a: map<int, int>, b: map<int, int>)
    requires forall k :: k in keys ==> (k in a <==> k in b) && (k in a ==> a[k] == b[k])
    ensures SumOver(keys, a) == SumOver(keys, b)
  {
    if keys != [] {
      var t := keys[..|keys| - 1];
      assert forall k :: k in t ==> k in keys;
      var x := keys[|keys| - 1];
      assert x in keys;
      SumOverAgree(t, a, b);
      assert SumOver(keys, a) == SumOver(t, a) + (if x in a then a[x] else 0);
      assert SumOver(keys, b) == SumOver(t, b) + (if x in b then b[x] else 0);
    }
  }

  /** Splitting the listed matches into all but the last, and the last. */
  lemma {:induction false} UnreadInSnoc(messages: seq<Message>, t: seq<int>, x: int, userId: int)
    requires x !in t
    ensures UnreadIn(messages, t + [x], userId) == UnreadIn(messages, t, userId) + Unread(messages, x, userId)
  {
    if messages != [] {
      UnreadInSnoc(messages[1..], t, x, userId);
    }
  }

  /** Summing the per-match counts over distinct match ids gives the number
      of unread messages in those matches. */
  lemma {:induction false} UnreadCountSum(messages: seq<Message>, userId: int, matchIds: seq<int>)
    requires NoDup(matchIds)
    ensures SumOver(matchIds, GetUnreadCount(messages, userId, matchIds)) == UnreadIn(messages, matchIds, userId)
  {
    if matchIds == [] {
      assert UnreadIn(messages, matchIds, userId) == 0;
    } else {
      var t, x := matchIds[..|matchIds| - 1], matchIds[|matchIds| - 1];
      assert matchIds == t + [x];
      assert NoDup(t);
      UnreadCountSum(messages, userId, t);
      SumOverAgree(t, GetUnreadCount(messages, userId, matchIds), GetUnreadCount(messages, userId, t));
      UnreadInSnoc(messages, t, x, userId);
    }
  }
}
