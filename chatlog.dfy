/** The chat log: one document per processed message, holding the trimmed message, the reply and a
    timestamp. Both text fields are required and trimmed by the schema's setters; the timestamp
    defaults to the time of the write. The collection is an in-memory sequence in insertion order
    with an identifier counter, and each database call the application makes is one method. */
module ChatLog {
  import opened Wrappers
  import opened Text
  import opened Sorting

  datatype Chat = Chat(id: nat, userMessage: string, botReply: string, timestamp: int)

  /** A required text field that is empty once the setters have trimmed it. */
  datatype ChatError = ChatValidationFailed(userMessageMissing: bool, botReplyMissing: bool)

  /** The outcome of one write: the new log and the document written, or the error. */
  datatype ChatWrite = ChatWritten(chats: seq<Chat>, chat: Chat) | ChatFailed(error: ChatError)

  function Timestamp(c: Chat): int
  {
    c.timestamp
  }

  /** `new Chat({ userMessage, botReply }).save()` at time `now` with identifier `id`. */
  function StoreChat(chats: seq<Chat>, userMessage: string, botReply: string, id: nat, now: int): ChatWrite
  {
    var u := Trim(userMessage);
    var b := Trim(botReply);
    if u == [] || b == [] then ChatFailed(ChatValidationFailed(u == [], b == []))
    else
      var c := Chat(id, u, b, now);
      ChatWritten(chats + [c], c)
  }

  /** `Math.abs` */
  function Abs(n: int): nat
  {
    if n < 0 then -n else n
  }

  function Min(a: int, b: int): int
  {
    if a <= b then a else b
  }

  /** `Chat.find().sort({ timestamp: -1 }).limit(limit).skip(skip)`: the database applies the skip
      before the limit whatever the order of the calls, reads a negative limit as its absolute
      value, and rejects a negative skip. */
  function Page(chats: seq<Chat>, limit: int, skip: int): (r: Option<seq<Chat>>)
    ensures r.None? <==> skip < 0
  {
    if skip < 0 then None
    else
      var sorted := SortDesc(chats, Timestamp);
      var lo := Min(skip, |sorted|);
      var hi := Min(skip + Abs(limit), |sorted|);
      Some(sorted[lo..hi])
  }

  /** A page is the window of the descending order that starts at rank `skip`, cut at the end of
      the log and at `limit` chats (by absolute value), and it is itself descending. */
  lemma PageIsWindow(chats: seq<Chat>, limit: int, skip: int)
    requires skip >= 0
    ensures var p := Page(chats, limit, skip).value;
      var sorted := SortDesc(chats, Timestamp);
      && |p| == Min(Abs(limit), if skip <= |chats| then |chats| - skip else 0)
      && (p == [] || skip + |p| <= |sorted|)
      && (forall k :: 0 <= k < |p| ==> p[k] == sorted[skip + k])
      && SortedDesc(p, Timestamp)
  {
    var sorted := SortDesc(chats, Timestamp);
    var lo := Min(skip, |sorted|);
    var hi := Min(skip + Abs(limit), |sorted|);
    SliceOfDesc(sorted, Timestamp, lo, hi);
  }

  /** Identifiers are pairwise distinct and below `n`. */
  ghost predicate IdsFresh(s: seq<Chat>, n: nat)
  {
    (forall k :: 0 <= k < |s| ==> s[k].id < n) &&
    (forall i, j :: 0 <= i < j < |s| ==> s[i].id != s[j].id)
  }

  /** Appending a document numbered `n` keeps identifiers distinct and below `n + 1`. */
  lemma AppendKeepsIdsFresh(s: seq<Chat>, c: Chat, n: nat)
    requires IdsFresh(s, n) && c.id == n
    ensures IdsFresh(s + [c], n + 1)
  {
    var t := s + [c];
    forall k | 0 <= k < |t| ensures t[k].id < n + 1 {
      if k < |s| { assert t[k] == s[k]; }
    }
    forall i, j | 0 <= i < j < |t| ensures t[i].id != t[j].id {
      assert t[i] == s[i];
      if j < |s| { assert t[j] == s[j]; }
    }
  }

  /** What a successful write appends. */
  lemma StoreChatWrites(chats: seq<Chat>, userMessage: string, botReply: string, id: nat, now: int)
    ensures var w := StoreChat(chats, userMessage, botReply, id, now);
      w.ChatWritten? ==> w.chats == chats + [w.chat] && w.chat.id == id
  {
  }

  class ChatCollection {
    var chats: seq<Chat>
    var nextId: nat

    ghost predicate Valid()
      reads this
    {
      IdsFresh(chats, nextId)
    }

    constructor ()
      ensures Valid() && chats == [] && nextId == 0
    {
      chats := [];
      nextId := 0;
    }

    /** `chat.save()` */
    method Save(userMessage: string, botReply: string, now: int) returns (w: ChatWrite)
      requires Valid()
      modifies this
      ensures Valid()
      ensures w == StoreChat(old(chats), userMessage, botReply, old(nextId), now)
      ensures chats == if w.ChatWritten? then w.chats else old(chats)
      ensures nextId == old(nextId) + 1
    {
      w := StoreChat(chats, userMessage, botReply, nextId, now);
      if w.ChatWritten? {
        StoreChatWrites(chats, userMessage, botReply, nextId, now);
        AppendKeepsIdsFresh(chats, w.chat, nextId);
        chats := w.chats;
      }
      nextId := nextId + 1;
    }

    /** `Chat.find().sort({ timestamp: -1 }).limit(limit).skip(skip)` */
    method FindPage(limit: int, skip: int) returns (r: Option<seq<Chat>>)
      ensures r == Page(chats, limit, skip)
    {
      r := Page(chats, limit, skip);
    }

    /** `Chat.countDocuments()` */
    method CountDocuments() returns (n: nat)
      ensures n == |chats|
    {
      n := |chats|;
    }

    /** `Chat.deleteMany({})`: every chat is removed; identifiers are never reused. */
    method DeleteMany()
      requires Valid()
      modifies this
      ensures Valid() && chats == [] && nextId == old(nextId)
    {
      chats := [];
    }
  }
}
