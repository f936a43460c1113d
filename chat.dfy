/** The chat endpoints: `processMessage` answers one message and logs the turn, `getChatHistory`
    pages the log newest first and hands each page back oldest first. */
module ChatController {
  import opened Wrappers
  import opened Text
  import opened Sorting
  import opened IntentModel
  import opened IntentCollection
  import opened Resolver
  import opened ChatLog

  /** `processMessage`'s answer: the trimmed message, the reply and the time of the logged turn
      (200), or the schema error passed on to the error handler (500). */
  datatype ProcessOutcome =
    | Replied(userMessage: string, botReply: string, timestamp: int)
    | ProcessFailed(error: ChatError)

  function ProcessStatus(r: ProcessOutcome): int
  {
    if r.Replied? then 200 else 500
  }

  /** The effect of `processMessage` on the log `chats`, given the intents as the store enumerates
      them, the next identifier and the current time. */
  function Process(chats: seq<Chat>, intents: seq<Intent>, message: string, id: nat, now: int): (seq<Chat>, ProcessOutcome)
  {
    var userMessage := Trim(message);
    var botReply := Reply(message, intents);
    match StoreChat(chats, userMessage, botReply, id, now)
    case ChatWritten(t, c) => (t, Replied(userMessage, botReply, c.timestamp))
    case ChatFailed(e) => (chats, ProcessFailed(e))
  }

  /** POST /api/chat */
  method ProcessMessage(store: Collection, log: ChatCollection, message: string, now: int) returns (r: ProcessOutcome)
    requires log.Valid()
    modifies log
    ensures log.Valid()
    ensures (log.chats, r) == Process(old(log.chats), store.intents, message, old(log.nextId), now)
    ensures store.intents == old(store.intents)
  {
    var userMessage := Trim(message);
    var intents := store.Find();
    var botReply := ResolveReply(message, intents);
    var w := log.Save(userMessage, botReply, now);
    r := if w.ChatWritten? then Replied(userMessage, botReply, w.chat.timestamp) else ProcessFailed(w.error);
  }

  /** `getChatHistory`'s answer: the page oldest first, the size of the whole log, and the limit
      and skip used (200); or the database's refusal of a negative skip (500). */
  datatype HistoryOutcome =
    | History(chats: seq<Chat>, total: nat, limit: int, skip: int)
    | HistoryFailed

  /** `parseInt(req.query.limit) || 50`, where `None` stands for a query value that does not parse
      (`NaN`), including an absent one. */
  function LimitParam(q: Option<int>): int
  {
    if q.None? || q.value == 0 then 50 else q.value
  }

  /** `parseInt(req.query.skip) || 0` */
  function SkipParam(q: Option<int>): int
  {
    if q.None? then 0 else q.value
  }

  /** The answer of `getChatHistory` for the log `chats`. */
  function HistoryOf(chats: seq<Chat>, limitQ: Option<int>, skipQ: Option<int>): HistoryOutcome
  {
    var limit := LimitParam(limitQ);
    var skip := SkipParam(skipQ);
    match Page(chats, limit, skip)
    case None => HistoryFailed
    case Some(page) => History(Reverse(page), |chats|, limit, skip)
  }

  /** GET /api/chat/history */
  method GetChatHistory(log: ChatCollection, limitQ: Option<int>, skipQ: Option<int>) returns (r: HistoryOutcome)
    ensures r == HistoryOf(log.chats, limitQ, skipQ)
  {
    var limit := LimitParam(limitQ);
    var skip := SkipParam(skipQ);
    var page := log.FindPage(limit, skip);
    if page.None? {
      return HistoryFailed;
    }
    var total := log.CountDocuments();
    r := History(Reverse(page.value), total, limit, skip);
  }

  // ---------------------------------------------------------------------------------------------
  // Lemmas about `processMessage`

  /** Under the store invariant, a message that is not blank is answered with status 200 and
      exactly one chat is appended to the log: the trimmed message in its original case, the
      reply the resolver chose, and the current time. */
  lemma ProcessAppendsOneTurn(chats: seq<Chat>, intents: seq<Intent>, message: string, id: nat, now: int)
    requires StoreInvariant(intents) && Trim(message) != []
    ensures var (t, r) := Process(chats, intents, message, id, now);
      && r == Replied(Trim(message), Reply(message, intents), now) && ProcessStatus(r) == 200
      && t == chats + [Chat(id, Trim(message), Reply(message, intents), now)]
  {
    ReplyIsTrimmedText(message, intents);
    TrimIdempotent(message);
    TrimOfTrimmed(Reply(message, intents));
  }

  /** Under the store invariant, processing fails exactly when the message is blank after
      trimming (the chat schema requires a message); then nothing is logged and the status is 500. */
  lemma ProcessFailsIffBlank(chats: seq<Chat>, intents: seq<Intent>, message: string, id: nat, now: int)
    requires StoreInvariant(intents)
    ensures var (t, r) := Process(chats, intents, message, id, now);
      && (r.ProcessFailed? <==> Trim(message) == [])
      && (r.ProcessFailed? ==> t == chats && ProcessStatus(r) == 500)
  {
    ReplyIsTrimmedText(message, intents);
    TrimIdempotent(message);
    TrimOfTrimmed(Reply(message, intents));
  }

  /** Whatever the outcome, the log grows by at most one chat and keeps its earlier chats. */
  lemma ProcessExtendsLog(chats: seq<Chat>, intents: seq<Intent>, message: string, id: nat, now: int)
    ensures var t := Process(chats, intents, message, id, now).0;
      (t == chats) || (|t| == |chats| + 1 && t[..|chats|] == chats)
  {
    var w := StoreChat(chats, Trim(message), Reply(message, intents), id, now);
    StoreChatWrites(chats, Trim(message), Reply(message, intents), id, now);
    if w.ChatWritten? {
      assert (chats + [w.chat])[..|chats|] == chats;
    }
  }

  // ---------------------------------------------------------------------------------------------
  // Lemmas about `getChatHistory`

  /** The limit is 50 when the query value is absent, does not parse, or is 0; otherwise it is the
      parsed value. The skip is 0 when absent or unparsable. */
  lemma QueryDefaults(limitQ: Option<int>, skipQ: Option<int>)
    ensures LimitParam(limitQ) != 0
    ensures LimitParam(limitQ) == 50 <==> limitQ.None? || limitQ.value == 0 || limitQ.value == 50
    ensures skipQ.None? ==> SkipParam(skipQ) == 0
    ensures skipQ.Some? ==> SkipParam(skipQ) == skipQ.value
  {
  }

  /** A negative skip is refused by the database and answered with 500; any other query succeeds. */
  lemma HistoryFailsIffNegativeSkip(chats: seq<Chat>, limitQ: Option<int>, skipQ: Option<int>)
    ensures HistoryOf(chats, limitQ, skipQ).HistoryFailed? <==> SkipParam(skipQ) < 0
  {
  }

  /** The page holds at most `limit` chats (by absolute value): as many as the log has past the
      first `skip`, up to that bound. `total` counts the whole log. */
  lemma HistoryPageSize(chats: seq<Chat>, limitQ: Option<int>, skipQ: Option<int>)
    requires HistoryOf(chats, limitQ, skipQ).History?
    ensures var h := HistoryOf(chats, limitQ, skipQ);
      && h.total == |chats|
      && h.skip >= 0
      && |h.chats| <= Abs(h.limit)
      && |h.chats| == Min(Abs(h.limit), if h.skip <= |chats| then |chats| - h.skip else 0)
  {
    HistoryIsReversedPage(chats, limitQ, skipQ);
    PageIsWindow(chats, LimitParam(limitQ), SkipParam(skipQ));
  }

  /** The page's timestamps ascend: the newest chat of the page comes last. */
  lemma HistoryPageAscends(chats: seq<Chat>, limitQ: Option<int>, skipQ: Option<int>)
    requires HistoryOf(chats, limitQ, skipQ).History?
    ensures SortedAsc(HistoryOf(chats, limitQ, skipQ).chats, Timestamp)
  {
    HistoryIsReversedPage(chats, limitQ, skipQ);
    var page := Page(chats, LimitParam(limitQ), SkipParam(skipQ)).value;
    PageIsWindow(chats, LimitParam(limitQ), SkipParam(skipQ));
    ReverseOfDescIsAsc(page, Timestamp);
  }

  /** A successful history is the reversed page with the log's size. */
  lemma HistoryIsReversedPage(chats: seq<Chat>, limitQ: Option<int>, skipQ: Option<int>)
    requires HistoryOf(chats, limitQ, skipQ).History?
    ensures SkipParam(skipQ) >= 0
    ensures HistoryOf(chats, limitQ, skipQ) ==
      History(Reverse(Page(chats, LimitParam(limitQ), SkipParam(skipQ)).value), |chats|, LimitParam(limitQ), SkipParam(skipQ))
  {
  }

  /** The chats of a successful history (`HistoryIsReversedPage`) for `limit` and `skip` are
      exactly those ranked `skip + 1` to `skip + |page|` in descending timestamp order, handed
      back in reverse. */
  lemma HistoryPageIsRankWindow(chats: seq<Chat>, limit: int, skip: int)
    requires skip >= 0
    ensures var r := Reverse(Page(chats, limit, skip).value);
      var sorted := SortDesc(chats, Timestamp);
      forall k :: 0 <= k < |r| ==> r[k] == sorted[skip + |r| - 1 - k]
  {
    var sorted := SortDesc(chats, Timestamp);
    assert Page(chats, limit, skip).value == sorted[Min(skip, |sorted|)..Min(skip + Abs(limit), |sorted|)];
    ReversedWindow(sorted, limit, skip);
  }

  /** The reverse of the window of `sorted` at rank `skip`, read from its end. */
  lemma ReversedWindow(sorted: seq<Chat>, limit: int, skip: nat)
    ensures var r := Reverse(sorted[Min(skip, |sorted|)..Min(skip + Abs(limit), |sorted|)]);
      forall k :: 0 <= k < |r| ==> r[k] == sorted[skip + |r| - 1 - k]
  {
    var lo, hi := Min(skip, |sorted|), Min(skip + Abs(limit), |sorted|);
    var page := sorted[lo..hi];
    var r := Reverse(page);
    forall k | 0 <= k < |r| ensures r[k] == sorted[skip + |r| - 1 - k] {
      assert lo == skip;
      assert r[k] == page[|page| - 1 - k];
    }
  }

  /** The page is drawn from the log: every chat it shows is a logged chat, and none more often
      than the log holds it. */
  lemma HistoryPageFromLog(chats: seq<Chat>, limitQ: Option<int>, skipQ: Option<int>)
    requires HistoryOf(chats, limitQ, skipQ).History?
    ensures multiset(HistoryOf(chats, limitQ, skipQ).chats) <= multiset(chats)
  {
    var limit := LimitParam(limitQ);
    var skip := SkipParam(skipQ);
    var sorted := SortDesc(chats, Timestamp);
    var lo := Min(skip, |sorted|);
    var hi := Min(skip + Abs(limit), |sorted|);
    var page := sorted[lo..hi];
    ReversePermutes(page);
    SliceMultiset(sorted, lo, hi);
  }

  /** A slice of a sequence holds no element more often than the sequence does. */
  lemma SliceMultiset<T>(s: seq<T>, lo: nat, hi: nat)
    requires lo <= hi <= |s|
    ensures multiset(s[lo..hi]) <= multiset(s)
  {
    assert s == s[..lo] + s[lo..hi] + s[hi..];
  }

  /** `total` does not depend on the page asked for. */
  lemma HistoryTotalIndependent(chats: seq<Chat>, l1: Option<int>, s1: Option<int>, l2: Option<int>, s2: Option<int>)
    requires HistoryOf(chats, l1, s1).History? && HistoryOf(chats, l2, s2).History?
    ensures HistoryOf(chats, l1, s1).total == HistoryOf(chats, l2, s2).total == |chats|
  {
  }
}
