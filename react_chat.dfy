/** The React chat page: its own copy of the relative-time labels, the loading of the history into
    the message list (each chat becomes the user's message followed by the bot's), and the submit
    handler, which ignores a blank input or a disabled form. Component state is a class; the
    server's answers and the clock are parameters. */
module ReactChat {
  import opened Wrappers
  import opened Text
  import opened ChatLog
  import WebClient

  /** `formatTime` as the page writes it, with early returns: the same label as the plain
      client's. */
  function FormatTime(nowMs: int, dateMs: int, clock: string): (shown: string)
    ensures shown == WebClient.FormatTime(nowMs, dateMs, clock)
  {
    var diffInSeconds := (nowMs - dateMs) / 1000;
    if diffInSeconds < 60 then "Just now"
    else if diffInSeconds < 3600 then
      var m := diffInSeconds / 60;
      Decimal(m) + " " + (if m == 1 then "minute" else "minutes") + " ago"
    else if diffInSeconds < 86400 then
      var h := diffInSeconds / 3600;
      Decimal(h) + " " + (if h == 1 then "hour" else "hours") + " ago"
    else clock
  }

  /** Both clients label a message the same way. */
  lemma FormatTimeAgreesWithWebClient(nowMs: int, dateMs: int, clock: string)
    ensures FormatTime(nowMs, dateMs, clock) == WebClient.FormatTime(nowMs, dateMs, clock)
    ensures FormatTime(nowMs, dateMs, clock) ==
      WebClient.Render(WebClient.Bucket(WebClient.SecondsBetween(nowMs, dateMs)), clock)
  {
    WebClient.FormatTimeIsBucketed(nowMs, dateMs, clock);
  }

  datatype Kind = UserMessage | BotMessage

  datatype Message = Message(id: string, kind: Kind, text: string, timestamp: int)

  const WelcomeText := "\U{1F44B} Hello! I'm your AI Assistant. How can I help you today?"
  const ErrorText := "Sorry, something went wrong. Please try again."

  /** The initial message list: the welcome message, stamped with the time of the first render. */
  function Welcome(now: int): seq<Message>
  {
    [Message("welcome", BotMessage, WelcomeText, now)]
  }

  /** `chat._id + '-user'` and `chat._id + '-bot'`, with the identifier written in decimal. */
  function UserId(c: Chat): string
  {
    Decimal(c.id) + "-user"
  }

  function BotId(c: Chat): string
  {
    Decimal(c.id) + "-bot"
  }

  function UserPart(c: Chat): Message
  {
    Message(UserId(c), UserMessage, c.userMessage, c.timestamp)
  }

  function BotPart(c: Chat): Message
  {
    Message(BotId(c), BotMessage, c.botReply, c.timestamp)
  }

  /** The messages of a history page, chat by chat: two per chat, the first chat's user message
      and reply leading. */
  function Flatten(chats: seq<Chat>): (msgs: seq<Message>)
    ensures |msgs| == 2 * |chats|
    ensures chats != [] ==> msgs[0] == UserPart(chats[0]) && msgs[1] == BotPart(chats[0])
  {
    if chats == [] then [] else [UserPart(chats[0]), BotPart(chats[0])] + Flatten(chats[1..])
  }

  /** The bot message `handleSubmit` adds: the reply with the server's timestamp, or the error text
      at the time the failure is caught; `answer` is `None` when the request failed or answered
      with an error status. */
  function BotReply(answer: Option<(string, int)>, doneMs: nat): Message
  {
    if answer.Some? then Message(Decimal(doneMs) + "-bot", BotMessage, answer.value.0, answer.value.1)
    else Message(Decimal(doneMs) + "-err", BotMessage, ErrorText, doneMs)
  }

  class ChatView {
    var messages: seq<Message>
    var input: string
    var disabled: bool
    var isTyping: bool

    constructor (now: int)
      ensures messages == Welcome(now) && input == [] && !disabled && !isTyping
    {
      messages := Welcome(now);
      input := [];
      disabled := false;
      isTyping := false;
    }

    /** `loadChatHistory`: `history` is the page of chats when the answer was successful, `None`
        when the request failed. An empty or failed history keeps the current list. */
    method LoadChatHistory(history: Option<seq<Chat>>)
      modifies this
      ensures messages == if history.Some? && history.value != [] then Flatten(history.value) else old(messages)
      ensures input == old(input) && disabled == old(disabled) && isTyping == old(isTyping)
    {
      if history.None? || history.value == [] {
        return;
      }
      var chats := history.value;
      var historyMessages: seq<Message> := [];
      var i := 0;
      while i < |chats|
        invariant 0 <= i <= |chats|
        invariant historyMessages == Flatten(chats[..i])
        invariant unchanged(this)
      {
        FlattenSnoc(chats[..i], chats[i]);
        assert chats[..i + 1] == chats[..i] + [chats[i]];
        historyMessages := historyMessages + [UserPart(chats[i])];
        historyMessages := historyMessages + [BotPart(chats[i])];
        i := i + 1;
      }
      assert chats[..i] == chats;
      messages := historyMessages;
    }

    /** `handleSubmit` at time `nowMs`; `answer` is the server's reply and timestamp, `doneMs` the
        time the answer (or the failure) is handled. */
    method HandleSubmit(answer: Option<(string, int)>, nowMs: nat, doneMs: nat)
      modifies this
      ensures Trim(old(input)) == [] || old(disabled) ==>
        messages == old(messages) && input == old(input) && disabled == old(disabled) && isTyping == old(isTyping)
      ensures Trim(old(input)) != [] && !old(disabled) ==>
        && messages == old(messages) + [Message(Decimal(nowMs) + "-user", UserMessage, Trim(old(input)), nowMs),
                                         BotReply(answer, doneMs)]
        && input == [] && !disabled && !isTyping
    {
      var message := Trim(input);
      if message == [] || disabled {
        return;
      }
      disabled := true;
      messages := messages + [Message(Decimal(nowMs) + "-user", UserMessage, message, nowMs)];
      input := [];
      isTyping := true;
      if answer.Some? {
        isTyping := false;
        messages := messages + [Message(Decimal(doneMs) + "-bot", BotMessage, answer.value.0, answer.value.1)];
      } else {
        isTyping := false;
        messages := messages + [Message(Decimal(doneMs) + "-err", BotMessage, ErrorText, doneMs)];
      }
      disabled := false;
    }
  }

  // ---------------------------------------------------------------------------------------------
  // Lemmas about the flattening

  /** Flattening one more chat appends its two messages. */
  lemma {:induction false} FlattenSnoc(chats: seq<Chat>, c: Chat)
    ensures Flatten(chats + [c]) == Flatten(chats) + [UserPart(c), BotPart(c)]
    decreases |chats|
  {
    if chats != [] {
      assert (chats + [c])[1..] == chats[1..] + [c];
      FlattenSnoc(chats[1..], c);
    } else {
      assert chats + [c] == [c];
    }
  }

  /** `n` chats become `2n` messages: at `2k` the user's message of chat `k`, at `2k + 1` its
      reply, in the order of the page. */
  lemma {:induction false} FlattenShape(chats: seq<Chat>)
    ensures |Flatten(chats)| == 2 * |chats|
    ensures forall k :: 0 <= k < |chats| ==>
      Flatten(chats)[2 * k] == UserPart(chats[k]) && Flatten(chats)[2 * k + 1] == BotPart(chats[k])
  {
    if chats != [] {
      FlattenShape(chats[1..]);
      var f := Flatten(chats);
      var rest := Flatten(chats[1..]);
      assert f == [UserPart(chats[0]), BotPart(chats[0])] + rest;
      forall k | 1 <= k < |chats|
        ensures f[2 * k] == UserPart(chats[k]) && f[2 * k + 1] == BotPart(chats[k])
      {
        assert f[2 * k] == rest[2 * (k - 1)] && f[2 * k + 1] == rest[2 * (k - 1) + 1];
        assert chats[1..][k - 1] == chats[k];
      }
    }
  }

  /** The message ids of a flattened page are pairwise distinct when the chat ids are. */
  lemma FlattenIdsDistinct(chats: seq<Chat>)
    requires forall a, b :: 0 <= a < b < |chats| ==> chats[a].id != chats[b].id
    ensures forall a, b :: 0 <= a < b < |Flatten(chats)| ==> Flatten(chats)[a].id != Flatten(chats)[b].id
  {
    var f := Flatten(chats);
    FlattenShape(chats);
    forall a, b | 0 <= a < b < |f| ensures f[a].id != f[b].id {
      FlattenIdAt(chats, a);
      FlattenIdAt(chats, b);
      var ca, cb := chats[a / 2], chats[b / 2];
      if a / 2 == b / 2 {
        UserIdIsNotBotId(ca, cb);
      } else {
        IdsSeparate(ca, cb);
      }
    }
  }

  /** The message at an even position carries the user id of its chat, the next one the bot id. */
  lemma FlattenIdAt(chats: seq<Chat>, j: nat)
    requires j < 2 * |chats|
    ensures |Flatten(chats)| == 2 * |chats|
    ensures Flatten(chats)[j].id == if j % 2 == 0 then UserId(chats[j / 2]) else BotId(chats[j / 2])
  {
    FlattenShape(chats);
    var k := j / 2;
    assert j == 2 * k || j == 2 * k + 1;
  }

  /** A user id never equals a bot id: they end in different letters. */
  lemma UserIdIsNotBotId(c: Chat, d: Chat)
    ensures UserId(c) != BotId(d)
  {
    var u := UserId(c);
    var b := BotId(d);
    assert u[|u| - 1] == 'r' && b[|b| - 1] == 't';
  }

  /** Chats with different ids get different user ids and different bot ids. */
  lemma IdsSeparate(c: Chat, d: Chat)
    requires c.id != d.id
    ensures UserId(c) != UserId(d) && BotId(c) != BotId(d) && UserId(c) != BotId(d) && BotId(c) != UserId(d)
  {
    UserIdIsNotBotId(c, d);
    UserIdIsNotBotId(d, c);
    if UserId(c) == UserId(d) { SuffixCancels(Decimal(c.id), Decimal(d.id), "-user"); DecimalInjective(c.id, d.id); }
    if BotId(c) == BotId(d) { SuffixCancels(Decimal(c.id), Decimal(d.id), "-bot"); DecimalInjective(c.id, d.id); }
  }

  /** Equal texts with the same ending have equal beginnings. */
  lemma SuffixCancels(a: string, b: string, suffix: string)
    requires a + suffix == b + suffix
    ensures a == b
  {
    assert a == (a + suffix)[..|a|];
    assert b == (b + suffix)[..|b|];
  }
}
