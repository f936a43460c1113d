/** The reply resolver of `processMessage`: the message is trimmed and lower-cased, the intents are
    scanned in the order the store enumerates them (insertion order), and the first intent whose
    keyword occurs in the message as a contiguous block supplies the reply. Keywords are compared
    as stored; the resolver relies on the store having lower-cased them. */
module Resolver {
  import opened Wrappers
  import opened Text
  import opened Search
  import opened IntentModel

  /** The reply when no keyword occurs in the message (one text, written as two literals so that
      its first character is within easy reach of the prover). */
  const Fallback := "I'm sorry, " + "I didn't understand that. Can you please rephrase?"

  /** `message.trim().toLowerCase()` */
  function MatchText(message: string): string
  {
    Lower(Trim(message))
  }

  /** `lowerMessage.includes(intent.keyword)` as a test on intents. */
  function KeywordIn(text: string): Intent -> bool
  {
    (x: Intent) => Contains(text, x.keyword)
  }

  /** The position of the first intent whose keyword occurs in `text`. */
  function FirstMatch(text: string, intents: seq<Intent>): Option<nat>
  {
    FirstWhere(intents, KeywordIn(text))
  }

  /** The reply `processMessage` chooses for `message`. */
  function Reply(message: string, intents: seq<Intent>): (r: string)
    ensures FirstMatch(MatchText(message), intents).None? ==> r == Fallback
    ensures FirstMatch(MatchText(message), intents).Some? ==>
      r == intents[FirstMatch(MatchText(message), intents).value].response
  {
    match FirstMatch(MatchText(message), intents)
    case Some(i) => intents[i].response
    case None => Fallback
  }

  /** The matching loop of `processMessage`: the reply starts as the fallback and is replaced by
      the response of the first intent whose keyword occurs, which ends the scan. */
  method ResolveReply(message: string, intents: seq<Intent>) returns (botReply: string)
    ensures botReply == Reply(message, intents)
  {
    var userMessage := Trim(message);
    var lowerMessage := Lower(userMessage);
    botReply := Fallback;
    var i := 0;
    while i < |intents|
      invariant 0 <= i <= |intents|
      invariant forall j :: 0 <= j < i ==> !Contains(lowerMessage, intents[j].keyword)
      invariant botReply == Fallback
    {
      if Contains(lowerMessage, intents[i].keyword) {
        botReply := intents[i].response;
        FirstMatchAt(lowerMessage, intents, i);
        break;
      }
      i := i + 1;
    }
    if i == |intents| {
      FirstMatchNone(lowerMessage, intents);
    }
  }

  // ---------------------------------------------------------------------------------------------
  // Lemmas

  /** The intent at `i` is the first match when its keyword occurs and no earlier one does. */
  lemma FirstMatchAt(text: string, intents: seq<Intent>, i: nat)
    requires i < |intents| && Contains(text, intents[i].keyword)
    requires forall j :: 0 <= j < i ==> !Contains(text, intents[j].keyword)
    ensures FirstMatch(text, intents) == Some(i)
  {
    var p := KeywordIn(text);
    assert p(intents[i]);
    assert forall j :: 0 <= j < i ==> !p(intents[j]);
  }

  /** There is no first match when no keyword occurs. */
  lemma FirstMatchNone(text: string, intents: seq<Intent>)
    requires forall j :: 0 <= j < |intents| ==> !Contains(text, intents[j].keyword)
    ensures FirstMatch(text, intents).None?
  {
    var p := KeywordIn(text);
    assert forall j :: 0 <= j < |intents| ==> !p(intents[j]);
  }

  /** First match wins: the reply is the response of an intent whose keyword occurs in the
      normalised message, and no intent before it has an occurring keyword. Otherwise the reply is
      the fallback and no keyword occurs at all. */
  lemma ReplyIsFirstMatch(message: string, intents: seq<Intent>)
    ensures var text := MatchText(message);
      || (exists i :: 0 <= i < |intents| && Contains(text, intents[i].keyword)
            && (forall j :: 0 <= j < i ==> !Contains(text, intents[j].keyword))
            && Reply(message, intents) == intents[i].response)
      || ((forall j :: 0 <= j < |intents| ==> !Contains(text, intents[j].keyword))
            && Reply(message, intents) == Fallback)
  {
    var text := MatchText(message);
    var p := KeywordIn(text);
    match FirstMatch(text, intents)
    case Some(i) =>
      assert p(intents[i]);
      forall j | 0 <= j < i ensures !Contains(text, intents[j].keyword) { assert !p(intents[j]); }
    case None =>
      forall j | 0 <= j < |intents| ensures !Contains(text, intents[j].keyword) { assert !p(intents[j]); }
  }

  /** With no intents at all, every message gets the fallback. */
  lemma NoIntentsFallback(message: string)
    ensures Reply(message, []) == Fallback
  {
  }

  /** Matching ignores the case of the message: two messages that lower-case alike get the same
      reply. */
  lemma ReplyIgnoresMessageCase(m1: string, m2: string, intents: seq<Intent>)
    requires Lower(m1) == Lower(m2)
    ensures Reply(m1, intents) == Reply(m2, intents)
  {
    TrimLowerCommute(m1);
    TrimLowerCommute(m2);
  }

  /** An upper-case message matches a lower-case keyword. */
  lemma UpperCaseMessageMatches()
    ensures Reply("HELLO", [Intent(0, "hello", "Hi!", 0)]) == "Hi!"
  {
    UpperCaseMessageText();
    assert OccursAt("hello", "hello", 0);
    FirstMatchAt("hello", [Intent(0, "hello", "Hi!", 0)], 0);
  }

  lemma UpperCaseMessageText()
    ensures MatchText("HELLO") == "hello"
  {
    TrimOfTrimmed("HELLO");
  }

  /** The normalised message has no upper-case letter, so a keyword holding one never matches:
      the resolver depends on the store keeping keywords lower case. */
  lemma UpperKeywordNeverMatches(message: string, k: string)
    requires !NoUpper(k)
    ensures !Contains(MatchText(message), k)
  {
    var text := MatchText(message);
    LowerHasNoUpper(Trim(message));
    forall i: nat ensures !OccursAt(text, k, i) {
      if i + |k| <= |text| {
        NoUpperSlice(text, i, i + |k|);
      }
    }
  }

  /** Under the store invariant every keyword is non-empty, so a message that is blank after
      trimming matches nothing and gets the fallback. An empty keyword would match every message. */
  lemma BlankMessageFallback(message: string, intents: seq<Intent>)
    requires StoreInvariant(intents) && Trim(message) == []
    ensures Reply(message, intents) == Fallback
  {
    var text := MatchText(message);
    assert text == [];
    forall j | 0 <= j < |intents| ensures !Contains(text, intents[j].keyword) {
      assert WellFormed(intents[j]);
      NothingInEmpty(intents[j].keyword);
    }
    FirstMatchNone(text, intents);
  }

  /** Under the store invariant the reply is never blank and is already trimmed: a stored response,
      or the fallback. */
  lemma ReplyIsTrimmedText(message: string, intents: seq<Intent>)
    requires StoreInvariant(intents)
    ensures Reply(message, intents) != [] && IsTrimmed(Reply(message, intents))
  {
    match FirstMatch(MatchText(message), intents)
    case Some(i) =>
      assert WellFormed(intents[i]);
    case None =>
      FallbackIsTrimmed();
  }

  /** The fallback text has no white space at its ends. */
  lemma FallbackIsTrimmed()
    ensures Fallback != [] && IsTrimmed(Fallback)
  {
  }
}
