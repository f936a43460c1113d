/** The request validators that run before the chat and admin controllers: ordered chains of
    guards, each answering 400 with its own message, the first failing guard winning. */
module Validator {
  import opened Text
  import opened IntentModel
  import opened AdminController
  import opened ChatController
  import opened ChatLog

  /** A field of the request body: absent (or `null`), a string, or a value of another type. */
  datatype Field = Absent | Str(s: string) | NonString(truthy: bool)

  /** `next()`, or a 400 answer with the message of the first failed guard. */
  datatype Verdict = Pass | Reject(message: string)

  const MessageRequired := "Message is required and must be a string"
  const MessageBlank := "Message cannot be empty"
  const MessageTooLong := "Message is too long (max 500 characters)"
  const MaxMessageLength := 500
  const KeywordRequired := "Keyword is required and must be a string"
  const ResponseRequired := "Response is required and must be a string"
  const IntentBlank := "Keyword and response cannot be empty"

  function VerdictStatus(v: Verdict): int
  {
    if v.Pass? then 200 else 400
  }

  /** The negation of `!x || typeof x !== 'string'`: a string that is not empty (the empty string
      is falsy). */
  predicate NonEmptyString(f: Field)
  {
    f.Str? && f.s != []
  }

  /** `validateChatMessage`: a message passes exactly when it is a string that is not all white
      space and has at most the maximum number of characters, counted before trimming. */
  function ValidateChatMessage(message: Field): (v: Verdict)
    ensures v == Pass <==> message.Str? && !AllSpace(message.s) && |message.s| <= MaxMessageLength
  {
    if !NonEmptyString(message) then Reject(MessageRequired)
    else if Trim(message.s) == [] then Reject(MessageBlank)
    else if |message.s| > MaxMessageLength then Reject(MessageTooLong)
    else Pass
  }

  /** `validateIntent`: an intent passes exactly when both fields are strings that are not all
      white space. */
  function ValidateIntent(keyword: Field, response: Field): (v: Verdict)
    ensures v == Pass <==> keyword.Str? && response.Str? && !AllSpace(keyword.s) && !AllSpace(response.s)
  {
    if !NonEmptyString(keyword) then Reject(KeywordRequired)
    else if !NonEmptyString(response) then Reject(ResponseRequired)
    else if Trim(keyword.s) == [] || Trim(response.s) == [] then Reject(IntentBlank)
    else Pass
  }

  // ---------------------------------------------------------------------------------------------
  // Lemmas

  /** Each guard of `validateChatMessage` answers exactly for the inputs that pass the guards
      before it and fail its own test; a message passes exactly when it is a non-blank string of at
      most 500 characters, counted before trimming. */
  lemma ChatMessageVerdicts(message: Field)
    ensures ValidateChatMessage(message) == Reject(MessageRequired) <==>
      message.Absent? || message.NonString? || message == Str([])
    ensures ValidateChatMessage(message) == Reject(MessageBlank) <==>
      message.Str? && message.s != [] && AllSpace(message.s)
    ensures ValidateChatMessage(message) == Reject(MessageTooLong) <==>
      message.Str? && !AllSpace(message.s) && |message.s| > 500
    ensures ValidateChatMessage(message) == Pass <==>
      message.Str? && !AllSpace(message.s) && |message.s| <= 500
  {
  }

  /** Exactly 500 characters pass; a leading space that takes the message to 501 characters is
      rejected even though the trimmed message has 500. */
  lemma LengthLimitCountsUntrimmed()
    ensures ValidateChatMessage(Str(seq(500, _ => 'a'))) == Pass
    ensures ValidateChatMessage(Str([' '] + seq(500, _ => 'a'))) == Reject(MessageTooLong)
  {
    var a := seq(500, _ => 'a');
    assert !IsSpace(a[0]);
    var b := [' '] + a;
    assert !IsSpace(b[1]);
  }

  /** Each guard of `validateIntent` answers exactly for the inputs that pass the guards before it;
      the keyword is checked before the response, and there is no length limit. */
  lemma IntentVerdicts(keyword: Field, response: Field)
    ensures ValidateIntent(keyword, response) == Reject(KeywordRequired) <==> !NonEmptyString(keyword)
    ensures ValidateIntent(keyword, response) == Reject(ResponseRequired) <==>
      NonEmptyString(keyword) && !NonEmptyString(response)
    ensures ValidateIntent(keyword, response) == Reject(IntentBlank) <==>
      NonEmptyString(keyword) && NonEmptyString(response) &&
      (AllSpace(keyword.s) || AllSpace(response.s))
    ensures ValidateIntent(keyword, response) == Pass <==>
      keyword.Str? && response.Str? && !AllSpace(keyword.s) && !AllSpace(response.s)
  {
  }

  /** A message the validator passes is answered: under the store invariant, `processMessage`
      then logs one turn and answers 200. */
  lemma PassedMessageIsAnswered(message: string, chats: seq<Chat>, intents: seq<Intent>, id: nat, now: int)
    requires StoreInvariant(intents)
    requires ValidateChatMessage(Str(message)) == Pass
    ensures ProcessStatus(Process(chats, intents, message, id, now).1) == 200
  {
    ProcessFailsIffBlank(chats, intents, message, id, now);
  }

  /** An intent the validator passes is stored: under the store invariant, `addIntent` then
      answers 200 or 201, never 500. */
  lemma PassedIntentIsStored(keyword: string, response: string, s: seq<Intent>, id: nat, now: int)
    requires StoreInvariant(s)
    requires ValidateIntent(Str(keyword), Str(response)) == Pass
    ensures AddStatus(Upsert(s, keyword, response, id, now).1) in {200, 201}
  {
    UpsertFailsIff(s, keyword, response, id, now);
    NormalizeEmptyIff(keyword);
  }
}
