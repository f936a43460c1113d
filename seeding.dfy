/** Start-up of the server: once the database is connected, the chat log is emptied and, when the
    intent collection holds no document at all, the fifteen sample intents are bulk-inserted. A
    failure of the seeding ends the process; a failure of the clearing is only logged. */
module Seeding {
  import opened Wrappers
  import opened Text
  import opened Tables
  import opened Search
  import opened IntentModel
  import opened IntentCollection
  import opened ChatLog
  import opened Resolver

  /** The sample keywords, in the order they are inserted. */
  const SeedKeywords: seq<string> := [
      "hello",
      "hi",
      "hey",
      "how are you",
      "what is your name",
      "help",
      "bye",
      "goodbye",
      "thanks",
      "thank you",
      "weather",
      "time",
      "joke",
      "who created you",
      "what can you do"
    ]

  /** The sample responses, row by row (long texts are written as two literals so that their end
      characters are within easy reach of the prover). */
  const SeedResponses: seq<string> := [
      "Hello! How can I help you today?",
      "Hi there! What can I do for you?",
      "Hey! How are you doing?",
      "I'm doing great, " + "thank you for asking! How about you?",
      "I'm an AI Chatbot " + "Assistant, here to help you!",
      "I can answer your questions! " + "Try asking me about greetings, time, weather, or general queries.",
      "Goodbye! Have a great day!",
      "See you later! Take care!",
      "You're welcome! Happy to help!",
      "You're very welcome!",
      "I don't have real-time " + "weather data, but I hope it's nice where you are!",
      "I don't have access " + "to real-time clock, but you can check your device!",
      "Why did the programmer " + "quit his job? Because he didn't get arrays! \U{1F604}",
      "I was created by a " + "talented developer as a chatbot project!",
      "I can chat with you, " + "answer questions, and learn new responses through my admin panel!"
    ]

  /** `sampleIntents` */
  const SeedData: seq<(string, string)> := Zip(SeedKeywords, SeedResponses)

  /** `seedIntents`: a collection holding any document is left as it is; an empty one receives the
      sample table in one bulk insert, and `ok` is false when that insert throws. */
  method SeedIntents(store: Collection, now: int) returns (ok: bool)
    requires store.Valid()
    modifies store
    ensures store.Valid()
    ensures old(store.intents) != [] ==> store.intents == old(store.intents) && store.nextId == old(store.nextId) && ok
    ensures old(store.intents) == [] ==> (store.intents, ok) == BulkInsert([], SeedData, old(store.nextId), now)
    ensures old(store.intents) == [] ==> store.nextId == old(store.nextId) + |SeedData|
  {
    var count := store.CountDocuments();
    if count == 0 {
      ok := store.InsertMany(SeedData, now);
    } else {
      ok := true;
    }
  }

  /** How `connectDB` ends once connected: the server runs on, or the process exits with status 1
      because the seeding threw. */
  datatype Startup = Running | Exited

  /** `connectDB` after `mongoose.connect` succeeded: `clearChatHistory`, then `seedIntents`. */
  method ConnectDB(store: Collection, log: ChatCollection, now: int) returns (r: Startup)
    requires store.Valid() && log.Valid()
    modifies store, log
    ensures store.Valid() && log.Valid()
    ensures log.chats == [] && log.nextId == old(log.nextId)
    ensures old(store.intents) != [] ==> store.intents == old(store.intents) && store.nextId == old(store.nextId) && r == Running
    ensures old(store.intents) == [] ==> (store.intents, r == Running) == BulkInsert([], SeedData, old(store.nextId), now)
    ensures old(store.intents) == [] ==> store.nextId == old(store.nextId) + |SeedData|
  {
    log.DeleteMany();
    var ok := SeedIntents(store, now);
    r := if ok then Running else Exited;
  }

  // ---------------------------------------------------------------------------------------------
  // Lemmas about the sample table

  /** The sample keywords are pairwise distinct, so the bulk insert meets no duplicate key. */
  lemma SeedKeywordsDistinct()
    ensures Distinct(SeedKeywords)
    ensures KeysDistinct(SeedData)
  {
    SeedTableLengths();
    ZipKeysDistinct(SeedKeywords, SeedResponses);
  }

  lemma SeedTableLengths()
    ensures |SeedKeywords| == |SeedResponses| == |SeedData| == 15
  {
  }

  /** Every sample keyword is non-empty, trimmed and lower case, and every sample response is
      non-empty and trimmed: the sample rows already satisfy the schema, which casts them to
      themselves. */
  lemma SeedRowsWellFormed()
    ensures forall k :: 0 <= k < |SeedData| ==>
      WellFormed(Intent(0, SeedData[k].0, SeedData[k].1, 0))
    ensures Cast(SeedData) == SeedData
  {
    SeedTableLengths();
    SeedKeywordsNormalA();
    SeedKeywordsNormalB();
    SeedKeywordsNormalC();
    SeedResponsesTrimmed();
    forall k | 0 <= k < |SeedData|
      ensures Normalize(SeedData[k].0) == SeedData[k].0 && Trim(SeedData[k].1) == SeedData[k].1
    {
      NormalKeyIsNormal(SeedKeywords[k]);
      TrimOfTrimmed(SeedResponses[k]);
    }
  }

  lemma SeedKeywordsNormalA()
    ensures forall k :: 0 <= k < 5 ==> SeedKeywords[k] != [] && IsNormalKey(SeedKeywords[k])
  {
  }

  lemma SeedKeywordsNormalB()
    ensures forall k :: 5 <= k < 10 ==> SeedKeywords[k] != [] && IsNormalKey(SeedKeywords[k])
  {
  }

  lemma SeedKeywordsNormalC()
    ensures forall k :: 10 <= k < 15 ==> SeedKeywords[k] != [] && IsNormalKey(SeedKeywords[k])
  {
  }

  lemma SeedResponsesTrimmed()
    ensures forall k :: 0 <= k < 15 ==> SeedResponses[k] != [] && IsTrimmed(SeedResponses[k])
  {
  }

  // ---------------------------------------------------------------------------------------------
  // Lemmas about `seedIntents`

  /** The bulk insert into an empty collection succeeds and writes exactly the fifteen sample pairs,
      in order, numbered from the counter; the result meets the collection invariant. */
  lemma SeedFillsEmptyStore(n: nat, now: int)
    ensures BulkInsert([], SeedData, n, now) == (Documents(SeedData, n, now), true)
    ensures var t := Documents(SeedData, n, now);
      && |t| == 15
      && (forall k :: 0 <= k < 15 ==> t[k] == Intent(n + k, SeedKeywords[k], SeedResponses[k], now))
      && StoreInvariant(t)
  {
    SeedTableLengths();
    SeedKeywordsDistinct();
    SeedRowsWellFormed();
    forall k | 0 <= k < |SeedData|
      ensures Normalize(SeedData[k].0) != [] && Trim(SeedData[k].1) != []
      ensures KeywordIndex([], Normalize(SeedData[k].0)).None?
    {
      assert Cast(SeedData)[k] == SeedData[k];
    }
    forall a, b | 0 <= a < b < |SeedData| ensures Normalize(SeedData[a].0) != Normalize(SeedData[b].0) {
      assert Cast(SeedData)[a] == SeedData[a] && Cast(SeedData)[b] == SeedData[b];
    }
    BulkInsertFresh([], SeedData, n, now);
    assert [] + Documents(SeedData, n, now) == Documents(SeedData, n, now);
    BulkInsertKeepsInvariant([], SeedData, n, now);
  }

  /** Seeding twice seeds once: after the first call the collection holds documents, so a second
      `seedIntents` (at the next start) leaves it unchanged. */
  lemma SeedIsIdempotent(n: nat, now: int)
    ensures BulkInsert([], SeedData, n, now).0 != []
  {
    SeedFillsEmptyStore(n, now);
  }

  // ---------------------------------------------------------------------------------------------
  // Lemmas about replies from the seeded collection

  /** The first sample rows as stored. */
  lemma SeedDocumentsHead(n: nat, now: int)
    ensures var docs := Documents(SeedData, n, now);
      && |docs| == 15
      && docs[0].keyword == "hello" && docs[0].response == SeedResponses[0]
      && docs[1].keyword == "hi" && docs[1].response == SeedResponses[1]
      && docs[6].keyword == "bye" && docs[7].keyword == "goodbye"
  {
    SeedTableLengths();
  }

  /** A message that starts with the first sample keyword gets its response, whatever follows. */
  lemma HelloThereGetsHello(n: nat, now: int)
    ensures Reply("hello there", Documents(SeedData, n, now)) == SeedResponses[0]
  {
    var docs := Documents(SeedData, n, now);
    SeedDocumentsHead(n, now);
    HelloThereText();
    HelloThereHoldsHello();
    ReplyFromFirst("hello there", docs);
  }

  lemma HelloThereHoldsHello()
    ensures Contains("hello there", "hello")
  {
    var t := "hello there";
    assert t[..5] == "hello";
    assert OccursAt(t, "hello", 0);
  }

  lemma HelloThereText()
    ensures MatchText("hello there") == "hello there"
  {
    TrimOfTrimmed("hello there");
    NormalKeyIsNormal("hello there");
    NormalIsLower("hello there");
  }

  /** Keywords match inside words: "what is this" holds no greeting, but "hi" occurs in "this", so
      the message gets the response of "hi" rather than the fallback. */
  lemma WhatIsThisGetsHi(n: nat, now: int)
    ensures Reply("what is this", Documents(SeedData, n, now)) == SeedResponses[1]
  {
    var docs := Documents(SeedData, n, now);
    SeedDocumentsHead(n, now);
    WhatIsThisText();
    WhatIsThisHoldsHiOnly();
    ReplyFromSecond("what is this", docs);
  }

  /** The reply when the first keyword occurs in the matching text. */
  lemma ReplyFromFirst(message: string, docs: seq<Intent>)
    requires |docs| >= 1 && Contains(MatchText(message), docs[0].keyword)
    ensures Reply(message, docs) == docs[0].response
  {
    FirstMatchAt(MatchText(message), docs, 0);
  }

  /** The reply when the first keyword does not occur in the matching text and the second does. */
  lemma ReplyFromSecond(message: string, docs: seq<Intent>)
    requires |docs| >= 2
    requires !Contains(MatchText(message), docs[0].keyword) && Contains(MatchText(message), docs[1].keyword)
    ensures Reply(message, docs) == docs[1].response
  {
    FirstMatchAt(MatchText(message), docs, 1);
  }

  lemma WhatIsThisHoldsHiOnly()
    ensures Contains("what is this", "hi") && !Contains("what is this", "hello")
  {
    var t := "what is this";
    assert t[9..11] == "hi" by { assert t[9] == 'h' && t[10] == 'i'; }
    assert OccursAt(t, "hi", 9);
    forall i: nat ensures !OccursAt(t, "hello", i) {
      if i + 5 <= |t| {
        var w := t[i..i + 5];
        assert w[0] == t[i] && w[1] == t[i + 1];
        assert t[i] != 'h' || t[i + 1] != 'e' by {
          assert t[1] == 'h' && t[2] == 'a' && t[9] == 'h' && t[10] == 'i';
          assert i == 0 || i == 1 || i == 2 || i == 3 || i == 4 || i == 5 || i == 6 || i == 7;
        }
      }
    }
  }

  lemma WhatIsThisText()
    ensures MatchText("what is this") == "what is this"
  {
    TrimOfTrimmed("what is this");
    NormalKeyIsNormal("what is this");
    NormalIsLower("what is this");
  }

  /** The "goodbye" intent is never chosen: any message holding "goodbye" also holds "bye", whose
      intent is seeded earlier and wins under first-match. */
  lemma GoodbyeIsShadowed(message: string, n: nat, now: int)
    ensures FirstMatch(MatchText(message), Documents(SeedData, n, now)) != Some(7)
  {
    var text := MatchText(message);
    var docs := Documents(SeedData, n, now);
    SeedDocumentsHead(n, now);
    if Contains(text, "goodbye") {
      assert OccursAt("goodbye", "bye", 4);
      ContainsTransitive(text, "goodbye", "bye");
      assert KeywordIn(text)(docs[6]);
    }
  }
}
