# Keyword chatbot — a verified model

This project models the server and clients of a small keyword chatbot in Dafny. An administrator
curates keyword/response pairs ("intents"), and a user's message is answered with the response of
the first stored keyword that occurs in it. The model covers:

- the intent document and its schema (a trimmed, lower-cased, unique keyword; a trimmed response;
  a creation time);
- the admin endpoints: add-or-update by normalised keyword, list newest first, delete by id;
- the reply resolver and the chat log, with history paging;
- the request validators;
- the training script's per-datum upsert loop and its four counters;
- start-up seeding of fifteen sample intents into an empty store, after the chat log is emptied;
- the user schema, registration, login, the demonstration social login and the partial profile
  update;
- the relative-time labels and submit handlers of the two chat pages (plain JavaScript and React),
  plus the React page's history flattening.

## How the entities are modelled

- Database collections are classes holding a `seq` of documents in insertion order and an
  identifier counter. Each database call the application makes is one method, and is atomic.
- Each endpoint's effect is also a pure function of the collection and the request. The method's
  contract ties the new state and the answer to that function, and the properties are lemmas about
  the function.
- Loops the source has are `while` loops with invariants:
  - the resolver's `for … break` scan;
  - the training loop;
  - the React page's `forEach` over the history.
- A `findOne` filter is cast through the schema's setters before it is matched, as the database
  layer does with query values. An intent lookup therefore uses the lower-cased, trimmed keyword,
  and a user lookup the trimmed name.
- Time is a parameter. Identifiers are natural numbers handed out by a counter, standing in for
  database object ids.
- `bcrypt` is symbolic: `Hashed(p)` stands for any hash of `p`, and `compare(e, h)` holds exactly
  when `h` is `Hashed(e)`.
- The locale clock string `toLocaleTimeString` is an abstract string parameter.
- Text functions are modelled as the source uses them:
  - case mapping covers ASCII only;
  - `trim` removes JavaScript's white-space set;
  - `includes` is contiguous occurrence.
- HTTP answers are datatypes together with their status codes.

Where the design and the code differ, the model follows the code:

- **A blank keyword or response reaching `addIntent`.** It fails schema validation. Because the
  error carries no status, the error handler answers 500 (`controllers/adminController.js:46-48`,
  `middlewares/errorHandler.js:9`). It is not a 400. In practice the validator in front of the
  endpoint rejects such input first.
- **A message that is blank after trimming, reaching `processMessage`.** Its reply is not logged:
  the chat schema requires a message, so the save fails and the answer is 500. Again, the
  validator in front rejects such input first.
- **The order the resolver scans intents in.** `Intent.find()` without a sort has no guaranteed
  order. The model assumes insertion order.

## Model

| member | source | states |
|---|---|---|
| Text.Trim | controllers/chatController.js:11 | the result has no white space at either end, is no longer than the input, and is empty exactly when the input is all white space |
| Text.Lower | controllers/chatController.js:14 | lower-casing keeps the length |
| Text.LowerAt | controllers/chatController.js:14 | lower-casing maps each character on its own: an ASCII capital to its small letter, anything else to itself |
| Text.Contains | controllers/chatController.js:23 | `includes` holds exactly when the keyword occurs as a contiguous block at some index |
| Text.Decimal | public/js/app.js:27 | the rendering of a count is a non-empty run of digits, is "0" exactly for 0, and has no leading zero otherwise |
| Text.DecimalRoundTrip | public/js/app.js:27 | reading the digits back gives the count |
| Text.DecimalInjective | frontend/src/pages/Chat.jsx:64 | different counts render differently |
| Text.TrimLowerCommute | controllers/adminController.js:13 | `toLowerCase().trim()` equals `trim()` then `toLowerCase()`: the lookup key equals the key the schema's setters store |
| Text.TrimIdempotent | models/Intent.js:11 | trimming twice is trimming once |
| Text.NormalizeIdempotent | models/Intent.js:11-12 | normalising a stored keyword again changes nothing |
| Text.NormalIsLower | models/Intent.js:12 | a key in normal form is unchanged by lower-casing |
| Text.NormalizeEmptyIff | controllers/adminController.js:13 | the normalised key is empty exactly when the keyword is blank |
| Text.EmptyOccursEverywhere | controllers/chatController.js:23 | the empty keyword occurs in every message |
| Text.ContainsTransitive | controllers/chatController.js:23 | occurrence is transitive |
| Search.FirstWhere | controllers/chatController.js:22-26 | the index found satisfies the test and no earlier element does; none is found exactly when no element satisfies it |
| Sorting.SortDesc | controllers/adminController.js:57 | the result is sorted by descending key and is a permutation of the input |
| Sorting.Reverse | controllers/chatController.js:71 | same length; element `k` is element `n-1-k` of the input |
| Sorting.ReverseOfDescIsAsc | controllers/chatController.js:62-71 | reversing a descending page yields an ascending one |
| Sorting.ReversePermutes | controllers/chatController.js:71 | reversal keeps the multiset of chats |
| Tables.ZipKeysDistinct | backend/app.js:100-116 | distinct keywords give a table with distinct keys |
| IntentModel.CastIsStoredForm | models/Intent.js:8-18 | every cast pair has its keyword in normal form and its response trimmed, so casting again changes nothing |
| IntentModel.UniqueKeywordCount | models/Intent.js:13 | with unique keywords, a keyword is held by exactly one document when the lookup finds it, and by none otherwise |
| IntentModel.InsertPreservesInvariant | models/Intent.js:7-24 | a successful insert keeps every document well formed and keywords and ids unique |
| IntentModel.InsertWrites | controllers/adminController.js:31-36 | a successful insert appends exactly one document carrying the given id |
| IntentModel.StorePreservesInvariant | models/Intent.js:8-18 | storing cast values with a fresh id keeps the invariant |
| IntentModel.InsertNormalKey | models/Intent.js:11-12 | a key already in normal form is stored unchanged |
| IntentModel.AppendKeepsInvariant | models/Intent.js:13 | appending a well-formed document with a new keyword and a new id keeps the invariant |
| IntentModel.OverwritePreservesInvariant | controllers/adminController.js:18-19 | a successful response overwrite keeps the invariant |
| IntentModel.KeywordIndexAfterOverwrite | controllers/adminController.js:18-19 | an overwrite changes no keyword lookup |
| IntentModel.OverwriteLeavesOne | controllers/adminController.js:16-19 | after overwriting the holder of `k`, exactly one document holds `k`, answering with the trimmed response |
| IntentModel.StoreLeavesOne | controllers/adminController.js:31-36 | after creating a document for `k`, exactly one document holds `k` |
| IntentModel.StoreAppends | controllers/adminController.js:31-36 | a present key and response not yet stored are appended as one document |
| IntentModel.RemoveKeepsInvariant | controllers/adminController.js:79 | removing one document keeps the invariant |
| IntentModel.AppendOrderedKeepsInvariant | backend/app.js:118 | the ordered bulk write keeps the invariant and ids stay below the first id plus the batch size |
| IntentModel.AppendOrderedPrefix | backend/app.js:118 | the ordered bulk write inserts a prefix of the batch, and all of it exactly when it reports success |
| IntentModel.AppendOrderedFresh | backend/app.js:118 | a batch of distinct, new keywords is inserted whole |
| IntentModel.BulkInsertKeepsInvariant | backend/app.js:118 | `insertMany` keeps the invariant and never loses a stored document |
| IntentModel.BulkInsertRejectsBlank | backend/app.js:118 | a blank keyword or response anywhere in the batch writes nothing and fails |
| IntentModel.BulkInsertFresh | backend/app.js:118 | a batch whose cast keys are present, distinct and new, and whose responses are present, is inserted whole, in order, as cast |
| IntentCollection.Collection.Find | controllers/chatController.js:17 | the documents in insertion order |
| IntentCollection.Collection.FindOne | models/Intent.js:8-13 | the filter is cast to its normal form; the result is the first document holding that form, and none is found exactly when no document holds it |
| IntentCollection.Collection.Create | controllers/adminController.js:31-36 | the new state is the insert's, with a fresh id; the invariant is kept |
| IntentCollection.Collection.Save | controllers/adminController.js:18-19 | the new state is the overwrite's; the invariant is kept |
| IntentCollection.Collection.FindByIdAndDelete | controllers/adminController.js:79 | an unknown id changes nothing and returns nothing; a known id removes exactly that document and returns it |
| IntentCollection.Collection.FindSortedByCreatedDesc | controllers/adminController.js:57 | every document, newest first, as a permutation of the collection |
| IntentCollection.Collection.CountDocuments | backend/app.js:95 | the number of documents |
| IntentCollection.Collection.InsertMany | backend/app.js:118 | the new state is the bulk insert's; ids advance by the batch size; the invariant is kept |
| Resolver.Reply | controllers/chatController.js:17-27 | the response of the first intent whose keyword occurs in the normalised message, or the fallback when there is none |
| Resolver.ResolveReply | controllers/chatController.js:11-27 | the `for … break` scan returns exactly that reply |
| Resolver.FirstMatchAt | controllers/chatController.js:22-26 | an occurring keyword with no earlier occurring one is the first match |
| Resolver.FirstMatchNone | controllers/chatController.js:20-27 | with no occurring keyword there is no match |
| Resolver.ReplyIsFirstMatch | controllers/chatController.js:20-27 | either some intent matches, no earlier one does, and its response is the reply; or no keyword occurs and the reply is the fallback |
| Resolver.NoIntentsFallback | controllers/chatController.js:20 | with no intents every message gets the fallback |
| Resolver.ReplyIgnoresMessageCase | controllers/chatController.js:14 | messages that lower-case alike get the same reply |
| Resolver.UpperCaseMessageMatches | controllers/chatController.js:14-24 | "HELLO" matches the keyword "hello" |
| Resolver.UpperKeywordNeverMatches | controllers/chatController.js:23 | a keyword holding an upper-case letter never occurs in a normalised message |
| Resolver.BlankMessageFallback | controllers/chatController.js:20-27 | under the store invariant a blank message gets the fallback |
| Resolver.ReplyIsTrimmedText | controllers/chatController.js:20-24 | under the store invariant the reply is non-empty and trimmed |
| Resolver.FallbackIsTrimmed | controllers/chatController.js:20 | the fallback is non-empty and trimmed |
| ChatLog.Page | controllers/chatController.js:61-64 | the page query fails exactly when the skip is negative |
| ChatLog.PageIsWindow | controllers/chatController.js:61-64 | the page is the window of the descending order starting at rank `skip`, of length at most the limit's absolute value, and is descending |
| ChatLog.StoreChatWrites | controllers/chatController.js:30-35 | a successful save appends exactly the saved chat, with the given id |
| ChatLog.ChatCollection.Save | controllers/chatController.js:30-35 | the new log is the save's; ids stay fresh |
| ChatLog.ChatCollection.FindPage | controllers/chatController.js:61-64 | the page of the current log |
| ChatLog.ChatCollection.CountDocuments | controllers/chatController.js:66 | the number of chats |
| ChatLog.ChatCollection.DeleteMany | backend/app.js:85 | the log is empty; ids are not reused |
| ChatController.ProcessMessage | controllers/chatController.js:8-50 | the new log and the answer are those of processing the message against the stored intents; the intents are not changed |
| ChatController.GetChatHistory | controllers/chatController.js:56-81 | the answer is the history of the current log for the given query |
| ChatController.ProcessAppendsOneTurn | controllers/chatController.js:11-45 | under the store invariant a non-blank message is answered 200, and exactly one chat (trimmed message in its own case, chosen reply, current time) is appended |
| ChatController.ProcessFailsIffBlank | controllers/chatController.js:30-49 | processing fails exactly for a blank message, and then logs nothing and answers 500 |
| ChatController.ProcessExtendsLog | controllers/chatController.js:30-35 | the log is unchanged or grows by one chat, keeping the earlier ones |
| ChatController.QueryDefaults | controllers/chatController.js:58-59 | the limit is 50 when absent, unparsable or 0, and is never 0; the skip defaults to 0 |
| ChatController.HistoryFailsIffNegativeSkip | controllers/chatController.js:61-64 | the history fails exactly when the skip is negative |
| ChatController.HistoryPageSize | controllers/chatController.js:61-72 | a successful history has `total` equal to the log size, a non-negative skip, and holds as many chats as the log has past the first `skip`, at most the absolute value of `limit` |
| ChatController.HistoryPageIsRankWindow | controllers/chatController.js:61-71 | the reversed page for a limit and a non-negative skip holds the chats ranked `skip+1`…`skip+n` by descending timestamp, the last-ranked first |
| ChatController.HistoryPageAscends | controllers/chatController.js:61-71 | the chats of a successful history ascend in timestamp |
| ChatController.HistoryPageFromLog | controllers/chatController.js:61-71 | the page shows no chat more often than the log holds it |
| ChatController.HistoryTotalIndependent | controllers/chatController.js:66-72 | `total` does not depend on limit or skip |
| AdminController.AddIntent | controllers/adminController.js:7-49 | the new collection and the answer are the upsert's; the invariant is kept |
| AdminController.GetAllIntents | controllers/adminController.js:55-70 | every intent, newest first, as a permutation, with `total` equal to their number |
| AdminController.DeleteIntent | controllers/adminController.js:75-98 | the new collection and answer are those of removing the id; the invariant is kept |
| AdminController.UpsertOnHit | controllers/adminController.js:16-27 | on a hit the upsert is the overwrite of the document found |
| AdminController.UpsertOnMiss | controllers/adminController.js:30-44 | on a miss the upsert is the creation from the normalised key |
| AdminController.UpsertFailsIff | controllers/adminController.js:12-48 | the upsert fails exactly when the normalised keyword or trimmed response is empty; it then changes nothing and answers 500 |
| AdminController.UpsertKeyFailsIff | controllers/adminController.js:16-48 | the same, with the key already computed |
| AdminController.UpsertExistingUpdatesInPlace | controllers/adminController.js:16-27 | on an existing key only that document's response changes (id, keyword and creation time stay), nothing is added, and the answer is 200 |
| AdminController.UpsertNewAppendsOne | controllers/adminController.js:31-44 | on a new key exactly one document (the key, the trimmed response, a fresh id, time `now`) is appended, and the answer is 201 |
| AdminController.UpsertKeyNewAppendsOne | controllers/adminController.js:31-44 | the same, with the key already computed |
| AdminController.UpsertLeavesExactlyOne | controllers/adminController.js:12-36 | after a successful upsert exactly one document holds the normalised key, and it answers with the trimmed response |
| AdminController.UpsertKeyLeavesExactlyOne | controllers/adminController.js:12-36 | the same, with the key already computed |
| AdminController.UpsertKeepsInvariant | controllers/adminController.js:12-36 | the upsert keeps documents well formed and keywords and ids unique |
| AdminController.UpsertKeyKeepsInvariant | controllers/adminController.js:12-36 | the same, with the key already computed |
| AdminController.DeleteUnknownChangesNothing | controllers/adminController.js:79-88 | an unknown id answers 404 and changes nothing |
| AdminController.DeleteKnownRemovesIt | controllers/adminController.js:79-93 | a known id answers "deleted", removes exactly that document, and keeps all the others |
| Validator.ValidateChatMessage | middlewares/validator.js:9-40 | a message passes exactly when it is a string, not all white space, of at most 500 characters counted before trimming |
| Validator.ValidateIntent | middlewares/validator.js:45-76 | an intent passes exactly when keyword and response are both strings that are not all white space |
| Validator.ChatMessageVerdicts | middlewares/validator.js:9-40 | each guard answers exactly the inputs that pass the earlier guards and fail its own; a message passes exactly when it is a non-blank string of at most 500 untrimmed characters |
| Validator.LengthLimitCountsUntrimmed | middlewares/validator.js:30-37 | 500 characters pass; 501 characters, one of them a leading space, fail |
| Validator.IntentVerdicts | middlewares/validator.js:45-76 | the keyword is checked before the response, then both for blankness; no length limit |
| Validator.PassedMessageIsAnswered | middlewares/validator.js:39 | under the store invariant a message that passes is answered 200 |
| Validator.PassedIntentIsStored | middlewares/validator.js:75 | under the store invariant an intent that passes is answered 200 or 201, never 500 |
| Training.Step | train-chatbot.js:172-203 | one datum raises exactly one counter by one (none falls), adds at most one document, and advances the identifier counter by at most one, changing the collection's length only when it does |
| Training.Train | train-chatbot.js:166-204 | the new collection and the counters are those of the whole loop; the counters add up to the number of data |
| Training.TrainOne | train-chatbot.js:172-203 | one iteration, with the lookup cast to the keyword's normal form, is the model's step |
| Training.TrainSave | train-chatbot.js:180-183 | an overwrite counts an update, or an error when it fails |
| Training.TrainCreate | train-chatbot.js:192-198 | a create counts an addition, or an error when it fails |
| Training.StepSaves | train-chatbot.js:177-183 | a hit on the keyword's normal form with a different response is an overwrite |
| Training.StepSkips | train-chatbot.js:184-189 | a hit on the keyword's normal form with the same response is a skip |
| Training.StepCreates | train-chatbot.js:190-199 | when the normal form is not stored, the step is a create from the lower-cased keyword |
| Training.StepOnExistingDifferent | train-chatbot.js:177-183 | when the normal form is stored with another response, that response is overwritten in place and the update is counted; a blank response counts an error and changes nothing |
| Training.StepOnExistingSame | train-chatbot.js:184-189 | when the normal form is stored with the same response, nothing is written and the skip is counted |
| Training.StepOnAbsent | train-chatbot.js:190-203 | when the normal form is not stored, one document is created from it and the addition is counted; exactly a blank field counts an error instead |
| Training.CreateOutcome | train-chatbot.js:192-203 | the create branch for a lower-cased keyword, both outcomes |
| Training.CreateOnNormalKey | train-chatbot.js:192-198 | a new key in normal form is stored as it is |
| Training.InsertFreshNormalKey | train-chatbot.js:192-196 | a new key in normal form is inserted as it is |
| Training.CountsAddUp | train-chatbot.js:166-204 | every datum is counted exactly once |
| Training.RerunSkipsAll | train-chatbot.js:184-189 | data whose keywords' normal forms are stored with the same responses is skipped entirely and nothing is written |
| Training.TrainFreshAddsAll | train-chatbot.js:171-204 | fresh data is added whole, as a bulk insert would cast it, and only additions are counted |
| Training.TrainFreshAppends | train-chatbot.js:171-199 | fresh data appends one document per datum, in order, with consecutive ids |
| Training.FreshDocumentsAreCast | train-chatbot.js:192-195 | with keys in normal form, the documents created are those the bulk insert casts |
| Training.TrainTwiceSkips | train-chatbot.js:177-189 | training twice with fresh, trimmed data changes nothing the second time |
| Training.FoundAfterFresh | train-chatbot.js:174-175 | after fresh data is added, each keyword's normal form finds its response |
| Training.FreshDocumentsShape | train-chatbot.js:190-199 | the `k`-th document created holds the `k`-th datum |
| Training.UntrimmedKeywordOverwrites | train-chatbot.js:174-183 | " Hello" with a new response finds the stored "hello", overwrites its response and counts an update |
| Training.NormalizeSpaceHello | models/Intent.js:11-12 | the normal form of " Hello" is "hello" |
| Training.TrainingKeywordsDistinct | train-chatbot.js:13-154 | the training keywords are pairwise distinct |
| Seeding.SeedIntents | backend/app.js:93-121 | a non-empty collection is left as it is; an empty one receives the bulk insert of the sample table |
| Seeding.ConnectDB | backend/app.js:65-79 | the chat log is emptied, then the intents are seeded; a failed seeding exits the process |
| Seeding.SeedKeywordsDistinct | backend/app.js:101-115 | the sample keywords are pairwise distinct |
| Seeding.SeedTableLengths | backend/app.js:100-116 | the sample table has fifteen rows |
| Seeding.SeedRowsWellFormed | backend/app.js:101-115 | every sample row already satisfies the schema, which casts it to itself |
| Seeding.SeedFillsEmptyStore | backend/app.js:97-118 | seeding an empty store succeeds and writes exactly the fifteen sample pairs, in order, meeting the invariant |
| Seeding.SeedIsIdempotent | backend/app.js:95-97 | after seeding, the store is non-empty, so a later seeding changes nothing |
| Seeding.SeedDocumentsHead | backend/app.js:101-108 | the seeded documents begin "hello", "hi", and hold "bye" before "goodbye" |
| Seeding.HelloThereGetsHello | backend/app.js:101-102 | "hello there" gets the response of "hello" |
| Seeding.WhatIsThisGetsHi | backend/app.js:101-102 | "what is this" gets the response of "hi", which occurs inside "this" |
| Seeding.GoodbyeIsShadowed | backend/app.js:107-108 | the "goodbye" intent is never the first match under the seeded order |
| UserModel.SetEmail | models/User.js:15-19 | the set email is present exactly when given, and is trimmed and lower case |
| UserModel.UserDocument.PreSave | models/User.js:37-46 | the password is replaced by its hash when modified and non-empty; nothing else changes |
| UserModel.CastNormalizes | models/User.js:4-19 | the cast username and display name are trimmed and the email normalised; casting again changes nothing |
| UserModel.PasswordMissingIff | models/User.js:23 | the password is reported missing exactly when no social id is set and it is absent or empty |
| UserModel.SocialAccountNeedsNoPassword | models/User.js:23 | with a social id, a missing password passes |
| UserModel.PasswordLengthRule | models/User.js:23-24 | a present password passes exactly when it has at least six characters |
| UserModel.SavedPasswordHashesIff | models/User.js:37-46 | the hook changes the password exactly when it is modified, present, plain and non-empty, and then to its hash |
| UserModel.CheckPassword | models/User.js:20-25 | a document passes the password validators exactly when a required password is present and not empty and no plain password is shorter than six characters |
| UserModel.MatchPassword | models/User.js:49-52 | a user's password matches exactly when the user has one and it is a hash of the text entered |
| UserModel.MatchAfterSave | models/User.js:37-52 | a saved password matches exactly the text it was set to |
| UserModel.NoPasswordMatchesNothing | models/User.js:49-51 | without a password nothing matches |
| UserModel.PlainPasswordMatchesNothing | models/User.js:49-51 | a password kept in plain text matches nothing |
| Auth.UserRegistry.FindOne | models/User.js:5-9 | the filter is trimmed; the result is the first user holding the trimmed name, and none is found exactly when no user holds it |
| Auth.UserRegistry.Create | controllers/authController.js:38-41 | the new state is the create's, with a fresh id; the invariant is kept |
| Auth.UserRegistry.FindByIdAndUpdate | controllers/authController.js:170 | an unknown id changes nothing; a known id applies the update to exactly that user |
| Auth.UserRegistry.Register | controllers/authController.js:23-57 | the new collection and answer are those of registering |
| Auth.UserRegistry.Login | controllers/authController.js:61-88 | the answer is that of logging in; nothing changes |
| Auth.UserRegistry.MockSocialLogin | controllers/authController.js:105-138 | the new collection and answer are those of the social login |
| Auth.UserRegistry.UpdateProfile | controllers/authController.js:144-197 | the new collection, session user and answer are those of the profile update |
| Auth.CreateKeepsInvariant | controllers/authController.js:38-41 | a created user is appended with a fresh id, a trimmed, unique, non-empty name and a hashed password |
| Auth.UpdateKeepsInvariant | controllers/authController.js:170 | a profile update keeps names, ids and passwords |
| Auth.RegisterRejectsExisting | controllers/authController.js:28-35 | a name whose trimmed form is stored is answered "Username already exists" and nothing is created |
| Auth.RegisterSucceedsIff | controllers/authController.js:28-49 | registration succeeds exactly when the trimmed name is new and non-blank and the password has six or more characters, appending one user with the trimmed name, whose session is set |
| Auth.LoginFailureIsUniform | controllers/authController.js:65-72 | every failed login answers "Invalid username or password" |
| Auth.LoginSucceedsIff | controllers/authController.js:65-80 | a login succeeds exactly when a user has the trimmed name and the hash of that password, and the session is that user's |
| Auth.RegisterThenLogin | controllers/authController.js:38-80 | who registers can log in with the same name and password and gets the same session |
| Auth.SurroundingSpaceIgnored | controllers/authController.js:28-67 | registering or logging in with a name gives the same result as with the trimmed name |
| Auth.MockUsernameShape | controllers/authController.js:107-109 | the mock name is the provider with its first letter upper-cased, then "User" |
| Auth.GoogleUser | controllers/authController.js:107-109 | "google" gives "GoogleUser" |
| Auth.SocialLoginFindsOrCreates | controllers/authController.js:115-123 | the collection grows by at most one user, and a second call finds the same user and creates nothing |
| Auth.ProfileUnauthorizedIff | controllers/authController.js:150-160 | the answer is 401, changing nothing, exactly when there is no session user and no request user |
| Auth.ProfileUnknownUser | controllers/authController.js:170-175 | an unknown id answers 404 "User not found" and changes nothing |
| Auth.ProfileUpdatesTruthyFieldsOnly | controllers/authController.js:163-170 | only the user acted for changes, and only in display name and email, each only when submitted truthy |
| Auth.ProfileSessionShowsSubmitted | controllers/authController.js:178-183 | the session shows each updated field as submitted, while the store holds its set value |
| WebClient.Bucket | public/js/app.js:23-36 | the four buckets are exhaustive and exclusive; minutes lie in 1..59 and hours in 1..23, each bracketing the difference |
| WebClient.FormatTimeIsBucketed | public/js/app.js:18-37 | the label is the rendering of the difference's bucket, singular exactly for a count of 1 |
| WebClient.FutureIsJustNow | public/js/app.js:21-24 | a date in the future is "Just now" |
| WebClient.RenderInjective | public/js/app.js:23-30 | two counted or "Just now" labels are equal only for the same bucket and count |
| WebClient.ChatPage.Submit | public/js/app.js:162-217 | blank input changes nothing; otherwise the user's trimmed message, then the reply or the error text, are appended, and the input is cleared and re-enabled |
| WebClient.FormatTime | public/js/app.js:18-37 | under a minute the label is "Just now", from a day on it is the clock string, and in between a count starting with a digit and ending in " ago" |
| ReactChat.FormatTime | frontend/src/pages/Chat.jsx:4-19 | the React page's label equals the plain client's |
| ReactChat.Flatten | frontend/src/pages/Chat.jsx:61-76 | a page of `n` chats gives `2n` messages, led by the first chat's user message and its reply |
| ReactChat.FormatTimeAgreesWithWebClient | frontend/src/pages/Chat.jsx:4-19 | the React labels equal the plain client's |
| ReactChat.ChatView.constructor | frontend/src/pages/Chat.jsx:28-35 | the page starts with the welcome message alone |
| ReactChat.ChatView.LoadChatHistory | frontend/src/pages/Chat.jsx:56-81 | a non-empty history replaces the messages by its flattening; an empty or failed one keeps them |
| ReactChat.ChatView.HandleSubmit | frontend/src/pages/Chat.jsx:83-126 | blank input or a disabled form changes nothing; otherwise one user message, then one bot message with the reply or the error text, are appended, and the form is cleared and re-enabled |
| ReactChat.FlattenSnoc | frontend/src/pages/Chat.jsx:61-75 | flattening one more chat appends its user message, then its bot message |
| ReactChat.FlattenShape | frontend/src/pages/Chat.jsx:61-76 | `n` chats give `2n` messages: at `2k` the user message of chat `k`, at `2k+1` its reply |
| ReactChat.FlattenIdsDistinct | frontend/src/pages/Chat.jsx:62-73 | message ids are pairwise distinct when chat ids are |
| ReactChat.UserIdIsNotBotId | frontend/src/pages/Chat.jsx:64-70 | a "-user" id never equals a "-bot" id |
| ReactChat.IdsSeparate | frontend/src/pages/Chat.jsx:64-70 | chats with different ids get different message ids |

## Left out

- Unicode: case mapping covers ASCII letters only. String lengths count code points, not
  JavaScript's UTF-16 units, so the 500-character limit differs for characters outside the Basic
  Multilingual Plane.
- Database identifiers are natural numbers from a counter rather than object ids. An id that is
  not a valid object id (a cast error, answered 500) is not modelled.
- Concurrency: every database call is atomic, and interleaved requests, such as the find-then-save
  race in `addIntent`, are not modelled.
- Mongo's order among equal sort keys is modelled as insertion order (a stable sort). This is an
  assumption.
- `parseInt` is reduced to an optional integer: `None` for a value that does not parse.
- bcrypt is symbolic, and salts are not modelled. Re-hashing an already hashed password is not
  modelled.
- Sessions are modelled only as the session user an endpoint sets. The following are left out:
  - saving and destroying sessions, `logout`, and the `getRegister`/`getLogin` pages;
  - Passport and OAuth (`config/passport.js`);
  - the session middleware.
- Register and login assume the body fields are strings; absent fields are not modelled.
- `findByIdAndUpdate` is assumed to run the schema's setters on the updated paths.
- The 500 answer of `updateProfile` for a failing database call is not modelled.
- `mongoose.connect` and its failure are left out. The model starts after a successful
  connection. Errors of `clearChatHistory`, which are only logged, are not modelled.
- Page rendering is left out: the DOM, scrolling, the typing indicator's delay, `escapeHtml` and
  the focus calls. `toLocaleTimeString` is an abstract parameter.
- The plain page's own `loadChatHistory` (`public/js/app.js:234-255`) is not part of this model;
  only the React page's history loading is.
- The training table: its keywords are proved distinct, but not proved to be in normal
  form, and the responses are not proved non-blank.
- UserModel.MatchAfterSave: the symbolic compare is injective, so "matches only the text it was
  set to" holds of the model only. bcrypt reads at most 72 bytes of a password, so two passwords
  that agree on their first 72 bytes match each other's hash.
- UserModel.MatchPassword: the same idealisation; a match means a hash of the text entered, with
  no 72-byte truncation.
- Auth.LoginSucceedsIff: its only-if half rests on the same injective compare, so it does not
  cover a password that differs from the stored one only after its first 72 bytes.
- Logging (`console.log`), the HTTP envelope other than status codes and messages, and the
  process exit of the training script are left out.
