/** The admin endpoints over the intent collection: add-or-update by normalised keyword, list
    newest first, delete by identifier. HTTP glue is reduced to the outcome and its status code. */
module AdminController {
  import opened Wrappers
  import opened Text
  import opened Search
  import opened Sorting
  import opened IntentModel
  import opened IntentCollection

  /** `addIntent`'s three outcomes: an update (200), a creation (201), or a schema error passed to
      the error handler, which answers 500 because the error carries no status of its own. */
  datatype AddOutcome = Updated(intent: Intent) | Created(intent: Intent) | AddFailed(error: SchemaError)

  /** `deleteIntent`'s outcomes: deleted (200) or "Intent not found" (404). */
  datatype DeleteOutcome = Deleted | NotFound

  const IntentNotFound := "Intent not found"

  function AddStatus(o: AddOutcome): int
  {
    match o
    case Updated(_) => 200
    case Created(_) => 201
    case AddFailed(_) => 500
  }

  function DeleteStatus(o: DeleteOutcome): int
  {
    if o.Deleted? then 200 else 404
  }

  /** The effect of `addIntent` on the collection `s`: the key is `keyword.toLowerCase().trim()`. */
  function Upsert(s: seq<Intent>, keyword: string, response: string, id: nat, now: int): (seq<Intent>, AddOutcome)
  {
    UpsertKey(s, Normalize(keyword), response, id, now)
  }

  /** `addIntent` once the key `k` is computed: a document with that key gets the trimmed
      response, otherwise a new document is created with identifier `id` and creation time `now`. */
  function UpsertKey(s: seq<Intent>, k: string, response: string, id: nat, now: int): (seq<Intent>, AddOutcome)
  {
    match KeywordIndex(s, k)
    case Some(i) =>
      (match Overwrite(s, i, response)
       case Written(t, doc) => (t, Updated(doc))
       case Failed(e) => (s, AddFailed(e)))
    case None =>
      // `new Intent({ keyword: k, ... })`: the setters leave `k` as it is (InsertNormalKey)
      (match Store(s, k, Trim(response), id, now)
       case Written(t, doc) => (t, Created(doc))
       case Failed(e) => (s, AddFailed(e)))
  }

  /** The effect of `deleteIntent` on the collection `s`. */
  function RemoveById(s: seq<Intent>, id: nat): (seq<Intent>, DeleteOutcome)
  {
    match IdIndex(s, id)
    case None => (s, NotFound)
    case Some(i) => (s[..i] + s[i + 1..], Deleted)
  }

  /** POST /api/admin/intent */
  method AddIntent(store: Collection, keyword: string, response: string, now: int) returns (r: AddOutcome)
    requires store.Valid()
    modifies store
    ensures store.Valid()
    ensures (store.intents, r) == Upsert(old(store.intents), keyword, response, old(store.nextId), now)
  {
    var k := Normalize(keyword);
    NormalizeIdempotent(keyword);
    var existing := store.FindOne(k);
    if existing.Some? {
      UpsertOnHit(store.intents, k, response, store.nextId, now, existing.value);
      var w := store.Save(existing.value, response);
      r := if w.Written? then Updated(w.intent) else AddFailed(w.error);
    } else {
      UpsertOnMiss(store.intents, k, response, store.nextId, now);
      var w := store.Create(k, response, now);
      r := if w.Written? then Created(w.intent) else AddFailed(w.error);
    }
  }

  /** GET /api/admin/intents: every intent, newest first, with their number. */
  method GetAllIntents(store: Collection) returns (intents: seq<Intent>, total: nat)
    ensures SortedDesc(intents, CreatedAt)
    ensures multiset(intents) == multiset(store.intents)
    ensures total == |intents| == |store.intents|
  {
    intents := store.FindSortedByCreatedDesc();
    total := |intents|;
  }

  /** DELETE /api/admin/intent/:id */
  method DeleteIntent(store: Collection, id: nat) returns (r: DeleteOutcome)
    requires store.Valid()
    modifies store
    ensures store.Valid()
    ensures (store.intents, r) == RemoveById(old(store.intents), id)
  {
    var deleted := store.FindByIdAndDelete(id);
    r := if deleted.Some? then Deleted else NotFound;
  }

  // ---------------------------------------------------------------------------------------------
  // Lemmas about the specification functions

  /** On a hit, `addIntent` is the overwrite of the document found. */
  lemma UpsertOnHit(s: seq<Intent>, k: string, response: string, id: nat, now: int, i: nat)
    requires KeywordIndex(s, k) == Some(i) && i < |s|
    ensures var w := Overwrite(s, i, response);
      UpsertKey(s, k, response, id, now) ==
        if w.Written? then (w.intents, Updated(w.intent)) else (s, AddFailed(w.error))
  {
  }

  /** On a miss, `addIntent` is the creation of a document from the key, which is in normal form. */
  lemma UpsertOnMiss(s: seq<Intent>, k: string, response: string, id: nat, now: int)
    requires KeywordIndex(s, k).None? && IsNormal(k)
    ensures var w := Insert(s, k, response, id, now);
      UpsertKey(s, k, response, id, now) ==
        if w.Written? then (w.intents, Created(w.intent)) else (s, AddFailed(w.error))
  {
    InsertNormalKey(s, k, response, id, now);
  }

  /** `addIntent` fails exactly when the normalised keyword or the trimmed response is empty,
      and a failed call leaves the collection as it was. */
  lemma UpsertFailsIff(s: seq<Intent>, keyword: string, response: string, id: nat, now: int)
    requires StoreInvariant(s)
    ensures var (t, r) := Upsert(s, keyword, response, id, now);
      (r.AddFailed? <==> Normalize(keyword) == [] || Trim(response) == []) &&
      (r.AddFailed? ==> t == s && AddStatus(r) == 500)
  {
    UpsertKeyFailsIff(s, Normalize(keyword), response, id, now);
  }

  /** The same with the key already computed: a stored document never has an empty keyword, so a
      hit fails only on the response. */
  lemma UpsertKeyFailsIff(s: seq<Intent>, k: string, response: string, id: nat, now: int)
    requires forall j :: 0 <= j < |s| ==> s[j].keyword != []
    ensures var (t, r) := UpsertKey(s, k, response, id, now);
      (r.AddFailed? <==> k == [] || Trim(response) == []) &&
      (r.AddFailed? ==> t == s && AddStatus(r) == 500)
  {
    match KeywordIndex(s, k)
    case Some(i) =>
      assert s[i].keyword == k;
    case None =>
  }

  /** When the normalised keyword is already stored, only that document's response changes; its
      identifier, keyword and creation time stay, nothing is added, and the status is 200. */
  lemma UpsertExistingUpdatesInPlace(s: seq<Intent>, keyword: string, response: string, id: nat, now: int)
    requires KeywordIndex(s, Normalize(keyword)).Some? && Trim(response) != []
    ensures var i := KeywordIndex(s, Normalize(keyword)).value;
      var (t, r) := Upsert(s, keyword, response, id, now);
      && r.Updated? && AddStatus(r) == 200
      && |t| == |s|
      && t[i] == Intent(s[i].id, s[i].keyword, Trim(response), s[i].createdAt)
      && (forall j :: 0 <= j < |s| && j != i ==> t[j] == s[j])
      && r.intent == t[i]
  {
    var k := Normalize(keyword);
    UpsertOnHit(s, k, response, id, now, KeywordIndex(s, k).value);
  }

  /** When the normalised keyword is new, exactly one document is appended, with that keyword, the
      trimmed response, the fresh identifier and the creation time `now`, and the status is 201. */
  lemma UpsertNewAppendsOne(s: seq<Intent>, keyword: string, response: string, id: nat, now: int)
    requires KeywordIndex(s, Normalize(keyword)).None?
    requires Normalize(keyword) != [] && Trim(response) != []
    ensures var (t, r) := Upsert(s, keyword, response, id, now);
      && r.Created? && AddStatus(r) == 201
      && t == s + [Intent(id, Normalize(keyword), Trim(response), now)]
      && r.intent == t[|s|]
  {
    UpsertKeyNewAppendsOne(s, Normalize(keyword), response, id, now);
  }

  /** The same with the key already computed. */
  lemma UpsertKeyNewAppendsOne(s: seq<Intent>, k: string, response: string, id: nat, now: int)
    requires KeywordIndex(s, k).None? && k != [] && Trim(response) != []
    ensures var (t, r) := UpsertKey(s, k, response, id, now);
      && r.Created? && AddStatus(r) == 201
      && t == s + [Intent(id, k, Trim(response), now)]
      && r.intent == t[|s|]
  {
    StoreAppends(s, k, Trim(response), id, now);
  }

  /** After a successful `addIntent`, exactly one document holds the normalised keyword, and it
      answers with the trimmed response. */
  lemma UpsertLeavesExactlyOne(s: seq<Intent>, keyword: string, response: string, id: nat, now: int)
    requires StoreInvariant(s) && FreshId(s, id)
    ensures var (t, r) := Upsert(s, keyword, response, id, now);
      !r.AddFailed? ==>
        KeywordCount(t, Normalize(keyword)) == 1 &&
        ResponseFor(t, Normalize(keyword)) == Some(Trim(response))
  {
    NormalizeIsNormalKey(keyword);
    UpsertKeyLeavesExactlyOne(s, Normalize(keyword), response, id, now);
  }

  /** The same with the key already computed. */
  lemma UpsertKeyLeavesExactlyOne(s: seq<Intent>, k: string, response: string, id: nat, now: int)
    requires StoreInvariant(s) && FreshId(s, id) && IsNormalKey(k)
    ensures var (t, r) := UpsertKey(s, k, response, id, now);
      !r.AddFailed? ==> KeywordCount(t, k) == 1 && ResponseFor(t, k) == Some(Trim(response))
  {
    match KeywordIndex(s, k)
    case Some(i) =>
      if Overwrite(s, i, response).Written? {
        OverwriteLeavesOne(s, k, i, response);
      }
    case None =>
      if Store(s, k, Trim(response), id, now).Written? {
        StoreLeavesOne(s, k, Trim(response), id, now);
      }
  }

  /** `addIntent` preserves the collection invariant (well-formed documents, unique keywords and
      identifiers). */
  lemma UpsertKeepsInvariant(s: seq<Intent>, keyword: string, response: string, id: nat, now: int)
    requires StoreInvariant(s) && FreshId(s, id)
    ensures StoreInvariant(Upsert(s, keyword, response, id, now).0)
  {
    NormalizeIsNormalKey(keyword);
    UpsertKeyKeepsInvariant(s, Normalize(keyword), response, id, now);
  }

  /** The same with the key already computed. */
  lemma UpsertKeyKeepsInvariant(s: seq<Intent>, k: string, response: string, id: nat, now: int)
    requires StoreInvariant(s) && FreshId(s, id) && IsNormalKey(k)
    ensures StoreInvariant(UpsertKey(s, k, response, id, now).0)
  {
    match KeywordIndex(s, k)
    case Some(i) => OverwritePreservesInvariant(s, i, response);
    case None => StorePreservesInvariant(s, k, Trim(response), id, now);
  }

  /** Deleting an unknown identifier answers 404 and leaves the collection unchanged. */
  lemma DeleteUnknownChangesNothing(s: seq<Intent>, id: nat)
    requires forall k :: 0 <= k < |s| ==> s[k].id != id
    ensures RemoveById(s, id) == (s, NotFound) && DeleteStatus(NotFound) == 404
  {
  }

  /** Deleting a known identifier removes exactly that document: no document with the identifier
      remains, and the others remain in their order. */
  lemma DeleteKnownRemovesIt(s: seq<Intent>, id: nat)
    requires IdsUnique(s)
    requires exists k :: 0 <= k < |s| && s[k].id == id
    ensures var (t, r) := RemoveById(s, id);
      && r == Deleted && |t| == |s| - 1
      && (forall k :: 0 <= k < |t| ==> t[k].id != id)
      && multiset(t) + multiset{s[IdIndex(s, id).value]} == multiset(s)
  {
    var i := IdIndex(s, id).value;
    var t := s[..i] + s[i + 1..];
    assert s == s[..i] + [s[i]] + s[i + 1..];
    forall k | 0 <= k < |t| ensures t[k].id != id {
      if k < i { assert t[k] == s[k]; } else { assert t[k] == s[k + 1]; }
    }
  }
}
