/** The intent document and its schema: a keyword (required, trimmed, lower-cased, unique), a
    response (required, trimmed) and a creation time (set once, by default to the current time).
    The collection itself is a sequence of documents in insertion order; this module gives the
    pure effect of the two writes the application performs on it. */
module IntentModel {
  import opened Wrappers
  import opened Text
  import opened Search

  datatype Intent = Intent(id: nat, keyword: string, response: string, createdAt: int)

  /** What a failed write reports: a required path empty once the setters have run, or a clash
      on the unique keyword index. */
  datatype SchemaError =
    | ValidationFailed(keywordMissing: bool, responseMissing: bool)
    | DuplicateKeyword(keyword: string)

  /** The outcome of one write: the new collection and the document written, or the error. */
  datatype Write = Written(intents: seq<Intent>, intent: Intent) | Failed(error: SchemaError)

  function CreatedAt(i: Intent): int
  {
    i.createdAt
  }

  /** Every stored document satisfies its field constraints. */
  predicate WellFormed(i: Intent)
  {
    i.keyword != [] && IsNormalKey(i.keyword) && i.response != [] && IsTrimmed(i.response)
  }

  ghost predicate KeywordsUnique(s: seq<Intent>)
  {
    forall i, j :: 0 <= i < j < |s| ==> s[i].keyword != s[j].keyword
  }

  ghost predicate IdsUnique(s: seq<Intent>)
  {
    forall i, j :: 0 <= i < j < |s| ==> s[i].id != s[j].id
  }

  /** The collection invariant the schema and its unique index maintain. */
  ghost predicate StoreInvariant(s: seq<Intent>)
  {
    (forall k :: 0 <= k < |s| ==> WellFormed(s[k])) && KeywordsUnique(s) && IdsUnique(s)
  }

  ghost predicate FreshId(s: seq<Intent>, id: nat)
  {
    forall k :: 0 <= k < |s| ==> s[k].id != id
  }

  /** `Intent.findOne({ keyword })`: the first document whose stored keyword is exactly `keyword`. */
  function KeywordIndex(s: seq<Intent>, keyword: string): Option<nat>
  {
    FirstWhere(s, (x: Intent) => x.keyword == keyword)
  }

  /** The document with identifier `id`, as `findById` finds it. */
  function IdIndex(s: seq<Intent>, id: nat): Option<nat>
  {
    FirstWhere(s, (x: Intent) => x.id == id)
  }

  /** The number of documents whose keyword is exactly `keyword`. */
  function KeywordCount(s: seq<Intent>, keyword: string): nat
    decreases |s|
  {
    if s == [] then 0 else (if s[0].keyword == keyword then 1 else 0) + KeywordCount(s[1..], keyword)
  }

  /** The response stored under `keyword`, if any. */
  function ResponseFor(s: seq<Intent>, keyword: string): Option<string>
  {
    match KeywordIndex(s, keyword)
    case None => None
    case Some(i) => Some(s[i].response)
  }

  /** `new Intent({ keyword, response }).save()`: the setters normalise both fields, the required
      validators reject an empty one, and the unique index rejects a keyword already stored. */
  function Insert(s: seq<Intent>, keyword: string, response: string, id: nat, now: int): Write
  {
    Store(s, Normalize(keyword), Trim(response), id, now)
  }

  /** Validation and the unique index applied to field values the setters have already cast. */
  function Store(s: seq<Intent>, k: string, r: string, id: nat, now: int): Write
  {
    if k == [] || r == [] then Failed(ValidationFailed(k == [], r == []))
    else if KeywordIndex(s, k).Some? then Failed(DuplicateKeyword(k))
    else
      var doc := Intent(id, k, r, now);
      Written(s + [doc], doc)
  }

  /** `doc.response = response; doc.save()` on the document at index `i`: the setter trims the new
      value and the required validator rejects it when nothing is left. */
  function Overwrite(s: seq<Intent>, i: nat, response: string): Write
    requires i < |s|
  {
    var r := Trim(response);
    if r == [] then Failed(ValidationFailed(false, true))
    else
      var doc := s[i].(response := r);
      Written(s[i := doc], doc)
  }

  /** The documents `insertMany` builds from keyword/response pairs, numbered from `firstId`, all
      created at `now`, before the setters run. */
  function Documents(pairs: seq<(string, string)>, firstId: nat, now: int): (docs: seq<Intent>)
    ensures |docs| == |pairs|
    ensures forall k :: 0 <= k < |pairs| ==>
      docs[k] == Intent(firstId + k, pairs[k].0, pairs[k].1, now)
  {
    seq(|pairs|, k requires 0 <= k < |pairs| => Intent(firstId + k, pairs[k].0, pairs[k].1, now))
  }

  /** The pairs as the setters cast them. */
  function Cast(pairs: seq<(string, string)>): (r: seq<(string, string)>)
    ensures |r| == |pairs|
    ensures forall k :: 0 <= k < |pairs| ==> r[k] == (Normalize(pairs[k].0), Trim(pairs[k].1))
  {
    MapPairs(pairs, Normalize, Trim)
  }

  /** Both components of every pair mapped by their own function. */
  function MapPairs(pairs: seq<(string, string)>, f: string -> string, g: string -> string): (r: seq<(string, string)>)
    ensures |r| == |pairs|
    ensures forall k :: 0 <= k < |pairs| ==> r[k] == (f(pairs[k].0), g(pairs[k].1))
  {
    seq(|pairs|, k requires 0 <= k < |pairs| => (f(pairs[k].0), g(pairs[k].1)))
  }

  /** Both required fields of every document are present. */
  predicate AllPresent(docs: seq<Intent>)
  {
    forall k :: 0 <= k < |docs| ==> docs[k].keyword != [] && docs[k].response != []
  }

  /** The ordered bulk write of the database: documents are inserted one after the other and the
      first one whose keyword is already stored (or was inserted earlier in the batch) stops the
      batch, leaving the documents before it inserted. The flag says whether all were inserted. */
  function AppendOrdered(s: seq<Intent>, docs: seq<Intent>): (seq<Intent>, bool)
    decreases |docs|
  {
    if docs == [] then (s, true)
    else if KeywordIndex(s, docs[0].keyword).Some? then (s, false)
    else AppendOrdered(s + [docs[0]], docs[1..])
  }

  /** `Intent.insertMany(pairs)`: every document is cast and validated first, and one that fails
      validation rejects the whole call before anything is written; otherwise the documents go to
      the ordered bulk write. */
  function BulkInsert(s: seq<Intent>, pairs: seq<(string, string)>, firstId: nat, now: int): (seq<Intent>, bool)
  {
    var docs := Documents(Cast(pairs), firstId, now);
    if !AllPresent(docs) then (s, false) else AppendOrdered(s, docs)
  }

  // ---------------------------------------------------------------------------------------------
  // Lemmas

  /** With unique keywords, a keyword is held by exactly one document or by none. */
  lemma {:induction false} UniqueKeywordCount(s: seq<Intent>, keyword: string)
    requires KeywordsUnique(s)
    ensures KeywordCount(s, keyword) == if KeywordIndex(s, keyword).Some? then 1 else 0
    decreases |s|
  {
    if s != [] {
      UniqueKeywordCount(s[1..], keyword);
      var p := (x: Intent) => x.keyword == keyword;
      assert KeywordIndex(s[1..], keyword) == FirstWhere(s[1..], p);
      if s[0].keyword == keyword {
        assert forall k :: 0 <= k < |s[1..]| ==> s[1..][k].keyword != keyword by {
          forall k | 0 <= k < |s[1..]| ensures s[1..][k].keyword != keyword {
            assert s[1..][k] == s[k + 1];
          }
        }
      }
    }
  }

  /** A successful insert keeps every document well formed and keywords and identifiers unique. */
  lemma InsertPreservesInvariant(s: seq<Intent>, keyword: string, response: string, id: nat, now: int)
    requires StoreInvariant(s) && FreshId(s, id)
    ensures Insert(s, keyword, response, id, now).Written? ==>
      StoreInvariant(Insert(s, keyword, response, id, now).intents)
  {
    NormalizeIsNormalKey(keyword);
    StorePreservesInvariant(s, Normalize(keyword), Trim(response), id, now);
  }

  /** What a successful insert writes: one document appended, carrying the given identifier. */
  lemma InsertWrites(s: seq<Intent>, keyword: string, response: string, id: nat, now: int)
    ensures var w := Insert(s, keyword, response, id, now);
      w.Written? ==> w.intents == s + [w.intent] && w.intent.id == id
  {
  }

  /** Storing cast values with a fresh identifier keeps the invariant. */
  lemma StorePreservesInvariant(s: seq<Intent>, k: string, r: string, id: nat, now: int)
    requires StoreInvariant(s) && FreshId(s, id) && IsNormalKey(k) && IsTrimmed(r)
    ensures Store(s, k, r, id, now).Written? ==> StoreInvariant(Store(s, k, r, id, now).intents)
  {
    if Store(s, k, r, id, now).Written? {
      AppendKeepsInvariant(s, Intent(id, k, r, now));
    }
  }

  /** The setters leave a key already in normal form unchanged, so creating a document from it
      stores exactly that key. */
  lemma InsertNormalKey(s: seq<Intent>, k: string, response: string, id: nat, now: int)
    requires IsNormal(k)
    ensures Insert(s, k, response, id, now) == Store(s, k, Trim(response), id, now)
  {
  }

  /** Appending a well-formed document with a new keyword and a new identifier keeps the invariant. */
  lemma AppendKeepsInvariant(s: seq<Intent>, doc: Intent)
    requires StoreInvariant(s) && FreshId(s, doc.id) && WellFormed(doc)
    requires KeywordIndex(s, doc.keyword).None?
    ensures StoreInvariant(s + [doc])
  {
    var t := s + [doc];
    assert forall k :: 0 <= k < |s| ==> s[k].keyword != doc.keyword by {
      var p := (x: Intent) => x.keyword == doc.keyword;
      assert FirstWhere(s, p).None?;
      forall k | 0 <= k < |s| ensures s[k].keyword != doc.keyword { assert !p(s[k]); }
    }
    forall i, j | 0 <= i < j < |t| ensures t[i].keyword != t[j].keyword && t[i].id != t[j].id {
      assert t[i] == s[i];
      if j < |s| { assert t[j] == s[j]; } else { assert t[j] == doc; }
    }
    forall k | 0 <= k < |t| ensures WellFormed(t[k]) {
      if k < |s| { assert t[k] == s[k]; }
    }
  }

  /** A successful overwrite keeps the invariant: keywords and identifiers are untouched. */
  lemma OverwritePreservesInvariant(s: seq<Intent>, i: nat, response: string)
    requires StoreInvariant(s) && i < |s|
    ensures Overwrite(s, i, response).Written? ==> StoreInvariant(Overwrite(s, i, response).intents)
  {
    var w := Overwrite(s, i, response);
    if w.Written? {
      var doc := s[i].(response := Trim(response));
      assert w.intents == s[i := doc];
      assert WellFormed(doc);
      var t := s[i := doc];
      forall a, b | 0 <= a < b < |t| ensures t[a].keyword != t[b].keyword && t[a].id != t[b].id {
        assert t[a].keyword == s[a].keyword && t[a].id == s[a].id;
        assert t[b].keyword == s[b].keyword && t[b].id == s[b].id;
      }
      forall k | 0 <= k < |t| ensures WellFormed(t[k]) {
        if k != i { assert t[k] == s[k]; }
      }
    }
  }

  /** An insert that succeeds adds the key; later lookups of other keys are unaffected. */
  lemma KeywordIndexAfterAppend(s: seq<Intent>, doc: Intent, keyword: string)
    ensures KeywordIndex(s + [doc], keyword) ==
      if KeywordIndex(s, keyword).Some? then KeywordIndex(s, keyword)
      else if doc.keyword == keyword then Some(|s|) else None
  {
    FirstWhereAppend(s, doc, (x: Intent) => x.keyword == keyword);
  }

  /** An overwrite changes no keyword, so every lookup by keyword finds the same document. */
  lemma KeywordIndexAfterOverwrite(s: seq<Intent>, i: nat, response: string, keyword: string)
    requires i < |s| && Overwrite(s, i, response).Written?
    ensures KeywordIndex(Overwrite(s, i, response).intents, keyword) == KeywordIndex(s, keyword)
  {
    var t := Overwrite(s, i, response).intents;
    FirstWhereSameHits(s, t, (x: Intent) => x.keyword == keyword);
  }

  /** A successful overwrite of the document holding `k` leaves it the only holder of `k`, now
      answering with the trimmed response. */
  lemma OverwriteLeavesOne(s: seq<Intent>, k: string, i: nat, response: string)
    requires StoreInvariant(s) && KeywordIndex(s, k) == Some(i) && i < |s|
    requires Overwrite(s, i, response).Written?
    ensures var t := Overwrite(s, i, response).intents;
      KeywordCount(t, k) == 1 && ResponseFor(t, k) == Some(Trim(response))
  {
    var t := Overwrite(s, i, response).intents;
    OverwritePreservesInvariant(s, i, response);
    KeywordIndexAfterOverwrite(s, i, response, k);
    UniqueKeywordCount(t, k);
  }

  /** A successful store of `k` makes the new document the only holder of `k`. */
  lemma StoreLeavesOne(s: seq<Intent>, k: string, r: string, id: nat, now: int)
    requires StoreInvariant(s) && FreshId(s, id) && IsNormalKey(k) && IsTrimmed(r)
    requires Store(s, k, r, id, now).Written?
    ensures var t := Store(s, k, r, id, now).intents;
      KeywordCount(t, k) == 1 && ResponseFor(t, k) == Some(r)
  {
    var t := Store(s, k, r, id, now).intents;
    StorePreservesInvariant(s, k, r, id, now);
    KeywordIndexAfterAppend(s, Intent(id, k, r, now), k);
    UniqueKeywordCount(t, k);
  }

  /** What a successful store writes. */
  lemma StoreAppends(s: seq<Intent>, k: string, r: string, id: nat, now: int)
    requires k != [] && r != [] && KeywordIndex(s, k).None?
    ensures Store(s, k, r, id, now) == Written(s + [Intent(id, k, r, now)], Intent(id, k, r, now))
  {
  }

  /** Removing one document keeps the invariant. */
  lemma RemoveKeepsInvariant(s: seq<Intent>, i: nat)
    requires StoreInvariant(s) && i < |s|
    ensures StoreInvariant(s[..i] + s[i + 1..])
  {
    var t := s[..i] + s[i + 1..];
    assert forall k :: 0 <= k < |t| ==> t[k] == (if k < i then s[k] else s[k + 1]);
  }

  /** The ordered bulk write keeps the invariant when the documents are well formed and numbered
      with fresh identifiers from `n` on; every identifier stays below `n + |docs|`. */
  lemma {:induction false} AppendOrderedKeepsInvariant(s: seq<Intent>, docs: seq<Intent>, n: nat)
    requires StoreInvariant(s) && (forall k :: 0 <= k < |s| ==> s[k].id < n)
    requires forall k :: 0 <= k < |docs| ==> docs[k].id == n + k && WellFormed(docs[k])
    ensures var t := AppendOrdered(s, docs).0;
      StoreInvariant(t) && (forall k :: 0 <= k < |t| ==> t[k].id < n + |docs|)
    decreases |docs|
  {
    if docs != [] && KeywordIndex(s, docs[0].keyword).None? {
      var d := docs[0];
      assert FreshId(s, d.id);
      AppendKeepsInvariant(s, d);
      var t := s + [d];
      assert forall k :: 0 <= k < |t| ==> t[k].id < n + 1;
      DropFirstNumbered(docs, n);
      AppendOrderedKeepsInvariant(t, docs[1..], n + 1);
    } else if docs == [] {
    } else {
      assert forall k :: 0 <= k < |s| ==> s[k].id < n + |docs|;
    }
  }

  /** Dropping the first of a numbered run of well-formed documents leaves a run from `n + 1`. */
  lemma DropFirstNumbered(docs: seq<Intent>, n: nat)
    requires forall k :: 0 <= k < |docs| ==> docs[k].id == n + k && WellFormed(docs[k])
    requires docs != []
    ensures forall k :: 0 <= k < |docs[1..]| ==> docs[1..][k].id == n + 1 + k && WellFormed(docs[1..][k])
  {
    forall k | 0 <= k < |docs[1..]|
      ensures docs[1..][k].id == n + 1 + k && WellFormed(docs[1..][k])
    {
      assert docs[1..][k] == docs[k + 1];
    }
  }

  /** The ordered bulk write inserts a prefix of the batch, all of it exactly when it reports
      success. */
  lemma {:induction false} AppendOrderedPrefix(s: seq<Intent>, docs: seq<Intent>)
    ensures var (t, ok) := AppendOrdered(s, docs);
      && |s| <= |t| <= |s| + |docs| && t == s + docs[..|t| - |s|]
      && (ok <==> |t| == |s| + |docs|)
    decreases |docs|
  {
    if docs != [] && KeywordIndex(s, docs[0].keyword).None? {
      AppendOrderedPrefix(s + [docs[0]], docs[1..]);
      var t := AppendOrdered(s, docs).0;
      var m := |t| - |s|;
      assert t == s + [docs[0]] + docs[1..][..m - 1];
      assert [docs[0]] + docs[1..][..m - 1] == docs[..m];
    }
  }

  /** A batch whose keywords are pairwise distinct and not yet stored is inserted whole. */
  lemma {:induction false} AppendOrderedFresh(s: seq<Intent>, docs: seq<Intent>)
    requires forall a, b :: 0 <= a < b < |docs| ==> docs[a].keyword != docs[b].keyword
    requires forall k :: 0 <= k < |docs| ==> KeywordIndex(s, docs[k].keyword).None?
    ensures AppendOrdered(s, docs) == (s + docs, true)
    decreases |docs|
  {
    if docs != [] {
      var d := docs[0];
      var rest := docs[1..];
      forall k | 0 <= k < |rest| ensures KeywordIndex(s + [d], rest[k].keyword).None? {
        assert rest[k] == docs[k + 1];
        KeywordIndexAfterAppend(s, d, rest[k].keyword);
      }
      forall a, b | 0 <= a < b < |rest| ensures rest[a].keyword != rest[b].keyword {
        assert rest[a] == docs[a + 1] && rest[b] == docs[b + 1];
      }
      AppendOrderedFresh(s + [d], rest);
      assert KeywordIndex(s, d.keyword).None?;
      assert AppendOrdered(s, docs) == AppendOrdered(s + [d], rest);
      assert docs == [d] + rest;
      assert s + [d] + rest == s + docs;
    } else {
      assert s + docs == s;
    }
  }

  /** `insertMany` keeps the invariant and numbers its documents below `n + |pairs|`; whatever
      happens, the collection keeps every document it held. */
  lemma BulkInsertKeepsInvariant(s: seq<Intent>, pairs: seq<(string, string)>, n: nat, now: int)
    requires StoreInvariant(s) && (forall k :: 0 <= k < |s| ==> s[k].id < n)
    ensures var t := BulkInsert(s, pairs, n, now).0;
      && StoreInvariant(t) && (forall k :: 0 <= k < |t| ==> t[k].id < n + |pairs|)
      && |s| <= |t| && t[..|s|] == s
  {
    var docs := Documents(Cast(pairs), n, now);
    if AllPresent(docs) {
      forall k | 0 <= k < |docs| ensures docs[k].id == n + k && WellFormed(docs[k]) {
        NormalizeIsNormalKey(pairs[k].0);
      }
      AppendOrderedKeepsInvariant(s, docs, n);
      AppendOrderedPrefix(s, docs);
      var t := AppendOrdered(s, docs).0;
      assert t[..|s|] == s;
    } else {
      assert forall k :: 0 <= k < |s| ==> s[k].id < n + |pairs|;
    }
  }

  /** A batch with a blank keyword or response anywhere writes nothing and fails. */
  lemma BulkInsertRejectsBlank(s: seq<Intent>, pairs: seq<(string, string)>, n: nat, now: int, k: nat)
    requires k < |pairs| && (Normalize(pairs[k].0) == [] || Trim(pairs[k].1) == [])
    ensures BulkInsert(s, pairs, n, now) == (s, false)
  {
    var docs := Documents(Cast(pairs), n, now);
    assert docs[k].keyword == [] || docs[k].response == [];
  }

  /** A batch whose cast keywords are present, pairwise distinct and new, and whose cast responses
      are present, is inserted whole, as cast, in order. */
  lemma BulkInsertFresh(s: seq<Intent>, pairs: seq<(string, string)>, n: nat, now: int)
    requires forall k :: 0 <= k < |pairs| ==> Normalize(pairs[k].0) != [] && Trim(pairs[k].1) != []
    requires forall a, b :: 0 <= a < b < |pairs| ==> Normalize(pairs[a].0) != Normalize(pairs[b].0)
    requires forall k :: 0 <= k < |pairs| ==> KeywordIndex(s, Normalize(pairs[k].0)).None?
    ensures BulkInsert(s, pairs, n, now) == (s + Documents(Cast(pairs), n, now), true)
  {
    var docs := Documents(Cast(pairs), n, now);
    assert AllPresent(docs);
    AppendOrderedFresh(s, docs);
  }

  /** The first document of a batch, and the rest numbered from the next identifier. */
  lemma DocumentsCons(pairs: seq<(string, string)>, n: nat, now: int)
    requires pairs != []
    ensures Documents(pairs, n, now) ==
      [Intent(n, pairs[0].0, pairs[0].1, now)] + Documents(pairs[1..], n + 1, now)
  {
    var a := Documents(pairs, n, now);
    var b := [Intent(n, pairs[0].0, pairs[0].1, now)] + Documents(pairs[1..], n + 1, now);
    forall k | 0 <= k < |a| ensures a[k] == b[k] {
      if k > 0 { assert pairs[1..][k - 1] == pairs[k]; }
    }
  }

  /** The setters leave every pair in the stored form (a keyword in normal form, a trimmed
      response), so casting a batch a second time changes nothing. */
  lemma CastIsStoredForm(pairs: seq<(string, string)>)
    ensures forall k :: 0 <= k < |pairs| ==> IsNormalKey(Cast(pairs)[k].0) && IsTrimmed(Cast(pairs)[k].1)
    ensures Cast(Cast(pairs)) == Cast(pairs)
  {
    var c := Cast(pairs);
    forall k | 0 <= k < |pairs|
      ensures IsNormalKey(c[k].0) && IsTrimmed(c[k].1)
      ensures Cast(c)[k] == c[k]
    {
      NormalizeIsNormalKey(pairs[k].0);
      NormalizeIdempotent(pairs[k].0);
      TrimIdempotent(pairs[k].1);
    }
  }

  /** Casting a batch casts its first pair and then the rest. */
  lemma CastCons(pairs: seq<(string, string)>)
    requires pairs != []
    ensures Cast(pairs) == [(Normalize(pairs[0].0), Trim(pairs[0].1))] + Cast(pairs[1..])
  {
    MapPairsCons(pairs, Normalize, Trim);
  }

  lemma MapPairsCons(pairs: seq<(string, string)>, f: string -> string, g: string -> string)
    requires pairs != []
    ensures MapPairs(pairs, f, g) == [(f(pairs[0].0), g(pairs[0].1))] + MapPairs(pairs[1..], f, g)
  {
    var a := MapPairs(pairs, f, g);
    var b := [(f(pairs[0].0), g(pairs[0].1))] + MapPairs(pairs[1..], f, g);
    forall k | 0 <= k < |a| ensures a[k] == b[k] {
      if k > 0 { assert pairs[1..][k - 1] == pairs[k]; }
    }
  }

  /** After a batch with distinct new keywords was appended, looking up the keyword of its `j`-th
      document finds that document. */
  lemma KeywordIndexInBatch(s: seq<Intent>, docs: seq<Intent>, j: nat)
    requires j < |docs|
    requires forall a, b :: 0 <= a < b < |docs| ==> docs[a].keyword != docs[b].keyword
    requires KeywordIndex(s, docs[j].keyword).None?
    ensures KeywordIndex(s + docs, docs[j].keyword) == Some(|s| + j)
  {
    var key := docs[j].keyword;
    var p := (x: Intent) => x.keyword == key;
    var t := s + docs;
    assert p(t[|s| + j]);
    assert FirstWhere(s, p).None?;
    forall k | 0 <= k < |s| + j ensures !p(t[k]) {
      if k < |s| {
        assert t[k] == s[k];
        assert !p(s[k]);
      } else {
        assert t[k] == docs[k - |s|];
      }
    }
    var r := FirstWhere(t, p);
    assert r.Some?;
    assert r.value == |s| + j;
  }
}
