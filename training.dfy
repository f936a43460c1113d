/** `trainChatbot`: the per-datum upsert loop over the training table, with its four counters.
    Each keyword is lower-cased and looked up; the query is cast through the keyword path's
    setters, so the document found is the one stored under the keyword's normal form. A hit whose
    response differs is overwritten, a hit with the same response is skipped, a miss creates a
    document, and a failed write is counted as an error without stopping the loop. */
module Training {
  import opened Wrappers
  import opened Text
  import opened Tables
  import opened IntentModel
  import opened IntentCollection

  /** `addedCount`, `updatedCount`, `skippedCount`, `errorCount` */
  datatype Counts = Counts(added: nat, updated: nat, skipped: nat, errors: nat)

  function Total(c: Counts): nat
  {
    c.added + c.updated + c.skipped + c.errors
  }

  /** What the loop has changed so far: the collection, its identifier counter and the counters. */
  datatype TrainState = TrainState(intents: seq<Intent>, nextId: nat, counts: Counts)

  /** One iteration of the loop, on the datum `d` = (keyword, response): exactly one counter
      grows by one, the collection gains at most one document (an overwrite keeps its length),
      and the identifier counter moves on only when a create was attempted. */
  function Step(st: TrainState, d: (string, string), now: int): (next: TrainState)
    ensures Total(next.counts) == Total(st.counts) + 1
    ensures next.counts.added >= st.counts.added && next.counts.updated >= st.counts.updated
    ensures next.counts.skipped >= st.counts.skipped && next.counts.errors >= st.counts.errors
    ensures |st.intents| <= |next.intents| <= |st.intents| + 1
    ensures next.nextId == st.nextId || next.nextId == st.nextId + 1
    ensures next.nextId == st.nextId ==> |next.intents| == |st.intents|
  {
    var keyword := Lower(d.0);
    match KeywordIndex(st.intents, Normalize(keyword))
    case Some(i) =>
      if st.intents[i].response != d.1 then AfterSave(st, Overwrite(st.intents, i, d.1))
      else AfterSkip(st)
    case None => AfterCreate(st, Insert(st.intents, keyword, d.1, st.nextId, now))
  }

  /** An overwrite of the document found: `updatedCount` grows, or `errorCount` when it fails. */
  function AfterSave(st: TrainState, w: Write): TrainState
  {
    var c := st.counts;
    if w.Written? then st.(intents := w.intents, counts := c.(updated := c.updated + 1))
    else st.(counts := c.(errors := c.errors + 1))
  }

  /** The same response is already stored: `skippedCount` grows. */
  function AfterSkip(st: TrainState): TrainState
  {
    st.(counts := st.counts.(skipped := st.counts.skipped + 1))
  }

  /** A new document: `addedCount` grows, or `errorCount` when it fails; an identifier is used
      up either way. */
  function AfterCreate(st: TrainState, w: Write): TrainState
  {
    var c := st.counts;
    if w.Written? then TrainState(w.intents, st.nextId + 1, c.(added := c.added + 1))
    else TrainState(st.intents, st.nextId + 1, c.(errors := c.errors + 1))
  }

  /** The whole loop over `data`. */
  function TrainAll(st: TrainState, data: seq<(string, string)>, now: int): TrainState
    decreases |data|
  {
    if data == [] then st else TrainAll(Step(st, data[0], now), data[1..], now)
  }

  /** The loop of `trainChatbot` against the collection; it answers the four counters, which
      add up to the number of data. */
  method Train(store: Collection, data: seq<(string, string)>, now: int) returns (counts: Counts)
    requires store.Valid()
    modifies store
    ensures store.Valid()
    ensures TrainState(store.intents, store.nextId, counts) ==
      TrainAll(TrainState(old(store.intents), old(store.nextId), Counts(0, 0, 0, 0)), data, now)
    ensures Total(counts) == |data|
  {
    counts := Counts(0, 0, 0, 0);
    ghost var st0 := TrainState(store.intents, store.nextId, counts);
    var i := 0;
    while i < |data|
      invariant 0 <= i <= |data|
      invariant store.Valid()
      invariant TrainAll(TrainState(store.intents, store.nextId, counts), data[i..], now) ==
        TrainAll(st0, data, now)
    {
      ghost var before := TrainState(store.intents, store.nextId, counts);
      counts := TrainOne(store, data[i], counts, now);
      TrainAllUnfold(before, data, i, now);
      i := i + 1;
    }
    CountsAddUp(st0, data, now);
  }

  /** The body of the loop for one datum: a find, then a save, a create or nothing. */
  method TrainOne(store: Collection, d: (string, string), counts: Counts, now: int) returns (next: Counts)
    requires store.Valid()
    modifies store
    ensures store.Valid()
    ensures TrainState(store.intents, store.nextId, next) ==
      Step(TrainState(old(store.intents), old(store.nextId), counts), d, now)
  {
    ghost var st := TrainState(store.intents, store.nextId, counts);
    NormalizeOfLower(d.0);
    var keyword := Lower(d.0);
    var existing := store.FindOne(keyword);
    if existing.Some? {
      var i := existing.value;
      if store.intents[i].response != d.1 {
        StepSaves(st, d, now, i);
        next := TrainSave(store, i, d.1, counts);
      } else {
        StepSkips(st, d, now, i);
        next := counts.(skipped := counts.skipped + 1);
      }
    } else {
      StepCreates(st, d, now);
      next := TrainCreate(store, keyword, d.1, counts, now);
    }
  }

  method TrainSave(store: Collection, i: nat, response: string, counts: Counts) returns (next: Counts)
    requires store.Valid() && i < |store.intents|
    modifies store
    ensures store.Valid()
    ensures TrainState(store.intents, store.nextId, next) ==
      AfterSave(TrainState(old(store.intents), old(store.nextId), counts), Overwrite(old(store.intents), i, response))
  {
    var w := store.Save(i, response);
    next := if w.Written? then counts.(updated := counts.updated + 1)
      else counts.(errors := counts.errors + 1);
  }

  method TrainCreate(store: Collection, keyword: string, response: string, counts: Counts, now: int) returns (next: Counts)
    requires store.Valid()
    modifies store
    ensures store.Valid()
    ensures TrainState(store.intents, store.nextId, next) ==
      AfterCreate(TrainState(old(store.intents), old(store.nextId), counts), Insert(old(store.intents), keyword, response, old(store.nextId), now))
  {
    var w := store.Create(keyword, response, now);
    next := if w.Written? then counts.(added := counts.added + 1)
      else counts.(errors := counts.errors + 1);
  }

  /** The step on a hit with a different response, in terms of the outcome `w` of the save. */
  lemma StepSaves(st: TrainState, d: (string, string), now: int, i: nat)
    requires KeywordIndex(st.intents, Normalize(d.0)) == Some(i) && i < |st.intents|
    requires st.intents[i].response != d.1
    ensures Step(st, d, now) == AfterSave(st, Overwrite(st.intents, i, d.1))
  {
    NormalizeOfLower(d.0);
  }

  /** The step on a hit with the same response. */
  lemma StepSkips(st: TrainState, d: (string, string), now: int, i: nat)
    requires KeywordIndex(st.intents, Normalize(d.0)) == Some(i) && i < |st.intents|
    requires st.intents[i].response == d.1
    ensures Step(st, d, now) == AfterSkip(st)
  {
    NormalizeOfLower(d.0);
  }

  /** The step on a miss, in terms of the outcome `w` of the create. */
  lemma StepCreates(st: TrainState, d: (string, string), now: int)
    requires KeywordIndex(st.intents, Normalize(d.0)).None?
    ensures Step(st, d, now) == AfterCreate(st, Insert(st.intents, Lower(d.0), d.1, st.nextId, now))
  {
    NormalizeOfLower(d.0);
  }

  /** One more datum done: the rest of the loop from the next state. */
  lemma TrainAllUnfold(st: TrainState, data: seq<(string, string)>, i: nat, now: int)
    requires i < |data|
    ensures TrainAll(st, data[i..], now) == TrainAll(Step(st, data[i], now), data[i + 1..], now)
  {
    assert data[i..][0] == data[i];
    assert data[i..][1..] == data[i + 1..];
  }

  // ---------------------------------------------------------------------------------------------
  // Lemmas about one datum

  /** A keyword whose normal form is stored with a different response: that response is
      overwritten in place (trimmed by the setter) and `updatedCount` grows; a blank new response
      fails validation and counts as an error, changing nothing. */
  lemma StepOnExistingDifferent(st: TrainState, d: (string, string), now: int)
    requires ResponseFor(st.intents, Normalize(d.0)).Some?
    requires ResponseFor(st.intents, Normalize(d.0)).value != d.1
    ensures var i := KeywordIndex(st.intents, Normalize(d.0)).value;
      var c := st.counts;
      Step(st, d, now) ==
        if Trim(d.1) == [] then st.(counts := c.(errors := c.errors + 1))
        else st.(intents := st.intents[i := st.intents[i].(response := Trim(d.1))],
                 counts := c.(updated := c.updated + 1))
  {
    NormalizeOfLower(d.0);
  }

  /** A keyword whose normal form is stored with the same response: nothing is written and
      `skippedCount` grows. */
  lemma StepOnExistingSame(st: TrainState, d: (string, string), now: int)
    requires ResponseFor(st.intents, Normalize(d.0)) == Some(d.1)
    ensures Step(st, d, now) == st.(counts := st.counts.(skipped := st.counts.skipped + 1))
  {
    NormalizeOfLower(d.0);
  }

  /** A keyword whose normal form is not stored: one document is created from the normal form and
      the trimmed response and `addedCount` grows; the write fails, and `errorCount` grows
      instead, exactly when either field is blank. An identifier is used up either way. */
  lemma StepOnAbsent(st: TrainState, d: (string, string), now: int)
    requires KeywordIndex(st.intents, Normalize(d.0)).None?
    ensures var k := Normalize(d.0);
      var c := st.counts;
      Step(st, d, now) ==
        if k == [] || Trim(d.1) == [] then
          TrainState(st.intents, st.nextId + 1, c.(errors := c.errors + 1))
        else
          TrainState(st.intents + [Intent(st.nextId, k, Trim(d.1), now)], st.nextId + 1,
                     c.(added := c.added + 1))
  {
    CreateOutcome(st, Lower(d.0), d.1, now);
    NormalizeOfLower(d.0);
  }

  /** The create branch for the lower-cased `keyword`. */
  lemma CreateOutcome(st: TrainState, keyword: string, response: string, now: int)
    ensures var k := Normalize(keyword);
      var c := st.counts;
      AfterCreate(st, Insert(st.intents, keyword, response, st.nextId, now)) ==
        if k == [] || Trim(response) == [] || KeywordIndex(st.intents, k).Some? then
          TrainState(st.intents, st.nextId + 1, c.(errors := c.errors + 1))
        else
          TrainState(st.intents + [Intent(st.nextId, k, Trim(response), now)], st.nextId + 1,
                     c.(added := c.added + 1))
  {
  }

  /** A key already in normal form and not stored yet is stored as it is. */
  lemma CreateOnNormalKey(st: TrainState, k: string, response: string, now: int)
    requires k != [] && IsNormalKey(k) && Trim(response) != [] && KeywordIndex(st.intents, k).None?
    ensures AfterCreate(st, Insert(st.intents, k, response, st.nextId, now)) ==
      TrainState(st.intents + [Intent(st.nextId, k, Trim(response), now)], st.nextId + 1,
                 st.counts.(added := st.counts.added + 1))
  {
    InsertFreshNormalKey(st.intents, k, response, st.nextId, now);
    CreatedWritten(st, Insert(st.intents, k, response, st.nextId, now));
  }

  /** A key in normal form that is not stored yet is inserted as it is. */
  lemma InsertFreshNormalKey(s: seq<Intent>, k: string, response: string, id: nat, now: int)
    requires k != [] && IsNormalKey(k) && Trim(response) != [] && KeywordIndex(s, k).None?
    ensures Insert(s, k, response, id, now) ==
      Written(s + [Intent(id, k, Trim(response), now)], Intent(id, k, Trim(response), now))
  {
    NormalKeyIsNormal(k);
    InsertNormalKey(s, k, response, id, now);
    StoreAppends(s, k, Trim(response), id, now);
  }

  lemma CreatedWritten(st: TrainState, w: Write)
    requires w.Written?
    ensures AfterCreate(st, w) == TrainState(w.intents, st.nextId + 1, st.counts.(added := st.counts.added + 1))
  {
  }

  // ---------------------------------------------------------------------------------------------
  // Lemmas about the whole loop

  /** Every datum is counted exactly once: the four counters grow by the length of the data. */
  lemma {:induction false} CountsAddUp(st: TrainState, data: seq<(string, string)>, now: int)
    ensures Total(TrainAll(st, data, now).counts) == Total(st.counts) + |data|
    decreases |data|
  {
    if data != [] {
      CountsAddUp(Step(st, data[0], now), data[1..], now);
    }
  }

  /** Data the collection already holds exactly (the normal form of each keyword stored with the
      very same response) is skipped entirely: nothing is written and only `skippedCount` grows. */
  lemma {:induction false} RerunSkipsAll(st: TrainState, data: seq<(string, string)>, now: int)
    requires forall j :: 0 <= j < |data| ==> ResponseFor(st.intents, Normalize(data[j].0)) == Some(data[j].1)
    ensures TrainAll(st, data, now) == st.(counts := st.counts.(skipped := st.counts.skipped + |data|))
    decreases |data|
  {
    if data != [] {
      StepOnExistingSame(st, data[0], now);
      var st1 := Step(st, data[0], now);
      forall j | 0 <= j < |data[1..]|
        ensures ResponseFor(st1.intents, Normalize(data[1..][j].0)) == Some(data[1..][j].1)
      {
        assert data[1..][j] == data[j + 1];
      }
      RerunSkipsAll(st1, data[1..], now);
    }
  }

  /** Data whose keywords are non-empty, in normal form, pairwise distinct and not yet stored, with
      non-blank responses, is added whole: one document per datum, in order, with consecutive
      identifiers, exactly as a bulk insert of the same data would cast them, and only
      `addedCount` grows. */
  lemma TrainFreshAddsAll(st: TrainState, data: seq<(string, string)>, now: int)
    requires FreshData(st.intents, data)
    ensures TrainAll(st, data, now) ==
      TrainState(st.intents + Documents(Cast(data), st.nextId, now), st.nextId + |data|,
                 st.counts.(added := st.counts.added + |data|))
  {
    TrainFreshAppends(st, data, now);
    FreshDocumentsAreCast(data, st.nextId, now);
  }

  /** The documents training creates from fresh data, one per datum. */
  function FreshDocuments(data: seq<(string, string)>, n: nat, now: int): seq<Intent>
    decreases |data|
  {
    if data == [] then [] else [Intent(n, data[0].0, Trim(data[0].1), now)] + FreshDocuments(data[1..], n + 1, now)
  }

  lemma {:induction false} TrainFreshAppends(st: TrainState, data: seq<(string, string)>, now: int)
    requires FreshData(st.intents, data)
    ensures TrainAll(st, data, now) ==
      TrainState(st.intents + FreshDocuments(data, st.nextId, now), st.nextId + |data|,
                 st.counts.(added := st.counts.added + |data|))
    decreases |data|
  {
    if data == [] {
      assert st.intents + FreshDocuments(data, st.nextId, now) == st.intents;
    } else {
      var st1 := FreshStep(st, data, now);
      TrainFreshAppends(st1, data[1..], now);
    }
  }

  /** One step of `TrainFreshAppends`: the first datum is added, the rest stays fresh, and what
      the rest adds from there is what the whole adds. */
  lemma FreshStep(st: TrainState, data: seq<(string, string)>, now: int) returns (st1: TrainState)
    requires data != [] && FreshData(st.intents, data)
    ensures TrainAll(st, data, now) == TrainAll(st1, data[1..], now)
    ensures FreshData(st1.intents, data[1..])
    ensures TrainState(st1.intents + FreshDocuments(data[1..], st1.nextId, now), st1.nextId + |data[1..]|,
                       st1.counts.(added := st1.counts.added + |data[1..]|)) ==
            TrainState(st.intents + FreshDocuments(data, st.nextId, now), st.nextId + |data|,
                       st.counts.(added := st.counts.added + |data|))
  {
    st1 := FreshFirstStep(st, data, now);
    FreshTotals(st, st1, data, now);
  }

  lemma FreshTotals(st: TrainState, st1: TrainState, data: seq<(string, string)>, now: int)
    requires data != []
    requires st1 == TrainState(st.intents + [Intent(st.nextId, data[0].0, Trim(data[0].1), now)],
      st.nextId + 1, st.counts.(added := st.counts.added + 1))
    ensures TrainState(st1.intents + FreshDocuments(data[1..], st1.nextId, now), st1.nextId + |data[1..]|,
                       st1.counts.(added := st1.counts.added + |data[1..]|)) ==
            TrainState(st.intents + FreshDocuments(data, st.nextId, now), st.nextId + |data|,
                       st.counts.(added := st.counts.added + |data|))
  {
    FreshDocumentsUnfold(data, st.nextId, now);
    FreshAssemble(st.intents, Intent(st.nextId, data[0].0, Trim(data[0].1), now),
      FreshDocuments(data[1..], st1.nextId, now), FreshDocuments(data, st.nextId, now));
  }

  lemma FreshAssemble(s: seq<Intent>, doc: Intent, rest: seq<Intent>, docs: seq<Intent>)
    requires docs == [doc] + rest
    ensures s + [doc] + rest == s + docs
  {
  }

  lemma FreshDocumentsUnfold(data: seq<(string, string)>, n: nat, now: int)
    requires data != []
    ensures FreshDocuments(data, n, now) ==
      [Intent(n, data[0].0, Trim(data[0].1), now)] + FreshDocuments(data[1..], n + 1, now)
  {
  }

  /** With keys in normal form, the documents training creates are those the bulk insert casts. */
  lemma {:induction false} FreshDocumentsAreCast(data: seq<(string, string)>, n: nat, now: int)
    requires forall j :: 0 <= j < |data| ==> data[j].0 != [] && IsNormalKey(data[j].0)
    ensures FreshDocuments(data, n, now) == Documents(Cast(data), n, now)
    decreases |data|
  {
    if data == [] {
      assert Cast(data) == [];
    } else {
      FreshDocumentsAreCast(data[1..], n + 1, now);
      FreshDocumentsCons(data, n, now);
    }
  }

  /** The conditions under which training adds every datum. */
  ghost predicate FreshData(s: seq<Intent>, data: seq<(string, string)>)
  {
    && (forall j :: 0 <= j < |data| ==> data[j].0 != [] && IsNormalKey(data[j].0) && Trim(data[j].1) != [])
    && (forall a, b :: 0 <= a < b < |data| ==> data[a].0 != data[b].0)
    && (forall j :: 0 <= j < |data| ==> KeywordIndex(s, data[j].0).None?)
  }

  /** The first datum of fresh data is added. */
  lemma FreshFirstStep(st: TrainState, data: seq<(string, string)>, now: int) returns (st1: TrainState)
    requires data != [] && FreshData(st.intents, data)
    ensures st1 == Step(st, data[0], now)
    ensures st1 == TrainState(st.intents + [Intent(st.nextId, data[0].0, Trim(data[0].1), now)],
      st.nextId + 1, st.counts.(added := st.counts.added + 1))
    ensures TrainAll(st, data, now) == TrainAll(st1, data[1..], now)
    ensures FreshData(st1.intents, data[1..])
  {
    var d := data[0];
    NormalKeyIsNormal(d.0);
    NormalIsLower(d.0);
    assert KeywordIndex(st.intents, d.0).None?;
    CreateOnNormalKey(st, d.0, d.1, now);
    st1 := Step(st, d, now);
    FreshRest(st.intents, Intent(st.nextId, d.0, Trim(d.1), now), data);
  }

  /** What is left of fresh data stays fresh once its first datum is stored. */
  lemma FreshRest(s: seq<Intent>, doc: Intent, data: seq<(string, string)>)
    requires data != [] && FreshData(s, data) && doc.keyword == data[0].0
    ensures FreshData(s + [doc], data[1..])
  {
    var rest := data[1..];
    forall j | 0 <= j < |rest|
      ensures rest[j].0 != [] && IsNormalKey(rest[j].0) && Trim(rest[j].1) != []
      ensures KeywordIndex(s + [doc], rest[j].0).None?
    {
      assert rest[j] == data[j + 1];
      KeywordIndexAfterAppend(s, doc, rest[j].0);
    }
    forall a, b | 0 <= a < b < |rest| ensures rest[a].0 != rest[b].0 {
      assert rest[a] == data[a + 1] && rest[b] == data[b + 1];
    }
  }

  /** The documents a datum with a key in normal form is cast to: its first datum as it is, then the rest. */
  lemma FreshDocumentsCons(data: seq<(string, string)>, n: nat, now: int)
    requires data != [] && data[0].0 != [] && IsNormalKey(data[0].0)
    ensures Documents(Cast(data), n, now) ==
      [Intent(n, data[0].0, Trim(data[0].1), now)] + Documents(Cast(data[1..]), n + 1, now)
  {
    NormalKeyIsNormal(data[0].0);
    var c := Cast(data);
    CastCons(data);
    assert c[0] == (data[0].0, Trim(data[0].1));
    assert c[1..] == Cast(data[1..]);
    DocumentsCons(c, n, now);
  }

  /** Training twice with such data, each response already trimmed, changes nothing the second
      time: every datum is skipped. */
  lemma TrainTwiceSkips(st: TrainState, data: seq<(string, string)>, now: int, later: int)
    requires FreshData(st.intents, data)
    requires forall j :: 0 <= j < |data| ==> IsTrimmed(data[j].1)
    ensures var st1 := TrainAll(st, data, now);
      TrainAll(st1, data, later) == st1.(counts := st1.counts.(skipped := st1.counts.skipped + |data|))
  {
    TrainFreshAppends(st, data, now);
    var st1 := TrainAll(st, data, now);
    forall j | 0 <= j < |data| ensures ResponseFor(st1.intents, Normalize(data[j].0)) == Some(data[j].1) {
      FoundAfterFresh(st, data, now, j);
    }
    RerunSkipsAll(st1, data, later);
  }

  /** After fresh data is added, each of its keywords finds its trimmed response. */
  lemma FoundAfterFresh(st: TrainState, data: seq<(string, string)>, now: int, j: nat)
    requires FreshData(st.intents, data) && j < |data| && IsTrimmed(data[j].1)
    ensures ResponseFor(st.intents + FreshDocuments(data, st.nextId, now), Normalize(data[j].0)) == Some(data[j].1)
  {
    var docs := FreshDocuments(data, st.nextId, now);
    FreshDocumentsShape(data, st.nextId, now);
    NormalKeyIsNormal(data[j].0);
    TrimOfTrimmed(data[j].1);
    KeywordIndexInBatch(st.intents, docs, j);
  }

  /** The `k`-th document created from fresh data holds the `k`-th datum. */
  lemma {:induction false} FreshDocumentsShape(data: seq<(string, string)>, n: nat, now: int)
    ensures |FreshDocuments(data, n, now)| == |data|
    ensures forall k :: 0 <= k < |data| ==>
      FreshDocuments(data, n, now)[k] == Intent(n + k, data[k].0, Trim(data[k].1), now)
    decreases |data|
  {
    if data != [] {
      FreshDocumentsShape(data[1..], n + 1, now);
      var docs := FreshDocuments(data, n, now);
      forall k | 0 <= k < |data| ensures docs[k] == Intent(n + k, data[k].0, Trim(data[k].1), now) {
        if k > 0 {
          assert docs[k] == FreshDocuments(data[1..], n + 1, now)[k - 1];
          assert data[1..][k - 1] == data[k];
        }
      }
    }
  }

  /** A keyword with a leading space and an upper-case letter is found under its normal form,
      so a new response for it overwrites the stored one and counts as an update. */
  lemma UntrimmedKeywordOverwrites(now: int)
    ensures var st := TrainState([Intent(0, "hello", "Hi!", 0)], 1, Counts(0, 0, 0, 0));
      Step(st, (" Hello", "Hey!"), now) == TrainState([Intent(0, "hello", "Hey!", 0)], 1, Counts(0, 1, 0, 0))
  {
    var st := TrainState([Intent(0, "hello", "Hi!", 0)], 1, Counts(0, 0, 0, 0));
    NormalizeSpaceHello();
    LookupHello();
    assert ResponseFor(st.intents, "hello") == Some("Hi!");
    assert "Hi!" != "Hey!" by { assert "Hi!"[1] != "Hey!"[1]; }
    TrimOfTrimmed("Hey!");
    StepOnExistingDifferent(st, (" Hello", "Hey!"), now);
    assert st.intents[0 := st.intents[0].(response := "Hey!")] == [Intent(0, "hello", "Hey!", 0)];
  }

  /** The normal form of the keyword of `UntrimmedKeywordOverwrites`. */
  lemma NormalizeSpaceHello()
    ensures Normalize(" Hello") == "hello"
  {
    LowerSpaceHello();
    TrimSpaceHello();
  }

  lemma LowerSpaceHello()
    ensures Lower(" Hello") == " hello"
  {
    var s := " Hello";
    LowerAt(s);
    var t := Lower(s);
    assert t[0] == ' ' && t[1] == 'h' && t[2] == 'e' && t[3] == 'l' && t[4] == 'l' && t[5] == 'o';
  }

  lemma TrimSpaceHello()
    ensures Trim(" hello") == "hello"
  {
    var s := " hello";
    assert s[1..] == "hello";
    TrimOfTrimmed("hello");
  }

  lemma LookupHello()
    ensures KeywordIndex([Intent(0, "hello", "Hi!", 0)], "hello") == Some(0)
  {
    var q := (x: Intent) => x.keyword == "hello";
    assert q(Intent(0, "hello", "Hi!", 0));
  }

  // ---------------------------------------------------------------------------------------------
  // The training table

  /** The keywords of the groups about the bot, greetings, feelings and capabilities. */
  const TrainingKeywordsFirst: seq<string> := [
      "who are you",
      "i love you",
      "what is my nickname",
      "how old are you",
      "what is your name",
      "what is my friends name",
      "good morning",
      "good afternoon",
      "good evening",
      "good night",
      "how are you",
      "are you ok",
      "what can you do",
      "help me",
      "how do you work"
    ]

  /** The keywords of the groups about technology, politeness, farewells and personal information. */
  const TrainingKeywordsSecond: seq<string> := [
      "what is computer",
      "what is internet",
      "ai",
      "what is programming language",
      "what is javascript",
      "what is python",
      "what is java",
      "please",
      "sorry",
      "excuse me",
      "see you",
      "talk to you later",
      "catch you later",
      "developer name",
      "project name",
      "technology used",
      "what is my name"
    ]

  const TrainingKeywords: seq<string> := TrainingKeywordsFirst + TrainingKeywordsSecond

  /** The responses, row by row. */
  const TrainingResponses: seq<string> := [
      "I am an Arise Assistant, created by Prince Chauhan!",
      "sorry but i love only girls.",
      "my nickname is chiku !",
      "i was created by prince chauhan in 1 january 2026!",
      "I am arise assistant. You can call me ChatBot!",
      "master your friends name is piyush,ankesh and ayush",
      "Good morning! Hope you have a wonderful day ahead!",
      "Good afternoon! How can I assist you today?",
      "Good evening! How are you doing?",
      "Good night! Sleep well and sweet dreams!",
      "I'm doing great, thank you for asking! How about you?",
      "Yes, I'm functioning perfectly! Thanks for checking!",
      "I can chat with you, answer questions, and learn new responses through my admin panel!",
      "I'm here to help! You can ask me questions about various topics, or just chat with me!",
      "I use keyword matching to understand your questions and provide relevant answers from my knowledge base!",
      "A computer is an electronic device that processes data and performs tasks according to instructions.",
      "The Internet is a global network connecting millions of computers worldwide.",
      "AI (Artificial Intelligence) is the simulation of human intelligence by machines, especially computer systems.",
      "Programming is the process of creating instructions for computers to follow. Popular languages include Python, JavaScript, and Java.",
      "JavaScript is a popular programming language used for web development, both frontend and backend!",
      "Python is a versatile, beginner-friendly programming language used for web development, data science, AI, and more!",
      "Java is a popular and powerful programming language, created in 1995.It is owned by Oracle, and more than 3 billion devices run Java.",
      "Of course! I'm here to help. What do you need?",
      "No need to apologize! How can I assist you?",
      "Yes, how may I help you?",
      "See you later! Take care!",
      "Sure! Looking forward to our next chat!",
      "Catch you later! Have a great day!",
      "This chatbot was created by Prince Kumar!",
      "This is a Chatbot Web Application project!",
      "This chatbot uses Node.js, Express, MongoDB, EJS, HTML, CSS, and JavaScript!",
      "my master your name is prince chauhan"
    ]

  /** `trainingData` */
  const TrainingData: seq<(string, string)> := Zip(TrainingKeywords, TrainingResponses)

  /** No keyword occurs twice in the training table, so no datum overwrites the document another
      datum of the same run created. */
  lemma TrainingKeywordsDistinct()
    ensures Distinct(TrainingKeywords)
    ensures KeysDistinct(TrainingData)
  {
    FirstKeywordsDistinct();
    SecondKeywordsDistinct();
    KeywordGroupsDisjoint();
    DistinctConcat(TrainingKeywordsFirst, TrainingKeywordsSecond);
    ZipKeysDistinct(TrainingKeywords, TrainingResponses);
  }

  lemma FirstKeywordsDistinct()
    ensures Distinct(TrainingKeywordsFirst)
  {
  }

  lemma SecondKeywordsDistinct()
    ensures Distinct(TrainingKeywordsSecond)
  {
  }

  lemma KeywordGroupsDisjoint()
    ensures forall a :: 0 <= a < |TrainingKeywordsFirst| ==> TrainingKeywordsFirst[a] !in TrainingKeywordsSecond
  {
  }
}
