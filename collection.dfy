/** The intent collection as the application uses it through its model: an in-memory sequence of
    documents in insertion order with an identifier counter, and one method per database call
    the application makes (`findOne`, `save`, `findByIdAndDelete`, `find().sort()`,
    `countDocuments`, `insertMany`, `deleteMany`). Every call is atomic. */
module IntentCollection {
  import opened Wrappers
  import opened Text
  import opened Search
  import opened Sorting
  import opened IntentModel

  class Collection {
    var intents: seq<Intent>
    var nextId: nat

    /** The schema's invariant, and every identifier handed out so far is below the counter. */
    ghost predicate Valid()
      reads this
    {
      StoreInvariant(intents) && IdsBelow(intents, nextId)
    }

    constructor ()
      ensures Valid() && intents == [] && nextId == 0
    {
      intents := [];
      nextId := 0;
    }

    /** `Intent.find()` without a sort: the documents in insertion order. */
    method Find() returns (all: seq<Intent>)
      ensures all == intents
    {
      all := intents;
    }

    /** `Intent.findOne({ keyword })`: the query is cast through the keyword path's setters
        before it is matched, so the filter value is lower-cased and trimmed; the result is the
        document whose stored keyword is that normal form. */
    method FindOne(keyword: string) returns (r: Option<nat>)
      ensures r == KeywordIndex(intents, Normalize(keyword))
      ensures r.Some? ==> r.value < |intents| && intents[r.value].keyword == Normalize(keyword)
      ensures r.None? ==> forall k :: 0 <= k < |intents| ==> intents[k].keyword != Normalize(keyword)
    {
      r := KeywordIndex(intents, Normalize(keyword));
    }

    /** `new Intent({ keyword, response }).save()`, with a fresh identifier. */
    method Create(keyword: string, response: string, now: int) returns (w: Write)
      requires Valid()
      modifies this
      ensures Valid()
      ensures w == Insert(old(intents), keyword, response, old(nextId), now)
      ensures intents == if w.Written? then w.intents else old(intents)
      ensures nextId == old(nextId) + 1
    {
      w := Insert(intents, keyword, response, nextId, now);
      if w.Written? {
        InsertWrites(intents, keyword, response, nextId, now);
        InsertPreservesInvariant(intents, keyword, response, nextId, now);
        IdsBelowAppend(intents, w.intent, nextId);
        intents := w.intents;
      }
      nextId := nextId + 1;
    }

    /** `doc.response = response; doc.save()` on the document at index `i`. */
    method Save(i: nat, response: string) returns (w: Write)
      requires Valid() && i < |intents|
      modifies this
      ensures Valid()
      ensures w == Overwrite(old(intents), i, response)
      ensures intents == if w.Written? then w.intents else old(intents)
      ensures nextId == old(nextId)
    {
      OverwritePreservesInvariant(intents, i, response);
      w := Overwrite(intents, i, response);
      if w.Written? {
        intents := w.intents;
      }
    }

    /** `Intent.findByIdAndDelete(id)`: the deleted document, or nothing when no document has `id`. */
    method FindByIdAndDelete(id: nat) returns (r: Option<Intent>)
      requires Valid()
      modifies this
      ensures Valid() && nextId == old(nextId)
      ensures IdIndex(old(intents), id).None? ==> r.None? && intents == old(intents)
      ensures IdIndex(old(intents), id).Some? ==>
        var i := IdIndex(old(intents), id).value;
        r == Some(old(intents)[i]) && intents == old(intents)[..i] + old(intents)[i + 1..]
    {
      match IdIndex(intents, id)
      case None =>
        r := None;
      case Some(i) =>
        RemoveKeepsInvariant(intents, i);
        r := Some(intents[i]);
        intents := intents[..i] + intents[i + 1..];
    }

    /** `Intent.find().sort({ createdAt: -1 })` */
    method FindSortedByCreatedDesc() returns (list: seq<Intent>)
      ensures SortedDesc(list, CreatedAt)
      ensures multiset(list) == multiset(intents) && |list| == |intents|
    {
      list := SortDesc(intents, CreatedAt);
    }

    /** `Intent.countDocuments()` */
    method CountDocuments() returns (n: nat)
      ensures n == |intents|
    {
      n := |intents|;
    }

    /** `Intent.insertMany(pairs)`: each document gets the creation time `now` and the next
        identifier, whether or not it is written. */
    method InsertMany(pairs: seq<(string, string)>, now: int) returns (ok: bool)
      requires Valid()
      modifies this
      ensures Valid()
      ensures (intents, ok) == BulkInsert(old(intents), pairs, old(nextId), now)
      ensures nextId == old(nextId) + |pairs|
    {
      BulkInsertKeepsInvariant(intents, pairs, nextId, now);
      var r := BulkInsert(intents, pairs, nextId, now);
      intents := r.0;
      ok := r.1;
      nextId := nextId + |pairs|;
    }
  }

  /** Every identifier in `s` is below `n`. */
  ghost predicate IdsBelow(s: seq<Intent>, n: nat)
  {
    forall k :: 0 <= k < |s| ==> s[k].id < n
  }

  /** Appending a document numbered `n` to identifiers below `n` leaves them below `n + 1`. */
  lemma IdsBelowAppend(s: seq<Intent>, doc: Intent, n: nat)
    requires IdsBelow(s, n) && doc.id == n
    ensures IdsBelow(s + [doc], n + 1)
  {
    var t := s + [doc];
    forall k | 0 <= k < |t| ensures t[k].id < n + 1 {
      if k < |s| { assert t[k] == s[k]; }
    }
  }
}
