/** Linear search for the first element satisfying a condition: the semantics of `findOne` with a
    filter (the database returns the first match in natural order) and of a `for … break` scan. */
module Search {
  import opened Wrappers

  /** The index of the first element of `s` that satisfies `p`, if any. */
  function FirstWhere<T>(s: seq<T>, p: T -> bool): (r: Option<nat>)
    ensures r.Some? ==> r.value < |s| && p(s[r.value])
    ensures r.Some? ==> forall k :: 0 <= k < r.value ==> !p(s[k])
    ensures r.None? <==> forall k :: 0 <= k < |s| ==> !p(s[k])
    decreases |s|
  {
    if s == [] then None
    else if p(s[0]) then Some(0)
    else
      match FirstWhere(s[1..], p)
      case None => None
      case Some(k) => Some(k + 1)
  }

  /** Appending an element does not move an existing first hit, and is the first hit otherwise. */
  lemma FirstWhereAppend<T>(s: seq<T>, x: T, p: T -> bool)
    ensures FirstWhere(s + [x], p) ==
      if FirstWhere(s, p).Some? then FirstWhere(s, p)
      else if p(x) then Some(|s|) else None
  {
    var t := s + [x];
    match FirstWhere(s, p)
    case Some(i) =>
      assert t[i] == s[i];
      forall k | 0 <= k < i ensures !p(t[k]) { assert t[k] == s[k]; }
      FirstWhereIs(t, p, i);
    case None =>
      forall k | 0 <= k < |s| ensures !p(t[k]) { assert t[k] == s[k]; }
      if p(x) {
        assert t[|s|] == x;
        FirstWhereIs(t, p, |s|);
      }
  }

  /** An element that satisfies the condition, with none before it, is the first hit. */
  lemma FirstWhereIs<T>(s: seq<T>, p: T -> bool, i: nat)
    requires i < |s| && p(s[i])
    requires forall k :: 0 <= k < i ==> !p(s[k])
    ensures FirstWhere(s, p) == Some(i)
  {
    var r := FirstWhere(s, p);
    assert r.Some?;
    assert r.value >= i;
    assert r.value <= i;
  }

  /** The first hit depends only on which elements satisfy the condition. */
  lemma FirstWhereSameHits<T>(s: seq<T>, t: seq<T>, p: T -> bool)
    requires |s| == |t|
    requires forall k :: 0 <= k < |s| ==> (p(s[k]) <==> p(t[k]))
    ensures FirstWhere(s, p) == FirstWhere(t, p)
  {
  }
}
