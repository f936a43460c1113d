/** Keyword/response tables as the scripts write them: a sequence of pairs, here assembled from a
    column of keywords and a column of responses of the same length. */
module Tables {

  /** The table whose `i`-th row pairs the `i`-th keyword with the `i`-th response. */
  function Zip(keywords: seq<string>, responses: seq<string>): (rows: seq<(string, string)>)
    requires |keywords| == |responses|
    ensures |rows| == |keywords|
    ensures forall i :: 0 <= i < |rows| ==> rows[i] == (keywords[i], responses[i])
  {
    seq(|keywords|, i requires 0 <= i < |keywords| => (keywords[i], responses[i]))
  }

  /** No string occurs twice. */
  ghost predicate Distinct(s: seq<string>)
  {
    forall a, b :: 0 <= a < b < |s| ==> s[a] != s[b]
  }

  /** No keyword occurs in two rows. */
  ghost predicate KeysDistinct(rows: seq<(string, string)>)
  {
    forall a, b :: 0 <= a < b < |rows| ==> rows[a].0 != rows[b].0
  }

  /** Two columns without repeats and without a common string concatenate to one without repeats. */
  lemma DistinctConcat(s: seq<string>, t: seq<string>)
    requires Distinct(s) && Distinct(t)
    requires forall a :: 0 <= a < |s| ==> s[a] !in t
    ensures Distinct(s + t)
  {
    var u := s + t;
    forall a, b | 0 <= a < b < |u| ensures u[a] != u[b] {
      if b < |s| {
        assert u[a] == s[a] && u[b] == s[b];
      } else if a >= |s| {
        assert u[a] == t[a - |s|] && u[b] == t[b - |s|];
      } else {
        assert u[a] == s[a] && u[b] == t[b - |s|];
      }
    }
  }

  /** A table read from distinct keywords has distinct keys. */
  lemma ZipKeysDistinct(keywords: seq<string>, responses: seq<string>)
    requires |keywords| == |responses| && Distinct(keywords)
    ensures KeysDistinct(Zip(keywords, responses))
  {
  }
}
