/** String primitives the application relies on: JavaScript's `trim`, `toLowerCase`,
    `toUpperCase` on one character, `includes`, and the decimal rendering of a count.
    Case mapping is modelled over ASCII letters only; `trim` removes the full set of
    characters JavaScript treats as white space or line terminators. */
module Text {

  /** The characters `String.prototype.trim` removes from both ends. */
  predicate IsSpace(c: char)
  {
    c == ' ' || c == '\t' || c == '\n' || c == '\r' || c == '\U{0B}' || c == '\U{0C}' ||
    c == '\U{A0}' || c == '\U{1680}' || ('\U{2000}' <= c <= '\U{200A}') ||
    c == '\U{2028}' || c == '\U{2029}' || c == '\U{202F}' || c == '\U{205F}' ||
    c == '\U{3000}' || c == '\U{FEFF}'
  }

  predicate AllSpace(s: string)
  {
    forall k :: 0 <= k < |s| ==> IsSpace(s[k])
  }

  /** A string with no white space at either end. */
  predicate IsTrimmed(s: string)
  {
    s == [] || (!IsSpace(s[0]) && !IsSpace(s[|s| - 1]))
  }

  function LowerChar(c: char): (r: char)
    ensures 'A' <= c <= 'Z' ==> 'a' <= r <= 'z' && r as int == c as int + 32
    ensures !('A' <= c <= 'Z') ==> r == c
  {
    if 'A' <= c <= 'Z' then (c as int + 32) as char else c
  }

  function UpperChar(c: char): (r: char)
    ensures 'a' <= c <= 'z' ==> 'A' <= r <= 'Z' && r as int == c as int - 32
    ensures !('a' <= c <= 'z') ==> r == c
  {
    if 'a' <= c <= 'z' then (c as int - 32) as char else c
  }

  /** `toLowerCase`: the length is kept; `LowerAt` states that each character is mapped on its
      own. */
  function Lower(s: string): (r: string)
    ensures |r| == |s|
    decreases |s|
  {
    if s == [] then [] else [LowerChar(s[0])] + Lower(s[1..])
  }

  /** `toLowerCase` maps each character on its own. */
  lemma {:induction false} LowerAt(s: string)
    ensures forall k :: 0 <= k < |s| ==> Lower(s)[k] == LowerChar(s[k])
    decreases |s|
  {
    if s != [] {
      LowerAt(s[1..]);
      assert forall k :: 1 <= k < |s| ==> Lower(s)[k] == Lower(s[1..])[k - 1];
    }
  }

  /** `trim`: white space is dropped from the front, then from the back, one character at a time. */
  function Trim(s: string): (r: string)
    ensures IsTrimmed(r)
    ensures |r| <= |s|
    ensures r == [] <==> AllSpace(s)
    decreases |s|
  {
    if s != [] && IsSpace(s[0]) then Trim(s[1..])
    else if s != [] && IsSpace(s[|s| - 1]) then Trim(s[..|s| - 1])
    else s
  }

  /** The key normal form of the intent store: `toLowerCase()` followed by `trim()`. */
  function Normalize(s: string): string
  {
    Trim(Lower(s))
  }

  predicate IsNormal(s: string)
  {
    Normalize(s) == s
  }

  /** No upper-case ASCII letter. */
  predicate NoUpper(s: string)
  {
    forall k :: 0 <= k < |s| ==> !('A' <= s[k] <= 'Z')
  }

  /** The normal form, stated without computing it: trimmed and free of upper-case letters. */
  predicate IsNormalKey(s: string)
  {
    IsTrimmed(s) && NoUpper(s)
  }

  /** `s` holds `k` as a contiguous block starting at index `i`. */
  predicate OccursAt(s: string, k: string, i: nat)
  {
    i + |k| <= |s| && s[i..i + |k|] == k
  }

  /** `s.includes(k)`: `k` is a contiguous substring of `s`. */
  function Contains(s: string, k: string): (r: bool)
    ensures r <==> exists i: nat :: OccursAt(s, k, i)
    decreases |s|
  {
    if |k| <= |s| && s[..|k|] == k then
      assert OccursAt(s, k, 0);
      true
    else if s == [] then
      assert forall i: nat :: !OccursAt(s, k, i);
      false
    else
      var r := Contains(s[1..], k);
      assert r ==> exists i: nat :: OccursAt(s, k, i) by {
        if r {
          var i: nat :| OccursAt(s[1..], k, i);
          assert s[i + 1..i + 1 + |k|] == s[1..][i..i + |k|];
          assert OccursAt(s, k, i + 1);
        }
      }
      assert (exists i: nat :: OccursAt(s, k, i)) ==> r by {
        if exists i: nat :: OccursAt(s, k, i) {
          var i: nat :| OccursAt(s, k, i);
          assert i != 0;
          assert s[1..][i - 1..i - 1 + |k|] == s[i..i + |k|];
          assert OccursAt(s[1..], k, i - 1);
        }
      }
      r
  }

  /** The first character upper-cased, the rest untouched: `s.charAt(0).toUpperCase() + s.slice(1)`. */
  function Capitalize(s: string): (r: string)
    ensures |r| == |s|
    ensures s != [] ==> r[0] == UpperChar(s[0]) && r[1..] == s[1..]
  {
    if s == [] then [] else [UpperChar(s[0])] + s[1..]
  }

  predicate IsDigit(c: char)
  {
    '0' <= c <= '9'
  }

  function DigitChar(d: nat): (c: char)
    requires d < 10
    ensures IsDigit(c) && c as int - '0' as int == d
  {
    ('0' as int + d) as char
  }

  /** The decimal text of a count, as a template literal `${n}` renders it. */
  function Decimal(n: nat): (r: string)
    ensures r != [] && forall k :: 0 <= k < |r| ==> IsDigit(r[k])
    ensures n == 0 <==> r == "0"
    ensures n > 0 ==> r[0] != '0'
    decreases n
  {
    if n < 10 then [DigitChar(n)] else Decimal(n / 10) + [DigitChar(n % 10)]
  }

  /** The number a string of decimal digits denotes. */
  function DecimalValue(s: string): nat
    requires forall k :: 0 <= k < |s| ==> IsDigit(s[k])
    decreases |s|
  {
    if s == [] then 0
    else
      var last := s[|s| - 1];
      assert IsDigit(last);
      10 * DecimalValue(s[..|s| - 1]) + (last as int - '0' as int)
  }

  // ---------------------------------------------------------------------------------------------
  // Lemmas

  lemma {:induction false} DecimalRoundTrip(n: nat)
    ensures DecimalValue(Decimal(n)) == n
    decreases n
  {
    if n >= 10 {
      DecimalRoundTrip(n / 10);
      var d := Decimal(n);
      assert d[..|d| - 1] == Decimal(n / 10);
    }
  }

  /** Two counts render to the same text only when they are equal. */
  lemma DecimalInjective(m: nat, n: nat)
    requires Decimal(m) == Decimal(n)
    ensures m == n
  {
    DecimalRoundTrip(m);
    DecimalRoundTrip(n);
  }

  lemma LowerCharPreservesSpace(c: char)
    ensures IsSpace(LowerChar(c)) <==> IsSpace(c)
  {
  }

  /** Lower-casing and trimming commute, so the schema's setters (trim, then lowercase) and the
      controller's `toLowerCase().trim()` produce the same key. */
  lemma {:induction false} TrimLowerCommute(s: string)
    ensures Trim(Lower(s)) == Lower(Trim(s))
    decreases |s|
  {
    if s != [] {
      var t := Lower(s);
      LowerAt(s);
      LowerCharPreservesSpace(s[0]);
      LowerCharPreservesSpace(s[|s| - 1]);
      if IsSpace(s[0]) {
        assert t[1..] == Lower(s[1..]) by { LowerAt(s[1..]); }
        TrimLowerCommute(s[1..]);
      } else if IsSpace(s[|s| - 1]) {
        assert t[..|s| - 1] == Lower(s[..|s| - 1]) by { LowerAt(s[..|s| - 1]); }
        TrimLowerCommute(s[..|s| - 1]);
      }
    }
  }

  lemma LowerIdempotent(s: string)
    ensures Lower(Lower(s)) == Lower(s)
  {
  }

  /** Lower-casing before normalising changes nothing. */
  lemma NormalizeOfLower(s: string)
    ensures Normalize(Lower(s)) == Normalize(s)
  {
    LowerIdempotent(s);
  }

  /** Trimming a string that has no white space at its ends changes nothing. */
  lemma TrimOfTrimmed(s: string)
    requires IsTrimmed(s)
    ensures Trim(s) == s
  {
  }

  lemma TrimIdempotent(s: string)
    ensures Trim(Trim(s)) == Trim(s)
  {
    TrimOfTrimmed(Trim(s));
  }

  /** Normalising twice is normalising once: a stored keyword is already in normal form. */
  lemma NormalizeIdempotent(s: string)
    ensures IsNormal(Normalize(s))
  {
    var t := Lower(s);
    TrimLowerCommute(t);
    LowerIdempotent(s);
    TrimIdempotent(t);
  }

  /** A key in normal form is lower case: lower-casing it again changes nothing. */
  lemma NormalIsLower(k: string)
    requires IsNormal(k)
    ensures Lower(k) == k
  {
    TrimLowerCommute(Lower(k));
    LowerIdempotent(k);
  }

  /** A normal-form key is trimmed. */
  lemma NormalIsTrimmed(k: string)
    requires IsNormal(k)
    ensures IsTrimmed(k) && Trim(k) == k
  {
    TrimOfTrimmed(Normalize(k));
  }

  /** Lower-casing leaves no upper-case letter. */
  lemma LowerHasNoUpper(s: string)
    ensures NoUpper(Lower(s))
  {
  }

  /** Trimming keeps only characters of the input, so it cannot introduce an upper-case letter. */
  lemma {:induction false} TrimKeepsNoUpper(t: string)
    requires NoUpper(t)
    ensures NoUpper(Trim(t))
    decreases |t|
  {
    if t != [] && IsSpace(t[0]) {
      NoUpperSlice(t, 1, |t|);
      TrimKeepsNoUpper(t[1..]);
    } else if t != [] && IsSpace(t[|t| - 1]) {
      NoUpperSlice(t, 0, |t| - 1);
      TrimKeepsNoUpper(t[..|t| - 1]);
    }
  }

  /** A slice of a string without upper-case letters has none either. */
  lemma NoUpperSlice(t: string, lo: nat, hi: nat)
    requires NoUpper(t) && lo <= hi <= |t|
    ensures NoUpper(t[lo..hi])
  {
    var u := t[lo..hi];
    forall k | 0 <= k < |u| ensures !('A' <= u[k] <= 'Z') { assert u[k] == t[lo + k]; }
  }

  /** A trimmed string without upper-case letters is its own normal form. */
  lemma NormalKeyIsNormal(s: string)
    requires IsNormalKey(s)
    ensures IsNormal(s)
  {
    LowerAt(s);
    assert Lower(s) == s;
    TrimOfTrimmed(s);
  }

  /** A string that is its own normal form is trimmed and has no upper-case letter. */
  lemma NormalIsNormalKey(s: string)
    requires IsNormal(s)
    ensures IsNormalKey(s)
  {
    LowerHasNoUpper(s);
    TrimKeepsNoUpper(Lower(s));
  }

  /** The key the store computes is in normal form. */
  lemma NormalizeIsNormalKey(s: string)
    ensures IsNormalKey(Normalize(s))
  {
    NormalizeIdempotent(s);
    NormalIsNormalKey(Normalize(s));
  }

  /** Lower-casing cannot turn a blank string into a non-blank one or back. */
  lemma NormalizeEmptyIff(s: string)
    ensures Normalize(s) == [] <==> Trim(s) == []
  {
    LowerAt(s);
    var t := Lower(s);
    forall k | 0 <= k < |s| ensures IsSpace(t[k]) <==> IsSpace(s[k]) {
      LowerCharPreservesSpace(s[k]);
    }
    assert AllSpace(t) <==> AllSpace(s);
  }

  /** The empty string occurs in every string, which is why the store must never hold an empty key. */
  lemma EmptyOccursEverywhere(s: string)
    ensures Contains(s, "")
  {
    assert OccursAt(s, "", 0);
  }

  /** Nothing but the empty string occurs in the empty string. */
  lemma NothingInEmpty(k: string)
    requires k != []
    ensures !Contains("", k)
  {
  }

  /** Occurrence is transitive: if `k` occurs in `m` and `m` occurs in `s`, then `k` occurs in `s`. */
  lemma ContainsTransitive(s: string, m: string, k: string)
    requires Contains(s, m) && Contains(m, k)
    ensures Contains(s, k)
  {
    var i: nat :| OccursAt(s, m, i);
    var j: nat :| OccursAt(m, k, j);
    forall x | 0 <= x < |k| ensures s[i + j + x] == k[x] {
      assert k[x] == m[j + x] == s[i + j + x];
    }
    assert s[i + j..i + j + |k|] == k;
    assert OccursAt(s, k, i + j);
  }
}
