/** The JavaScript string operations the UI relies on: `trim`, `split` on a
    one-character separator, `join`, and `Number.prototype.toString` for
    non-negative integers (with a decimal parser as its inverse). */
module Text {

  import opened Wrappers

  /** The characters JavaScript's `String.prototype.trim` removes: the
      WhiteSpace and LineTerminator code points of ECMA-262 (section 12.2 and 12.3). */
  predicate IsWhitespace(c: char) {
    c == '\t' || c == '\n' || c == '\U{B}' || c == '\U{C}' || c == '\r' || c == ' '
    || c == '\U{A0}' || c == '\U{1680}' || ('\U{2000}' <= c <= '\U{200A}')
    || c == '\U{2028}' || c == '\U{2029}' || c == '\U{202F}' || c == '\U{205F}'
    || c == '\U{3000}' || c == '\U{FEFF}'
  }

  predicate AllWhitespace(s: string) {
    forall i :: 0 <= i < |s| ==> IsWhitespace(s[i])
  }

  /** The first index at or after `from` that does not hold whitespace
      (`|s|` if there is none). */
  function SkipLeading(s: string, from: nat): (i: nat)
    requires from <= |s|
    ensures from <= i <= |s|
    ensures forall k :: from <= k < i ==> IsWhitespace(s[k])
    ensures i == |s| || !IsWhitespace(s[i])
    decreases |s| - from
  {
    if from < |s| && IsWhitespace(s[from]) then SkipLeading(s, from + 1) else from
  }

  /** One past the last index in `[lo, hi)` that does not hold whitespace
      (`lo` if there is none). */
  function SkipTrailing(s: string, lo: nat, hi: nat): (j: nat)
    requires lo <= hi <= |s|
    ensures lo <= j <= hi
    ensures forall k :: j <= k < hi ==> IsWhitespace(s[k])
    ensures j == lo || !IsWhitespace(s[j - 1])
    decreases hi
  {
    if lo < hi && IsWhitespace(s[hi - 1]) then SkipTrailing(s, lo, hi - 1) else hi
  }

  /** Every character of `s` before index `i` or from index `j` on is whitespace. */
  ghost predicate WhitespaceOutside(s: string, i: int, j: int) {
    forall k :: 0 <= k < |s| && (k < i || j <= k) ==> IsWhitespace(s[k])
  }

  /** `s.trim()`: a contiguous piece `s[i..j]` of `s`, with only whitespace
      outside it, which neither starts nor ends with whitespace. */
  function Trim(s: string): (r: string)
    ensures exists i, j :: 0 <= i <= j <= |s| && r == s[i..j] && WhitespaceOutside(s, i, j)
    ensures r == [] || (!IsWhitespace(r[0]) && !IsWhitespace(r[|r| - 1]))
  {
    var i := SkipLeading(s, 0);
    var j := SkipTrailing(s, i, |s|);
    assert WhitespaceOutside(s, i, j);
    s[i..j]
  }

  /** A string trims to empty exactly when it is all whitespace. */
  lemma TrimEmptyIff(s: string)
    ensures Trim(s) == [] <==> AllWhitespace(s)
  {
  }

  /** Index of the first occurrence of `c` in `s`. */
  function FirstIndex(s: string, c: char): (k: nat)
    requires c in s
    ensures k < |s| && s[k] == c && c !in s[..k]
  {
    if s[0] == c then 0
    else
      var k := FirstIndex(s[1..], c);
      assert s[1..][..k] == s[1..k + 1];
      k + 1
  }

  /** The first occurrence is the one with no earlier occurrence. */
  lemma {:induction false} FirstIndexAt(s: string, c: char, k: nat)
    requires k < |s| && s[k] == c && c !in s[..k]
    ensures FirstIndex(s, c) == k
  {
    if k > 0 {
      assert s[0] in s[..k];
      assert s[1..][..k - 1] == s[1..k];
      FirstIndexAt(s[1..], c, k - 1);
    }
  }

  /** `s.split(c)`: the pieces between the occurrences of `c`. There is always
      at least one piece (an empty string splits into one empty piece). */
  function Split(s: string, c: char): (parts: seq<string>)
    ensures |parts| >= 1
    ensures |parts| >= 2 <==> c in s
    ensures forall i :: 0 <= i < |parts| ==> c !in parts[i]
    decreases |s|
  {
    if c !in s then [s]
    else
      var k := FirstIndex(s, c);
      [s[..k]] + Split(s[k + 1..], c)
  }

  /** `parts.join(c)`. */
  function Join(parts: seq<string>, c: char): (s: string)
    ensures |parts| == 1 ==> s == parts[0]
  {
    if parts == [] then []
    else if |parts| == 1 then parts[0]
    else parts[0] + [c] + Join(parts[1..], c)
  }

  /** Splitting on the first separator: the first piece is the text before the
      first `c`, and the remaining pieces rejoined with `c` are the text after it. */
  lemma {:induction false} SplitAtFirst(s: string, c: char)
    requires c in s
    ensures var k := FirstIndex(s, c);
      Split(s, c)[0] == s[..k] && Join(Split(s, c)[1..], c) == s[k + 1..]
  {
    var k := FirstIndex(s, c);
    var rest := Split(s[k + 1..], c);
    assert Split(s, c) == [s[..k]] + rest;
    assert Split(s, c)[1..] == rest;
    JoinSplit(s[k + 1..], c);
  }

  /** Joining the pieces of a split with the same separator gives the string back. */
  lemma {:induction false} JoinSplit(s: string, c: char)
    ensures Join(Split(s, c), c) == s
    decreases |s|
  {
    if c in s {
      var k := FirstIndex(s, c);
      var rest := Split(s[k + 1..], c);
      JoinSplit(s[k + 1..], c);
      var parts := [s[..k]] + rest;
      assert Split(s, c) == parts;
      assert parts[0] == s[..k] && parts[1..] == rest;
      assert Join(parts, c) == s[..k] + [c] + s[k + 1..];
      assert s == s[..k] + [c] + s[k + 1..];
    }
  }

  /** Every character of a joined string is the separator or a character of a part. */
  lemma {:induction false} JoinChars(parts: seq<string>, c: char, x: char)
    requires x in Join(parts, c)
    ensures x == c || exists i :: 0 <= i < |parts| && x in parts[i]
  {
    if |parts| >= 2 {
      var s := Join(parts, c);
      if x in parts[0] {
      } else if x != c {
        assert x in Join(parts[1..], c);
        JoinChars(parts[1..], c, x);
        var i :| 0 <= i < |parts| - 1 && x in parts[1..][i];
        assert x in parts[i + 1];
      }
    }
  }

  /** Every character of a piece of a split occurs in the split string. */
  lemma {:induction false} SplitChars(s: string, c: char, i: nat, x: char)
    requires i < |Split(s, c)| && x in Split(s, c)[i]
    ensures x in s
    decreases |s|
  {
    if c in s {
      var k := FirstIndex(s, c);
      var rest := Split(s[k + 1..], c);
      assert Split(s, c) == [s[..k]] + rest;
      if i == 0 {
        var j :| 0 <= j < k && s[..k][j] == x;
        assert s[j] == x;
      } else {
        assert rest[i - 1] == Split(s, c)[i];
        SplitChars(s[k + 1..], c, i - 1, x);
        var j :| 0 <= j < |s| - k - 1 && s[k + 1..][j] == x;
        assert s[k + 1 + j] == x;
      }
    }
  }

  function DigitChar(d: nat): (c: char)
    requires d < 10
    ensures '0' <= c <= '9' && (c as int) - ('0' as int) == d
  {
    (('0' as int) + d) as char
  }

  /** `n.toString()` for a non-negative integer: its decimal digits, without leading zeros. */
  function NatToString(n: nat): (s: string)
    ensures |s| >= 1 && forall i :: 0 <= i < |s| ==> '0' <= s[i] <= '9'
    ensures |s| > 1 ==> s[0] != '0'
  {
    if n < 10 then [DigitChar(n)] else NatToString(n / 10) + [DigitChar(n % 10)]
  }

  /** Value of a string of decimal digits. */
  function DigitsValue(s: string): nat
    requires forall i :: 0 <= i < |s| ==> '0' <= s[i] <= '9'
  {
    if s == [] then 0
    else DigitsValue(s[..|s| - 1]) * 10 + ((s[|s| - 1] as int) - ('0' as int))
  }

  /** A decimal parser: a non-empty string of digits, or nothing. */
  function ParseDecimal(s: string): (r: Option<nat>)
    ensures r.Some? <==> s != [] && forall i :: 0 <= i < |s| ==> '0' <= s[i] <= '9'
  {
    if s != [] && forall i :: 0 <= i < |s| ==> '0' <= s[i] <= '9' then Some(DigitsValue(s)) else None
  }

  /** The digits of `n`'s rendering have the value `n`. */
  lemma {:induction false} DigitsValueNatToString(n: nat)
    ensures DigitsValue(NatToString(n)) == n
  {
    var s := NatToString(n);
    if n < 10 {
      assert s[..|s| - 1] == [];
    } else {
      var q, d := n / 10, n % 10;
      DigitsValueNatToString(q);
      assert s[..|s| - 1] == NatToString(q);
      assert (s[|s| - 1] as int) - ('0' as int) == d;
      assert DigitsValue(s) == q * 10 + d;
    }
  }

  /** Parsing the decimal rendering of a number gives the number back. */
  lemma ParseNatToString(n: nat)
    ensures ParseDecimal(NatToString(n)) == Some(n)
  {
    DigitsValueNatToString(n);
  }

  /** Distinct numbers have distinct decimal renderings. */
  lemma NatToStringInjective(a: nat, b: nat)
    requires NatToString(a) == NatToString(b)
    ensures a == b
  {
    ParseNatToString(a);
    ParseNatToString(b);
  }
}
