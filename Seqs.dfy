/** Sequence combinators with the meaning of JavaScript's Array.prototype.map
    and Array.prototype.filter, which every list handler of the UI is built from. */
module Seqs {

  /** `s.map(f)`: same length, element i is f of element i. */
  function Map<T, U>(s: seq<T>, f: T -> U): (r: seq<U>)
    ensures |r| == |s|
    ensures forall i :: 0 <= i < |s| ==> r[i] == f(s[i])
  {
    if s == [] then [] else [f(s[0])] + Map(s[1..], f)
  }

  /** Number of elements of `s` that satisfy `p`. */
  function Count<T>(s: seq<T>, p: T -> bool): (n: nat)
    ensures n <= |s|
    ensures n == 0 <==> forall i :: 0 <= i < |s| ==> !p(s[i])
    ensures n == |s| <==> forall i :: 0 <= i < |s| ==> p(s[i])
  {
    if s == [] then 0 else (if p(s[0]) then 1 else 0) + Count(s[1..], p)
  }

  /** `a` is obtained from `b` by deleting elements: the relative order is kept. */
  predicate Subseq<T(==)>(a: seq<T>, b: seq<T>)
    decreases |b|
  {
    if a == [] then true
    else if b == [] then false
    else (a[0] == b[0] && Subseq(a[1..], b[1..])) || Subseq(a, b[1..])
  }

  /** `s.filter(p)`: the elements satisfying `p`, in their original order. */
  function Filter<T>(s: seq<T>, p: T -> bool): (r: seq<T>)
    ensures |r| == Count(s, p)
    ensures forall x :: x in r ==> x in s && p(x)
    ensures forall x :: x in s && p(x) ==> x in r
  {
    if s == [] then [] else (if p(s[0]) then [s[0]] else []) + Filter(s[1..], p)
  }

  lemma {:induction false} FilterIsSubseq<T>(s: seq<T>, p: T -> bool)
    ensures Subseq(Filter(s, p), s)
  {
    if s != [] {
      FilterIsSubseq(s[1..], p);
      var rest := Filter(s[1..], p);
      if p(s[0]) {
        assert Filter(s, p) == [s[0]] + rest;
        assert ([s[0]] + rest)[1..] == rest;
      } else {
        assert Filter(s, p) == rest;
        SubseqSkip(rest, s);
      }
    }
  }

  /** Dropping the head of the longer sequence keeps a subsequence a subsequence. */
  lemma {:induction false} SubseqSkip<T>(a: seq<T>, b: seq<T>)
    requires b != [] && Subseq(a, b[1..])
    ensures Subseq(a, b)
  {
  }

  /** A subsequence of `s` made only of elements satisfying `p` is no longer than the filter. */
  lemma {:induction false} SubseqCountBound<T>(r: seq<T>, s: seq<T>, p: T -> bool)
    requires Subseq(r, s)
    requires forall x :: x in r ==> p(x)
    ensures |r| <= Count(s, p)
    decreases |s|
  {
    if r != [] {
      assert s != [];
      if r[0] == s[0] && Subseq(r[1..], s[1..]) {
        assert r[0] in r;
        forall x | x in r[1..] ensures p(x) { assert x in r; }
        SubseqCountBound(r[1..], s[1..], p);
      } else {
        SubseqCountBound(r, s[1..], p);
      }
    }
  }

  /** The filter is the ONLY subsequence of `s` whose elements all satisfy `p`
      and which has as many elements as `s` has satisfying `p`: an independent
      description of "exactly the matching elements, in their order". */
  lemma {:induction false} FilterUnique<T>(s: seq<T>, p: T -> bool, r: seq<T>)
    requires Subseq(r, s)
    requires forall x :: x in r ==> p(x)
    requires |r| == Count(s, p)
    ensures r == Filter(s, p)
    decreases |s|
  {
    if s == [] {
    } else if p(s[0]) {
      if r != [] && r[0] == s[0] && Subseq(r[1..], s[1..]) {
        forall x | x in r[1..] ensures p(x) { assert x in r; }
        FilterUnique(s[1..], p, r[1..]);
        assert r == [r[0]] + r[1..];
      } else {
        if r == [] {
          assert false;
        }
        assert Subseq(r, s[1..]);
        SubseqCountBound(r, s[1..], p);
        assert false;
      }
    } else {
      if r != [] && r[0] == s[0] {
        assert false;
      }
      assert r == [] || Subseq(r, s[1..]);
      FilterUnique(s[1..], p, r);
    }
  }

  /** A filter that rejects nothing returns its input. */
  lemma {:induction false} FilterKeepsAll<T>(s: seq<T>, p: T -> bool)
    requires Count(s, p) == |s|
    ensures Filter(s, p) == s
  {
    if s != [] {
      FilterKeepsAll(s[1..], p);
      assert s == [s[0]] + s[1..];
    }
  }

  /** Counting with a predicate and with its negation splits the sequence. */
  lemma {:induction false} CountComplement<T>(s: seq<T>, p: T -> bool, q: T -> bool)
    requires forall x :: q(x) == !p(x)
    ensures Count(s, p) + Count(s, q) == |s|
  {
    if s != [] {
      CountComplement(s[1..], p, q);
    }
  }
}
