/** A lookup that can fail: Go's `(value, err)` pair, where the value is
    ignored whenever `err != nil`. */
module Options {

  datatype Option<+T> = None | Some(value: T)
}

/** Go's fixed-width `int64` on unbounded Dafny integers. The plugin is
    built for 64-bit targets, so Go's `int` is the same range and the
    `int64(...)` conversions in main.go are the identity. */
module GoInt {

  const MinInt64: int := -0x8000_0000_0000_0000
  const MaxInt64: int := 0x7fff_ffff_ffff_ffff
  const Modulus64: int := 0x1_0000_0000_0000_0000

  type Int64 = x: int | MinInt64 <= x <= MaxInt64

  /** Two's-complement wrap-around, as a Go `int64` multiplication that
      overflows silently. The result is the unique int64 congruent to `x`
      modulo 2^64. */
  function Wrap64(x: int): (r: Int64)
    ensures (r - x) % Modulus64 == 0
    ensures MinInt64 <= x <= MaxInt64 ==> r == x
  {
    (x - MinInt64) % Modulus64 + MinInt64
  }
}

/** Sequence helpers shared by the model. */
module Seqs {

  /** The subsequence of `s` whose elements satisfy `p`, in order. */
  function Filter<T>(s: seq<T>, p: T -> bool): (r: seq<T>)
    ensures |r| <= |s|
    ensures forall x :: x in r ==> x in s && p(x)
  {
    if |s| == 0 then []
    else if p(s[0]) then [s[0]] + Filter(s[1..], p)
    else Filter(s[1..], p)
  }

  /** Nothing survives a filter that no element passes. */
  lemma {:induction false} FilterNone<T>(s: seq<T>, p: T -> bool)
    requires forall i :: 0 <= i < |s| ==> !p(s[i])
    ensures Filter(s, p) == []
    decreases |s|
  {
    if |s| > 0 {
      assert forall i :: 1 <= i < |s| ==> s[1..][i - 1] == s[i];
      FilterNone(s[1..], p);
    }
  }
}
