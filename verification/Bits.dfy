/**
 Bit strings as the engine writes them: a key such as "q2q1q0" carries bit 0 in its
 last character.
 */
module Bits {

  /** Bit `i` of a key, counted from the right. */
  function Bit(s: string, i: nat): char
    requires i < |s|
  {
    s[|s| - 1 - i]
  }

  /** A key is determined by its length and its bits. */
  lemma SameBits(s: string, t: string)
    requires |s| == |t|
    requires forall i :: 0 <= i < |s| ==> Bit(s, i) == Bit(t, i)
    ensures s == t
  {
    forall j | 0 <= j < |s| ensures s[j] == t[j] {
      assert Bit(s, |s| - 1 - j) == Bit(t, |s| - 1 - j);
    }
  }

  /** The sum of a list of lengths. */
  function Sum(lengths: seq<int>): int {
    if lengths == [] then 0 else Sum(lengths[..|lengths| - 1]) + lengths[|lengths| - 1]
  }

  /** Prefix sums of non-negative lengths grow. */
  lemma {:induction false} SumPrefix(lengths: seq<int>, i: nat)
    requires i <= |lengths|
    requires forall k :: 0 <= k < |lengths| ==> lengths[k] >= 0
    ensures 0 <= Sum(lengths[..i]) <= Sum(lengths)
    decreases |lengths| - i
  {
    if i == |lengths| {
      assert lengths[..i] == lengths;
      SumNonNegative(lengths);
    } else {
      SumPrefix(lengths, i + 1);
      assert lengths[..i + 1][..i] == lengths[..i];
      SumNonNegative(lengths[..i]);
    }
  }

  lemma {:induction false} SumNonNegative(lengths: seq<int>)
    requires forall k :: 0 <= k < |lengths| ==> lengths[k] >= 0
    ensures Sum(lengths) >= 0
  {
    if lengths != [] {
      SumNonNegative(lengths[..|lengths| - 1]);
    }
  }
}
