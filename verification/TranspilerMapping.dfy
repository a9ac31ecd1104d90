/**
 The transpiler client's physical-to-virtual mapping, and what it means for the result
 divider: swapping with the mapping and then with its inverse changes nothing.
 */
module TranspilerMapping {
  import opened Collections
  import opened Bits
  import opened Histograms
  import opened QubitMapping
  import opened VirtualOrder
  import opened Demultiplexing

  /** `p` goes back to a virtual qubit that is placed on it. */
  predicate GoesBack(m: Mapping, pvm: Mapping, p: nat) {
    p in pvm && pvm[p] in m && m[pvm[p]] == p
  }

  /** What the client's inverse satisfies for any mapping. */
  ghost predicate IsInverse(m: Mapping, pvm: Mapping) {
    && (forall v :: v in m ==> m[v] in pvm)
    && (forall p :: p in pvm ==> GoesBack(m, pvm, p))
  }

  /** The inverse mapping, built entry by entry in whatever order the entries are visited. */
  method ToPhysicalVirtualMapping(m: Mapping) returns (pvm: Mapping)
    ensures IsInverse(m, pvm)
  {
    pvm := map[];
    var remaining := m.Keys;
    while remaining != {}
      invariant remaining <= m.Keys
      invariant forall v :: v in m && v !in remaining ==> m[v] in pvm
      invariant forall p :: p in pvm ==> GoesBack(m, pvm, p)
      decreases remaining
    {
      var v :| v in remaining;
      pvm := pvm[m[v] := v];
      remaining := remaining - {v};
    }
  }

  ghost predicate IsPermutation(m: Mapping, n: nat) {
    m.Keys == Below(n) && InjectiveBelow(m, n) && forall v :: 0 <= v < n ==> m[v] < n
  }

  /** `v` survives the trip through the two mappings, in either order. */
  predicate TwoWay(m: Mapping, pvm: Mapping, n: nat, v: nat) {
    && v in m && m[v] < n && m[v] in pvm && pvm[m[v]] == v
    && v in pvm && pvm[v] < n && pvm[v] in m && m[pvm[v]] == v
  }

  ghost predicate MutuallyInverse(m: Mapping, pvm: Mapping, n: nat) {
    forall v :: 0 <= v < n ==> TwoWay(m, pvm, n, v)
  }

  /** A permutation uses exactly the physical qubits 0..n-1. */
  lemma PermutationPhysicals(m: Mapping, n: nat)
    requires Covers(m, n) && InjectiveBelow(m, n) && forall v :: 0 <= v < n ==> m[v] < n
    ensures Physicals(m, n) == Below(n)
  {
    PhysicalsSize(m, n);
    SubsetSize(Physicals(m, n), Below(n));
  }

  lemma PermutationOnto(m: Mapping, n: nat, p: nat) returns (v: nat)
    requires Covers(m, n) && InjectiveBelow(m, n) && p < n && forall u :: 0 <= u < n ==> m[u] < n
    ensures v < n && m[v] == p
  {
    PermutationPhysicals(m, n);
    assert p in Physicals(m, n);
    v :| v in m && v < n && m[v] == p;
  }

  /** For a permutation the client's mapping is a two-sided inverse. */
  lemma InverseIsTwoSided(m: Mapping, pvm: Mapping, n: nat)
    requires IsPermutation(m, n) && IsInverse(m, pvm)
    ensures MutuallyInverse(m, pvm, n)
  {
    forall v | 0 <= v < n ensures TwoWay(m, pvm, n, v) {
      var u := PermutationOnto(m, n, v);
      assert GoesBack(m, pvm, m[v]);
      assert GoesBack(m, pvm, m[u]);
    }
  }

  lemma MutuallyInverseInjective(m: Mapping, pvm: Mapping, n: nat)
    requires MutuallyInverse(m, pvm, n)
    ensures Covers(m, n) && InjectiveBelow(m, n) && forall v :: 0 <= v < n ==> m[v] < n
    ensures Covers(pvm, n) && InjectiveBelow(pvm, n) && forall v :: 0 <= v < n ==> pvm[v] < n
  {
    forall v | 0 <= v < n
      ensures v in m && m[v] in pvm && pvm[m[v]] == v && m[v] < n
      ensures v in pvm && pvm[v] in m && m[pvm[v]] == v && pvm[v] < n
    {
      assert TwoWay(m, pvm, n, v);
    }
  }

  /** A permutation occupies every physical qubit, so each qubit's bit is its own index. */
  lemma PermutationWire(m: Mapping, n: nat, v: nat)
    requires Covers(m, n) && InjectiveBelow(m, n) && v < n && forall u :: 0 <= u < n ==> m[u] < n
    ensures Wire(m, n, v) == m[v]
  {
    PermutationPhysicals(m, n);
    RankInBelow(n, m[v]);
  }

  lemma InverseUndoesReorder(key: string, m: Mapping, pvm: Mapping)
    requires MutuallyInverse(m, pvm, |key|) && Covers(m, |key|) && Covers(pvm, |key|)
    ensures Reorder(Reorder(key, m), pvm) == key
  {
    var n, once := |key|, Reorder(key, m);
    forall v | 0 <= v < n ensures Bit(Reorder(once, pvm), v) == Bit(key, v) {
      MutuallyInverseInjective(m, pvm, n);
      assert TwoWay(m, pvm, n, v);
      PermutationWire(pvm, n, v);
      PermutationWire(m, n, pvm[v]);
      ReorderBit(once, pvm, v);
      ReorderBit(key, m, pvm[v]);
    }
    SameBits(Reorder(once, pvm), key);
  }

  /** Swapping with a permutation and then with its inverse returns the original counts. */
  lemma InverseUndoesSwap(c0: Counts, m: Mapping, pvm: Mapping, n: nat, c1: Counts, c2: Counts)
    requires IsPermutation(m, n) && IsInverse(m, pvm) && Wide(c0, n)
    requires Swappable(c0, m) ==> IsSwap(c0, m, c1)
    requires Swappable(c1, pvm) ==> IsSwap(c1, pvm, c2)
    ensures Swappable(c0, m) && Swappable(c1, pvm)
    ensures c2 == c0
  {
    if n == 0 {
      NothingToInvert(m, pvm);
    } else {
      InverseIsTwoSided(m, pvm, n);
      MutuallyInverseInjective(m, pvm, n);
      assert 0 in m && 0 in pvm;
      hide IsPermutation, IsInverse, MutuallyInverse, InjectiveBelow, IsSwap, Push, ReorderOf;
      WideSwappable(c0, m, n);
      SwapIsPush(c0, m, n, c1);
      PushWide(c0, m, n);
      WideSwappable(c1, pvm, n);
      SwapIsPush(c1, pvm, n, c2);
      PushBack(c0, m, pvm, n);
    }
  }

  /** The inverse of the empty mapping is empty. */
  lemma NothingToInvert(m: Mapping, pvm: Mapping)
    requires IsPermutation(m, 0) && IsInverse(m, pvm)
    ensures m == map[] && pvm == map[]
  {
    assert m == map[];
    assert forall p :: p in pvm ==> GoesBack(m, pvm, p);
    assert pvm == map[];
  }

  lemma WideSwappable(c: Counts, m: Mapping, n: nat)
    requires Wide(c, n) && Covers(m, n)
    ensures Swappable(c, m)
  {
  }

  lemma PushWide(c: Counts, m: Mapping, n: nat)
    requires Wide(c, n) && Covers(m, n)
    ensures Wide(Push(c, ReorderOf(m, n)), n)
  {
  }

  lemma PushBack(c: Counts, m: Mapping, pvm: Mapping, n: nat)
    requires MutuallyInverse(m, pvm, n) && Wide(c, n) && Covers(m, n) && Covers(pvm, n)
    ensures Push(Push(c, ReorderOf(m, n)), ReorderOf(pvm, n)) == c
  {
    var f, g := ReorderOf(m, n), ReorderOf(pvm, n);
    PushPush(c, f, g);
    forall k | k in c ensures Compose(g, f)(k) == k {
      InverseUndoesReorder(k, m, pvm);
    }
    PushIdentity(c, Compose(g, f));
  }
}
