/**
 The laws of the multi-programming path, over every run of the combiner, the device and
 the result divider.
 */
module Demultiplexing {
  import opened Collections
  import opened Histograms
  import opened QubitMapping
  import opened KeyCutting
  import opened VirtualOrder
  import opened SwapOrders
  import opened ResultDivider

  // ----- the swap on an injective mapping

  /** Plain assignment of relabelled keys loses nothing when no keys merge. */
  lemma RelabelsInjective(c: Counts, f: string -> string, result: Counts)
    requires Relabels(c, f, result)
    requires forall j, k :: j in c && k in c && f(j) == f(k) ==> j == k
    ensures result == Push(c, f)
  {
    PushInjective(c, f);
    forall p | p in result ensures result[p] == Push(c, f)[p] {
      var k :| k in c && f(k) == p && result[p] == c[k];
    }
  }

  /** On an injective mapping the swap is the relabelling by `Reorder`, whatever the order. */
  lemma SwapIsPush(c: Counts, m: Mapping, n: nat, result: Counts)
    requires m != map[] && Wide(c, n) && Covers(m, n) && InjectiveBelow(m, n)
    requires Swappable(c, m) && IsSwap(c, m, result)
    ensures result == Push(c, ReorderOf(m, n))
  {
    var f := ReorderOf(m, n);
    if c == map[] {
      assert Push(c, f) == map[];
    } else {
      var k :| k in c;
      assert Relabels(c, ReorderOf(m, |k|), result);
      forall i, j | i in c && j in c && f(i) == f(j) ensures i == j {
        ReorderInjective(m, i, j);
      }
      RelabelsInjective(c, f, result);
    }
  }

  /**
   No lost shots: on an injective mapping the swap keeps the number of keys, the total and
   every single count, and it is invertible key by key.
   */
  lemma SwapKeepsShots(c: Counts, m: Mapping, n: nat, result: Counts)
    requires m != map[] && Wide(c, n) && Covers(m, n) && InjectiveBelow(m, n)
    requires Swappable(c, m) && IsSwap(c, m, result)
    ensures |result| == |c| && Total(result) == Total(c)
    ensures forall k :: k in c ==> Reorder(k, m) in result && result[Reorder(k, m)] == c[k]
    ensures forall k :: k in result ==> PhysicalKey(k, m) in c && result[k] == c[PhysicalKey(k, m)]
  {
    var f := ReorderOf(m, n);
    SwapIsPush(c, m, n, result);
    forall i, j | i in c && j in c && f(i) == f(j) ensures i == j {
      ReorderInjective(m, i, j);
    }
    PushInjective(c, f);
    PushTotal(c, f);
    forall k | k in c ensures f(k) == Reorder(k, m) && PhysicalKey(Reorder(k, m), m) == k {
      ReadoutUndoesReorder(k, m);
    }
    forall k | k in result ensures |k| == n && PhysicalKey(k, m) in c && result[k] == c[PhysicalKey(k, m)] {
      var j :| j in c && f(j) == k;
    }
  }

  function Zeros(n: nat): string {
    seq(n, i => '0')
  }

  /** Two keys that a non-injective mapping merges. */
  lemma MergedKeys(m: Mapping, n: nat) returns (a: string, b: string)
    requires Covers(m, n) && !InjectiveBelow(m, n)
    ensures |a| == |b| == n && a != b && Reorder(a, m) == Reorder(b, m)
  {
    var rest := Zeros(n - 1);
    a, b := ['0'] + rest, ['1'] + rest;
    assert a[0] != b[0];
    ReorderMerges(m, rest, '0', '1');
  }

  /** The results of a swap are exactly those that some iteration order over the counts yields. */
  lemma IsSwapIffSomeOrder(c: Counts, m: Mapping, n: nat, r: Counts)
    requires m != map[] && Wide(c, n) && Covers(m, n)
    ensures Swappable(c, m) && (IsSwap(c, m, r) <==> SomeOrderYields(c, ReorderOf(m, n), r))
  {
    var f := ReorderOf(m, n);
    RelabelsIffSomeOrder(c, f, r);
    hide SomeOrderYields;
    if c == map[] {
      assert Relabels(c, f, r) <==> r == map[];
    } else {
      hide Relabels;
      var k :| k in c;
    }
  }

  /** Of two merged keys the one visited last keeps its count. */
  lemma MergedSwap(m: Mapping, a: string, b: string, v: nat, w: nat)
    requires a != b && |a| == |b| && Covers(m, |a|) && Reorder(a, m) == Reorder(b, m)
    ensures var c: Counts, f := map[a := v, b := w], ReorderOf(m, |a|);
            && Wide(c, |a|)
            && Visits([a, b], c.Keys) && Assigned([a, b], c, f) == map[Reorder(a, m) := w]
            && Visits([b, a], c.Keys) && Assigned([b, a], c, f) == map[Reorder(a, m) := v]
  {
    hide Reorder, Covers;
    var c: Counts, f := map[a := v, b := w], ReorderOf(m, |a|);
    assert c.Keys == {a, b} && CountOf(c, a) == v && CountOf(c, b) == w;
    assert f(a) == Reorder(a, m) == f(b);
    hide Visits, Assigned, CountOf;
    VisitsPair(a, b);
    AssignedPair(a, b, c, f);
    AssignedPair(b, a, c, f);
  }

  /** Two merged shots: whatever the order, one of them is lost. */
  lemma SwapLosesShots(m: Mapping, n: nat) returns (c: Counts, result: Counts)
    requires Covers(m, n) && !InjectiveBelow(m, n)
    ensures Wide(c, n) && Swappable(c, m) && IsSwap(c, m, result)
    ensures Total(c) == 2
    ensures forall r: Counts :: IsSwap(c, m, r) ==> Total(r) == 1
  {
    var a, b := MergedKeys(m, n);
    MergedSwap(m, a, b, 1, 1);
    c, result := map[a := 1, b := 1], map[Reorder(a, m) := 1];
    assert 0 in m;
    IsSwapIffSomeOrder(c, m, n, result);
    PairTotal(a, b, 1, 1);
    forall r: Counts | IsSwap(c, m, r) ensures Total(r) == 1 {
      OnlyOneSurvives(m, a, b, r);
    }
  }

  lemma OnlyOneSurvives(m: Mapping, a: string, b: string, r: Counts)
    requires m != map[] && a != b && |a| == |b| && Covers(m, |a|) && Reorder(a, m) == Reorder(b, m)
    requires var c: Counts := map[a := 1, b := 1]; Swappable(c, m) && IsSwap(c, m, r)
    ensures Total(r) == 1
  {
    hide Reorder, Covers;
    var c: Counts, f := map[a := 1, b := 1], ReorderOf(m, |a|);
    assert a in c && c.Keys == {a, b};
    assert Relabels(c, f, r);
    assert Image(c.Keys, f) == {Reorder(a, m)};
    assert r == map[Reorder(a, m) := 1];
    SingleTotal(Reorder(a, m), 1);
  }

  lemma SingleTotal(k: string, v: nat)
    ensures Total(map[k := v]) == v
  {
    MassAdd(map[], k, v, Erase(), "");
    assert Add(map[], k, v) == map[k := v];
  }

  lemma PairTotal(a: string, b: string, v: nat, w: nat)
    requires a != b
    ensures Total(map[a := v, b := w]) == v + w
  {
    var one: Counts := map[a := v];
    SingleTotal(a, v);
    MassAdd(one, b, w, Erase(), "");
    assert Add(one, b, w) == map[a := v, b := w];
  }

  /** The swap keeps the total of every histogram exactly when no physical qubit is shared. */
  lemma SwapKeepsTotalIffInjective(m: Mapping, n: nat)
    requires Covers(m, n) && m != map[]
    ensures InjectiveBelow(m, n) <==>
            forall c: Counts, r: Counts :: Wide(c, n) && Swappable(c, m) && IsSwap(c, m, r) ==> Total(r) == Total(c)
  {
    if InjectiveBelow(m, n) {
      forall c: Counts, r: Counts | Wide(c, n) && Swappable(c, m) && IsSwap(c, m, r) ensures Total(r) == Total(c) {
        SwapKeepsShots(c, m, n, r);
      }
    } else {
      var c, r := SwapLosesShots(m, n);
      assert Total(r) != Total(c);
    }
  }

  /** Along all orders the loop over the counts yields the same result. */
  ghost predicate OrderIrrelevant(c: Counts, f: string -> string) {
    forall o, o' :: Visits(o, c.Keys) && Visits(o', c.Keys) ==> Assigned(o, c, f) == Assigned(o', c, f)
  }

  /** The swap yields the same result along all orders, for all counts, exactly when no physical qubit is shared. */
  lemma SwapDeterminedIffInjective(m: Mapping, n: nat)
    requires Covers(m, n) && m != map[]
    ensures InjectiveBelow(m, n) <==> forall c: Counts :: Wide(c, n) ==> OrderIrrelevant(c, ReorderOf(m, n))
  {
    var f := ReorderOf(m, n);
    if InjectiveBelow(m, n) {
      forall c: Counts, o, o' | Wide(c, n) && Visits(o, c.Keys) && Visits(o', c.Keys)
        ensures Assigned(o, c, f) == Assigned(o', c, f) {
        OrderGivesPush(o, c, m, n);
        OrderGivesPush(o', c, m, n);
      }
    } else {
      var a, b := MergedKeys(m, n);
      MergedSwap(m, a, b, 1, 2);
      var c: Counts := map[a := 1, b := 2];
      assert Assigned([a, b], c, f)[Reorder(a, m)] == 2 && Assigned([b, a], c, f)[Reorder(a, m)] == 1;
      assert !OrderIrrelevant(c, f);
    }
  }

  lemma OrderGivesPush(order: seq<string>, c: Counts, m: Mapping, n: nat)
    requires m != map[] && Wide(c, n) && Covers(m, n) && InjectiveBelow(m, n) && Visits(order, c.Keys)
    ensures Assigned(order, c, ReorderOf(m, n)) == Push(c, ReorderOf(m, n))
  {
    hide *;
    var r := Assigned(order, c, ReorderOf(m, n));
    YieldedBy(order, c, ReorderOf(m, n));
    IsSwapIffSomeOrder(c, m, n, r);
    SwapIsPush(c, m, n, r);
  }

  lemma YieldedBy(order: seq<string>, c: Counts, f: string -> string)
    requires Visits(order, c.Keys)
    ensures SomeOrderYields(c, f, Assigned(order, c, f))
  {
  }

  // ----- conservation and order independence

  /** No two measured qubits share a physical one, for any key present. */
  ghost predicate Lossless(c: Counts, m: Mapping)
    requires Swappable(c, m)
  {
    m == map[] || forall k :: k in c ==> InjectiveBelow(m, |k|)
  }

  lemma SwapDetermined(c: Counts, m: Mapping, r: Counts)
    requires c != map[] && Swappable(c, m) && Lossless(c, m) && IsSwap(c, m, r)
    ensures m == map[] ==> r == c
    ensures m != map[] ==> forall k :: k in c ==> Wide(c, |k|) && r == Push(c, ReorderOf(m, |k|))
    ensures Total(r) == Total(c) && r != map[]
  {
    if m != map[] {
      forall k | k in c ensures Wide(c, |k|) && r == Push(c, ReorderOf(m, |k|)) {
        SwapIsPush(c, m, |k|, r);
      }
      var k :| k in c;
      PushTotal(c, ReorderOf(m, |k|));
      assert Reorder(k, m) in r by {
        SwapKeepsShots(c, m, |k|, r);
      }
    }
  }

  /** Every circuit's table sums to the shots of the run. */
  lemma DivisionConservesShots(c0: Counts, m: Mapping, lengths: seq<int>, d0: Tables, c1: Counts, d1: Tables)
    requires c0 != map[] && Swappable(c0, m) && Lossless(c0, m) && Total(c0) < UINT32_SIZE
    requires Divides(c0, Some(Decoded(m)), lengths, d0, Done, c1, d1)
    ensures Total(c1) == Total(c0)
    ensures d1.Keys == Below(|lengths|)
    ensures forall j :: 0 <= j < |lengths| ==> Total(d1[j]) == Total(c0)
  {
    SwapDetermined(c0, m, c1);
    forall j | 0 <= j < |lengths| ensures Total(d1[j]) == Total(c0) {
      var f := PieceOf(lengths, |lengths| - 1 - j);
      assert HasMarginal(d1, c1, lengths, j);
      PushTotal(c1, f);
      WrappedSmall(Push(c1, f));
    }
  }

  /** All keys of a swapped histogram are as long as the keys it came from. */
  lemma SwapWidth(c: Counts, m: Mapping, r: Counts, lengths: seq<int>)
    requires c != map[] && Swappable(c, m) && IsSwap(c, m, r)
    ensures AllFit(r, lengths) <==> AllFit(c, lengths)
  {
    if m != map[] {
      var k :| k in c;
      var f := ReorderOf(m, |k|);
      assert Relabels(c, f, r);
      assert f(k) in r && |f(k)| == |k|;
      assert forall j :: j in c ==> |j| == |k|;
      assert forall p :: p in r ==> |p| == |k|;
    }
  }

  /**
   Order independence: two runs of the divider on the same input agree on success, and on
   the result whenever no physical qubit is shared. The condition that decides success is
   one on the input alone.
   */
  lemma DivisionIgnoresOrder(c0: Counts, m: Mapping, lengths: seq<int>, d0: Tables,
                             r: Outcome, c1: Counts, d1: Tables, r': Outcome, c1': Counts, d1': Tables)
    requires Divides(c0, Some(Decoded(m)), lengths, d0, r, c1, d1)
    requires Divides(c0, Some(Decoded(m)), lengths, d0, r', c1', d1')
    ensures r == Done <==> c0 != map[] && Swappable(c0, m) && AllFit(c0, lengths)
    ensures r == Done <==> r' == Done
    ensures r == Done && Lossless(c0, m) ==> c1 == c1' && d1 == d1'
    ensures r != Done ==> d1 == d0 == d1'
  {
    if c0 != map[] && Swappable(c0, m) {
      SwapWidth(c0, m, c1, lengths);
      SwapWidth(c0, m, c1', lengths);
      if r == Done && Lossless(c0, m) {
        SwapDetermined(c0, m, c1);
        SwapDetermined(c0, m, c1');
        var k :| k in c0;
        TablesDetermined(c1, lengths, d1, d1');
      }
    }
  }

  lemma TablesDetermined(c: Counts, lengths: seq<int>, d: Tables, d': Tables)
    requires Tabulates(c, lengths, d) && Tabulates(c, lengths, d')
    ensures d == d'
  {
    forall j | j in d ensures d[j] == d'[j] {
      assert HasMarginal(d, c, lengths, j) && HasMarginal(d', c, lengths, j);
    }
  }
}
