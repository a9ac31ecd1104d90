/**
 Readout-error mitigation: the service truncates mitigated probabilities to whole counts,
 and the engine cuts the returned keys to the measured width. The mitigated distribution
 itself is an input; probabilities are exact reals.
 */
module Mitigation {
  import opened Bits
  import opened Histograms
  import opened VirtualOrder
  import opened Demultiplexing

  type Distribution = map<string, real>

  ghost function Weight(p: Distribution): real
    decreases |p|
  {
    if p == map[] then 0.0
    else
      var k :| k in p;
      p[k] + Weight(p - {k})
  }

  lemma {:induction false} WeightRemove(p: Distribution, k: string)
    requires k in p
    ensures Weight(p) == p[k] + Weight(p - {k})
    decreases |p|
  {
    var j :| j in p && Weight(p) == p[j] + Weight(p - {j});
    if j != k {
      WeightRemove(p - {j}, k);
      WeightRemove(p - {k}, j);
      assert p - {j} - {k} == p - {k} - {j};
    }
  }

  predicate NonNegative(p: Distribution) {
    forall k :: k in p ==> p[k] >= 0.0
  }

  /** Conversion of a float to an integer, towards zero. */
  function Truncate(x: real): (r: int)
    ensures x >= 0.0 ==> r >= 0 && r as real <= x < r as real + 1.0
    ensures x < 0.0 ==> r <= 0 && r as real - 1.0 < x <= r as real
  {
    if x >= 0.0 then x.Floor else -(-x).Floor
  }

  /** A key's exact share of the shots. */
  function Portion(x: real, shots: nat): (r: real)
    ensures x >= 0.0 ==> r >= 0.0
  {
    x * shots as real
  }

  lemma PortionAdd(x: real, y: real, shots: nat)
    ensures Portion(x + y, shots) == Portion(x, shots) + Portion(y, shots)
  {
  }

  /** The mitigated counts. */
  function Rounded(p: Distribution, shots: nat): Counts
    requires NonNegative(p)
  {
    map k | k in p :: Truncate(Portion(p[k], shots))
  }

  /** `c` is the whole part of a share of `x` of all shots. */
  predicate WholePartOf(c: nat, x: real, shots: nat) {
    c as real <= x * shots as real < c as real + 1.0
  }

  /** Every key keeps its own share: the whole part of its probability times the shots. */
  lemma RoundedShares(p: Distribution, shots: nat)
    requires NonNegative(p)
    ensures Rounded(p, shots).Keys == p.Keys
    ensures forall k :: k in p ==> k in Rounded(p, shots) && WholePartOf(Rounded(p, shots)[k], p[k], shots)
  {
  }

  predicate Whole(x: real) {
    Truncate(x) as real == x
  }

  /** No key's share of the shots has a fractional part. */
  ghost predicate WholeShares(p: Distribution, shots: nat) {
    forall k :: k in p ==> Whole(Portion(p[k], shots))
  }

  lemma RoundedRemove(p: Distribution, shots: nat, k: string)
    requires NonNegative(p) && k in p
    ensures Total(Rounded(p, shots)) == Truncate(Portion(p[k], shots)) + Total(Rounded(p - {k}, shots))
  {
    hide Portion, Truncate;
    MassRemove(Rounded(p, shots), Erase(), "", k);
    assert Rounded(p, shots) - {k} == Rounded(p - {k}, shots);
  }

  /** Less than one shot lost per key, and none exactly when all shares are whole. */
  predicate SmallLoss(lost: real, keys: nat, whole: bool) {
    0.0 <= lost && (keys == 0 || lost < keys as real) && (lost == 0.0 <==> whole)
  }

  lemma LossStep(lost: real, keys: nat, whole: bool, x: real)
    requires SmallLoss(lost, keys, whole) && (keys == 0 ==> lost == 0.0) && x >= 0.0
    ensures SmallLoss(lost + x - Truncate(x) as real, keys + 1, whole && Whole(x))
  {
  }

  ghost function Loss(p: Distribution, shots: nat): real
    requires NonNegative(p)
  {
    Portion(Weight(p), shots) - Total(Rounded(p, shots)) as real
  }

  lemma LossRemove(p: Distribution, shots: nat, k: string)
    requires NonNegative(p) && k in p
    ensures var x := Portion(p[k], shots); Loss(p, shots) == Loss(p - {k}, shots) + x - Truncate(x) as real
  {
    hide Portion, Truncate, Rounded;
    WeightRemove(p, k);
    RoundedRemove(p, shots, k);
    PortionAdd(p[k], Weight(p - {k}), shots);
  }

  lemma EmptyLoss(p: Distribution, shots: nat)
    requires p == map[]
    ensures Loss(p, shots) == 0.0 && SmallLoss(0.0, 0, WholeShares(p, shots))
  {
    assert Rounded(p, shots) == map[];
  }

  lemma WholeSharesRemove(p: Distribution, shots: nat, k: string)
    requires k in p
    ensures WholeShares(p, shots) <==> WholeShares(p - {k}, shots) && Whole(Portion(p[k], shots))
  {
    hide Whole, Portion;
    var q := p - {k};
    if WholeShares(p, shots) {
      forall j | j in q ensures Whole(Portion(q[j], shots)) {
        assert j in p && q[j] == p[j];
      }
    }
    if WholeShares(q, shots) && Whole(Portion(p[k], shots)) {
      forall j | j in p ensures Whole(Portion(p[j], shots)) {
        assert j == k || (j in q && q[j] == p[j]);
      }
    }
  }

  /** Truncation loses less than one shot per key, and none exactly when every share is whole. */
  lemma {:induction false} TruncationLoss(p: Distribution, shots: nat)
    requires NonNegative(p)
    ensures SmallLoss(Loss(p, shots), |p|, WholeShares(p, shots))
    ensures p == map[] ==> Loss(p, shots) == 0.0
    decreases |p|
  {
    hide Portion, Truncate, Loss, Whole, SmallLoss, WholeShares;
    if p == map[] {
      EmptyLoss(p, shots);
    } else {
      var k :| k in p;
      var q := p - {k};
      TruncationLoss(q, shots);
      LossRemove(p, shots, k);
      LossStep(Loss(q, shots), |q|, WholeShares(q, shots), Portion(p[k], shots));
      assert |p.Keys| == |q.Keys| + 1;
      WholeSharesRemove(p, shots, k);
    }
  }

  /**
   For a probability distribution over K keys the mitigated counts total at least
   shots - K + 1 and at most shots, and exactly shots iff every share is whole.
   */
  lemma RoundingBound(p: Distribution, shots: nat)
    requires NonNegative(p) && Weight(p) == 1.0
    ensures shots - |p| + 1 <= Total(Rounded(p, shots)) <= shots
    ensures Total(Rounded(p, shots)) == shots <==> WholeShares(p, shots)
  {
    TruncationLoss(p, shots);
    assert p != map[];
  }

  datatype WidthResult = Qubits(n: nat) | EmptyCounts | DifferentLengths

  /** The comparison of key lengths along one visiting order; 0 stands for no candidate yet. */
  function Scan(candidate: nat, order: seq<string>): WidthResult
    decreases |order|
  {
    if order == [] then Qubits(candidate)
    else if candidate == 0 then Scan(|order[0]|, order[1..])
    else if candidate != |order[0]| then DifferentLengths
    else Scan(candidate, order[1..])
  }

  lemma {:induction false} ScanSnoc(candidate: nat, order: seq<string>, k: string)
    ensures var r := Scan(candidate, order);
            Scan(candidate, order + [k]) ==
            if !r.Qubits? then r
            else if r.n == 0 then Qubits(|k|)
            else if r.n != |k| then DifferentLengths else r
    decreases |order|
  {
    if order != [] {
      assert (order + [k])[1..] == order[1..] + [k];
      if candidate == 0 {
        ScanSnoc(|order[0]|, order[1..], k);
      } else if candidate == |order[0]| {
        ScanSnoc(candidate, order[1..], k);
      }
    } else {
      assert [k][1..] == [];
    }
  }

  lemma {:induction false} RefusalStays(candidate: nat, order: seq<string>, rest: seq<string>)
    requires Scan(candidate, order) == DifferentLengths
    ensures Scan(candidate, order + rest) == DifferentLengths
    decreases |rest|
  {
    if rest == [] {
      assert order + rest == order;
    } else {
      ScanSnoc(candidate, order, rest[0]);
      RefusalStays(candidate, order + [rest[0]], rest[1..]);
      assert order + [rest[0]] + rest[1..] == order + rest;
    }
  }

  /** The width of the measured keys, along whichever order the keys are visited. */
  method GetNumOfQubits(counts: Counts) returns (r: WidthResult)
    ensures r == EmptyCounts <==> counts == map[]
    ensures counts != map[] ==> exists order :: Visits(order, counts.Keys) && r == Scan(0, order)
  {
    if counts == map[] {
      return EmptyCounts;
    }
    ghost var order: seq<string> := [];
    var candidate: nat := 0;
    var remaining := counts.Keys;
    while remaining != {}
      invariant remaining <= counts.Keys && Visits(order, counts.Keys - remaining)
      invariant Scan(0, order) == Qubits(candidate)
      decreases remaining
    {
      var k :| k in remaining;
      ScanSnoc(0, order, k);
      VisitsConcat(order, counts.Keys - remaining, [k], {k});
      remaining := remaining - {k};
      assert counts.Keys - remaining == counts.Keys - (remaining + {k}) + {k};
      order := order + [k];
      if candidate == 0 {
        candidate := |k|;
      } else if candidate != |k| {
        ghost var rest := SomeOrder(remaining);
        RefusalStays(0, order, rest);
        VisitsConcat(order, counts.Keys - remaining, rest, remaining);
        order := order + rest;
        return DifferentLengths;
      }
    }
    return Qubits(candidate);
  }

  ghost predicate AllLong(order: seq<string>, n: nat) {
    forall k :: k in order ==> |k| == n
  }

  /** Once there is a candidate, the scan succeeds exactly if every further key has its length. */
  lemma {:induction false} ScanCandidate(n: nat, order: seq<string>)
    requires n > 0
    ensures Scan(n, order) == if AllLong(order, n) then Qubits(n) else DifferentLengths
  {
    if order != [] {
      if |order[0]| == n {
        ScanCandidate(n, order[1..]);
        assert AllLong(order, n) <==> AllLong(order[1..], n) by {
          assert order == [order[0]] + order[1..];
        }
      } else {
        assert order[0] in order;
      }
    }
  }

  /** An empty key is forgotten again by the key after it. */
  lemma ScanEmptyKey(order: seq<string>)
    requires order != [] && order[0] == ""
    ensures Scan(0, order) == Scan(0, order[1..])
  {
  }

  /** The keys without the empty one are all of length `n`. */
  ghost predicate Uniform(keys: set<string>, n: nat) {
    forall k :: k in keys && k != "" ==> |k| == n
  }

  /**
   The answer along any order: the common length if there is no empty key or it comes first,
   a refusal if it comes later or two other keys differ.
   */
  lemma ScanAnswer(order: seq<string>, keys: set<string>, n: nat)
    requires Visits(order, keys) && exists k :: k in keys && k != "" && |k| == n
    ensures Scan(0, order) ==
            if Uniform(keys, n) && ("" in keys ==> order[0] == "") then Qubits(n) else DifferentLengths
  {
    var k :| k in keys && k != "" && |k| == n;
    assert k in order;
    if order[0] == "" {
      ScanAfterEmptyKey(order, keys, n);
    } else {
      ScanLater(order, keys, n);
    }
  }

  lemma EmptyKeyFirst(order: seq<string>, keys: set<string>)
    requires order != [] && order[0] == "" && Visits(order, keys)
    ensures Visits(order[1..], keys - {""})
  {
    var rest := order[1..];
    assert order == [order[0]] + rest;
    assert forall i :: 0 <= i < |rest| ==> rest[i] == order[i + 1] && rest[i] != order[0];
  }

  lemma ScanAfterEmptyKey(order: seq<string>, keys: set<string>, n: nat)
    requires Visits(order, keys) && (exists k :: k in keys && k != "" && |k| == n) && order != [] && order[0] == ""
    ensures Scan(0, order) == if Uniform(keys, n) then Qubits(n) else DifferentLengths
  {
    var k :| k in keys && k != "" && |k| == n;
    var rest := order[1..];
    EmptyKeyFirst(order, keys);
    assert k in keys - {""} && k in rest;
    assert rest[0] in rest;
    ScanEmptyKey(order);
    ScanLater(rest, keys - {""}, n);
    assert Uniform(keys - {""}, n) <==> Uniform(keys, n);
  }

  lemma ScanLater(order: seq<string>, keys: set<string>, n: nat)
    requires Visits(order, keys) && (exists k :: k in keys && k != "" && |k| == n) && order != [] && order[0] != ""
    ensures Scan(0, order) == if Uniform(keys, n) && "" !in keys then Qubits(n) else DifferentLengths
  {
    var k :| k in keys && k != "" && |k| == n;
    var first := |order[0]|;
    assert order[0] in order && k in order && order[0] in keys;
    ScanCandidate(first, order[1..]);
    assert order == [order[0]] + order[1..];
    assert AllLong(order[1..], first) <==> AllLong(order, first);
    if AllLong(order, first) {
      assert first == n;
      assert Uniform(keys, n) && "" !in keys;
    } else {
      var j :| j in order && |j| != first;
      assert j in keys;
    }
  }

  ghost predicate OrdersDisagree(keys: set<string>) {
    exists o, o' :: Visits(o, keys) && Visits(o', keys) && Scan(0, o) != Scan(0, o')
  }

  /** Only the empty key and keys of one other length, both present. */
  ghost predicate EmptyKeyBesideOneLength(keys: set<string>) {
    "" in keys && exists k :: k in keys && k != "" && Uniform(keys, |k|)
  }

  /**
   The answer depends on the visiting order exactly when the counts hold the empty key next
   to other keys, and those all share one length.
   */
  lemma OrdersDisagreeIff(keys: set<string>)
    ensures OrdersDisagree(keys) <==> EmptyKeyBesideOneLength(keys)
  {
    if EmptyKeyBesideOneLength(keys) {
      var o, o' := DisagreeingOrders(keys);
    } else {
      forall o, o' | Visits(o, keys) && Visits(o', keys) ensures Scan(0, o) == Scan(0, o') {
        OrdersAgree(keys, o, o');
      }
    }
  }

  lemma DisagreeingOrders(keys: set<string>) returns (o: seq<string>, o': seq<string>)
    requires EmptyKeyBesideOneLength(keys)
    ensures Visits(o, keys) && Visits(o', keys) && Scan(0, o).Qubits? && Scan(0, o') == DifferentLengths
  {
    hide Visits, Scan, Uniform;
    var k :| k in keys && k != "" && Uniform(keys, |k|);
    var others := keys - {""};
    var rest := SomeOrder(others);
    VisitsOne("");
    VisitsConcat([""], {""}, rest, others);
    VisitsConcat(rest, others, [""], {""});
    assert {""} + others == keys && others + {""} == keys;
    o, o' := [""] + rest, rest + [""];
    VisitedIn(rest, others, k);
    VisitedIn(rest, others, rest[0]);
    ScanAnswer(o, keys, |k|);
    ScanAnswer(o', keys, |k|);
  }

  lemma OrdersAgree(keys: set<string>, o: seq<string>, o': seq<string>)
    requires Visits(o, keys) && Visits(o', keys) && !EmptyKeyBesideOneLength(keys)
    ensures Scan(0, o) == Scan(0, o')
  {
    if k :| k in keys && k != "" {
      ScanAnswer(o, keys, |k|);
      ScanAnswer(o', keys, |k|);
    } else {
      assert forall i :: 0 <= i < |o| ==> o[i] in o;
      assert forall i :: 0 <= i < |o'| ==> o'[i] in o';
      OnlyEmptyKeys(o);
      OnlyEmptyKeys(o');
    }
  }

  lemma {:induction false} OnlyEmptyKeys(o: seq<string>)
    requires forall i :: 0 <= i < |o| ==> o[i] == ""
    ensures Scan(0, o) == Qubits(0)
  {
    if o != [] {
      OnlyEmptyKeys(o[1..]);
    }
  }

  /** The smallest case: both answers for the counts of "" and "01". */
  lemma EmptyKeyWitness()
    ensures Visits(["", "01"], {"", "01"}) && Scan(0, ["", "01"]) == Qubits(2)
    ensures Visits(["01", ""], {"", "01"}) && Scan(0, ["01", ""]) == DifferentLengths
  {
    assert |"01"| == 2;
    assert ["", "01"][1..] == ["01"] && ["01"][1..] == [] && ["01", ""][1..] == [""];
    assert Scan(2, ["01"][1..]) == Qubits(2);
    assert Scan(2, [""]) == DifferentLengths;
  }

  /** The last `n` characters of a key. */
  function LowerBits(n: nat): string -> string {
    k => if n >= |k| then k else k[|k| - n..]
  }

  /** The lower `n` bits: as many bits as asked for or as there are, each the key's own bit of that index. */
  lemma LowerBitsAre(k: string, n: nat)
    ensures var r := LowerBits(n)(k);
            && |r| == (if n < |k| then n else |k|)
            && forall i :: 0 <= i < |r| ==> Bit(r, i) == Bit(k, i)
  {
  }

  /** The engine's loop over the response; a later key overwrites an earlier one with the same lower bits. */
  method CutKeys(response: Counts, n: nat) returns (result: Counts)
    ensures Relabels(response, LowerBits(n), result)
  {
    ghost var visited: Counts := map[];
    result := map[];
    var remaining := response.Keys;
    while remaining != {}
      invariant Visited(response, remaining, visited)
      invariant Relabels(visited, LowerBits(n), result)
      decreases remaining
    {
      var k :| k in remaining;
      RelabelsStep(visited, LowerBits(n), result, k, response[k]);
      VisitedStep(response, remaining, visited, k);
      result := result[LowerBits(n)(k) := response[k]];
      visited := visited[k := response[k]];
      remaining := remaining - {k};
    }
    assert visited == response;
  }

  /** No two keys agree in their last `n` characters. */
  ghost predicate CollisionFree(c: Counts, n: nat) {
    forall j, k :: j in c && k in c && LowerBits(n)(j) == LowerBits(n)(k) ==> j == k
  }

  /** Cutting keeps the number of keys exactly when no two keys collide, and then every count. */
  lemma CutKeepsKeysIff(c: Counts, n: nat, result: Counts)
    requires Relabels(c, LowerBits(n), result)
    ensures |result| == |c| <==> CollisionFree(c, n)
    ensures CollisionFree(c, n) ==> Total(result) == Total(c)
  {
    var f := LowerBits(n);
    if CollisionFree(c, n) {
      RelabelsInjective(c, f, result);
      PushInjective(c, f);
      PushTotal(c, f);
    } else {
      var j, k :| j in c && k in c && f(j) == f(k) && j != k;
      assert Image(c.Keys, f) == Image(c.Keys - {j}, f);
      ImageBound(c.Keys - {j}, f);
      assert |result| == |result.Keys|;
    }
  }

  lemma {:induction false} ImageBound(keys: set<string>, f: string -> string)
    ensures |Image(keys, f)| <= |keys|
  {
    if keys == {} {
      assert Image(keys, f) == {};
    } else {
      var k :| k in keys;
      ImageBound(keys - {k}, f);
      assert Image(keys, f) == Image(keys - {k}, f) + {f(k)};
    }
  }

  /**
   End to end: when the service answers with keys of the measured width, the engine stores
   every key's truncated share unchanged, and the total obeys the rounding bound.
   */
  lemma MitigatedCounts(measured: Counts, n: nat, p: Distribution, result: Counts)
    requires measured != map[] && Wide(measured, n)
    requires NonNegative(p) && Weight(p) == 1.0 && forall k :: k in p ==> |k| == n
    requires Relabels(Rounded(p, Total(measured)), LowerBits(n), result)
    ensures result.Keys == p.Keys
    ensures forall k :: k in p ==> k in result && WholePartOf(result[k], p[k], Total(measured))
    ensures Total(measured) - |p| + 1 <= Total(result) <= Total(measured)
  {
    var c := Rounded(p, Total(measured));
    RoundedShares(p, Total(measured));
    hide WholePartOf, Rounded;
    forall k | k in c ensures LowerBits(n)(k) == k {
      assert k in p;
    }
    hide NonNegative, LowerBits, Relabels, Wide;
    RelabelsInjective(c, LowerBits(n), result);
    PushIdentity(c, LowerBits(n));
    RoundingBound(p, Total(measured));
  }
}
