/**
 The result divider: restore the virtual qubit order of the measured keys, cut every key
 into the parts of the combined circuits and tabulate each circuit. Counts are unsigned
 32-bit, so accumulation wraps around.
 */
module ResultDivider {
  import opened Collections
  import opened Histograms
  import opened QubitMapping
  import opened KeyCutting
  import opened VirtualOrder

  // ----- tabulating

  type Tables = map<nat, Counts>

  function Table(divided: Tables, i: nat): Counts {
    if i in divided then divided[i] else map[]
  }

  /** `Add` with 32-bit wrap-around. */
  function AddWrapped(c: Counts, k: string, v: nat): Counts {
    c[k := ((if k in c then c[k] else 0) + v) % UINT32_SIZE]
  }

  /** Every count reduced to 32 bits. */
  function Wrapped(c: Counts): Counts {
    map k | k in c :: c[k] % UINT32_SIZE
  }

  /** What is left of a count is below 2^32 and differs from it by a multiple of 2^32. */
  lemma WrappedCounts(c: Counts, k: string)
    requires k in c
    ensures Wrapped(c).Keys == c.Keys
    ensures Wrapped(c)[k] < 0x1_0000_0000 && exists q: nat :: c[k] == Wrapped(c)[k] + q * 0x1_0000_0000
  {
    assert c[k] == Wrapped(c)[k] + (c[k] / UINT32_SIZE) * 0x1_0000_0000;
  }

  lemma WrappedAdd(c: Counts, k: string, v: nat)
    ensures Wrapped(Add(c, k, v)) == AddWrapped(Wrapped(c), k, v)
  {
    if k in c {
      AddModulo(c[k], v);
    }
  }

  lemma AddModulo(a: nat, b: nat)
    ensures (a % UINT32_SIZE + b) % UINT32_SIZE == (a + b) % UINT32_SIZE
  {
  }

  /** A histogram of fewer than 2^32 shots never wraps. */
  lemma WrappedSmall(c: Counts)
    requires Total(c) < 0x1_0000_0000
    ensures Wrapped(c) == c
  {
    forall k | k in c ensures c[k] % UINT32_SIZE == c[k] {
      CountBound(c, k);
    }
  }

  /** The marginal of `counts` over circuit `j`'s part of the key. */
  ghost function Marginal(counts: Counts, lengths: seq<int>, j: nat): Counts
    requires j < |lengths|
  {
    Wrapped(Push(counts, PieceOf(lengths, |lengths| - 1 - j)))
  }

  lemma MarginalOf(counts: Counts, lengths: seq<int>, j: nat, i: nat)
    requires j + 1 + i == |lengths|
    ensures Marginal(counts, lengths, j) == Wrapped(Push(counts, PieceOf(lengths, i)))
  {
  }

  /** One table per circuit, each the marginal over that circuit's part of the key. */
  ghost predicate Tabulates(counts: Counts, lengths: seq<int>, divided: Tables) {
    if counts == map[] then divided == map[]
    else
      && divided.Keys == Below(|lengths|)
      && forall j :: 0 <= j < |lengths| ==> HasMarginal(divided, counts, lengths, j)
  }

  ghost predicate HasMarginal(divided: Tables, counts: Counts, lengths: seq<int>, j: nat)
    requires j < |lengths|
  {
    j in divided && divided[j] == Marginal(counts, lengths, j)
  }

  /** Circuit `j`'s table after `v` more shots of a key cut into `pieces`. */
  function Row(divided: Tables, pieces: seq<string>, v: nat, j: nat): Counts
    requires j < |pieces|
  {
    AddWrapped(Table(divided, j), pieces[|pieces| - 1 - j], v)
  }

  predicate HasRow(r: Tables, divided: Tables, pieces: seq<string>, v: nat, j: nat)
    requires j < |pieces|
  {
    j in r && r[j] == Row(divided, pieces, v, j)
  }

  /** The circuits from `lo` on have been served, the others are as they were. */
  ghost predicate ServedFrom(r: Tables, divided: Tables, pieces: seq<string>, v: nat, lo: nat)
    requires lo <= |pieces|
  {
    && (forall j :: j in r <==> j in divided || lo <= j < |pieces|)
    && (forall j :: lo <= j < |pieces| ==> HasRow(r, divided, pieces, v, j))
    && (forall j :: 0 <= j < lo ==> Table(r, j) == Table(divided, j))
  }

  lemma ServeNext(r: Tables, divided: Tables, pieces: seq<string>, v: nat, lo: nat)
    requires 0 < lo <= |pieces| && ServedFrom(r, divided, pieces, v, lo)
    ensures ServedFrom(r[lo - 1 := Row(r, pieces, v, lo - 1)], divided, pieces, v, lo - 1)
  {
    var next := r[lo - 1 := Row(r, pieces, v, lo - 1)];
    assert Table(r, lo - 1) == Table(divided, lo - 1);
    forall j | lo - 1 <= j < |pieces| ensures HasRow(next, divided, pieces, v, j) {
      if j >= lo {
        assert HasRow(r, divided, pieces, v, j);
      }
    }
    forall j | 0 <= j < lo - 1 ensures Table(next, j) == Table(divided, j) {
      assert Table(r, j) == Table(divided, j);
    }
  }

  /** Piece `i` of a key goes to the circuit counted from the end of the list. */
  method AddPieces(divided: Tables, pieces: seq<string>, v: nat) returns (r: Tables)
    requires divided == map[] || divided.Keys == Below(|pieces|)
    ensures r.Keys == Below(|pieces|)
    ensures forall j :: 0 <= j < |pieces| ==> HasRow(r, divided, pieces, v, j)
  {
    hide ServedFrom, HasRow, Row, Below;
    r := divided;
    NoneServed(divided, pieces, v);
    for i := 0 to |pieces|
      invariant ServedFrom(r, divided, pieces, v, |pieces| - i)
    {
      var circuit := |pieces| - i - 1;
      ServeNext(r, divided, pieces, v, circuit + 1);
      r := r[circuit := Row(r, pieces, v, circuit)];
    }
    AllServed(r, divided, pieces, v);
  }

  lemma NoneServed(divided: Tables, pieces: seq<string>, v: nat)
    ensures ServedFrom(divided, divided, pieces, v, |pieces|)
  {
  }

  lemma AllServed(r: Tables, divided: Tables, pieces: seq<string>, v: nat)
    requires divided == map[] || divided.Keys == Below(|pieces|)
    requires ServedFrom(r, divided, pieces, v, 0)
    ensures r.Keys == Below(|pieces|)
    ensures forall j :: 0 <= j < |pieces| ==> HasRow(r, divided, pieces, v, j)
  {
    hide HasRow, Below, Table;
  }

  lemma MarginalStep(counts: Counts, lengths: seq<int>, key: string, v: nat, j: nat)
    requires Fits(key, lengths) && key !in counts && j < |lengths|
    ensures Marginal(counts[key := v], lengths, j)
         == AddWrapped(Marginal(counts, lengths, j), Piece(key, lengths, |lengths| - 1 - j), v)
  {
    var f := PieceOf(lengths, |lengths| - 1 - j);
    PushAdd(counts, key, v, f);
    WrappedAdd(Push(counts, f), f(key), v);
    assert Add(counts, key, v) == counts[key := v];
  }

  lemma RowStep(counts: Counts, lengths: seq<int>, divided: Tables, key: string, v: nat, pieces: seq<string>, j: nat)
    requires Fits(key, lengths) && key !in counts && |pieces| == |lengths| && j < |lengths|
    requires pieces[|lengths| - 1 - j] == Piece(key, lengths, |lengths| - 1 - j)
    requires Table(divided, j) == Marginal(counts, lengths, j)
    ensures Row(divided, pieces, v, j) == Marginal(counts[key := v], lengths, j)
  {
    MarginalStep(counts, lengths, key, v, j);
  }

  /** One key, cut and added to the tables. */
  method DivideKey(ghost counts: Counts, lengths: seq<int>, divided: Tables, key: string, v: nat)
    returns (r: Cut, next: Tables)
    requires Int32s(lengths) && key !in counts && Tabulates(counts, lengths, divided)
    ensures r.Pieces? <==> Fits(key, lengths)
    ensures r.Pieces? ==> Tabulates(counts[key := v], lengths, next)
    ensures r.Crash? <==> Panics(key, lengths)
  {
    r := DivideStringByLengths(key, lengths);
    if !r.Pieces? {
      return r, divided;
    }
    next := AddPieces(divided, r.pieces, v);
    ghost var grown := counts[key := v];
    forall j | 0 <= j < |lengths| ensures HasMarginal(next, grown, lengths, j) {
      TableIsMarginal(counts, lengths, divided, j);
      RowStep(counts, lengths, divided, key, v, r.pieces, j);
      assert HasRow(next, divided, r.pieces, v, j);
    }
  }

  lemma TableIsMarginal(counts: Counts, lengths: seq<int>, divided: Tables, j: nat)
    requires Tabulates(counts, lengths, divided) && j < |lengths|
    ensures Table(divided, j) == Marginal(counts, lengths, j)
  {
    if counts == map[] {
      assert Push(counts, PieceOf(lengths, |lengths| - 1 - j)) == map[];
    } else {
      assert HasMarginal(divided, counts, lengths, j);
    }
  }

  /** Every key is as long as the lengths add up to. */
  ghost predicate AllFit(counts: Counts, lengths: seq<int>) {
    forall k :: k in counts ==> Fits(k, lengths)
  }

  ghost predicate SomePanics(counts: Counts, lengths: seq<int>) {
    exists k :: k in counts && Panics(k, lengths)
  }

  ghost predicate SomeMisfits(counts: Counts, lengths: seq<int>) {
    exists k :: k in counts && !Fits(k, lengths) && !Panics(k, lengths)
  }

  /** Every key is cut, or the whole division is refused. */
  method DivideCounts(counts: Counts, lengths: seq<int>) returns (r: Cut, divided: Tables)
    requires Int32s(lengths)
    ensures r.Pieces? <==> AllFit(counts, lengths)
    ensures r.Pieces? ==> Tabulates(counts, lengths, divided)
    ensures r.Crash? ==> SomePanics(counts, lengths)
    ensures r.Inconsistent? ==> SomeMisfits(counts, lengths)
  {
    divided := map[];
    ghost var visited: Counts := map[];
    var remaining := counts.Keys;
    while remaining != {}
      invariant Visited(counts, remaining, visited)
      invariant AllFit(visited, lengths)
      invariant Tabulates(visited, lengths, divided)
      decreases remaining
    {
      var key :| key in remaining;
      r, divided := DivideKey(visited, lengths, divided, key, counts[key]);
      if !r.Pieces? {
        return;
      }
      VisitedStep(counts, remaining, visited, key);
      visited := visited[key := counts[key]];
      assert Tabulates(visited, lengths, divided);
      remaining := remaining - {key};
    }
    assert visited == counts;
    r := Pieces([]);
  }

  // ----- the division of a job result

  /** The decoded mapping of the transpiler, or a key that is not a number. */
  datatype RawMapping = BadKey | Decoded(mapping: Mapping)

  datatype DivideError = NoCounts | BadMapping | BadSwap(error: SwapError) | InconsistentQubits

  datatype Outcome = Done | Failed(error: DivideError) | Crashed

  /** The part of a job's result that the divider reads and writes. */
  class JobResult {
    var counts: Counts
    var divided: Tables
    var transpilerInfo: Option<RawMapping>

    constructor (counts: Counts, transpilerInfo: Option<RawMapping>)
      ensures this.counts == counts && this.divided == map[] && this.transpilerInfo == transpilerInfo
    {
      this.counts := counts;
      this.divided := map[];
      this.transpilerInfo := transpilerInfo;
    }
  }

  /**
   What a division does, case by case in the order the program decides them: `c0` and `d0`
   are the counts and tables before, `c1` and `d1` those after.
   */
  ghost predicate Divides(c0: Counts, info: Option<RawMapping>, lengths: seq<int>, d0: Tables,
                          r: Outcome, c1: Counts, d1: Tables)
  {
    if c0 == map[] then r == Failed(NoCounts) && c1 == c0 && d1 == d0
    else if info.None? then r == Crashed && c1 == c0 && d1 == d0
    else if info.value.BadKey? then r == Failed(BadMapping) && c1 == c0 && d1 == d0
    else if !Swappable(c0, info.value.mapping) then
      && r.Failed? && r.error.BadSwap? && SwapFault(c0, info.value.mapping, r.error.error)
      && c1 == c0 && d1 == d0
    else
      && IsSwap(c0, info.value.mapping, c1)
      && (r == Done <==> AllFit(c1, lengths))
      && (r == Done ==> Tabulates(c1, lengths, d1))
      && (r != Done ==> d1 == d0 && (r == Crashed || r == Failed(InconsistentQubits)))
      && (r == Crashed ==> SomePanics(c1, lengths))
      && (r == Failed(InconsistentQubits) ==> SomeMisfits(c1, lengths))
  }

  /** Reordering keeps key lengths. */
  lemma SwapKeepsWidth(counts: Counts, m: Mapping, result: Counts, n: int)
    requires Swappable(counts, m) && IsSwap(counts, m, result) && Wide(counts, n)
    ensures Wide(result, n)
  {
    if m != map[] && counts != map[] {
      var k :| k in counts;
      assert Relabels(counts, ReorderOf(m, |k|), result);
    }
  }

  method DivideResult(jd: JobResult, combinedQubits: seq<int>) returns (r: Outcome)
    requires Int32s(combinedQubits)
    modifies jd`counts, jd`divided
    ensures Divides(old(jd.counts), jd.transpilerInfo, combinedQubits, old(jd.divided), r, jd.counts, jd.divided)
    ensures r == Failed(NoCounts) <==> old(jd.counts) == map[]
    ensures old(jd.counts) != map[] && jd.transpilerInfo == None ==> r == Crashed
    ensures r == Failed(BadMapping) <==> old(jd.counts) != map[] && jd.transpilerInfo == Some(BadKey)
    ensures r != Done ==> jd.divided == old(jd.divided)
    ensures r.Failed? && r.error != InconsistentQubits ==> jd.counts == old(jd.counts)
  {
    if |jd.counts| == 0 {
      return Failed(NoCounts);
    }
    if jd.transpilerInfo.None? {
      return Crashed;
    }
    if jd.transpilerInfo.value.BadKey? {
      return Failed(BadMapping);
    }
    var before, m := jd.counts, jd.transpilerInfo.value.mapping;
    var swap, swapped := SwapVirtualPhysical(before, m);
    jd.counts := swapped;
    if swap.Err? {
      return Failed(BadSwap(swap.error));
    }
    var cut, divided := DivideCounts(swapped, combinedQubits);
    if cut.Crash? {
      return Crashed;
    }
    if cut.Inconsistent? {
      return Failed(InconsistentQubits);
    }
    jd.divided := divided;
    r := Done;
  }
}
