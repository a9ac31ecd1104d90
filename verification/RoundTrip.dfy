/**
 The multi-programming path end to end: circuits are combined, the device reports the
 measured bits by physical qubit, and the result is divided again. The divider takes
 combined bit b to be measured from virtual qubit b; this module proves exactly when that
 gives every circuit its own histogram back.
 */
module RoundTrip {
  import opened Collections
  import opened Bits
  import opened Histograms
  import opened QubitMapping
  import opened KeyCutting
  import opened VirtualOrder
  import opened ResultDivider
  import opened CircuitCombiner
  import opened Measurement
  import opened Demultiplexing

  // ----- runs and their outcomes

  /** What a run measures: the combined key of every shot. */
  function Measured(shots: seq<seq<string>>): seq<string> {
    seq(|shots|, t requires 0 <= t < |shots| => CombinedKey(shots[t]))
  }

  /** Circuit `j`'s own outcomes over a run. */
  function Column(shots: seq<seq<string>>, j: nat): seq<string>
    requires forall t :: 0 <= t < |shots| ==> j < |shots[t]|
  {
    seq(|shots|, t requires 0 <= t < |shots| => shots[t][j])
  }

  ghost predicate Run(shots: seq<seq<string>>, lengths: seq<int>) {
    shots != [] && forall t :: 0 <= t < |shots| ==> Conforms(shots[t], lengths)
  }

  predicate AllWide(keys: seq<string>, n: int) {
    forall t :: 0 <= t < |keys| ==> |keys[t]| == n
  }

  lemma RunWidth(shots: seq<seq<string>>, lengths: seq<int>)
    requires Run(shots, lengths)
    ensures Sum(lengths) >= 0 && |Measured(shots)| == |shots| > 0 && |Reversed(lengths)| == |lengths|
    ensures AllWide(Measured(shots), Sum(lengths))
    ensures forall t :: 0 <= t < |shots| ==> |shots[t]| == |lengths|
  {
    forall t | 0 <= t < |shots| ensures |shots[t]| == |lengths| && |Measured(shots)[t]| == Sum(lengths) {
      CombinedKeyIsLaidOut(shots[t], lengths);
    }
    assert |Measured(shots)[0]| == Sum(lengths);
  }

  lemma CutShot(outcomes: seq<string>, lengths: seq<int>, j: nat)
    requires Conforms(outcomes, lengths) && j < |lengths| && Sum(lengths) < INT32_LIMIT
    ensures PieceOf(Reversed(lengths), |lengths| - 1 - j)(CombinedKey(outcomes)) == outcomes[j]
  {
    CombinedKeyIsLaidOut(outcomes, lengths);
    CutRecoversOutcome(CombinedKey(outcomes), outcomes, lengths, j);
  }

  /** Cutting the combined keys leaves each circuit its own column. */
  lemma CutColumn(shots: seq<seq<string>>, lengths: seq<int>, j: nat)
    requires Run(shots, lengths) && j < |lengths| && Sum(lengths) < INT32_LIMIT
    ensures MapShots(Measured(shots), PieceOf(Reversed(lengths), |lengths| - 1 - j)) == Column(shots, j)
  {
    hide Sum, CombinedKey, PieceOf, Conforms;
    RunWidth(shots, lengths);
    forall t | 0 <= t < |shots|
      ensures PieceOf(Reversed(lengths), |lengths| - 1 - j)(CombinedKey(shots[t])) == shots[t][j] {
      CutShot(shots[t], lengths, j);
    }
  }

  lemma MarginalIsColumn(shots: seq<seq<string>>, lengths: seq<int>, j: nat)
    requires Run(shots, lengths) && j < |lengths| && Sum(lengths) < INT32_LIMIT && |shots| < UINT32_SIZE
    ensures Marginal(Hist(Measured(shots)), Reversed(lengths), j) == Hist(Column(shots, j))
  {
    hide *;
    RunWidth(shots, lengths);
    CutColumn(shots, lengths, j);
    HistMap(Measured(shots), PieceOf(Reversed(lengths), |lengths| - 1 - j));
    MarginalOf(Hist(Measured(shots)), Reversed(lengths), j, |lengths| - 1 - j);
    ColumnLength(shots, j);
    WrappedRun(Column(shots, j));
  }

  lemma ColumnLength(shots: seq<seq<string>>, j: nat)
    requires forall t :: 0 <= t < |shots| ==> j < |shots[t]|
    ensures |Column(shots, j)| == |shots|
  {
  }

  lemma WrappedRun(shots: seq<string>)
    requires |shots| < UINT32_SIZE
    ensures Wrapped(Hist(shots)) == Hist(shots)
  {
    HistCountsOccurrences(shots);
    WrappedSmall(Hist(shots));
  }

  lemma AllFitRun(shots: seq<seq<string>>, lengths: seq<int>)
    requires Run(shots, lengths) && Sum(lengths) < INT32_LIMIT
    ensures Hist(Measured(shots)) != map[] && AllFit(Hist(Measured(shots)), Reversed(lengths))
  {
    var keys := Measured(shots);
    RunWidth(shots, lengths);
    HistCountsOccurrences(keys);
    assert keys[0] in Hist(keys);
    assert Conforms(shots[0], lengths);
    forall k | k in Hist(keys) ensures Fits(k, Reversed(lengths)) {
      ReversedFits(k, lengths);
    }
  }

  // ----- what the device reports and what the swap makes of it

  /** The physical qubit of a virtual one; without a mapping it is the qubit itself. */
  function Place(m: Mapping, v: nat): nat
    requires m == map[] || v in m
  {
    if m == map[] then v else m[v]
  }

  /** Combined bit `b` is measured from virtual qubit `src[b]`, at this physical qubit. */
  function Sites(m: Mapping, src: seq<nat>): Mapping
    requires m == map[] || forall b :: 0 <= b < |src| ==> src[b] in m
  {
    map b: nat | b < |src| :: Place(m, src[b])
  }

  /** The placement by which the divider reorders keys. */
  function Reader(m: Mapping, n: nat): Mapping {
    if m == map[] then (map v | v in Below(n) :: v) else m
  }

  /** The measured qubits, and the first as many virtual qubits, have physical qubits of their own. */
  ghost predicate Readable(m: Mapping, src: seq<nat>) {
    && (m == map[] || (Covers(m, |src|) && forall b :: 0 <= b < |src| ==> src[b] in m))
    && InjectiveBelow(Sites(m, src), |src|) && InjectiveBelow(Reader(m, |src|), |src|)
  }

  lemma ReadableCovers(m: Mapping, src: seq<nat>)
    requires Readable(m, src)
    ensures Covers(Sites(m, src), |src|) && Covers(Reader(m, |src|), |src|)
  {
  }

  /** The device's histogram: in every key the measured bits are sorted by physical qubit. */
  ghost function Report(keys: seq<string>, m: Mapping, src: seq<nat>): Counts
    requires Readable(m, src)
  {
    Hist(MapShots(keys, PhysicalKeyOf(Sites(m, src), |src|)))
  }

  /** What a measured key has become after report and swap. */
  ghost function Returned(m: Mapping, src: seq<nat>): string -> string
    requires Readable(m, src)
  {
    Compose(ReorderOf(Reader(m, |src|), |src|), PhysicalKeyOf(Sites(m, src), |src|))
  }

  /** Without a mapping the divider leaves keys alone. */
  lemma ReorderByIdentity(key: string)
    ensures Covers(Reader(map[], |key|), |key|) && Reorder(key, Reader(map[], |key|)) == key
  {
    var n, id := |key|, Reader(map[], |key|);
    forall v | 0 <= v < n ensures Bit(Reorder(key, id), v) == Bit(key, v) {
      assert Physicals(id, n) == Below(n) by {
        forall p | p in Below(n) ensures p in Physicals(id, n) {
          assert p in id && id[p] == p;
        }
      }
      RankInBelow(n, v);
      ReorderBit(key, id, v);
    }
    SameBits(Reorder(key, id), key);
  }

  lemma ReportWidth(keys: seq<string>, m: Mapping, src: seq<nat>)
    requires Readable(m, src) && AllWide(keys, |src|)
    ensures AllWide(MapShots(keys, PhysicalKeyOf(Sites(m, src), |src|)), |src|)
    ensures Wide(Report(keys, m, src), |src|)
    ensures keys != [] ==> Report(keys, m, src) != map[]
  {
    var device := MapShots(keys, PhysicalKeyOf(Sites(m, src), |src|));
    forall t | 0 <= t < |keys| ensures |device[t]| == |src| {
      ReorderUndoesReadout(keys[t], Sites(m, src));
    }
    HistCountsOccurrences(device);
    if keys != [] {
      assert device[0] in Hist(device);
    }
  }

  lemma ReportSwappable(keys: seq<string>, m: Mapping, src: seq<nat>)
    requires Readable(m, src) && AllWide(keys, |src|)
    ensures Swappable(Report(keys, m, src), m)
  {
    ReportWidth(keys, m, src);
  }

  /** The swap turns the device's histogram into the histogram of the returned keys. */
  lemma SwapOfReport(keys: seq<string>, m: Mapping, src: seq<nat>, c1: Counts)
    requires Readable(m, src) && AllWide(keys, |src|)
    requires Swappable(Report(keys, m, src), m) && IsSwap(Report(keys, m, src), m, c1)
    ensures c1 == Hist(MapShots(keys, Returned(m, src)))
  {
    var n, out := |src|, PhysicalKeyOf(Sites(m, src), |src|);
    ReadableCovers(m, src);
    var device, back := MapShots(keys, out), ReorderOf(Reader(m, n), n);
    assert Report(keys, m, src) == Hist(device);
    assert Returned(m, src) == Compose(back, out);
    assert m != map[] ==> Reader(m, n) == m && InjectiveBelow(m, n);
    assert m == map[] ==> c1 == Hist(device);
    hide *;
    ReportWidth(keys, m, src);
    MapShotsTwice(keys, out, back);
    if m == map[] {
      ReordersNothing(device, n);
    } else {
      SwapIsPush(Hist(device), m, n, c1);
      HistMap(device, back);
    }
  }

  lemma ReordersNothing(keys: seq<string>, n: nat)
    requires AllWide(keys, n)
    ensures Covers(Reader(map[], n), n) && MapShots(keys, ReorderOf(Reader(map[], n), n)) == keys
  {
    hide Reorder;
    forall t | 0 <= t < |keys| ensures ReorderOf(Reader(map[], n), n)(keys[t]) == keys[t] {
      ReorderByIdentity(keys[t]);
    }
  }

  // ----- when keys come back unchanged

  /** The measured qubits are placed in the same order as the virtual qubits of the same numbers. */
  ghost predicate Aligned(m: Mapping, src: seq<nat>)
    requires Readable(m, src)
  {
    SameOrder(Reader(m, |src|), Sites(m, src), |src|)
  }

  /** The combined bit's place in the reported key. */
  lemma ReportedBit(key: string, m: Mapping, src: seq<nat>, b: nat)
    requires Readable(m, src) && |key| == |src| && b < |src|
    ensures |PhysicalKey(key, Sites(m, src))| == |src|
    ensures Bit(PhysicalKey(key, Sites(m, src)), Wire(Sites(m, src), |src|, b)) == Bit(key, b)
  {
    hide Wire, PhysicalKey, Reorder, InjectiveBelow;
    ReorderUndoesReadout(key, Sites(m, src));
    ReorderBit(PhysicalKey(key, Sites(m, src)), Sites(m, src), b);
  }

  /** Bit `v` of the returned key is the combined bit reported where the divider looks for `v`. */
  lemma ReturnedBit(key: string, m: Mapping, src: seq<nat>, v: nat, b: nat)
    requires Readable(m, src) && |key| == |src| && v < |src| && b < |src|
    requires Wire(Sites(m, src), |src|, b) == Wire(Reader(m, |src|), |src|, v)
    ensures |Returned(m, src)(key)| == |src| && Bit(Returned(m, src)(key), v) == Bit(key, b)
  {
    ReadableCovers(m, src);
    hide Wire, PhysicalKey, Reorder, InjectiveBelow, Sites, Reader;
    ReportedBit(key, m, src, b);
    ReorderBit(PhysicalKey(key, Sites(m, src)), Reader(m, |src|), v);
  }

  lemma ReturnedLength(key: string, m: Mapping, src: seq<nat>)
    requires Readable(m, src) && |key| == |src|
    ensures |Returned(m, src)(key)| == |src|
  {
    hide PhysicalKey, Reorder, InjectiveBelow;
    ReorderUndoesReadout(key, Sites(m, src));
  }

  lemma AlignedReturns(key: string, m: Mapping, src: seq<nat>)
    requires Readable(m, src) && |key| == |src| && Aligned(m, src)
    ensures Returned(m, src)(key) == key
  {
    var n := |src|;
    SameWiresIffSameOrder(Reader(m, n), Sites(m, src), n);
    hide Wire, Returned, InjectiveBelow, Sites, Reader, SameOrder;
    ReturnedLength(key, m, src);
    forall v | 0 <= v < n ensures Bit(Returned(m, src)(key), v) == Bit(key, v) {
      ReturnedBit(key, m, src, v, v);
    }
    SameBits(Returned(m, src)(key), key);
  }

  /** A key with a single bit set. */
  function OneHot(n: nat, v: nat): (r: string)
    requires v < n
    ensures |r| == n && forall b :: 0 <= b < n ==> Bit(r, b) == (if b == v then '1' else '0')
  {
    seq(n, i => if i == n - 1 - v then '1' else '0')
  }

  lemma MisalignedScrambles(m: Mapping, src: seq<nat>) returns (key: string)
    requires Readable(m, src) && !Aligned(m, src)
    ensures |key| == |src| && Returned(m, src)(key) != key && |Returned(m, src)(key)| == |src|
  {
    var n := |src|;
    SameWiresIffSameOrder(Reader(m, n), Sites(m, src), n);
    hide Wire, Returned, InjectiveBelow, Sites, Reader, SameOrder;
    var v :| 0 <= v < n && Wire(Reader(m, n), n, v) != Wire(Sites(m, src), n, v);
    var b := WireOnto(Sites(m, src), n, Wire(Reader(m, n), n, v));
    key := OneHot(n, v);
    ReturnedBit(key, m, src, v, b);
  }

  // ----- dividing a run

  /** One run of the device and the divider, whatever the divider's iteration orders. */
  ghost predicate Session(lengths: seq<int>, m: Mapping, src: seq<nat>, shots: seq<seq<string>>,
                          d0: Tables, r: Outcome, c1: Counts, d1: Tables)
    requires Readable(m, src)
  {
    && Run(shots, lengths) && |shots| < UINT32_SIZE
    && Divides(Report(Measured(shots), m, src), Some(Decoded(m)), Reversed(lengths), d0, r, c1, d1)
  }

  /** The division succeeds and circuit `j` gets exactly the histogram of column `j`. */
  ghost predicate Recovers(lengths: seq<int>, shots: seq<seq<string>>, r: Outcome, d1: Tables) {
    && r == Done && d1.Keys == Below(|lengths|)
    && forall j :: 0 <= j < |lengths| ==> HasColumn(shots, d1, j)
  }

  ghost predicate HasColumn(shots: seq<seq<string>>, d1: Tables, j: nat) {
    j in d1 && (forall t :: 0 <= t < |shots| ==> j < |shots[t]|) && d1[j] == Hist(Column(shots, j))
  }

  /**
   What the divider returns, in general: it succeeds, and the circuits get the columns of the
   run whose combined keys are the returned ones.
   */
  lemma DivisionReturns(lengths: seq<int>, m: Mapping, src: seq<nat>, shots: seq<seq<string>>,
                        d0: Tables, r: Outcome, c1: Counts, d1: Tables, returned: seq<seq<string>>)
    requires Readable(m, src) && |src| == Sum(lengths) < INT32_LIMIT
    requires Session(lengths, m, src, shots, d0, r, c1, d1)
    requires Run(returned, lengths) && Measured(returned) == MapShots(Measured(shots), Returned(m, src))
    ensures c1 == Hist(Measured(returned)) && Recovers(lengths, returned, r, d1)
  {
    var keys, c0 := Measured(shots), Report(Measured(shots), m, src);
    SessionParts(lengths, m, src, shots, d0, r, c1, d1);
    hide *;
    RunWidth(shots, lengths);
    RunWidth(returned, lengths);
    ReportWidth(keys, m, src);
    ReportSwappable(keys, m, src);
    DividesSwaps(c0, m, Reversed(lengths), d0, r, c1, d1);
    SwapOfReport(keys, m, src, c1);
    AllFitRun(returned, lengths);
    TablesRecover(lengths, returned, r, c1, d1);
  }

  lemma SessionParts(lengths: seq<int>, m: Mapping, src: seq<nat>, shots: seq<seq<string>>,
                     d0: Tables, r: Outcome, c1: Counts, d1: Tables)
    requires Readable(m, src) && Session(lengths, m, src, shots, d0, r, c1, d1)
    ensures Run(shots, lengths) && |Measured(shots)| == |shots| < UINT32_SIZE
    ensures Divides(Report(Measured(shots), m, src), Some(Decoded(m)), Reversed(lengths), d0, r, c1, d1)
  {
  }

  lemma TablesRecover(lengths: seq<int>, shots: seq<seq<string>>, r: Outcome, c1: Counts, d1: Tables)
    requires Run(shots, lengths) && |shots| < UINT32_SIZE && Sum(lengths) < INT32_LIMIT && r == Done
    requires c1 == Hist(Measured(shots)) && Tabulates(c1, Reversed(lengths), d1)
    ensures Recovers(lengths, shots, r, d1)
  {
    AllFitRun(shots, lengths);
    RunWidth(shots, lengths);
    hide Sum, Reversed, Hist, Measured, Tabulates, Marginal, AllFit, Column;
    TabulatedKeys(c1, Reversed(lengths), d1);
    forall j | 0 <= j < |lengths| ensures HasColumn(shots, d1, j) {
      TabulatedMarginal(c1, Reversed(lengths), d1, j);
      MarginalIsColumn(shots, lengths, j);
    }
  }

  /** Past the early refusals, a division swaps and then succeeds exactly if every key fits. */
  lemma DividesSwaps(c0: Counts, m: Mapping, lengths: seq<int>, d0: Tables, r: Outcome, c1: Counts, d1: Tables)
    requires c0 != map[] && Swappable(c0, m)
    requires Divides(c0, Some(Decoded(m)), lengths, d0, r, c1, d1)
    ensures IsSwap(c0, m, c1)
    ensures r == Done <==> AllFit(c1, lengths)
    ensures r == Done ==> Tabulates(c1, lengths, d1)
    ensures r != Done ==> d1 == d0
  {
  }

  lemma TabulatedKeys(c: Counts, lengths: seq<int>, d: Tables)
    requires c != map[] && Tabulates(c, lengths, d)
    ensures d.Keys == Below(|lengths|)
  {
  }

  lemma TabulatedMarginal(c: Counts, lengths: seq<int>, d: Tables, j: nat)
    requires c != map[] && Tabulates(c, lengths, d) && j < |lengths|
    ensures j in d && d[j] == Marginal(c, lengths, j)
  {
    assert HasMarginal(d, c, lengths, j);
  }

  /**
   Demultiplexing round trip. Lay the circuits' outcomes out as the combiner does, let the
   device report them by physical qubit, divide: if the measured qubits are aligned, every
   circuit gets exactly the histogram of its own outcomes, in every iteration order.
   */
  lemma DemultiplexingRoundTrip(lengths: seq<int>, m: Mapping, src: seq<nat>, shots: seq<seq<string>>,
                                d0: Tables, r: Outcome, c1: Counts, d1: Tables)
    requires Readable(m, src) && Aligned(m, src) && |src| == Sum(lengths) < INT32_LIMIT
    requires Session(lengths, m, src, shots, d0, r, c1, d1)
    ensures c1 == Hist(Measured(shots)) && Recovers(lengths, shots, r, d1)
  {
    hide *;
    SessionParts(lengths, m, src, shots, d0, r, c1, d1);
    RunWidth(shots, lengths);
    AlignedRun(Measured(shots), m, src);
    DivisionReturns(lengths, m, src, shots, d0, r, c1, d1, shots);
  }

  lemma AlignedRun(keys: seq<string>, m: Mapping, src: seq<nat>)
    requires Readable(m, src) && Aligned(m, src) && AllWide(keys, |src|)
    ensures MapShots(keys, Returned(m, src)) == keys
  {
    hide Readable, Aligned, Returned;
    forall t | 0 <= t < |keys| ensures Returned(m, src)(keys[t]) == keys[t] {
      AlignedReturns(keys[t], m, src);
    }
  }

  // ----- and when they do not

  /** Every key of the right length is the combined key of some outcomes. */
  lemma {:induction false} SplitKey(key: string, lengths: seq<int>) returns (outcomes: seq<string>)
    requires NonNegative(lengths) && |key| == Sum(lengths)
    ensures Conforms(outcomes, lengths) && CombinedKey(outcomes) == key
  {
    if lengths == [] {
      outcomes := [];
    } else {
      var n := |lengths| - 1;
      SumNonNegative(lengths[..n]);
      var front := SplitKey(key[lengths[n]..], lengths[..n]);
      outcomes := front + [key[..lengths[n]]];
      assert outcomes[..n] == front;
    }
  }

  lemma OneShot(outcomes: seq<string>)
    ensures Measured([outcomes]) == [CombinedKey(outcomes)]
    ensures forall j :: 0 <= j < |outcomes| ==> Column([outcomes], j) == [outcomes[j]]
  {
  }

  lemma OneShotHist(x: string, y: string)
    requires Hist([x]) == Hist([y])
    ensures x == y
  {
    HistCountsOccurrences([x]);
    HistCountsOccurrences([y]);
    assert x in [x];
  }

  /** A division that succeeds has some result. */
  lemma DivisionExists(c0: Counts, m: Mapping, lengths: seq<int>) returns (c1: Counts, d1: Tables)
    requires c0 != map[] && Swappable(c0, m) && Lossless(c0, m) && AllFit(c0, lengths)
    ensures Divides(c0, Some(Decoded(m)), lengths, map[], Done, c1, d1)
  {
    c1 := SwapExists(c0, m);
    SwapWidth(c0, m, c1, lengths);
    SwapDetermined(c0, m, c1);
    d1 := map j: nat | j < |lengths| :: Marginal(c1, lengths, j);
    forall j | 0 <= j < |lengths| ensures HasMarginal(d1, c1, lengths, j) {
    }
    assert d1.Keys == Below(|lengths|);
  }

  lemma SwapExists(c: Counts, m: Mapping) returns (r: Counts)
    requires c != map[] && Swappable(c, m) && Lossless(c, m)
    ensures IsSwap(c, m, r)
  {
    if m == map[] {
      r := c;
    } else {
      var k :| k in c;
      var f := ReorderOf(m, |k|);
      r := Push(c, f);
      forall i, j | i in c && j in c && f(i) == f(j) ensures i == j {
        ReorderInjective(m, i, j);
      }
      PushRelabels(c, f);
    }
  }

  /** Where no keys merge, the relabelled histogram is what plain assignment gives. */
  lemma PushRelabels(c: Counts, f: string -> string)
    requires forall j, k :: j in c && k in c && f(j) == f(k) ==> j == k
    ensures Relabels(c, f, Push(c, f))
  {
    PushInjective(c, f);
    forall p | p in Push(c, f) ensures exists j :: j in c && f(j) == p && Push(c, f)[p] == c[j] {
      var j :| j in c && f(j) == p;
    }
  }

  lemma ReportLossless(keys: seq<string>, m: Mapping, src: seq<nat>)
    requires Readable(m, src) && AllWide(keys, |src|)
    ensures Swappable(Report(keys, m, src), m) && Lossless(Report(keys, m, src), m)
  {
    ReportWidth(keys, m, src);
    hide Report;
  }

  /** Every run has a session. */
  lemma SessionExists(lengths: seq<int>, m: Mapping, src: seq<nat>, shots: seq<seq<string>>)
    returns (c1: Counts, d1: Tables)
    requires Readable(m, src) && |src| == Sum(lengths) < INT32_LIMIT
    requires Run(shots, lengths) && |shots| < UINT32_SIZE
    ensures Session(lengths, m, src, shots, map[], Done, c1, d1)
  {
    var keys := Measured(shots);
    RunWidth(shots, lengths);
    ReportWidth(keys, m, src);
    ReportLossless(keys, m, src);
    assert Conforms(shots[0], lengths);
    forall k | k in Report(keys, m, src) ensures Fits(k, Reversed(lengths)) {
      ReversedFits(k, lengths);
    }
    hide Report, Sum, Divides;
    c1, d1 := DivisionExists(Report(keys, m, src), m, Reversed(lengths));
  }

  lemma RunOnce(outcomes: seq<string>, lengths: seq<int>)
    requires Conforms(outcomes, lengths)
    ensures Run([outcomes], lengths) && |[outcomes]| < UINT32_SIZE
  {
  }

  /** One shot's outcomes and the different ones they come back as. */
  lemma ScrambledShot(lengths: seq<int>, m: Mapping, src: seq<nat>) returns (sent: seq<string>, got: seq<string>)
    requires Readable(m, src) && !Aligned(m, src) && |src| == Sum(lengths) && NonNegative(lengths)
    ensures Conforms(sent, lengths) && Conforms(got, lengths) && sent != got
    ensures Measured([got]) == MapShots(Measured([sent]), Returned(m, src))
  {
    hide Readable, Aligned, Returned, Sum, Conforms, CombinedKey, Measured, MapShots;
    var key := MisalignedScrambles(m, src);
    sent := SplitKey(key, lengths);
    got := SplitKey(Returned(m, src)(key), lengths);
    OneShot(sent);
    OneShot(got);
    MapOneShot(key, Returned(m, src));
  }

  /** Where the measured qubits are not aligned, a single shot is enough to give some circuit a wrong histogram. */
  lemma MisalignedFails(lengths: seq<int>, m: Mapping, src: seq<nat>)
    returns (shots: seq<seq<string>>, c1: Counts, d1: Tables)
    requires Readable(m, src) && !Aligned(m, src) && |src| == Sum(lengths) < INT32_LIMIT && NonNegative(lengths)
    ensures Session(lengths, m, src, shots, map[], Done, c1, d1)
    ensures |shots| == 1 && !Recovers(lengths, shots, Done, d1)
  {
    hide *;
    var sent, got := ScrambledShot(lengths, m, src);
    shots := [sent];
    RunOnce(sent, lengths);
    RunOnce(got, lengths);
    c1, d1 := SessionExists(lengths, m, src, shots);
    DivisionReturns(lengths, m, src, shots, map[], Done, c1, d1, [got]);
    DifferentColumns(lengths, sent, got, d1);
  }

  lemma DifferentColumns(lengths: seq<int>, sent: seq<string>, got: seq<string>, d1: Tables)
    requires Conforms(sent, lengths) && Conforms(got, lengths) && sent != got && Recovers(lengths, [got], Done, d1)
    ensures !Recovers(lengths, [sent], Done, d1)
  {
    hide Hist, Column;
    OneShot(sent);
    OneShot(got);
    var j :| 0 <= j < |lengths| && sent[j] != got[j];
    assert HasColumn([got], d1, j);
    if HasColumn([sent], d1, j) {
      OneShotHist(sent[j], got[j]);
    }
  }

  /** For one mapping: every run is recovered exactly if the measured qubits are aligned. */
  lemma RoundTripIffAligned(lengths: seq<int>, m: Mapping, src: seq<nat>)
    requires Readable(m, src) && |src| == Sum(lengths) < INT32_LIMIT && NonNegative(lengths)
    ensures Aligned(m, src) <==> AlwaysRecovers(lengths, m, src)
  {
    hide Aligned, Session, Recovers, Readable;
    if Aligned(m, src) {
      forall shots, d0, r, c1, d1 | Session(lengths, m, src, shots, d0, r, c1, d1)
        ensures Recovers(lengths, shots, r, d1) {
        DemultiplexingRoundTrip(lengths, m, src, shots, d0, r, c1, d1);
      }
    } else {
      var shots, c1, d1 := MisalignedFails(lengths, m, src);
    }
  }

  ghost predicate AlwaysRecovers(lengths: seq<int>, m: Mapping, src: seq<nat>)
    requires Readable(m, src)
  {
    forall shots, d0, r, c1, d1 :: Session(lengths, m, src, shots, d0, r, c1, d1) ==> Recovers(lengths, shots, r, d1)
  }

  // ----- for every mapping

  /** Places `b` below `u` and `su` below `w`, and every other qubit above them. */
  function Twist(x: nat, b: nat, su: nat, u: nat, w: nat): nat {
    if x == b then 0 else if x == su then 1 else if x == u then 2 else if x == w then 3 else x + 4
  }

  /** If some combined bit is not measured from the qubit of its own number, some mapping is misaligned. */
  lemma CrookedMisaligns(src: seq<nat>, qubits: nat) returns (m: Mapping)
    requires Distinct(src) && 2 <= |src| <= qubits && !Straight(src)
    requires forall b :: 0 <= b < |src| ==> src[b] < qubits
    ensures m.Keys == Below(qubits) && Readable(m, src) && !Aligned(m, src)
  {
    var b :| 0 <= b < |src| && src[b] != b;
    var u := if b == 0 then 1 else 0;
    var su, w := src[u], src[b];
    m := map x | x in Below(qubits) :: Twist(x, b, su, u, w);
    assert su != w && m[b] < m[u] && m[su] < m[w];
    hide Twist;
    forall x, y | x in m && y in m && m[x] == m[y] ensures x == y {
      TwistInjective(x, y, b, su, u, w);
    }
    InjectiveReadable(m, src, qubits);
    hide Readable;
    MisalignedPair(m, src, b, u);
  }

  lemma MisalignedPair(m: Mapping, src: seq<nat>, b: nat, u: nat)
    requires m != map[] && Readable(m, src) && b < |src| && u < |src|
    requires m[b] < m[u] && m[src[u]] < m[src[b]]
    ensures !Aligned(m, src)
  {
    assert Sites(m, src)[u] == m[src[u]] && Sites(m, src)[b] == m[src[b]];
  }

  lemma TwistInjective(x: nat, y: nat, b: nat, su: nat, u: nat, w: nat)
    requires Twist(x, b, su, u, w) == Twist(y, b, su, u, w)
    ensures x == y
  {
  }

  /** An injective mapping of all qubits is readable whatever qubits are measured. */
  lemma InjectiveReadable(m: Mapping, src: seq<nat>, qubits: nat)
    requires m.Keys == Below(qubits) && forall x, y :: x in m && y in m && m[x] == m[y] ==> x == y
    requires Distinct(src) && |src| <= qubits && forall b :: 0 <= b < |src| ==> src[b] < qubits
    ensures Readable(m, src)
  {
    if m != map[] {
      forall i, j | 0 <= i < |src| && 0 <= j < |src| && Sites(m, src)[i] == Sites(m, src)[j] ensures i == j {
        assert src[i] in m && src[j] in m && m[src[i]] == m[src[j]];
        assert i < j || j < i || i == j;
      }
    } else {
      assert qubits == 0 by {
        assert |m.Keys| == qubits;
      }
    }
  }

  /**
   For all mappings at once: the measured qubits are aligned under every readable mapping
   exactly if there is at most one combined bit or each is measured from the qubit of its own
   number.
   */
  lemma AlwaysAlignedIff(src: seq<nat>, qubits: nat)
    requires Distinct(src) && |src| <= qubits && forall b :: 0 <= b < |src| ==> src[b] < qubits
    ensures (forall m :: Readable(m, src) ==> Aligned(m, src)) <==> |src| <= 1 || Straight(src)
  {
    if |src| <= 1 || Straight(src) {
      forall m | Readable(m, src) ensures Aligned(m, src) {
        StraightAligned(m, src);
      }
    } else {
      hide Readable, Aligned;
      var m := CrookedMisaligns(src, qubits);
    }
  }

  lemma StraightAligned(m: Mapping, src: seq<nat>)
    requires Readable(m, src) && (|src| <= 1 || Straight(src))
    ensures Aligned(m, src)
  {
    var n := |src|;
    forall u, v | 0 <= u < n && 0 <= v < n
      ensures Reader(m, n)[u] < Reader(m, n)[v] <==> Sites(m, src)[u] < Sites(m, src)[v] {
      if n > 1 {
        assert src[u] == u && src[v] == v;
      }
    }
  }

  /**
   The law of multi-programming, in terms of the circuits: every run under every mapping is
   recovered exactly if there is at most one classical bit, or every circuit measures its
   qubit c into its bit c and every circuit followed by one with classical bits measures all
   of its qubits.
   */
  lemma RoundTripForEveryMappingIff(circuits: seq<Circuit>, wiring: seq<seq<nat>>)
    requires Wired(circuits, wiring) && Sum(Clbits(circuits)) < INT32_LIMIT
    ensures (forall m :: Readable(m, Sources(circuits, wiring)) ==>
                           AlwaysRecovers(Clbits(circuits), m, Sources(circuits, wiring)))
       <==> Sum(Clbits(circuits)) <= 1 || InOrder(circuits, wiring)
    ensures Sum(Clbits(circuits)) > 1 && !InOrder(circuits, wiring) ==>
              exists m: Mapping :: m.Keys == Below(TotalQubits(circuits)) && Misleads(circuits, wiring, m)
  {
    var src, lengths := Sources(circuits, wiring), Clbits(circuits);
    SourcesAreQubits(circuits, wiring);
    FullIff(circuits, wiring);
    AlwaysAlignedIff(src, TotalQubits(circuits));
    StraightIffInOrder(circuits, wiring);
    hide Readable, Aligned, AlwaysRecovers, Sources, InOrder, Straight, Sum;
    forall m | Readable(m, src) ensures Aligned(m, src) <==> AlwaysRecovers(lengths, m, src) {
      RoundTripIffAligned(lengths, m, src);
    }
    if Sum(lengths) > 1 && !InOrder(circuits, wiring) {
      var m := CrookedMisaligns(src, TotalQubits(circuits));
      assert Misleads(circuits, wiring, m);
    }
  }

  /** An injective mapping of the circuits' qubits under which some run gives a wrong histogram. */
  ghost predicate Misleads(circuits: seq<Circuit>, wiring: seq<seq<nat>>, m: Mapping)
    requires |wiring| == |circuits|
  {
    Readable(m, Sources(circuits, wiring)) && !AlwaysRecovers(Clbits(circuits), m, Sources(circuits, wiring))
  }

  // ----- a misleading input

  const TWO_CIRCUITS: seq<Circuit> := [Circuit(2, 1), Circuit(1, 1)]
  const FIRST_QUBITS: seq<seq<nat>> := [[0], [0]]
  const SWAPPING: Mapping := map[0 := 1, 1 := 2, 2 := 0]

  lemma TwoCircuits()
    ensures Wired(TWO_CIRCUITS, FIRST_QUBITS) && Clbits(TWO_CIRCUITS) == [1, 1] && Sum([1, 1]) == 2
    ensures Sources(TWO_CIRCUITS, FIRST_QUBITS) == [0, 2]
  {
    var front := TWO_CIRCUITS[..1];
    assert front == [Circuit(2, 1)] && front[..0] == [] && [1, 1][..1] == [1];
    assert FIRST_QUBITS[..1] == [[0]];
    assert TotalQubits(front) == 2 && Sources(front, [[0]]) == [0] by {
      assert TotalQubits(front[..0]) == 0 && Sources(front[..0], [[0]][..0]) == [];
    }
  }

  /** Bit 0 is measured at physical qubit 1, bit 1 at physical qubit 0. */
  lemma SwappingSites()
    ensures SWAPPING != map[] && Reader(SWAPPING, 2) == SWAPPING && Readable(SWAPPING, [0, 2])
    ensures var sites := Sites(SWAPPING, [0, 2]); Covers(sites, 2) && sites[0] == 1 && sites[1] == 0
  {
    assert 0 in SWAPPING;
    var sites := Sites(SWAPPING, [0, 2]);
    assert sites[0] == 1 && sites[1] == 0;
  }

  /** Under this mapping the divider looks for either bit where the other one is reported. */
  lemma SwappingWires()
    ensures Readable(SWAPPING, [0, 2])
    ensures var sites, reader := Sites(SWAPPING, [0, 2]), Reader(SWAPPING, 2);
            && Wire(sites, 2, 0) == Wire(reader, 2, 1)
            && Wire(sites, 2, 1) == Wire(reader, 2, 0)
  {
    SwappingSites();
    var sites := Sites(SWAPPING, [0, 2]);
    hide Wire, Sites;
    TwoWires(sites);
    TwoWires(SWAPPING);
  }

  /** Of two qubits, the one placed lower has bit 0 and the other bit 1. */
  lemma TwoWires(m: Mapping)
    requires Covers(m, 2) && m[0] != m[1]
    ensures Wire(m, 2, 0) == (if m[0] < m[1] then 0 else 1)
    ensures Wire(m, 2, 1) == (if m[0] < m[1] then 1 else 0)
  {
    hide Wire;
    WireOrder(m, 2, 0, 1);
    WireOrder(m, 2, 1, 0);
  }

  lemma ExchangedKey(key: string)
    requires |key| == 2
    ensures Readable(SWAPPING, [0, 2]) && Returned(SWAPPING, [0, 2])(key) == [key[1], key[0]]
  {
    SwappingWires();
    hide Wire, Returned, Sites, Reader;
    ReturnedBit(key, SWAPPING, [0, 2], 0, 1);
    ReturnedBit(key, SWAPPING, [0, 2], 1, 0);
  }

  lemma TwoOutcomes(x: char, y: char)
    ensures Conforms([[x], [y]], [1, 1]) && Measured([[[x], [y]]]) == [[y, x]]
    ensures Column([[[x], [y]]], 0) == [[x]] && Column([[[x], [y]]], 1) == [[y]]
  {
    CombinedPair([x], [y]);
    assert [y] + [x] == [y, x];
    OneShot([[x], [y]]);
  }

  lemma CombinedPair(a: string, b: string)
    ensures CombinedKey([a, b]) == b + a
  {
    var one, two := [a], [a, b];
    assert one[..0] == [] && two[..1] == one;
    assert CombinedKey(one) == a + CombinedKey(one[..0]);
    assert CombinedKey(two) == b + CombinedKey(two[..1]);
  }

  lemma ExchangedRun(x: char, y: char)
    ensures Readable(SWAPPING, [0, 2])
    ensures Measured([[[y], [x]]]) == MapShots(Measured([[[x], [y]]]), Returned(SWAPPING, [0, 2]))
  {
    hide Measured, MapShots, Returned, Readable;
    TwoOutcomes(x, y);
    TwoOutcomes(y, x);
    ExchangedKey([y, x]);
    MapOneShot([y, x], Returned(SWAPPING, [0, 2]));
  }

  /**
   A circuit of two qubits and one bit next to one of one qubit and one bit: each circuit is
   given the other's outcome.
   */
  lemma OutcomesExchanged(x: char, y: char, d0: Tables, r: Outcome, c1: Counts, d1: Tables)
    requires Readable(SWAPPING, Sources(TWO_CIRCUITS, FIRST_QUBITS))
    requires Session(Clbits(TWO_CIRCUITS), SWAPPING, Sources(TWO_CIRCUITS, FIRST_QUBITS), [[[x], [y]]], d0, r, c1, d1)
    ensures r == Done && d1 == map[0 := Hist([[y]]), 1 := Hist([[x]])]
  {
    hide Returned, Sum, Session, Readable, Sources, Hist, Measured, MapShots, Clbits;
    TwoCircuits();
    TwoOutcomes(y, x);
    ExchangedRun(x, y);
    RunOnce([[y], [x]], [1, 1]);
    DivisionReturns([1, 1], SWAPPING, [0, 2], [[[x], [y]]], d0, r, c1, d1, [[[y], [x]]]);
    assert HasColumn([[[y], [x]]], d1, 0) && HasColumn([[[y], [x]]], d1, 1);
  }

  /** And there is such a run, whatever the two outcomes. */
  lemma ExchangeHappens(x: char, y: char) returns (c1: Counts, d1: Tables)
    ensures Readable(SWAPPING, Sources(TWO_CIRCUITS, FIRST_QUBITS))
    ensures Session(Clbits(TWO_CIRCUITS), SWAPPING, Sources(TWO_CIRCUITS, FIRST_QUBITS),
                    [[[x], [y]]], map[], Done, c1, d1)
    ensures d1 == map[0 := Hist([[y]]), 1 := Hist([[x]])]
  {
    hide Returned, Sum, Session, Readable, Sources, Hist, Measured, MapShots, Clbits;
    TwoCircuits();
    SwappingSites();
    TwoOutcomes(x, y);
    RunOnce([[x], [y]], [1, 1]);
    c1, d1 := SessionExists([1, 1], SWAPPING, [0, 2], [[[x], [y]]]);
    OutcomesExchanged(x, y, map[], Done, c1, d1);
  }
}
