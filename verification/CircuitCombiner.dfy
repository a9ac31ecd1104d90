/**
 Combining circuits side by side: running qubit and classical-bit offsets, the qubit
 limit, and the reversed list of classical-bit counts handed to the result divider.
 */
module CircuitCombiner {
  import opened Bits
  import opened KeyCutting

  datatype Circuit = Circuit(qubits: nat, clbits: nat)

  /** A program that loads, or one the loader rejects. */
  datatype Program = Loaded(circuit: Circuit) | Malformed

  datatype Status = Success | InvalidQubitSize | Failure

  /** The combined bits that a circuit's own bits 0, 1, ... are placed on. */
  datatype Placement = Placement(qubits: seq<nat>, clbits: seq<nat>)

  function Range(start: nat, count: nat): seq<nat> {
    seq(count, i requires 0 <= i => start + i)
  }

  function Qubits(circuits: seq<Circuit>): seq<int> {
    seq(|circuits|, i requires 0 <= i < |circuits| => circuits[i].qubits)
  }

  function Clbits(circuits: seq<Circuit>): seq<int> {
    seq(|circuits|, i requires 0 <= i < |circuits| => circuits[i].clbits)
  }

  function Reversed(lengths: seq<int>): seq<int> {
    seq(|lengths|, i requires 0 <= i < |lengths| => lengths[|lengths| - 1 - i])
  }

  /** Circuit `i` starts where the circuits before it end, for qubits and classical bits alike. */
  ghost predicate PlacedAt(circuits: seq<Circuit>, i: nat, p: Placement)
    requires i < |circuits|
  {
    var q, c := Sum(Qubits(circuits[..i])), Sum(Clbits(circuits[..i]));
    && q >= 0 && c >= 0
    && p == Placement(Range(q, circuits[i].qubits), Range(c, circuits[i].clbits))
  }

  lemma SumsStep(circuits: seq<Circuit>, i: nat)
    requires i < |circuits|
    ensures Sum(Qubits(circuits[..i + 1])) == Sum(Qubits(circuits[..i])) + circuits[i].qubits
    ensures Sum(Clbits(circuits[..i + 1])) == Sum(Clbits(circuits[..i])) + circuits[i].clbits
  {
    assert Qubits(circuits[..i + 1])[..i] == Qubits(circuits[..i]);
    assert Clbits(circuits[..i + 1])[..i] == Clbits(circuits[..i]);
  }

  /** `exports` tells whether appending, decomposing and exporting the circuits raises no exception. */
  method CombineCircuits(programs: seq<Program>, maxQubits: int, exports: bool)
    returns (status: Status, circuits: seq<Circuit>, placements: seq<Placement>, combinedQubits: seq<int>)
    ensures Malformed !in programs ==>
            programs == seq(|circuits|, i requires 0 <= i < |circuits| => Loaded(circuits[i]))
    ensures var fits := Sum(Qubits(circuits)) <= (if maxQubits > 0 then maxQubits else 0);
            && (status == Failure <==> Malformed in programs || (fits && !exports))
            && (status == Success <==> Malformed !in programs && fits && exports)
    ensures status == Success ==> combinedQubits == Reversed(Clbits(circuits))
    ensures status == Success ==> |placements| == |circuits|
                                  && forall i :: 0 <= i < |circuits| ==> PlacedAt(circuits, i, placements[i])
    ensures status != Success ==> combinedQubits == [] && placements == []
  {
    circuits, placements, combinedQubits := [], [], [];
    var totalQubits := 0;
    for i := 0 to |programs|
      invariant |circuits| == i && Malformed !in programs[..i]
      invariant forall j :: 0 <= j < i ==> programs[j] == Loaded(circuits[j])
      invariant totalQubits == Sum(Qubits(circuits))
    {
      if programs[i].Malformed? {
        return Failure, [], [], [];
      }
      var next := circuits + [programs[i].circuit];
      assert next[..i + 1] == next && next[..i] == circuits;
      SumsStep(next, i);
      circuits := next;
      totalQubits := totalQubits + programs[i].circuit.qubits;
    }
    var limit := if maxQubits > 0 then maxQubits else 0;
    if totalQubits > limit {
      return InvalidQubitSize, circuits, [], [];
    }
    var placed, list := PlaceCircuits(circuits);
    if !exports {
      return Failure, circuits, [], [];
    }
    return Success, circuits, placed, list;
  }

  method PlaceCircuits(circuits: seq<Circuit>) returns (placements: seq<Placement>, combinedQubits: seq<int>)
    ensures combinedQubits == Reversed(Clbits(circuits))
    ensures |placements| == |circuits|
    ensures forall i :: 0 <= i < |circuits| ==> PlacedAt(circuits, i, placements[i])
  {
    placements, combinedQubits := [], [];
    var qubitIndex: nat, clbitIndex: nat := 0, 0;
    for i := 0 to |circuits|
      invariant qubitIndex == Sum(Qubits(circuits[..i])) && clbitIndex == Sum(Clbits(circuits[..i]))
      invariant combinedQubits == Reversed(Clbits(circuits[..i]))
      invariant |placements| == i
      invariant forall j :: 0 <= j < i ==> PlacedAt(circuits, j, placements[j])
    {
      var one := circuits[i];
      SumsStep(circuits, i);
      placements := placements + [Placement(Range(qubitIndex, one.qubits), Range(clbitIndex, one.clbits))];
      qubitIndex := qubitIndex + one.qubits;
      clbitIndex := clbitIndex + one.clbits;
      combinedQubits := [one.clbits] + combinedQubits;
    }
    assert circuits[..|circuits|] == circuits;
  }

  // ----- the combined key

  /** One shot's outcomes, circuit by circuit. */
  predicate Conforms(outcomes: seq<string>, lengths: seq<int>) {
    |outcomes| == |lengths| && forall i :: 0 <= i < |lengths| ==> |outcomes[i]| == lengths[i]
  }

  /**
   The measured key when circuit `i`'s bit `c` is placed on the combined bit
   `Sum(lengths[..i]) + c`, as the combiner does.
   */
  ghost predicate LaidOut(key: string, outcomes: seq<string>, lengths: seq<int>)
    requires Conforms(outcomes, lengths)
  {
    && |key| == Sum(lengths)
    && forall i, c :: 0 <= i < |lengths| && 0 <= c < lengths[i] ==> BitAt(key, outcomes, lengths, i, c)
  }

  ghost predicate BitAt(key: string, outcomes: seq<string>, lengths: seq<int>, i: nat, c: nat)
    requires Conforms(outcomes, lengths) && i < |lengths| && c < lengths[i]
  {
    var b := Sum(lengths[..i]) + c;
    0 <= b < |key| && Bit(key, b) == Bit(outcomes[i], c)
  }

  /** The combined key: the outcomes written with the last circuit first. */
  function CombinedKey(outcomes: seq<string>): string {
    if outcomes == [] then "" else outcomes[|outcomes| - 1] + CombinedKey(outcomes[..|outcomes| - 1])
  }

  lemma {:induction false} CombinedKeyIsLaidOut(outcomes: seq<string>, lengths: seq<int>)
    requires Conforms(outcomes, lengths)
    ensures LaidOut(CombinedKey(outcomes), outcomes, lengths)
  {
    if outcomes != [] {
      var n := |outcomes| - 1;
      var front, key := CombinedKey(outcomes[..n]), CombinedKey(outcomes);
      CombinedKeyIsLaidOut(outcomes[..n], lengths[..n]);
      assert lengths[..n + 1] == lengths;
      forall i, c | 0 <= i <= n && 0 <= c < lengths[i] ensures BitAt(key, outcomes, lengths, i, c) {
        if i < n {
          assert lengths[..n][..i] == lengths[..i];
          assert BitAt(front, outcomes[..n], lengths[..n], i, c);
        }
      }
    }
  }

  /** Prefix sums of the reversed list count from the other end. */
  lemma {:induction false} ReversedPrefix(lengths: seq<int>, i: nat)
    requires i <= |lengths|
    ensures Sum(Reversed(lengths)[..i]) == Sum(lengths) - Sum(lengths[..|lengths| - i])
  {
    var r := Reversed(lengths);
    if i == 0 {
      assert lengths[..|lengths|] == lengths;
    } else {
      ReversedPrefix(lengths, i - 1);
      assert r[..i][..i - 1] == r[..i - 1];
      assert lengths[..|lengths| - i + 1][..|lengths| - i] == lengths[..|lengths| - i];
    }
  }

  /** Where the reversed list cuts circuit `j`'s part: it ends where the circuits before `j` begin. */
  lemma PieceLocation(key: string, lengths: seq<int>, j: nat)
    requires NonNegative(lengths) && |key| == Sum(lengths) < INT32_LIMIT && j < |lengths|
    ensures Fits(key, Reversed(lengths))
    ensures var low := |key| - Sum(lengths[..j]) - lengths[j];
            && 0 <= low && low + lengths[j] <= |key|
            && Piece(key, Reversed(lengths), |lengths| - 1 - j) == key[low..low + lengths[j]]
  {
    ReversedFits(key, lengths);
    PrefixBefore(lengths, j);
    ReversedPrefix(lengths, |lengths| - 1 - j);
    ReversedPrefix(lengths, |lengths| - j);
    hide Sum, Reversed, Fits;
    assert |lengths| - (|lengths| - 1 - j) == j + 1 && |lengths| - 1 - j + 1 == |lengths| - j;
  }

  lemma ReversedFits(key: string, lengths: seq<int>)
    requires NonNegative(lengths) && |key| == Sum(lengths) < INT32_LIMIT
    ensures Fits(key, Reversed(lengths))
  {
    var r, n := Reversed(lengths), |lengths|;
    ReversedPrefix(lengths, n);
    assert r[..n] == r && lengths[..0] == [];
  }

  lemma PrefixBefore(lengths: seq<int>, j: nat)
    requires NonNegative(lengths) && j < |lengths|
    ensures Sum(lengths[..j + 1]) == Sum(lengths[..j]) + lengths[j]
    ensures 0 <= Sum(lengths[..j]) && Sum(lengths[..j + 1]) <= Sum(lengths)
  {
    assert lengths[..j + 1][..j] == lengths[..j];
    SumPrefix(lengths, j);
    SumPrefix(lengths, j + 1);
  }

  /**
   The heart of the layout: cutting the combined key by the reversed list gives circuit
   `j`, counted from the end of the list, exactly its own outcome.
   */
  lemma CutRecoversOutcome(key: string, outcomes: seq<string>, lengths: seq<int>, j: nat)
    requires Conforms(outcomes, lengths) && LaidOut(key, outcomes, lengths) && j < |lengths|
    requires Sum(lengths) < INT32_LIMIT
    ensures Fits(key, Reversed(lengths))
    ensures Piece(key, Reversed(lengths), |lengths| - 1 - j) == outcomes[j]
  {
    hide Fits, Piece, Reversed, Sum, Length32;
    PieceLocation(key, lengths, j);
    var low := |key| - Sum(lengths[..j]) - lengths[j];
    var piece := key[low..low + lengths[j]];
    forall c | 0 <= c < |piece| ensures Bit(piece, c) == Bit(outcomes[j], c) {
      assert BitAt(key, outcomes, lengths, j, c);
      assert piece[lengths[j] - 1 - c] == key[low + (lengths[j] - 1 - c)];
    }
    SameBits(piece, outcomes[j]);
  }
}
