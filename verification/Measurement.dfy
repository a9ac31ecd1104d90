/**
 Which qubit of the combined circuit each of its classical bits is measured from, and when
 that is the qubit of the same number, as the result divider takes for granted.
 */
module Measurement {
  import opened Collections
  import opened Bits
  import opened CircuitCombiner

  /**
   `wiring[i][c]` is the qubit that circuit `i` measures into its classical bit `c`: every
   classical bit is measured, each from a qubit of its own.
   */
  predicate Wired(circuits: seq<Circuit>, wiring: seq<seq<nat>>) {
    |wiring| == |circuits| && forall i :: 0 <= i < |circuits| ==> WiredCircuit(circuits[i], wiring[i])
  }

  predicate WiredCircuit(circuit: Circuit, wires: seq<nat>) {
    && |wires| == circuit.clbits && Distinct(wires)
    && forall c :: 0 <= c < |wires| ==> wires[c] < circuit.qubits
  }

  /** A circuit has at least as many qubits as classical bits. */
  lemma EnoughQubits(circuit: Circuit, wires: seq<nat>)
    requires WiredCircuit(circuit, wires)
    ensures circuit.clbits <= circuit.qubits
  {
    DistinctSize(wires);
    SubsetSize(Elements(wires), Below(circuit.qubits));
  }

  function TotalQubits(circuits: seq<Circuit>): (r: nat)
    ensures r == Sum(Qubits(circuits))
  {
    if circuits == [] then 0
    else
      var n := |circuits| - 1;
      SumsStep(circuits, n);
      assert circuits[..n + 1] == circuits;
      TotalQubits(circuits[..n]) + circuits[n].qubits
  }

  function Shifted(wires: seq<nat>, start: nat): seq<nat> {
    seq(|wires|, c requires 0 <= c < |wires| => start + wires[c])
  }

  /** The combined qubit behind each combined classical bit. */
  function Sources(circuits: seq<Circuit>, wiring: seq<seq<nat>>): seq<nat>
    requires |wiring| == |circuits|
  {
    if circuits == [] then []
    else
      var n := |circuits| - 1;
      Sources(circuits[..n], wiring[..n]) + Shifted(wiring[n], TotalQubits(circuits[..n]))
  }

  lemma WiredFront(circuits: seq<Circuit>, wiring: seq<seq<nat>>)
    requires circuits != [] && Wired(circuits, wiring)
    ensures Wired(circuits[..|circuits| - 1], wiring[..|circuits| - 1])
    ensures WiredCircuit(circuits[|circuits| - 1], wiring[|circuits| - 1])
  {
    hide WiredCircuit;
  }

  /** There is one source per combined classical bit, all different and all inside the combined circuit. */
  lemma {:induction false} SourcesAreQubits(circuits: seq<Circuit>, wiring: seq<seq<nat>>)
    requires Wired(circuits, wiring)
    ensures var src := Sources(circuits, wiring);
            && |src| == Sum(Clbits(circuits))
            && Distinct(src)
            && forall b :: 0 <= b < |src| ==> src[b] < TotalQubits(circuits)
  {
    if circuits != [] {
      var n := |circuits| - 1;
      WiredFront(circuits, wiring);
      SourcesAreQubits(circuits[..n], wiring[..n]);
      SumsStep(circuits, n);
      assert circuits[..n + 1] == circuits;
      assert TotalQubits(circuits) == TotalQubits(circuits[..n]) + circuits[n].qubits;
      hide Sources, Sum, TotalQubits;
      SourcesLast(circuits, wiring);
      ConcatDistinct(Sources(circuits[..n], wiring[..n]), wiring[n], TotalQubits(circuits[..n]));
    }
  }

  lemma SourcesLast(circuits: seq<Circuit>, wiring: seq<seq<nat>>)
    requires circuits != [] && |wiring| == |circuits|
    ensures var n := |circuits| - 1;
            Sources(circuits, wiring) ==
              Sources(circuits[..n], wiring[..n]) + Shifted(wiring[n], TotalQubits(circuits[..n]))
  {
  }

  lemma ConcatDistinct(low: seq<nat>, wires: seq<nat>, start: nat)
    requires Distinct(low) && Distinct(wires) && forall b :: 0 <= b < |low| ==> low[b] < start
    ensures Distinct(low + Shifted(wires, start))
  {
    var all := low + Shifted(wires, start);
    forall i, j | 0 <= i < j < |all| ensures all[i] != all[j] {
      if |low| <= i {
        assert wires[i - |low|] != wires[j - |low|];
      }
    }
  }

  /** Bit `c` of circuit `i` is measured from the qubit the circuits before it push it to. */
  ghost predicate Feeds(circuits: seq<Circuit>, wiring: seq<seq<nat>>, src: seq<nat>, i: nat, c: nat)
    requires |wiring| == |circuits| && i < |circuits|
  {
    var b := Sum(Clbits(circuits[..i])) + c;
    0 <= b < |src| && c < |wiring[i]| && src[b] == Sum(Qubits(circuits[..i])) + wiring[i][c]
  }

  lemma {:induction false} SourceAt(circuits: seq<Circuit>, wiring: seq<seq<nat>>, i: nat, c: nat)
    requires Wired(circuits, wiring) && i < |circuits| && c < circuits[i].clbits
    ensures Feeds(circuits, wiring, Sources(circuits, wiring), i, c)
  {
    hide Sources, WiredCircuit, Feeds;
    var n := |circuits| - 1;
    WiredFront(circuits, wiring);
    SourcesLast(circuits, wiring);
    if i < n {
      SourceAt(circuits[..n], wiring[..n], i, c);
      FeedsLonger(circuits, wiring, Sources(circuits[..n], wiring[..n]),
                  Shifted(wiring[n], TotalQubits(circuits[..n])), i, c);
    } else {
      SourceAtLast(circuits, wiring, c);
    }
  }

  lemma FeedsLonger(circuits: seq<Circuit>, wiring: seq<seq<nat>>, low: seq<nat>, high: seq<nat>, i: nat, c: nat)
    requires |wiring| == |circuits| && i < |circuits| - 1
    requires Feeds(circuits[..|circuits| - 1], wiring[..|circuits| - 1], low, i, c)
    ensures Feeds(circuits, wiring, low + high, i, c)
  {
    hide Sum, Clbits, Qubits;
    assert circuits[..|circuits| - 1][..i] == circuits[..i];
  }

  lemma SourceAtLast(circuits: seq<Circuit>, wiring: seq<seq<nat>>, c: nat)
    requires circuits != [] && Wired(circuits, wiring) && c < circuits[|circuits| - 1].clbits
    ensures Feeds(circuits, wiring, Sources(circuits, wiring), |circuits| - 1, c)
  {
    var n := |circuits| - 1;
    WiredFront(circuits, wiring);
    SourcesAreQubits(circuits[..n], wiring[..n]);
    hide Sources, Sum, TotalQubits, Wired, Clbits, Qubits, Shifted;
    SourcesLast(circuits, wiring);
    ShiftedAt(wiring[n], TotalQubits(circuits[..n]), c);
  }

  lemma ShiftedAt(wires: seq<nat>, start: nat, c: nat)
    requires c < |wires|
    ensures |Shifted(wires, start)| == |wires| && Shifted(wires, start)[c] == start + wires[c]
  {
  }

  /** These are the bits and qubits the combiner places each circuit on. */
  lemma SourcesFollowPlacement(circuits: seq<Circuit>, wiring: seq<seq<nat>>, i: nat, p: Placement, c: nat)
    requires Wired(circuits, wiring) && i < |circuits| && c < circuits[i].clbits && PlacedAt(circuits, i, p)
    ensures WiredCircuit(circuits[i], wiring[i])
    ensures p.clbits[c] < |Sources(circuits, wiring)|
    ensures Sources(circuits, wiring)[p.clbits[c]] == p.qubits[wiring[i][c]]
  {
    SourceAt(circuits, wiring, i, c);
  }

  /** Every combined bit belongs to some circuit. */
  lemma {:induction false} BitOwner(circuits: seq<Circuit>, b: nat) returns (i: nat, c: nat)
    requires b < Sum(Clbits(circuits))
    ensures i < |circuits| && c < circuits[i].clbits && b == Sum(Clbits(circuits[..i])) + c
  {
    var n := |circuits| - 1;
    SumsStep(circuits, n);
    assert circuits[..n + 1] == circuits;
    var below := Sum(Clbits(circuits[..n]));
    if b < below {
      i, c := BitOwner(circuits[..n], b);
      assert circuits[..n][..i] == circuits[..i];
    } else {
      i, c := n, b - below;
    }
  }

  // ----- in order

  /** Combined bit `b` is measured from combined qubit `b`. */
  predicate Straight(src: seq<nat>) {
    forall b :: 0 <= b < |src| ==> src[b] == b
  }

  /**
   Every circuit measures its qubit `c` into its bit `c`, and a circuit that is followed by
   one with classical bits measures all of its qubits.
   */
  predicate InOrder(circuits: seq<Circuit>, wiring: seq<seq<nat>>)
    requires |wiring| == |circuits|
  {
    forall i :: 0 <= i < |circuits| && circuits[i].clbits > 0 ==> Straight(wiring[i]) && Full(circuits[..i])
  }

  predicate Full(circuits: seq<Circuit>) {
    forall h :: 0 <= h < |circuits| ==> circuits[h].qubits == circuits[h].clbits
  }

  /** The bit counts catch up with the qubit counts only if every circuit measures all its qubits. */
  lemma {:induction false} FullIff(circuits: seq<Circuit>, wiring: seq<seq<nat>>)
    requires Wired(circuits, wiring)
    ensures Sum(Clbits(circuits)) <= Sum(Qubits(circuits))
    ensures Full(circuits) <==> Sum(Clbits(circuits)) == Sum(Qubits(circuits))
  {
    if circuits != [] {
      var n := |circuits| - 1;
      WiredFront(circuits, wiring);
      FullIff(circuits[..n], wiring[..n]);
      EnoughQubits(circuits[n], wiring[n]);
      SumsStep(circuits, n);
      assert circuits[..n + 1] == circuits;
      hide Sum;
      assert Full(circuits) <==> Full(circuits[..n]) && circuits[n].qubits == circuits[n].clbits by {
        if Full(circuits[..n]) && circuits[n].qubits == circuits[n].clbits {
          forall h | 0 <= h < |circuits| ensures circuits[h].qubits == circuits[h].clbits {
            assert h < n ==> circuits[..n][h] == circuits[h];
          }
        }
      }
    }
  }

  lemma WiredPrefix(circuits: seq<Circuit>, wiring: seq<seq<nat>>, i: nat)
    requires Wired(circuits, wiring) && i <= |circuits|
    ensures Wired(circuits[..i], wiring[..i])
  {
    hide WiredCircuit;
  }

  lemma InOrderAt(circuits: seq<Circuit>, wiring: seq<seq<nat>>, i: nat)
    requires Wired(circuits, wiring) && Straight(Sources(circuits, wiring)) && i < |circuits| && circuits[i].clbits > 0
    ensures Straight(wiring[i]) && Full(circuits[..i])
  {
    WiredPrefix(circuits, wiring, i);
    FullIff(circuits[..i], wiring[..i]);
    assert WiredCircuit(circuits[i], wiring[i]);
    hide Sources, Sum, Full, Wired;
    SourceAt(circuits, wiring, i, 0);
    forall c | 0 <= c < |wiring[i]| ensures wiring[i][c] == c {
      SourceAt(circuits, wiring, i, c);
    }
  }

  lemma StraightAt(circuits: seq<Circuit>, wiring: seq<seq<nat>>, b: nat)
    requires Wired(circuits, wiring) && InOrder(circuits, wiring) && b < |Sources(circuits, wiring)|
    ensures Sources(circuits, wiring)[b] == b
  {
    SourcesAreQubits(circuits, wiring);
    hide Sources, Sum, Full, Wired;
    var i, c := BitOwner(circuits, b);
    SourceAt(circuits, wiring, i, c);
    WiredPrefix(circuits, wiring, i);
    FullIff(circuits[..i], wiring[..i]);
    assert Straight(wiring[i]) && Full(circuits[..i]);
  }

  /** In terms of the circuits: combined bit b comes from combined qubit b, for all b, exactly if they are in order. */
  lemma StraightIffInOrder(circuits: seq<Circuit>, wiring: seq<seq<nat>>)
    requires Wired(circuits, wiring)
    ensures Straight(Sources(circuits, wiring)) <==> InOrder(circuits, wiring)
  {
    var src := Sources(circuits, wiring);
    if InOrder(circuits, wiring) {
      SourcesAreQubits(circuits, wiring);
      hide InOrder, Sources;
      forall b | 0 <= b < |src| ensures src[b] == b {
        StraightAt(circuits, wiring, b);
      }
    }
    if Straight(src) {
      hide Straight, Full, Sources;
      forall i | 0 <= i < |circuits| && circuits[i].clbits > 0 ensures Straight(wiring[i]) && Full(circuits[..i]) {
        InOrderAt(circuits, wiring, i);
      }
    }
  }
}
