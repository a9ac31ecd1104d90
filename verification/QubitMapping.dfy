/**
 Virtual-to-physical qubit mappings: which classical bit of a physical-order key a virtual
 qubit ends up in, and the reordering of keys this induces.
 */
module QubitMapping {
  import opened Collections
  import opened Bits

  type Mapping = map<nat, nat>

  /** Every virtual qubit below `n` has a physical qubit. */
  predicate Covers(m: Mapping, n: nat) {
    forall v :: 0 <= v < n ==> v in m
  }

  /** No two virtual qubits below `n` share a physical qubit. */
  predicate InjectiveBelow(m: Mapping, n: nat)
    requires Covers(m, n)
  {
    forall u, v :: 0 <= u < n && 0 <= v < n && m[u] == m[v] ==> u == v
  }

  /** The physical qubits behind the first `n` virtual ones. */
  function Physicals(m: Mapping, n: nat): set<nat> {
    set v | v in m && v < n :: m[v]
  }

  /** How many of the qubits in `ps` lie below `p`. */
  function Rank(ps: set<nat>, p: nat): nat {
    |set q | q in ps && q < p|
  }

  /** The bit of an `n`-bit physical-order key that belongs to virtual qubit `v`. */
  function Wire(m: Mapping, n: nat, v: nat): (r: nat)
    requires Covers(m, n) && v < n
    ensures r < n
  {
    PhysicalsSize(m, n);
    RankBelowSize(Physicals(m, n), m[v]);
    Rank(Physicals(m, n), m[v])
  }

  /** The virtual-order key read from a physical-order key. */
  function Reorder(key: string, m: Mapping): (r: string)
    requires Covers(m, |key|)
    ensures |r| == |key|
  {
    seq(|key|, j requires 0 <= j < |key| => Bit(key, Wire(m, |key|, |key| - 1 - j)))
  }

  /** Bit `v` of the reordered key is the physical-order bit that virtual qubit `v` is wired to. */
  lemma ReorderBit(key: string, m: Mapping, v: nat)
    requires Covers(m, |key|) && v < |key|
    ensures Bit(Reorder(key, m), v) == Bit(key, Wire(m, |key|, v))
  {
    assert |key| - 1 - (|key| - 1 - v) == v;
  }

  /** `Reorder` as a relabelling of `n`-bit keys. */
  function ReorderOf(m: Mapping, n: nat): string -> string
    requires Covers(m, n)
  {
    key => if |key| == n then Reorder(key, m) else key
  }

  // ----- sizes

  lemma PhysicalsStep(m: Mapping, n: nat)
    requires Covers(m, n + 1)
    ensures Physicals(m, n + 1) == Physicals(m, n) + {m[n]}
  {
  }

  lemma InjectiveStep(m: Mapping, n: nat)
    requires Covers(m, n + 1)
    ensures InjectiveBelow(m, n + 1) <==> InjectiveBelow(m, n) && m[n] !in Physicals(m, n)
  {
    if m[n] in Physicals(m, n) {
      var v :| v in m && v < n && m[v] == m[n];
      assert !InjectiveBelow(m, n + 1);
    } else {
      assert forall v :: 0 <= v < n ==> m[v] in Physicals(m, n);
    }
  }

  /** The mapping is injective on the first `n` qubits iff they use `n` physical ones. */
  lemma {:induction false} PhysicalsSize(m: Mapping, n: nat)
    requires Covers(m, n)
    ensures |Physicals(m, n)| <= n
    ensures InjectiveBelow(m, n) <==> |Physicals(m, n)| == n
  {
    if n == 0 {
      assert Physicals(m, n) == {};
    } else {
      var ps, p := Physicals(m, n - 1), m[n - 1];
      PhysicalsSize(m, n - 1);
      PhysicalsStep(m, n - 1);
      InjectiveStep(m, n - 1);
      hide InjectiveBelow, Physicals;
      assert p in ps ==> ps + {p} == ps;
    }
  }

  lemma RankBelowSize(ps: set<nat>, p: nat)
    requires p in ps
    ensures Rank(ps, p) < |ps|
  {
    var lower := set q | q in ps && q < p;
    SubsetSize(lower, ps - {p});
  }

  /** Ranks grow strictly along the listed qubits. */
  lemma RankIncreases(ps: set<nat>, p: nat, q: nat)
    requires p in ps && p < q
    ensures Rank(ps, p) < Rank(ps, q)
  {
    SubsetSize((set x | x in ps && x < p) + {p}, set x | x in ps && x < q);
  }

  lemma RankIsSize(ps: set<nat>, p: nat, lower: set<nat>)
    requires forall q :: q in lower <==> q in ps && q < p
    ensures Rank(ps, p) == |lower|
  {
    assert (set q | q in ps && q < p) == lower;
  }

  lemma RankZero(ps: set<nat>)
    ensures Rank(ps, 0) == 0
  {
    assert (set q | q in ps && q < 0) == {};
  }

  lemma RankInBelow(n: nat, p: nat)
    requires p <= n
    ensures Rank(Below(n), p) == p
  {
    RankIsSize(Below(n), p, Below(p));
  }

  lemma RankStep(ps: set<nat>, p: nat)
    ensures Rank(ps, p + 1) == Rank(ps, p) + (if p in ps then 1 else 0)
  {
    var lower := set q | q in ps && q < p;
    var upper := set q | q in ps && q < p + 1;
    assert upper == if p in ps then lower + {p} else lower;
  }

  /** Above every listed qubit the rank is the number of qubits listed. */
  lemma RankTop(ps: set<nat>, hi: nat)
    requires forall p :: p in ps ==> p < hi
    ensures Rank(ps, hi) == |ps|
  {
    assert (set q | q in ps && q < hi) == ps;
  }

  // ----- the wiring is a permutation

  lemma WireInjective(m: Mapping, n: nat, u: nat, v: nat)
    requires Covers(m, n) && InjectiveBelow(m, n)
    requires u < n && v < n && Wire(m, n, u) == Wire(m, n, v)
    ensures u == v
  {
    if m[u] < m[v] {
      RankIncreases(Physicals(m, n), m[u], m[v]);
    } else if m[v] < m[u] {
      RankIncreases(Physicals(m, n), m[v], m[u]);
    }
  }

  /** Every rank up to the rank of `hi` is taken by a listed qubit. */
  lemma {:induction false} RankOnto(ps: set<nat>, hi: nat, r: nat) returns (p: nat)
    requires r < Rank(ps, hi)
    ensures p in ps && Rank(ps, p) == r
  {
    if hi == 0 {
      RankZero(ps);
      assert false;
    } else {
      RankStep(ps, hi - 1);
      if r < Rank(ps, hi - 1) {
        p := RankOnto(ps, hi - 1, r);
      } else {
        p := hi - 1;
      }
    }
  }

  /** Every bit of the physical-order key belongs to some virtual qubit. */
  lemma WireOnto(m: Mapping, n: nat, r: nat) returns (v: nat)
    requires Covers(m, n) && InjectiveBelow(m, n) && r < n
    ensures v < n && Wire(m, n, v) == r
  {
    var ps := Physicals(m, n);
    PhysicalsSize(m, n);
    RankTop(ps, Width(m, n));
    var p := RankOnto(ps, Width(m, n), r);
    v :| 0 <= v < n && m[v] == p;
  }

  /** The virtual qubits placed below `v`. */
  function Lower(m: Mapping, n: nat, v: nat): set<nat>
    requires Covers(m, n) && v < n
  {
    set u | u in Below(n) && m[u] < m[v]
  }

  function PlacesOf(m: Mapping, vs: set<nat>): set<nat>
    requires vs <= m.Keys
  {
    set v | v in vs :: m[v]
  }

  lemma {:induction false} PlacesOfSize(m: Mapping, vs: set<nat>)
    requires vs <= m.Keys && forall u, v :: u in vs && v in vs && m[u] == m[v] ==> u == v
    ensures |PlacesOf(m, vs)| == |vs|
  {
    if vs == {} {
      assert PlacesOf(m, vs) == {};
    } else {
      var v :| v in vs;
      PlacesOfSize(m, vs - {v});
      assert PlacesOf(m, vs) == PlacesOf(m, vs - {v}) + {m[v]};
    }
  }

  /** On an injective mapping a qubit's bit is the number of qubits placed below it. */
  lemma WireCounts(m: Mapping, n: nat, v: nat)
    requires Covers(m, n) && InjectiveBelow(m, n) && v < n
    ensures Wire(m, n, v) == |Lower(m, n, v)|
  {
    PlacesOfSize(m, Lower(m, n, v));
    forall q ensures q in PlacesOf(m, Lower(m, n, v)) <==> q in Physicals(m, n) && q < m[v] {
      if q in Physicals(m, n) && q < m[v] {
        var u :| u in m && u < n && m[u] == q;
        assert u in Lower(m, n, v);
      }
    }
    RankIsSize(Physicals(m, n), m[v], PlacesOf(m, Lower(m, n, v)));
  }

  /** Two mappings place the first `n` qubits in the same order. */
  predicate SameOrder(a: Mapping, b: Mapping, n: nat)
    requires Covers(a, n) && Covers(b, n)
  {
    forall u, v :: 0 <= u < n && 0 <= v < n ==> (a[u] < a[v] <==> b[u] < b[v])
  }

  ghost predicate SameWires(a: Mapping, b: Mapping, n: nat)
    requires Covers(a, n) && Covers(b, n)
  {
    forall v :: 0 <= v < n ==> Wire(a, n, v) == Wire(b, n, v)
  }

  lemma WireOrder(m: Mapping, n: nat, u: nat, v: nat)
    requires Covers(m, n) && u < n && v < n
    ensures m[u] < m[v] <==> Wire(m, n, u) < Wire(m, n, v)
  {
    if m[u] < m[v] {
      RankIncreases(Physicals(m, n), m[u], m[v]);
    } else if m[v] < m[u] {
      RankIncreases(Physicals(m, n), m[v], m[u]);
    }
  }

  /** Injective mappings read the same bits exactly if they place the qubits in the same order. */
  lemma SameWiresIffSameOrder(a: Mapping, b: Mapping, n: nat)
    requires Covers(a, n) && Covers(b, n) && InjectiveBelow(a, n) && InjectiveBelow(b, n)
    ensures SameWires(a, b, n) <==> SameOrder(a, b, n)
  {
    hide Wire, InjectiveBelow;
    if SameWires(a, b, n) {
      forall u, v | 0 <= u < n && 0 <= v < n ensures a[u] < a[v] <==> b[u] < b[v] {
        WireOrder(a, n, u, v);
        WireOrder(b, n, u, v);
      }
    }
    if SameOrder(a, b, n) {
      forall v | 0 <= v < n ensures Wire(a, n, v) == Wire(b, n, v) {
        WireCounts(a, n, v);
        WireCounts(b, n, v);
        assert Lower(a, n, v) == Lower(b, n, v);
      }
    }
  }

  /** Reordering merges no keys when the mapping is injective on the measured qubits. */
  lemma ReorderInjective(m: Mapping, j: string, k: string)
    requires |j| == |k| && Covers(m, |k|) && InjectiveBelow(m, |k|)
    requires Reorder(j, m) == Reorder(k, m)
    ensures j == k
  {
    forall r | 0 <= r < |k| ensures Bit(j, r) == Bit(k, r) {
      var v := WireOnto(m, |k|, r);
      ReorderBit(j, m, v);
      ReorderBit(k, m, v);
    }
    SameBits(j, k);
  }

  /** With a shared physical qubit the leading bit of the key is never read. */
  lemma WireSkipsLeadingBit(m: Mapping, n: nat, v: nat)
    requires Covers(m, n) && !InjectiveBelow(m, n) && v < n
    ensures Wire(m, n, v) < n - 1
  {
    PhysicalsSize(m, n);
    RankBelowSize(Physicals(m, n), m[v]);
  }

  /** Two keys that differ in the leading bit only are merged by a non-injective mapping. */
  lemma ReorderMerges(m: Mapping, rest: string, a: char, b: char)
    requires Covers(m, |rest| + 1) && !InjectiveBelow(m, |rest| + 1)
    ensures Reorder([a] + rest, m) == Reorder([b] + rest, m)
  {
    var j, k := [a] + rest, [b] + rest;
    forall v | 0 <= v < |j| ensures Bit(Reorder(j, m), v) == Bit(Reorder(k, m), v) {
      WireSkipsLeadingBit(m, |j|, v);
      ReorderBit(j, m, v);
      ReorderBit(k, m, v);
    }
    SameBits(Reorder(j, m), Reorder(k, m));
  }

  // ----- what the device reports

  /** A measured virtual qubit placed on physical qubit `p`. */
  ghost function QubitAt(m: Mapping, n: nat, p: nat): (v: nat)
    requires Covers(m, n) && p in Physicals(m, n)
    ensures v < n && m[v] == p
  {
    var v :| 0 <= v < n && m[v] == p;
    v
  }

  /**
   The device's readout of a virtual-order key: walk the physical positions from `hi - 1`
   down to 0 and report, for each position that carries a measured virtual qubit, that
   qubit's bit. This is the "sorted by physical qubit" order the divider expects.
   */
  ghost function ReadOut(key: string, m: Mapping, hi: nat): string
    requires Covers(m, |key|)
  {
    if hi == 0 then ""
    else if hi - 1 in Physicals(m, |key|) then
      [Bit(key, QubitAt(m, |key|, hi - 1))] + ReadOut(key, m, hi - 1)
    else ReadOut(key, m, hi - 1)
  }

  /** A bound above every physical qubit in use. */
  function Width(m: Mapping, n: nat): (hi: nat)
    requires Covers(m, n)
    ensures forall v :: 0 <= v < n ==> m[v] < hi
  {
    if n == 0 then 0
    else
      var hi := Width(m, n - 1);
      if m[n - 1] < hi then hi else m[n - 1] + 1
  }

  ghost function PhysicalKey(key: string, m: Mapping): string
    requires Covers(m, |key|)
  {
    ReadOut(key, m, Width(m, |key|))
  }

  ghost function PhysicalKeyOf(m: Mapping, n: nat): string -> string
    requires Covers(m, n)
  {
    key => if |key| == n then PhysicalKey(key, m) else key
  }

  lemma {:induction false} ReadOutLength(key: string, m: Mapping, hi: nat)
    requires Covers(m, |key|)
    ensures |ReadOut(key, m, hi)| == Rank(Physicals(m, |key|), hi)
  {
    if hi == 0 {
      RankZero(Physicals(m, |key|));
    } else {
      RankStep(Physicals(m, |key|), hi - 1);
      ReadOutLength(key, m, hi - 1);
    }
  }

  /** In the readout, the bit of virtual qubit `v` sits at the rank of its physical qubit. */
  lemma {:induction false} ReadOutBit(key: string, m: Mapping, hi: nat, v: nat)
    requires Covers(m, |key|) && InjectiveBelow(m, |key|)
    requires v < |key| && m[v] < hi
    ensures var r := Rank(Physicals(m, |key|), m[v]);
            r < |ReadOut(key, m, hi)| && Bit(ReadOut(key, m, hi), r) == Bit(key, v)
  {
    var whole, lower := ReadOut(key, m, hi), ReadOut(key, m, hi - 1);
    if m[v] == hi - 1 {
      ReadOutLength(key, m, hi - 1);
      assert whole == [Bit(key, v)] + lower;
    } else {
      ReadOutBit(key, m, hi - 1, v);
      assert whole == lower || whole[1..] == lower;
    }
  }

  /** Reordering the device's readout gives back the virtual-order key. */
  lemma ReorderUndoesReadout(key: string, m: Mapping)
    requires Covers(m, |key|) && InjectiveBelow(m, |key|)
    ensures |PhysicalKey(key, m)| == |key|
    ensures Reorder(PhysicalKey(key, m), m) == key
  {
    var n, hi := |key|, Width(m, |key|);
    ReadOutLength(key, m, hi);
    RankTop(Physicals(m, n), hi);
    PhysicalsSize(m, n);
    forall v | 0 <= v < n ensures Bit(Reorder(PhysicalKey(key, m), m), v) == Bit(key, v) {
      ReadOutBit(key, m, hi, v);
      ReorderBit(PhysicalKey(key, m), m, v);
    }
    SameBits(Reorder(PhysicalKey(key, m), m), key);
  }

  /** And the readout of a reordered key gives back the physical-order key. */
  lemma ReadoutUndoesReorder(key: string, m: Mapping)
    requires Covers(m, |key|) && InjectiveBelow(m, |key|)
    ensures PhysicalKey(Reorder(key, m), m) == key
  {
    ReorderUndoesReadout(Reorder(key, m), m);
    ReorderInjective(m, PhysicalKey(Reorder(key, m), m), key);
  }
}
