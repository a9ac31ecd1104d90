/**
 The first half of the result divider: restore the virtual qubit order of measured keys.
 Go's unordered map iteration is an arbitrary choice of the next key, so every contract
 below holds for every iteration order.
 */
module VirtualOrder {
  import opened Collections
  import opened Bits
  import opened Histograms
  import opened QubitMapping

  datatype SwapError = LengthMismatch | VirtualOutOfRange | PhysicalOutOfRange

  datatype Swapped<T> = Ok(value: T) | Err(error: SwapError)

  // ----- padding

  /**
   `filled` has one cell per physical qubit up to the largest listed one: a listed qubit
   holds the input bit of its rank among the distinct listed qubits, the others hold 0.
   (The rank is always inside the input; see `FillMissingDigits`.)
   */
  ghost predicate IsFilled(input: string, ps: set<nat>, filled: string) {
    && |filled| > 0
    && (forall p :: p in ps ==> p < |filled|)
    && (|filled| == 1 || |filled| - 1 in ps)
    && (forall j :: 0 <= j < |filled| ==> filled[j] == PaddedBit(input, ps, |filled| - 1 - j))
  }

  /** `bit` is the input bit whose index is the number of listed qubits below `p`. */
  predicate BitOfRank(input: string, ps: set<nat>, p: nat, bit: char) {
    Rank(ps, p) < |input| && bit == Bit(input, Rank(ps, p))
  }

  function PaddedBit(input: string, ps: set<nat>, p: nat): char {
    if p in ps && Rank(ps, p) < |input| then Bit(input, Rank(ps, p)) else '0'
  }

  method MaxPhysical(physicalQubits: seq<nat>) returns (r: nat)
    ensures forall p :: p in physicalQubits ==> p <= r
    ensures r == 0 || r in physicalQubits
  {
    r := 0;
    for i := 0 to |physicalQubits|
      invariant forall j :: 0 <= j < i ==> physicalQubits[j] <= r
      invariant r == 0 || r in physicalQubits
    {
      if physicalQubits[i] > r {
        r := physicalQubits[i];
      }
    }
  }

  method FillMissingDigits(input: string, physicalQubits: seq<nat>) returns (filled: Option<string>)
    ensures filled.Some? <==> |physicalQubits| == |input|
    ensures filled.Some? ==> IsFilled(input, Elements(physicalQubits), filled.value)
    ensures filled.Some? ==> forall p :: 0 <= p < |filled.value| ==>
                                           if p !in Elements(physicalQubits) then Bit(filled.value, p) == '0'
                                           else BitOfRank(input, Elements(physicalQubits), p, Bit(filled.value, p))
  {
    hide Rank, BitOfRank, Distinct;
    if |physicalQubits| != |input| {
      return None;
    }
    var maxPhysical := MaxPhysical(physicalQubits);
    ghost var ps := Elements(physicalQubits);
    DistinctSize(physicalQubits);
    RankZero(ps);
    var cells := new char[maxPhysical + 1];
    var cursor := |input| - 1;
    for i := 0 to maxPhysical + 1
      invariant cursor == |input| - 1 - Rank(ps, i)
      invariant forall j :: maxPhysical - i < j <= maxPhysical ==> cells[j] == PaddedBit(input, ps, maxPhysical - j)
    {
      RankStep(ps, i);
      if i in physicalQubits {
        RankBelowSize(ps, i);
        cells[maxPhysical - i] := input[cursor];
        cursor := cursor - 1;
      } else {
        cells[maxPhysical - i] := '0';
      }
    }
    filled := Some(cells[..]);
    FilledBits(input, ps, cells[..]);
  }

  /** The padded bits spelt out: listed positions in the order of their ranks, zeros elsewhere. */
  lemma FilledBits(input: string, ps: set<nat>, filled: string)
    requires IsFilled(input, ps, filled) && |ps| <= |input|
    ensures forall p :: 0 <= p < |filled| ==>
                          if p !in ps then Bit(filled, p) == '0' else BitOfRank(input, ps, p, Bit(filled, p))
  {
    forall p | 0 <= p < |filled|
      ensures if p !in ps then Bit(filled, p) == '0' else BitOfRank(input, ps, p, Bit(filled, p)) {
      assert Bit(filled, p) == PaddedBit(input, ps, p);
      if p in ps {
        RankBelowSize(ps, p);
      }
    }
  }

  // ----- restoring the virtual order

  /** The mapping entries in use when keys have `n` bits. */
  function Extracted(m: Mapping, n: nat): Mapping {
    if n < |m| then map v | v in m && v < n :: m[v] else m
  }

  /** The bit count is taken from whichever key is visited first. */
  method ExtractVirtualPhysicalMapping(counts: Counts, m: Mapping) returns (r: Mapping)
    ensures counts == map[] ==> r == Extracted(m, 0)
    ensures counts != map[] ==> exists k :: k in counts && r == Extracted(m, |k|)
  {
    var bits := 0;
    if counts != map[] {
      var k :| k in counts;
      bits := |k|;
    }
    if bits < |m| {
      r := KeepBelow(m, bits);
    } else {
      r := m;
    }
  }

  method KeepBelow(m: Mapping, bits: nat) returns (r: Mapping)
    ensures r == map v | v in m && v < bits :: m[v]
  {
    r := map[];
    var remaining := m.Keys;
    while remaining != {}
      invariant remaining <= m.Keys
      invariant forall v :: v in r <==> v in m && v !in remaining && v < bits
      invariant forall v :: v in r ==> r[v] == m[v]
      decreases remaining
    {
      var v :| v in remaining;
      if v < bits {
        r := r[v := m[v]];
      }
      remaining := remaining - {v};
    }
  }

  /** Entries that cover exactly the `n` bits are what a covering mapping is cut down to. */
  lemma ExtractedCovers(m: Mapping, n: nat)
    ensures Covers(m, n) <==> Extracted(m, n).Keys == Below(n)
  {
    if Covers(m, n) && n >= |m| {
      SubsetSize(Below(n), m.Keys);
    }
  }

  function Join(cells: seq<string>): string {
    if cells == [] then "" else cells[0] + Join(cells[1..])
  }

  /** Joining one-character cells gives the string they spell. */
  lemma {:induction false} JoinSingles(cells: seq<string>, s: string)
    requires |cells| == |s| && forall i :: 0 <= i < |s| ==> cells[i] == [s[i]]
    ensures Join(cells) == s
  {
    if s != [] {
      JoinSingles(cells[1..], s[1..]);
    }
  }

  /**
   One key. It is accepted exactly when the mapping in use lists the virtual qubits
   0..n-1 of the key; the physical bound is never the reason for a refusal.
   */
  method SwapKey(key: string, used: Mapping, physicalQubits: seq<nat>) returns (r: Swapped<string>)
    requires |physicalQubits| == |used| && Elements(physicalQubits) == used.Values
    ensures r.Ok? <==> used.Keys == Below(|key|)
    ensures r.Ok? ==> r.value == Reorder(key, used)
    ensures r.Err? ==> r.error == if |used| != |key| then LengthMismatch else VirtualOutOfRange
    ensures r.Err? ==> Faulty(used, key, r.error)
  {
    hide IsFilled, Placed, Reorder, Join;
    var filled := FillMissingDigits(key, physicalQubits);
    if filled.None? {
      return Err(LengthMismatch);
    }
    FilledCovers(key, used, filled.value);
    var placed := PlaceBits(filled.value, used, |key|);
    if placed.Err? {
      assert exists v :: v in used && v !in Below(|key|);
      return Err(placed.error);
    }
    JoinIsReorder(key, used, filled.value, placed.value);
    r := Ok(Join(placed.value));
  }

  /** With every virtual qubit inside the key, the joined cells are the reordered key. */
  lemma JoinIsReorder(key: string, used: Mapping, filled: string, cells: seq<string>)
    requires |used| == |key| == |cells| && used.Keys <= Below(|key|)
    requires IsFilled(key, used.Values, filled) && Placed(filled, used, cells)
    ensures used.Keys == Below(|key|) && Join(cells) == Reorder(key, used)
  {
    SubsetSize(used.Keys, Below(|key|));
    hide IsFilled, Placed, Reorder, Join;
    FilledMatches(key, used, filled);
    JoinPlaced(filled, used, cells, Reorder(key, used));
  }

  lemma FilledCovers(key: string, used: Mapping, filled: string)
    requires IsFilled(key, used.Values, filled)
    ensures forall v :: v in used ==> used[v] < |filled|
  {
    forall v | v in used ensures used[v] < |filled| {
      assert used[v] in used.Values;
    }
  }

  /** Cell `n-1-v` receives the padded bit of virtual qubit `v`'s physical qubit. */
  method PlaceBits(filled: string, used: Mapping, n: nat) returns (r: Swapped<seq<string>>)
    requires forall v :: v in used ==> used[v] < |filled|
    ensures r.Ok? <==> used.Keys <= Below(n)
    ensures r.Ok? ==> Placed(filled, used, r.value) && |r.value| == n
    ensures r.Err? ==> r.error == VirtualOutOfRange
  {
    var cells := new string[n](_ => "");
    var width := |filled|;
    var remaining := used.Keys;
    while remaining != {}
      invariant remaining <= used.Keys
      invariant forall v :: v in used && v !in remaining ==> v < n && cells[n - 1 - v] == [Bit(filled, used[v])]
      decreases remaining
    {
      var v :| v in remaining;
      if v >= n {
        return Err(VirtualOutOfRange);
      }
      if used[v] >= width {
        assert false;
        return Err(PhysicalOutOfRange);
      }
      cells[n - v - 1] := [filled[width - used[v] - 1]];
      remaining := remaining - {v};
    }
    r := Ok(cells[..]);
  }

  ghost predicate Placed(filled: string, used: Mapping, cells: seq<string>) {
    forall v :: v in used ==>
                  used[v] < |filled| && v < |cells| && cells[|cells| - 1 - v] == [Bit(filled, used[v])]
  }

  lemma PhysicalsAll(used: Mapping, n: nat)
    requires used.Keys == Below(n)
    ensures Physicals(used, n) == used.Values
  {
  }

  /** Virtual qubit `v`'s bit in `whole` is the padded bit of its physical qubit. */
  ghost predicate Matches(filled: string, used: Mapping, whole: string) {
    used.Keys == Below(|whole|)
    && forall v :: v in used ==> used[v] < |filled| && Bit(whole, v) == Bit(filled, used[v])
  }

  lemma FilledMatches(key: string, used: Mapping, filled: string)
    requires used.Keys == Below(|key|) && IsFilled(key, used.Values, filled)
    ensures Matches(filled, used, Reorder(key, used))
  {
    PhysicalsAll(used, |key|);
    forall v | v in used ensures used[v] < |filled| && Bit(Reorder(key, used), v) == Bit(filled, used[v]) {
      assert used[v] in used.Values;
      assert Bit(filled, used[v]) == PaddedBit(key, used.Values, used[v]);
      ReorderBit(key, used, v);
    }
  }

  lemma JoinPlaced(filled: string, used: Mapping, cells: seq<string>, whole: string)
    requires |cells| == |whole| && Placed(filled, used, cells) && Matches(filled, used, whole)
    ensures Join(cells) == whole
  {
    forall i | 0 <= i < |whole| ensures cells[i] == [whole[i]] {
      assert |whole| - 1 - i in used;
    }
    JoinSingles(cells, whole);
  }

  /** All keys share one length, and the mapping lists a physical qubit for each of its bits. */
  predicate Swappable(counts: Counts, m: Mapping) {
    m == map[] || (forall k :: k in counts ==> Covers(m, |k|) && forall j :: j in counts ==> |j| == |k|)
  }

  /** Every key moves to its reordering; where keys merge, one of their counts survives. */
  ghost predicate Relabels(counts: Counts, f: string -> string, result: Counts) {
    && result.Keys == Image(counts.Keys, f)
    && (forall p :: p in result ==> exists k :: k in counts && f(k) == p && result[p] == counts[k])
  }

  ghost predicate IsSwap(counts: Counts, m: Mapping, result: Counts)
    requires Swappable(counts, m)
  {
    if m == map[] then result == counts
    else if counts == map[] then result == map[]
    else forall k :: k in counts ==> Relabels(counts, ReorderOf(m, |k|), result)
  }

  lemma PhysicalsAgree(m: Mapping, n: nat)
    requires Covers(m, n) && Extracted(m, n).Keys == Below(n)
    ensures Physicals(Extracted(m, n), n) == Physicals(m, n)
  {
    var used := Extracted(m, n);
    forall v | v in m && v < n ensures m[v] in Physicals(used, n) {
      assert v in used && used[v] == m[v];
    }
  }

  /** Agreeing mappings reorder a key alike. */
  lemma ReorderAgrees(key: string, m: Mapping, used: Mapping)
    requires used == Extracted(m, |key|) && used.Keys == Below(|key|)
    ensures Covers(m, |key|) && Reorder(key, used) == Reorder(key, m)
  {
    ExtractedCovers(m, |key|);
    PhysicalsAgree(m, |key|);
    forall v | 0 <= v < |key| ensures Bit(Reorder(key, used), v) == Bit(Reorder(key, m), v) {
      ReorderBit(key, used, v);
      ReorderBit(key, m, v);
    }
    SameBits(Reorder(key, used), Reorder(key, m));
  }

  /**
   What is wrong with a key: not as long as the entries in use are many, or as long, but some
   entry lies outside it. Nothing is ever wrong with a physical qubit.
   */
  predicate Faulty(used: Mapping, key: string, error: SwapError) {
    match error
    case LengthMismatch => |used| != |key|
    case VirtualOutOfRange => |used| == |key| && exists v :: v in used && v >= |key|
    case PhysicalOutOfRange => false
  }

  /** Some key is faulty for the entries that some key, the first one visited, leaves in use. */
  ghost predicate SwapFault(counts: Counts, m: Mapping, error: SwapError) {
    exists first, key :: first in counts && key in counts && Faulty(Extracted(m, |first|), key, error)
  }

  lemma FaultyRefused(used: Mapping, key: string, error: SwapError)
    requires Faulty(used, key, error)
    ensures used.Keys != Below(|key|)
  {
    assert |used| == |used.Keys|;
  }

  /** The number of mapping entries in use for keys of `n` bits. */
  function EntriesInUse(m: Mapping, n: nat): nat {
    if n < |m| then |set v | v in m && v < n| else |m|
  }

  /** With keys of one length the error is decided by that length and the number of entries in use. */
  lemma UniformSwapError(counts: Counts, m: Mapping, n: nat, error: SwapError)
    requires Wide(counts, n) && SwapFault(counts, m, error)
    ensures error == if EntriesInUse(m, n) != n then LengthMismatch else VirtualOutOfRange
  {
    var used := Extracted(m, n);
    if n < |m| {
      assert used.Keys == set v | v in m && v < n;
    }
    assert |used| == |used.Keys|;
  }

  /**
   The whole histogram. It succeeds exactly on swappable input, refuses it for the fault of
   some key, never for a physical qubit out of range, and hands the input back on every error.
   */
  method SwapVirtualPhysical(counts: Counts, m: Mapping) returns (r: Swapped<Counts>, result: Counts)
    ensures r.Ok? <==> Swappable(counts, m)
    ensures r.Ok? ==> result == r.value && IsSwap(counts, m, result)
    ensures r.Err? ==> result == counts && r.error != PhysicalOutOfRange && SwapFault(counts, m, r.error)
  {
    if |m| == 0 {
      return Ok(counts), counts;
    }
    var used := ExtractVirtualPhysicalMapping(counts, m);
    var physicalQubits := ListPhysicals(used);
    r := SwapKeys(counts, used, physicalQubits);
    if r.Err? {
      ghost var key :| key in counts && Faulty(used, key, r.error);
      FaultyRefused(used, key, r.error);
      RefusalIsFinal(counts, m, used, key);
      return r, counts;
    }
    result := r.value;
    if counts != map[] {
      AcceptedIsSwap(counts, m, used, result);
    }
  }

  method SwapKeys(counts: Counts, used: Mapping, physicalQubits: seq<nat>) returns (r: Swapped<Counts>)
    requires |physicalQubits| == |used| && Elements(physicalQubits) == used.Values
    ensures r.Ok? <==> forall k :: k in counts ==> used.Keys == Below(|k|)
    ensures r.Ok? ==> Relabels(counts, AcceptOf(used), r.value)
    ensures r.Err? ==> exists k :: k in counts && Faulty(used, k, r.error)
  {
    hide Reorder, Relabels, Faulty, Below;
    ghost var f := AcceptOf(used);
    EmptyRelabels(f);
    ghost var visited: Counts := map[];
    var result: Counts := map[];
    var remaining := counts.Keys;
    while remaining != {}
      invariant Visited(counts, remaining, visited)
      invariant forall k :: k in visited ==> used.Keys == Below(|k|)
      invariant Relabels(visited, f, result)
      decreases remaining
    {
      var key :| key in remaining;
      var swapped := SwapKey(key, used, physicalQubits);
      if swapped.Err? {
        return Err(swapped.error);
      }
      RelabelsStep(visited, f, result, key, counts[key]);
      VisitedStep(counts, remaining, visited, key);
      result := result[swapped.value := counts[key]];
      visited := visited[key := counts[key]];
      remaining := remaining - {key};
    }
    assert visited == counts;
    r := Ok(result);
  }

  /** The physical qubits of the entries in use, in whatever order they are visited. */
  method ListPhysicals(used: Mapping) returns (list: seq<nat>)
    ensures |list| == |used| && Elements(list) == used.Values
  {
    list := [];
    var remaining := used.Keys;
    while remaining != {}
      invariant remaining <= used.Keys
      invariant |list| == |used| - |remaining|
      invariant forall p :: p in list ==> p in used.Values
      invariant forall v :: v in used && v !in remaining ==> used[v] in list
      decreases remaining
    {
      var v :| v in remaining;
      list := list + [used[v]];
      remaining := remaining - {v};
    }
  }

  /** `visited` is the part of the histogram that has left `remaining`. */
  ghost predicate Visited(counts: Counts, remaining: set<string>, visited: Counts) {
    && remaining <= counts.Keys
    && visited.Keys == counts.Keys - remaining
    && (forall k :: k in visited ==> visited[k] == counts[k])
  }

  lemma VisitedStep(counts: Counts, remaining: set<string>, visited: Counts, k: string)
    requires Visited(counts, remaining, visited) && k in remaining
    ensures Visited(counts, remaining - {k}, visited[k := counts[k]])
  {
  }

  /** What `SwapKey` returns for the keys it accepts. */
  ghost function AcceptOf(used: Mapping): string -> string {
    key => if used.Keys == Below(|key|) then Reorder(key, used) else key
  }

  lemma EmptyRelabels(f: string -> string)
    ensures Relabels(map[], f, map[])
  {
  }

  lemma RelabelsStep(c: Counts, f: string -> string, result: Counts, k: string, v: nat)
    requires Relabels(c, f, result) && k !in c
    ensures Relabels(c[k := v], f, result[f(k) := v])
  {
    var c', result' := c[k := v], result[f(k) := v];
    assert Image(c'.Keys, f) == Image(c.Keys, f) + {f(k)};
    forall p | p in result' ensures exists j :: j in c' && f(j) == p && result'[p] == c'[j] {
      if p == f(k) {
        assert k in c';
      } else {
        var j :| j in c && f(j) == p && result[p] == c[j];
        assert j in c';
      }
    }
  }

  lemma RefusalIsFinal(counts: Counts, m: Mapping, used: Mapping, key: string)
    requires m != map[] && key in counts && used.Keys != Below(|key|)
    requires exists k :: k in counts && used == Extracted(m, |k|)
    ensures !Swappable(counts, m)
  {
    var k :| k in counts && used == Extracted(m, |k|);
    ExtractedCovers(m, |k|);
  }

  lemma AcceptedIsSwap(counts: Counts, m: Mapping, used: Mapping, result: Counts)
    requires m != map[] && counts != map[]
    requires exists k :: k in counts && used == Extracted(m, |k|)
    requires forall k :: k in counts ==> used.Keys == Below(|k|)
    requires Relabels(counts, AcceptOf(used), result)
    ensures Swappable(counts, m) && IsSwap(counts, m, result)
  {
    var first :| first in counts && used == Extracted(m, |first|);
    var n := |first|;
    ReorderAgrees(first, m, used);
    forall k | k in counts ensures |k| == n && AcceptOf(used)(k) == ReorderOf(m, n)(k) {
      assert |Below(|k|)| == |Below(n)|;
      ReorderAgrees(k, m, used);
    }
    RelabelsSame(counts, AcceptOf(used), ReorderOf(m, n), result);
  }

  lemma RelabelsSame(c: Counts, f: string -> string, g: string -> string, result: Counts)
    requires forall k :: k in c ==> f(k) == g(k)
    requires Relabels(c, f, result)
    ensures Relabels(c, g, result)
  {
    assert Image(c.Keys, f) == Image(c.Keys, g);
  }
}
