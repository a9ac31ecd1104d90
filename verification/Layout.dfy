/**
 The qubit layout of an estimation job: the engine lists the mapping's physical qubits by
 ascending virtual qubit, and the estimator completes the list to a layout of the circuit.
 */
module Layout {
  import opened Collections
  import opened QubitMapping

  predicate Increasing(s: seq<nat>) {
    forall i, j :: 0 <= i < j < |s| ==> s[i] < s[j]
  }

  function Insert(s: seq<nat>, k: nat): (r: seq<nat>)
    requires Increasing(s) && k !in s
    ensures Increasing(r) && |r| == |s| + 1
    ensures forall x :: x in r <==> x in s || x == k
  {
    if s == [] || s[|s| - 1] < k then s + [k]
    else
      var front, last := s[..|s| - 1], s[|s| - 1];
      assert s == front + [last];
      var t := Insert(front, k);
      assert forall i :: 0 <= i < |t| ==> t[i] in t;
      t + [last]
  }

  /** The library sort, by its contract on distinct keys: the same keys in increasing order. */
  function Sorted(s: seq<nat>): (r: seq<nat>)
    requires Distinct(s)
    ensures Increasing(r) && |r| == |s|
    ensures forall x :: x in r <==> x in s
  {
    if s == [] then []
    else
      var front, last := s[..|s| - 1], s[|s| - 1];
      assert s == front + [last];
      Insert(Sorted(front), last)
  }

  lemma LowerPart(s: seq<nat>, i: nat)
    requires Increasing(s) && i < |s|
    ensures forall q :: q in s && q < s[i] <==> q in s[..i]
  {
    forall q | q in s && q < s[i] ensures q in s[..i] {
      var j :| 0 <= j < |s| && s[j] == q;
      assert s[..i][j] == q;
    }
  }

  /** In an increasing listing of a set, an element's index is its rank. */
  lemma IndexIsRank(s: seq<nat>, i: nat)
    requires Increasing(s) && i < |s|
    ensures Rank(Elements(s), s[i]) == i
  {
    LowerPart(s, i);
    RankIsSize(Elements(s), s[i], Elements(s[..i]));
    IncreasingDistinct(s[..i]);
    DistinctSize(s[..i]);
  }

  /** Entry `r` of the list is the physical qubit of the virtual qubit of rank `r`. */
  ghost predicate ListsByRank(m: Mapping, list: seq<nat>) {
    && |list| == |m|
    && forall v :: v in m ==> Rank(m.Keys, v) < |list| && list[Rank(m.Keys, v)] == m[v]
  }

  /** The mapping's virtual qubits, in whatever order they are visited. */
  method CollectKeys(m: Mapping) returns (keys: seq<nat>)
    ensures Distinct(keys) && Elements(keys) == m.Keys
  {
    keys := [];
    var remaining := m.Keys;
    while remaining != {}
      invariant remaining <= m.Keys && Distinct(keys)
      invariant Elements(keys) == m.Keys - remaining
      decreases remaining
    {
      var k :| k in remaining;
      assert k !in Elements(keys);
      ElementsConcat(keys, [k]);
      keys := keys + [k];
      remaining := remaining - {k};
    }
  }

  method MappingList(m: Mapping) returns (list: seq<nat>)
    ensures ListsByRank(m, list)
  {
    hide Distinct, Increasing;
    var keys := CollectKeys(m);
    var sorted := Sorted(keys);
    assert Elements(sorted) == Elements(keys);
    list := [];
    for i := 0 to |sorted|
      invariant |list| == i
      invariant forall j :: 0 <= j < i ==> sorted[j] in m && list[j] == m[sorted[j]]
    {
      assert sorted[i] in Elements(sorted);
      list := list + [m[sorted[i]]];
    }
    ListedByRank(m, sorted, list);
  }

  lemma ListedByRank(m: Mapping, keys: seq<nat>, list: seq<nat>)
    requires Increasing(keys) && Elements(keys) == m.Keys && |list| == |keys|
    requires forall j :: 0 <= j < |keys| ==> keys[j] in m && list[j] == m[keys[j]]
    ensures ListsByRank(m, list)
  {
    IncreasingDistinct(keys);
    DistinctSize(keys);
    assert |m| == |m.Keys|;
    hide Increasing, Distinct, Rank, Elements;
    forall v | v in m ensures Rank(m.Keys, v) < |list| && list[Rank(m.Keys, v)] == m[v] {
      RankLooksUp(keys, v);
    }
  }

  lemma IncreasingDistinct(s: seq<nat>)
    requires Increasing(s)
    ensures Distinct(s)
  {
  }

  /** The rank of a listed key is its index. */
  lemma RankLooksUp(keys: seq<nat>, v: nat)
    requires Increasing(keys) && v in Elements(keys)
    ensures Rank(Elements(keys), v) < |keys| && keys[Rank(Elements(keys), v)] == v
  {
    hide Increasing, Rank;
    var i :| 0 <= i < |keys| && keys[i] == v;
    IndexIsRank(keys, i);
  }

  /** On virtual qubits 0..k-1, entry `v` is the image of `v`; the list has no duplicates iff no qubit is shared. */
  lemma ContiguousList(m: Mapping, k: nat, list: seq<nat>)
    requires m.Keys == Below(k) && ListsByRank(m, list)
    ensures |list| == k && forall v :: 0 <= v < k ==> list[v] == m[v]
    ensures Distinct(list) <==> InjectiveBelow(m, k)
  {
    hide Distinct, InjectiveBelow, Rank, Below;
    forall v | 0 <= v < k ensures v < |list| && list[v] == m[v] {
      assert v in Below(k);
      RankInBelow(k, v);
    }
    assert |m.Keys| == k;
    PhysicalsSize(m, k);
    DistinctSize(list);
    PhysicalsListed(m, k, list);
  }

  lemma PhysicalsListed(m: Mapping, k: nat, list: seq<nat>)
    requires |list| == k && forall v :: 0 <= v < k ==> v in m && list[v] == m[v]
    ensures Physicals(m, k) == Elements(list)
  {
    forall v | 0 <= v < k ensures m[v] in list {
      assert list[v] == m[v];
    }
    forall i | 0 <= i < k ensures list[i] in Physicals(m, k) {
    }
  }

  function Max(s: seq<nat>): (r: nat)
    requires s != []
    ensures r in s && forall x :: x in s ==> x <= r
  {
    if |s| == 1 then s[0]
    else
      var front, last := s[..|s| - 1], s[|s| - 1];
      assert s == front + [last];
      if last > Max(front) then last else Max(front)
  }

  /** What the estimator may make of a list: the missing indices follow in any order. */
  ghost predicate IsCompletion(list: seq<nat>, qubits: nat, r: seq<nat>) {
    if list == [] then r == Range(qubits)
    else if |list| == qubits then r == list
    else
      && list <= r
      && Distinct(r[|list|..])
      && Elements(r[|list|..]) == Below(Max(list) + 1) - Elements(list)
  }

  function Range(n: nat): (r: seq<nat>)
    ensures |r| == n && forall i :: 0 <= i < n ==> r[i] == i
  {
    seq(n, i => i)
  }

  method Complete(list: seq<nat>, qubits: nat) returns (r: seq<nat>)
    ensures IsCompletion(list, qubits, r)
  {
    r := list;
    if |list| == 0 {
      r := Range(qubits);
    } else if |list| != qubits {
      var missing := Below(Max(list) + 1) - Elements(list);
      var tail: seq<nat> := [];
      var remaining := missing;
      while remaining != {}
        invariant remaining <= missing && Distinct(tail)
        invariant Elements(tail) == missing - remaining
        decreases remaining
      {
        var k :| k in remaining;
        assert k !in Elements(tail);
        ElementsConcat(tail, [k]);
        tail := tail + [k];
        remaining := remaining - {k};
      }
      r := list + tail;
      assert r[|list|..] == tail;
    }
  }

  ghost predicate IsLayout(r: seq<nat>, n: nat) {
    Distinct(r) && Elements(r) == Below(n)
  }

  /** Completing a shorter or longer list without duplicates lists every qubit up to the highest once. */
  lemma CompletionListsAll(list: seq<nat>, qubits: nat, r: seq<nat>)
    requires IsCompletion(list, qubits, r) && list != [] && |list| != qubits
    ensures list <= r && Elements(r) == Below(Max(list) + 1)
    ensures Distinct(r) <==> Distinct(list)
  {
    hide Distinct, Max, Below;
    var tail := r[|list|..];
    assert r == list + tail;
    ElementsConcat(list, tail);
    assert Elements(list) <= Below(Max(list) + 1);
    hide Elements;
    SplitSize(Elements(list), Below(Max(list) + 1));
    DistinctSize(list);
    DistinctSize(tail);
    DistinctSize(r);
  }

  lemma SplitSize(part: set<nat>, whole: set<nat>)
    requires part <= whole
    ensures part + (whole - part) == whole && |part| + |whole - part| == |whole|
  {
    assert part + (whole - part) == whole;
  }

  lemma ElementsConcat(a: seq<nat>, b: seq<nat>)
    ensures Elements(a + b) == Elements(a) + Elements(b)
  {
  }

  /**
   The completed list is a layout of the circuit exactly when the list was empty, or free of
   duplicates with the circuit's last qubit as its highest entry.
   */
  lemma CompletionIsLayoutIff(list: seq<nat>, qubits: nat, r: seq<nat>)
    requires IsCompletion(list, qubits, r)
    ensures IsLayout(r, qubits) <==> list == [] || (Distinct(list) && Max(list) + 1 == qubits)
  {
    hide Distinct, Max, Range, Below;
    if list == [] {
      RangeIsLayout(qubits);
    } else if |list| == qubits {
      FullListIsLayoutIff(list);
    } else {
      hide IsCompletion, Elements;
      CompletionListsAll(list, qubits, r);
      BelowInjective(Max(list) + 1, qubits);
    }
  }

  lemma RangeIsLayout(n: nat)
    ensures IsLayout(Range(n), n)
  {
    hide Below;
    var r := Range(n);
    forall x | x in Below(n) ensures x in r {
      assert r[x] == x;
    }
    assert Elements(r) == Below(n);
  }

  lemma BelowInjective(a: nat, b: nat)
    ensures Below(a) == Below(b) <==> a == b
  {
    assert |Below(a)| == a && |Below(b)| == b;
  }

  lemma FullListIsLayoutIff(list: seq<nat>)
    requires list != []
    ensures IsLayout(list, |list|) <==> Distinct(list) && Max(list) + 1 == |list|
  {
    hide Distinct, Max, Below;
    DistinctSize(list);
    if Distinct(list) && Max(list) + 1 == |list| {
      SubsetSize(Elements(list), Below(|list|));
    }
    if Elements(list) == Below(|list|) {
      assert Max(list) in Elements(list);
      assert |list| - 1 in Elements(list);
    }
  }
}
