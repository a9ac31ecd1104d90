/**
 Iteration orders of the swap's loop over the counts: the relation by which the swap is
 specified holds of exactly the results that some order yields.
 */
module SwapOrders {
  import opened Histograms
  import opened VirtualOrder

  function CountOf(c: Counts, k: string): nat {
    if k in c then c[k] else 0
  }

  /** Plain assignment of every key's count to its relabelled key, along one order. */
  function Assigned(order: seq<string>, c: Counts, f: string -> string): Counts {
    if order == [] then map[]
    else
      var last := order[|order| - 1];
      Assigned(order[..|order| - 1], c, f)[f(last) := CountOf(c, last)]
  }

  ghost predicate SomeOrderYields(c: Counts, f: string -> string, r: Counts) {
    exists order :: Visits(order, c.Keys) && Assigned(order, c, f) == r
  }

  lemma AssignedSnoc(order: seq<string>, c: Counts, f: string -> string, k: string)
    ensures Assigned(order + [k], c, f) == Assigned(order, c, f)[f(k) := CountOf(c, k)]
  {
    assert (order + [k])[..|order|] == order;
  }

  /** Of two keys with one label the later one's count survives. */
  lemma AssignedPair(a: string, b: string, c: Counts, f: string -> string)
    requires f(a) == f(b)
    ensures Assigned([a, b], c, f) == map[f(a) := CountOf(c, b)]
  {
    hide CountOf;
    AssignedSnoc([], c, f, a);
    AssignedSnoc([a], c, f, b);
    assert [] + [a] == [a] && [a] + [b] == [a, b];
    assert Assigned([a], c, f) == map[f(a) := CountOf(c, a)];
  }

  lemma VisitsPair(a: string, b: string)
    requires a != b
    ensures Visits([a, b], {a, b}) && Visits([b, a], {a, b})
  {
  }

  /** Only the counts of the visited keys matter. */
  lemma {:induction false} AssignedWithout(order: seq<string>, c: Counts, f: string -> string, j: string)
    requires j !in order
    ensures Assigned(order, c, f) == Assigned(order, c - {j}, f)
  {
    if order != [] {
      var n := |order| - 1;
      assert order == order[..n] + [order[n]];
      AssignedWithout(order[..n], c, f, j);
    }
  }

  /** Two histograms differ at `p` at most. */
  ghost predicate AgreeBut(a: Counts, b: Counts, p: string) {
    forall q :: q != p ==> (q in a <==> q in b) && CountOf(a, q) == CountOf(b, q)
  }

  lemma AgreeUpdate(a: Counts, b: Counts, p: string, q: string, v: nat)
    requires AgreeBut(a, b, p)
    ensures AgreeBut(a[q := v], b[q := v], p)
    ensures q == p ==> a[q := v] == b[q := v]
  {
    var a', b' := a[q := v], b[q := v];
    if q == p {
      forall x ensures x in a' <==> x in b' {
        assert x != p ==> (x in a <==> x in b);
      }
      forall x | x in a' ensures a'[x] == b'[x] {
        assert x != p ==> CountOf(a, x) == CountOf(b, x);
      }
    }
  }

  /** A key visited first touches its own label only. */
  lemma {:induction false} AssignedFirst(j: string, order: seq<string>, c: Counts, f: string -> string)
    ensures AgreeBut(Assigned([j] + order, c, f), Assigned(order, c, f), f(j))
  {
    hide AgreeBut, CountOf;
    if order == [] {
      AssignedSnoc([], c, f, j);
      assert [] + [j] == [j] + order;
      AgreeStart(f(j), CountOf(c, j));
    } else {
      var n := |order| - 1;
      var front, last := order[..n], order[n];
      assert order == front + [last];
      assert [j] + order == [j] + front + [last];
      AssignedFirst(j, front, c, f);
      AssignedSnoc([j] + front, c, f, last);
      AgreeUpdate(Assigned([j] + front, c, f), Assigned(front, c, f), f(j), f(last), CountOf(c, last));
    }
  }

  lemma AgreeStart(p: string, v: nat)
    ensures AgreeBut(map[][p := v], map[], p)
  {
  }

  /** A key visited before another one with the same label leaves no trace. */
  lemma {:induction false} AssignedOverwritten(j: string, order: seq<string>, c: Counts, f: string -> string, k: string)
    requires k in order && f(k) == f(j)
    ensures Assigned([j] + order, c, f) == Assigned(order, c, f)
  {
    hide AgreeBut, CountOf;
    var n := |order| - 1;
    var front, last := order[..n], order[n];
    assert order == front + [last];
    assert [j] + order == [j] + front + [last];
    AssignedSnoc([j] + front, c, f, last);
    if k in front {
      AssignedOverwritten(j, front, c, f, k);
    } else {
      AssignedFirst(j, front, c, f);
      AgreeUpdate(Assigned([j] + front, c, f), Assigned(front, c, f), f(j), f(last), CountOf(c, last));
    }
  }

  lemma {:induction false} OrderRelabels(order: seq<string>, c: Counts, f: string -> string)
    requires Visits(order, c.Keys)
    ensures Relabels(c, f, Assigned(order, c, f))
  {
    if order == [] {
      assert c == map[];
      EmptyRelabels(f);
    } else {
      var n := |order| - 1;
      var front, last := order[..n], order[n];
      var d: Counts := c - {last};
      VisitsFront(order, c.Keys);
      assert last in c && last !in front && d[last := c[last]] == c;
      hide Relabels, Visits;
      OrderRelabels(front, d, f);
      AssignedWithout(front, c, f, last);
      RelabelsStep(d, f, Assigned(front, d, f), last, c[last]);
    }
  }

  lemma VisitsFront(order: seq<string>, keys: set<string>)
    requires order != [] && Visits(order, keys)
    ensures Visits(order[..|order| - 1], keys - {order[|order| - 1]})
    ensures order[|order| - 1] in keys
  {
    var n := |order| - 1;
    assert order == order[..n] + [order[n]];
    assert order[n] in order;
  }

  /** For every outcome of the assignments there is an order: visit the surviving keys last. */
  lemma {:induction false} RelabelsOrder(c: Counts, f: string -> string, r: Counts) returns (order: seq<string>)
    requires Relabels(c, f, r)
    ensures Visits(order, c.Keys) && Assigned(order, c, f) == r
    decreases |c|, 1
  {
    if c == map[] {
      order := [];
      assert r == map[];
    } else {
      var k0 :| k0 in c;
      var p := f(k0);
      assert p in r;
      var k :| k in c && f(k) == p && r[p] == c[k];
      if j :| j in c && j != k && f(j) == p {
        order := MergedOrder(c, f, r, j, k);
      } else {
        order := LoneOrder(c, f, r, k);
      }
    }
  }

  lemma SmallerCounts(c: Counts, k: string)
    requires k in c
    ensures |c - {k}| < |c| && (c - {k}).Keys == c.Keys - {k}
    ensures {k} + (c - {k}).Keys == c.Keys && (c - {k}).Keys + {k} == c.Keys
  {
    assert |(c - {k}).Keys| == |c.Keys - {k}| == |c.Keys| - 1;
  }

  lemma {:induction false} MergedOrder(c: Counts, f: string -> string, r: Counts, j: string, k: string)
    returns (order: seq<string>)
    requires Relabels(c, f, r) && j in c && k in c && j != k && f(j) == f(k) && f(k) in r && r[f(k)] == c[k]
    ensures Visits(order, c.Keys) && Assigned(order, c, f) == r
    decreases |c|, 0
  {
    hide Relabels, Visits, Assigned, Image;
    var d: Counts := c - {j};
    SmallerCounts(c, j);
    RelabelsWithout(c, f, r, j, k);
    var rest := RelabelsOrder(d, f, r);
    VisitsOne(j);
    VisitsConcat([j], {j}, rest, d.Keys);
    order := [j] + rest;
    VisitedIn(rest, d.Keys, j);
    VisitedIn(rest, d.Keys, k);
    AssignedWithout(rest, c, f, j);
    AssignedOverwritten(j, rest, c, f, k);
  }

  lemma {:induction false} LoneOrder(c: Counts, f: string -> string, r: Counts, k: string) returns (order: seq<string>)
    requires Relabels(c, f, r) && k in c && f(k) in r && r[f(k)] == c[k]
    requires forall j :: j in c && f(j) == f(k) ==> j == k
    ensures Visits(order, c.Keys) && Assigned(order, c, f) == r
    decreases |c|, 0
  {
    hide Relabels, Visits, Assigned;
    var d: Counts, r': Counts := c - {k}, r - {f(k)};
    SmallerCounts(c, k);
    RelabelsLone(c, f, r, k);
    var rest := RelabelsOrder(d, f, r');
    VisitsOne(k);
    VisitsConcat(rest, d.Keys, [k], {k});
    order := rest + [k];
    VisitedIn(rest, d.Keys, k);
    AssignedWithout(rest, c, f, k);
    AssignedSnoc(rest, c, f, k);
    PutBack(r, f(k));
  }

  lemma PutBack(r: Counts, p: string)
    requires p in r
    ensures (r - {p})[p := r[p]] == r
  {
  }

  lemma RelabelsWithout(c: Counts, f: string -> string, r: Counts, j: string, k: string)
    requires Relabels(c, f, r) && j in c && k in c && j != k && f(j) == f(k) && f(k) in r && r[f(k)] == c[k]
    ensures Relabels(c - {j}, f, r)
  {
    var d: Counts := c - {j};
    assert k in d;
    assert Image(d.Keys, f) == Image(c.Keys, f);
    forall p | p in r ensures exists i :: i in d && f(i) == p && r[p] == d[i] {
      var i :| i in c && f(i) == p && r[p] == c[i];
      assert if i == j then d[k] == r[p] else i in d && d[i] == r[p];
    }
  }

  lemma RelabelsLone(c: Counts, f: string -> string, r: Counts, k: string)
    requires Relabels(c, f, r) && k in c && forall j :: j in c && f(j) == f(k) ==> j == k
    ensures Relabels(c - {k}, f, r - {f(k)})
  {
    var d: Counts, r': Counts := c - {k}, r - {f(k)};
    assert Image(d.Keys, f) == Image(c.Keys, f) - {f(k)};
    forall p | p in r' ensures exists i :: i in d && f(i) == p && r'[p] == d[i] {
      var i :| i in c && f(i) == p && r[p] == c[i];
      assert i in d && d[i] == c[i];
    }
  }

  /** The relation is exact: it holds of the results that some iteration order yields, and of no others. */
  lemma RelabelsIffSomeOrder(c: Counts, f: string -> string, r: Counts)
    ensures Relabels(c, f, r) <==> SomeOrderYields(c, f, r)
  {
    hide Relabels, Visits, Assigned;
    if Relabels(c, f, r) {
      var order := RelabelsOrder(c, f, r);
    }
    if SomeOrderYields(c, f, r) {
      var order :| Visits(order, c.Keys) && Assigned(order, c, f) == r;
      OrderRelabels(order, c, f);
    }
  }
}
