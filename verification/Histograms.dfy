/**
 Histograms of measured keys and the pushforward of a histogram along a relabelling of
 keys. The result divider is two pushforwards in a row, so its conservation and round-trip
 laws all follow from the laws proved here.
 */
module Histograms {

  type Counts = map<string, nat>

  /** `c` with `v` added at `k`; an absent key counts as zero. */
  function Add(c: Counts, k: string, v: nat): Counts {
    c[k := (if k in c then c[k] else 0) + v]
  }

  /** The histogram of a run of shots. */
  function Hist(shots: seq<string>): Counts {
    if shots == [] then map[] else Add(Hist(shots[..|shots| - 1]), shots[|shots| - 1], 1)
  }

  /** The shots in `c` whose key is relabelled to `p` by `f`. */
  ghost function Mass(c: Counts, f: string -> string, p: string): nat
    decreases |c|
  {
    if c == map[] then 0
    else
      var k :| k in c;
      (if f(k) == p then c[k] else 0) + Mass(c - {k}, f, p)
  }

  /** The histogram of `c` after relabelling every key by `f`. */
  ghost function Push(c: Counts, f: string -> string): Counts {
    map p | p in Image(c.Keys, f) :: Mass(c, f, p)
  }

  function Image(keys: set<string>, f: string -> string): set<string> {
    set k | k in keys :: f(k)
  }

  /** All keys have `n` characters. */
  predicate Wide(c: Counts, n: int) {
    forall k :: k in c ==> |k| == n
  }

  /** Relabelling every key to the empty string: the mass at "" is the number of shots. */
  function Erase(): string -> string {
    k => ""
  }

  ghost function Total(c: Counts): nat {
    Mass(c, Erase(), "")
  }

  function Compose(g: string -> string, f: string -> string): string -> string {
    k => g(f(k))
  }

  lemma AddBack(c: Counts, k: string)
    requires k in c
    ensures Add(c - {k}, k, c[k]) == c
  {
  }

  /** Any key may be taken out first. */
  lemma {:induction false} MassRemove(c: Counts, f: string -> string, p: string, k: string)
    requires k in c
    ensures Mass(c, f, p) == (if f(k) == p then c[k] else 0) + Mass(c - {k}, f, p)
    decreases |c|
  {
    var j :| j in c && Mass(c, f, p) == (if f(j) == p then c[j] else 0) + Mass(c - {j}, f, p);
    if j != k {
      MassRemove(c - {j}, f, p, k);
      MassRemove(c - {k}, f, p, j);
      assert c - {j} - {k} == c - {k} - {j};
    }
  }

  /** Adding `v` shots at `k` adds `v` at the relabelled key and nowhere else. */
  lemma MassAdd(c: Counts, k: string, v: nat, f: string -> string, p: string)
    ensures Mass(Add(c, k, v), f, p) == Mass(c, f, p) + (if f(k) == p then v else 0)
  {
    MassRemove(Add(c, k, v), f, p, k);
    if k in c {
      MassRemove(c, f, p, k);
      assert Add(c, k, v) - {k} == c - {k};
    } else {
      assert Add(c, k, v) - {k} == c;
    }
  }

  /** Relabelling commutes with adding shots. */
  lemma PushAdd(c: Counts, k: string, v: nat, f: string -> string)
    ensures Push(Add(c, k, v), f) == Add(Push(c, f), f(k), v)
  {
    var l, r := Push(Add(c, k, v), f), Add(Push(c, f), f(k), v);
    assert l.Keys == r.Keys by {
      assert Add(c, k, v).Keys == c.Keys + {k};
    }
    forall p | p in l ensures l[p] == r[p] {
      MassAdd(c, k, v, f, p);
      if p !in Image(c.Keys, f) {
        MassOutside(c, f, p);
      }
    }
  }

  /** A label no key carries has no shots. */
  lemma {:induction false} MassOutside(c: Counts, f: string -> string, p: string)
    requires p !in Image(c.Keys, f)
    ensures Mass(c, f, p) == 0
    decreases |c|
  {
    if c != map[] {
      var k :| k in c;
      MassRemove(c, f, p, k);
      MassOutside(c - {k}, f, p);
    }
  }

  lemma MassPushAdd(d: Counts, k: string, v: nat, f: string -> string, g: string -> string, q: string)
    requires Mass(Push(d, f), g, q) == Mass(d, Compose(g, f), q)
    ensures Mass(Push(Add(d, k, v), f), g, q) == Mass(Add(d, k, v), Compose(g, f), q)
  {
    PushAdd(d, k, v, f);
    MassAdd(Push(d, f), f(k), v, g, q);
    MassAdd(d, k, v, Compose(g, f), q);
  }

  /** Pushing forward twice is pushing forward along the composition. */
  lemma {:induction false} MassPush(c: Counts, f: string -> string, g: string -> string, q: string)
    ensures Mass(Push(c, f), g, q) == Mass(c, Compose(g, f), q)
    decreases |c|
  {
    if c == map[] {
      assert Push(c, f) == map[];
    } else {
      var k :| k in c;
      var d, v := c - {k}, c[k];
      MassPush(d, f, g, q);
      MassPushAdd(d, k, v, f, g, q);
      AddBack(c, k);
    }
  }

  lemma ImageImage(keys: set<string>, f: string -> string, g: string -> string)
    ensures Image(Image(keys, f), g) == Image(keys, Compose(g, f))
  {
    forall k | k in keys ensures g(f(k)) in Image(Image(keys, f), g) {
      assert f(k) in Image(keys, f);
    }
  }

  lemma PushPush(c: Counts, f: string -> string, g: string -> string)
    ensures Push(Push(c, f), g) == Push(c, Compose(g, f))
  {
    var l, r := Push(Push(c, f), g), Push(c, Compose(g, f));
    ImageImage(c.Keys, f, g);
    assert l.Keys == r.Keys;
    forall q | q in l ensures l[q] == r[q] {
      MassPush(c, f, g, q);
    }
  }

  /** Relabelling loses no shots. */
  lemma PushTotal(c: Counts, f: string -> string)
    ensures Total(Push(c, f)) == Total(c)
  {
    MassPush(c, f, Erase(), "");
    MassSame(c, Compose(Erase(), f), Erase(), "");
  }

  /** Only the labels of the keys present matter. */
  lemma {:induction false} MassSame(c: Counts, f: string -> string, g: string -> string, p: string)
    requires forall k :: k in c ==> f(k) == g(k)
    ensures Mass(c, f, p) == Mass(c, g, p)
    decreases |c|
  {
    if c != map[] {
      var k :| k in c;
      MassRemove(c, f, p, k);
      MassRemove(c, g, p, k);
      MassSame(c - {k}, f, g, p);
    }
  }

  /** Relabelling that fixes every key present changes nothing. */
  lemma PushIdentity(c: Counts, f: string -> string)
    requires forall k :: k in c ==> f(k) == k
    ensures Push(c, f) == c
  {
    PushInjective(c, f);
    assert Image(c.Keys, f) == c.Keys;
  }

  /** Under a relabelling that merges no keys, every count moves unchanged. */
  lemma PushInjective(c: Counts, f: string -> string)
    requires forall j, k :: j in c && k in c && f(j) == f(k) ==> j == k
    ensures forall k :: k in c ==> f(k) in Push(c, f) && Push(c, f)[f(k)] == c[k]
    ensures |Push(c, f)| == |c|
  {
    forall k | k in c ensures f(k) in Push(c, f) && Push(c, f)[f(k)] == c[k] {
      MassRemove(c, f, f(k), k);
      assert f(k) !in Image((c - {k}).Keys, f);
      MassOutside(c - {k}, f, f(k));
    }
    ImageSize(c.Keys, f);
    assert Push(c, f).Keys == Image(c.Keys, f);
  }

  lemma {:induction false} ImageSize(keys: set<string>, f: string -> string)
    requires forall j, k :: j in keys && k in keys && f(j) == f(k) ==> j == k
    ensures |Image(keys, f)| == |keys|
  {
    if keys == {} {
      assert Image(keys, f) == {};
    } else {
      var k :| k in keys;
      ImageSize(keys - {k}, f);
      assert Image(keys, f) == Image(keys - {k}, f) + {f(k)};
    }
  }

  /** A single count never exceeds the whole. */
  lemma CountBound(c: Counts, k: string)
    requires k in c
    ensures c[k] <= Total(c)
  {
    MassRemove(c, Erase(), "", k);
  }

  /** Applies `f` to every shot. */
  function MapShots(shots: seq<string>, f: string -> string): seq<string> {
    seq(|shots|, i requires 0 <= i < |shots| => f(shots[i]))
  }

  lemma MapShotsTwice(shots: seq<string>, f: string -> string, g: string -> string)
    ensures MapShots(MapShots(shots, f), g) == MapShots(shots, Compose(g, f))
  {
  }

  lemma MapOneShot(k: string, f: string -> string)
    ensures MapShots([k], f) == [f(k)]
  {
  }

  /** The histogram of relabelled shots is the relabelled histogram. */
  lemma {:induction false} HistMap(shots: seq<string>, f: string -> string)
    ensures Hist(MapShots(shots, f)) == Push(Hist(shots), f)
  {
    if shots == [] {
      assert Push(map[], f) == map[];
    } else {
      var front, last := shots[..|shots| - 1], shots[|shots| - 1];
      HistMap(front, f);
      PushAdd(Hist(front), last, 1, f);
      assert MapShots(shots, f)[..|shots| - 1] == MapShots(front, f);
    }
  }

  /** `Hist` counts occurrences: its keys are the shots seen, each with its multiplicity. */
  lemma {:induction false} HistCountsOccurrences(shots: seq<string>)
    ensures forall k :: k in Hist(shots) <==> k in shots
    ensures forall k :: k in shots ==> Hist(shots)[k] == multiset(shots)[k]
    ensures Total(Hist(shots)) == |shots|
  {
    if shots != [] {
      var front, last := shots[..|shots| - 1], shots[|shots| - 1];
      HistCountsOccurrences(front);
      MassAdd(Hist(front), last, 1, Erase(), "");
      assert shots == front + [last];
      forall k | k in shots ensures Hist(shots)[k] == multiset(shots)[k] {
        if k !in front {
          assert k !in multiset(front);
        }
      }
    }
  }

  // ----- visiting orders

  /** `order` visits every key once. */
  ghost predicate Visits(order: seq<string>, keys: set<string>) {
    && (forall k :: k in order <==> k in keys)
    && (forall i, j :: 0 <= i < j < |order| ==> order[i] != order[j])
  }

  /** Some order in which a set of keys can be visited. */
  lemma {:induction false} SomeOrder(keys: set<string>) returns (order: seq<string>)
    ensures Visits(order, keys)
  {
    if keys == {} {
      order := [];
    } else {
      var k :| k in keys;
      order := SomeOrder(keys - {k});
      order := order + [k];
    }
  }

  lemma VisitsConcat(a: seq<string>, ka: set<string>, b: seq<string>, kb: set<string>)
    requires Visits(a, ka) && Visits(b, kb) && ka !! kb
    ensures Visits(a + b, ka + kb)
  {
    var o := a + b;
    forall i, j | 0 <= i < j < |o| ensures o[i] != o[j] {
      if i < |a| <= j {
        assert a[i] in a && b[j - |a|] in b;
      }
    }
  }

  lemma VisitsOne(k: string)
    ensures Visits([k], {k})
  {
  }

  lemma VisitedIn(order: seq<string>, keys: set<string>, k: string)
    requires Visits(order, keys)
    ensures k in order <==> k in keys
  {
  }
}
