/** The sequential B+ tree as a value: insertion with splits, deletion with borrowing and merging, and search. */
module SeqTree {
  import opened Nodes
  import opened TreeState

  /** A leaf with its block address and the address of its right sibling, or an inner node. */
  datatype BT =
    | Tip(addr: nat, entries: seq<Entry>, next: int)
    | Fork(keys: seq<Key>, kids: seq<BT>)

  // ---------- shape ----------

  function HiOf(ks: seq<Key>, hi: Bound, i: nat): Bound {
    if i + 1 < |ks| then At(ks[i + 1]) else hi
  }

  /** A tree of height `h` with its keys in [lo, hi): all leaves at the same depth, every node below the root at least
      half full and none too full, at least `min` entries or children at the top, and every key of child `i` at least
      `keys[i]` and below `keys[i + 1]`. */
  ghost predicate WF(cap: nat, t: BT, h: nat, lo: Bound, hi: Bound, min: nat)
    decreases h, 1
  {
    match t
    case Tip(_, es, _) =>
      && h == 1 && EntriesSorted(es) && min <= |es| <= cap
      && (forall i {:trigger es[i]} :: 0 <= i < |es| ==> Above(lo, es[i].key) && Below(es[i].key, hi))
    case Fork(ks, cs) =>
      && h >= 2 && min <= |ks| == |cs| <= cap && |ks| > 0 && Sorted(ks)
      && Above(lo, ks[0]) && Below(ks[|ks| - 1], hi)
      && (forall i {:trigger Kid(cap, ks, cs, h, hi, i)} :: 0 <= i < |cs| ==> Kid(cap, ks, cs, h, hi, i))
  }

  ghost predicate Kid(cap: nat, ks: seq<Key>, cs: seq<BT>, h: nat, hi: Bound, i: nat)
    requires h >= 2 && i < |ks| == |cs|
    decreases h, 0
  {
    WF(cap, cs[i], h - 1, At(ks[i]), HiOf(ks, hi, i), cap / 2)
  }

  /** What the code takes for granted: as many children as keys, and siblings of the same kind. */
  ghost predicate Shaped(t: BT) {
    t.Fork? ==>
      && 0 < |t.keys| == |t.kids|
      && (forall i {:trigger t.kids[i]} :: 0 <= i < |t.kids| ==> Shaped(t.kids[i]) && t.kids[i].Tip? == t.kids[0].Tip?)
  }

  lemma {:induction false} WFShaped(cap: nat, t: BT, h: nat, lo: Bound, hi: Bound, min: nat)
    requires WF(cap, t, h, lo, hi, min)
    ensures Shaped(t) && (t.Tip? <==> h == 1)
    decreases h
  {
    if t.Fork? {
      forall i | 0 <= i < |t.kids| ensures Shaped(t.kids[i]) && t.kids[i].Tip? == (h == 2) {
        assert Kid(cap, t.keys, t.kids, h, hi, i);
        WFShaped(cap, t.kids[i], h - 1, At(t.keys[i]), HiOf(t.keys, hi, i), cap / 2);
      }
    }
  }

  // ---------- contents ----------

  function Flat(t: BT): seq<Entry> {
    match t
    case Tip(_, es, _) => es
    case Fork(_, cs) => FlatAll(cs)
  }

  function FlatAll(cs: seq<BT>): seq<Entry> {
    if cs == [] then [] else Flat(cs[0]) + FlatAll(cs[1..])
  }

  lemma {:induction false} FlatCat(a: seq<BT>, b: seq<BT>)
    ensures FlatAll(a + b) == FlatAll(a) + FlatAll(b)
  {
    if a == [] {
      assert a + b == b;
    } else {
      assert (a + b)[1..] == a[1..] + b;
      FlatCat(a[1..], b);
    }
  }

  lemma FlatOne(c: BT)
    ensures FlatAll([c]) == Flat(c)
  {
    assert [c][1..] == [];
  }

  /** The entries around child `i`. */
  lemma FlatAround(cs: seq<BT>, i: nat)
    requires i < |cs|
    ensures FlatAll(cs) == FlatAll(cs[..i]) + Flat(cs[i]) + FlatAll(cs[i + 1..])
  {
    Pieces(cs, i);
    Three(cs, cs[..i], cs[i], cs[i + 1..]);
  }

  lemma Pieces<T>(cs: seq<T>, i: nat)
    requires i < |cs|
    ensures cs == cs[..i] + [cs[i]] + cs[i + 1..]
  {
  }

  lemma Halved<T>(cs: seq<T>, x: nat)
    requires x <= |cs|
    ensures cs == cs[..x] + cs[x..]
  {
  }

  lemma Replaced<T>(cs: seq<T>, i: nat, c: T)
    requires i < |cs|
    ensures cs[i := c] == cs[..i] + [c] + cs[i + 1..]
  {
  }

  lemma Regroup<T>(a: seq<T>, x: seq<T>, y: seq<T>, d: seq<T>)
    ensures (a + x) + (y + d) == a + (x + y) + d
  {
  }

  lemma FlatSnoc(a: seq<BT>, x: BT)
    ensures FlatAll(a + [x]) == FlatAll(a) + Flat(x)
  {
    FlatCat(a, [x]);
    FlatOne(x);
  }

  lemma FlatCons(y: BT, d: seq<BT>)
    ensures FlatAll([y] + d) == Flat(y) + FlatAll(d)
  {
    FlatCat([y], d);
    FlatOne(y);
  }

  lemma Four(a: seq<BT>, x: BT, y: BT, d: seq<BT>)
    ensures FlatAll((a + [x]) + ([y] + d)) == FlatAll(a) + (Flat(x) + Flat(y)) + FlatAll(d)
  {
    FlatCat(a + [x], [y] + d);
    FlatSnoc(a, x);
    FlatCons(y, d);
    Regroup(FlatAll(a), Flat(x), Flat(y), FlatAll(d));
  }

  lemma Three(cs: seq<BT>, a: seq<BT>, c: BT, b: seq<BT>)
    requires cs == a + [c] + b
    ensures FlatAll(cs) == FlatAll(a) + Flat(c) + FlatAll(b)
  {
    FlatCat(a + [c], b);
    FlatSnoc(a, c);
  }

  /** Replacing child `i` replaces its entries. */
  lemma FlatReplace(cs: seq<BT>, i: nat, c: BT)
    requires i < |cs|
    ensures FlatAll(cs[i := c]) == FlatAll(cs[..i]) + Flat(c) + FlatAll(cs[i + 1..])
  {
    Replaced(cs, i, c);
    Three(cs[i := c], cs[..i], c, cs[i + 1..]);
  }

  ghost predicate Within(es: seq<Entry>, lo: Bound, hi: Bound) {
    forall i {:trigger es[i]} :: 0 <= i < |es| ==> Above(lo, es[i].key) && Below(es[i].key, hi)
  }

  lemma SortedCat(a: seq<Entry>, b: seq<Entry>, lo: Bound, k: Key, hi: Bound)
    requires EntriesSorted(a) && EntriesSorted(b) && Within(a, lo, At(k)) && Within(b, At(k), hi)
    requires Above(lo, k) && Below(k, hi)
    ensures EntriesSorted(a + b) && Within(a + b, lo, hi)
  {
    forall i, j | 0 <= i < j < |a + b| ensures (a + b)[i].key < (a + b)[j].key {
      if i < |a| <= j { assert a[i].key < k <= b[j - |a|].key; }
    }
  }

  /** The entries of a well-formed tree are in order and within its bounds. */
  lemma {:induction false} FlatSorted(cap: nat, t: BT, h: nat, lo: Bound, hi: Bound, min: nat)
    requires WF(cap, t, h, lo, hi, min)
    ensures EntriesSorted(Flat(t)) && Within(Flat(t), lo, hi)
    decreases h, 1, 0
  {
    if t.Fork? {
      FlatFrom(cap, t.keys, t.kids, h, hi, 0);
      assert t.kids[0..] == t.kids;
    }
  }

  ghost predicate Kids(cap: nat, ks: seq<Key>, cs: seq<BT>, h: nat, hi: Bound) {
    && h >= 2 && |ks| == |cs| && |ks| > 0 && Sorted(ks) && Below(ks[|ks| - 1], hi)
    && (forall i {:trigger Kid(cap, ks, cs, h, hi, i)} :: 0 <= i < |cs| ==> Kid(cap, ks, cs, h, hi, i))
  }

  lemma {:induction false} FlatFrom(cap: nat, ks: seq<Key>, cs: seq<BT>, h: nat, hi: Bound, i: nat)
    requires Kids(cap, ks, cs, h, hi) && i < |cs|
    ensures EntriesSorted(FlatAll(cs[i..])) && Within(FlatAll(cs[i..]), At(ks[i]), hi)
    decreases h, 0, |cs| - i
  {
    assert Kid(cap, ks, cs, h, hi, i);
    FlatSorted(cap, cs[i], h - 1, At(ks[i]), HiOf(ks, hi, i), cap / 2);
    assert cs[i..][1..] == cs[i + 1..] && cs[i..][0] == cs[i];
    if i + 1 < |cs| {
      FlatFrom(cap, ks, cs, h, hi, i + 1);
      SortedCat(Flat(cs[i]), FlatAll(cs[i + 1..]), At(ks[i]), ks[i + 1], hi);
    } else {
      assert cs[i + 1..] == [];
      assert Flat(cs[i]) + [] == Flat(cs[i]);
    }
  }

  lemma {:induction false} FlatTo(cap: nat, ks: seq<Key>, cs: seq<BT>, h: nat, hi: Bound, i: nat)
    requires Kids(cap, ks, cs, h, hi) && i <= |cs|
    ensures EntriesSorted(FlatAll(cs[..i])) && (i < |cs| ==> Within(FlatAll(cs[..i]), At(ks[0]), At(ks[i])))
    decreases i
  {
    if i > 0 {
      var j := i - 1;
      FlatTo(cap, ks, cs, h, hi, j);
      assert Kid(cap, ks, cs, h, hi, j);
      FlatSorted(cap, cs[j], h - 1, At(ks[j]), HiOf(ks, hi, j), cap / 2);
      assert cs[..i] == cs[..j] + [cs[j]];
      FlatCat(cs[..j], [cs[j]]);
      FlatOne(cs[j]);
      if j > 0 { SortedCat(FlatAll(cs[..j]), Flat(cs[j]), At(ks[0]), ks[j], HiOf(ks, hi, j)); }
      else { assert FlatAll(cs[..j]) + Flat(cs[j]) == Flat(cs[j]); }
    }
  }

  // ---------- operations in the middle of a sorted sequence ----------

  /** Everything in `a` is below `k`, everything in `b` above it. */
  ghost predicate Between(a: seq<Entry>, k: Key, b: seq<Entry>) {
    && (forall i {:trigger a[i]} :: 0 <= i < |a| ==> a[i].key < k)
    && (forall i {:trigger b[i]} :: 0 <= i < |b| ==> k < b[i].key)
  }

  lemma SlotMiddle(a: seq<Entry>, m: seq<Entry>, b: seq<Entry>, k: Key)
    requires EntriesSorted(a + m + b) && EntriesSorted(m) && Between(a, k, b)
    ensures Slot(a + m + b, k) == |a| + Slot(m, k) && Found(a + m + b, k) == Found(m, k)
  {
    var es, p := a + m + b, Slot(m, k);
    forall j | 0 <= j < |a| + p ensures es[j].key < k {
      if j >= |a| { assert es[j] == m[j - |a|]; }
    }
    if |a| + p < |es| {
      if p < |m| { assert es[|a| + p] == m[p]; } else { assert es[|a| + p] == b[0]; }
    }
    SlotUnique(es, k, |a| + p);
    assert p < |m| ==> es[|a| + p] == m[p];
  }

  lemma PutMiddle(a: seq<Entry>, m: seq<Entry>, b: seq<Entry>, k: Key, v: Val)
    requires EntriesSorted(a + m + b) && EntriesSorted(m) && Between(a, k, b)
    ensures Put(a + m + b, k, v) == a + Put(m, k, v) + b
  {
    SlotMiddle(a, m, b, k);
    PutFrom(a + m + b, a, m, b, k, v);
  }

  lemma PutFrom(es: seq<Entry>, a: seq<Entry>, m: seq<Entry>, b: seq<Entry>, k: Key, v: Val)
    requires es == a + m + b && Slot(es, k) == |a| + Slot(m, k) && Found(es, k) == Found(m, k)
    ensures Put(es, k, v) == a + Put(m, k, v) + b
  {
    PutAt(a, m, b, k, v, Slot(m, k), Found(m, k));
  }

  lemma PutAt(a: seq<Entry>, m: seq<Entry>, b: seq<Entry>, k: Key, v: Val, p: nat, found: bool)
    requires p <= |m| && (found ==> p < |m|)
    ensures (if found then (a + m + b)[|a| + p := Entry(k, v)] else InsertAt(a + m + b, |a| + p, Entry(k, v)))
         == a + (if found then m[p := Entry(k, v)] else InsertAt(m, p, Entry(k, v))) + b
  {
    if found { UpdateMiddle(a, m, b, p, Entry(k, v)); } else { InsertMiddle(a, m, b, p, Entry(k, v)); }
  }

  lemma InsertMiddle<T>(a: seq<T>, m: seq<T>, b: seq<T>, p: nat, x: T)
    requires p <= |m|
    ensures InsertAt(a + m + b, |a| + p, x) == a + InsertAt(m, p, x) + b
  {
    var s := a + m + b;
    assert s[..|a| + p] == a + m[..p] && s[|a| + p..] == m[p..] + b;
  }

  lemma UpdateMiddle<T>(a: seq<T>, m: seq<T>, b: seq<T>, p: nat, x: T)
    requires p < |m|
    ensures (a + m + b)[|a| + p := x] == a + m[p := x] + b
  {
  }

  lemma DropMiddle<T>(a: seq<T>, m: seq<T>, b: seq<T>, p: nat)
    requires p < |m|
    ensures (a + m + b)[..|a| + p] + (a + m + b)[|a| + p + 1..] == a + (m[..p] + m[p + 1..]) + b
  {
    var s := a + m + b;
    assert s[..|a| + p] == a + m[..p] && s[|a| + p + 1..] == m[p + 1..] + b;
  }

  lemma LookupMiddle(a: seq<Entry>, m: seq<Entry>, b: seq<Entry>, k: Key)
    requires EntriesSorted(a + m + b) && EntriesSorted(m) && Between(a, k, b)
    ensures Lookup(a + m + b, k) == Lookup(m, k)
  {
    SlotMiddle(a, m, b, k);
  }

  /** The entries without that of `k`. */
  function Remove(es: seq<Entry>, k: Key): seq<Entry> {
    if Found(es, k) then es[..Slot(es, k)] + es[Slot(es, k) + 1..] else es
  }

  lemma RemoveSorted(es: seq<Entry>, k: Key)
    requires EntriesSorted(es)
    ensures EntriesSorted(Remove(es, k))
  {
  }

  /** An entry with another key stays. */
  lemma RemoveHit(es: seq<Entry>, k: Key, j: nat) returns (i: nat)
    requires EntriesSorted(es) && j < |es| && es[j].key != k
    ensures i < |Remove(es, k)| && Remove(es, k)[i] == es[j]
  {
    i := if Found(es, k) && Slot(es, k) < j then j - 1 else j;
  }

  /** Removing changes exactly the binding of `k`. */
  lemma RemoveLookup(es: seq<Entry>, k: Key, q: Key)
    requires EntriesSorted(es)
    ensures Lookup(Remove(es, k), q) == if q == k then None else Lookup(es, q)
  {
    var r := Remove(es, k);
    RemoveSorted(es, k);
    if q != k && Found(es, q) {
      var i := RemoveHit(es, k, Slot(es, q));
      LookupHit(r, i);
    } else {
      forall i | 0 <= i < |r| ensures r[i].key != q { RemoveMiss(es, k, q, i); }
      LookupMiss(r, q);
    }
  }

  lemma RemoveMiss(es: seq<Entry>, k: Key, q: Key, i: nat)
    requires EntriesSorted(es) && (q == k || !Found(es, q)) && i < |Remove(es, k)|
    ensures Remove(es, k)[i].key != q
  {
    var j := if Found(es, k) && Slot(es, k) <= i then i + 1 else i;
    if Found(es, k) { DroppedAt(es, Slot(es, k), i); }
    LookupHit(es, j);
  }

  lemma DroppedAt<T>(s: seq<T>, p: nat, i: nat)
    requires p < |s| && i + 1 < |s|
    ensures (s[..p] + s[p + 1..])[i] == s[if i < p then i else i + 1]
  {
  }

  lemma RemoveMiddle(a: seq<Entry>, m: seq<Entry>, b: seq<Entry>, k: Key)
    requires EntriesSorted(a + m + b) && EntriesSorted(m) && Between(a, k, b)
    ensures Remove(a + m + b, k) == a + Remove(m, k) + b
  {
    SlotMiddle(a, m, b, k);
    if Found(m, k) { DropMiddle(a, m, b, Slot(m, k)); }
  }

  /** The child a key belongs to has its entries between those of the children before and after it. */
  lemma RouteBetween(cap: nat, ks: seq<Key>, cs: seq<BT>, h: nat, hi: Bound, i: nat, k: Key)
    requires Kids(cap, ks, cs, h, hi) && i < |cs|
    requires i > 0 ==> ks[i] <= k
    requires i + 1 < |ks| ==> k < ks[i + 1]
    ensures Between(FlatAll(cs[..i]), k, FlatAll(cs[i + 1..]))
    ensures FlatAll(cs) == FlatAll(cs[..i]) + Flat(cs[i]) + FlatAll(cs[i + 1..])
    ensures EntriesSorted(FlatAll(cs)) && EntriesSorted(Flat(cs[i]))
  {
    FlatAround(cs, i);
    BelowKid(cap, ks, cs, h, hi, i, k);
    AboveKid(cap, ks, cs, h, hi, i, k);
    KidsSorted(cap, ks, cs, h, hi, i);
  }

  lemma BelowKid(cap: nat, ks: seq<Key>, cs: seq<BT>, h: nat, hi: Bound, i: nat, k: Key)
    requires Kids(cap, ks, cs, h, hi) && i < |cs| && (i > 0 ==> ks[i] <= k)
    ensures forall j {:trigger FlatAll(cs[..i])[j]} :: 0 <= j < |FlatAll(cs[..i])| ==> FlatAll(cs[..i])[j].key < k
  {
    FlatTo(cap, ks, cs, h, hi, i);
    if i == 0 { assert cs[..i] == []; }
  }

  lemma AboveKid(cap: nat, ks: seq<Key>, cs: seq<BT>, h: nat, hi: Bound, i: nat, k: Key)
    requires Kids(cap, ks, cs, h, hi) && i < |cs| && (i + 1 < |ks| ==> k < ks[i + 1])
    ensures forall j {:trigger FlatAll(cs[i + 1..])[j]} ::
              0 <= j < |FlatAll(cs[i + 1..])| ==> k < FlatAll(cs[i + 1..])[j].key
  {
    if i + 1 < |cs| { FlatFrom(cap, ks, cs, h, hi, i + 1); } else { assert cs[i + 1..] == []; }
  }

  lemma KidsSorted(cap: nat, ks: seq<Key>, cs: seq<BT>, h: nat, hi: Bound, i: nat)
    requires Kids(cap, ks, cs, h, hi) && i < |cs|
    ensures EntriesSorted(FlatAll(cs)) && EntriesSorted(Flat(cs[i]))
  {
    FlatFrom(cap, ks, cs, h, hi, 0);
    assert cs[0..] == cs;
    assert Kid(cap, ks, cs, h, hi, i);
    FlatSorted(cap, cs[i], h - 1, At(ks[i]), HiOf(ks, hi, i), cap / 2);
  }

  // ---------- search ----------

  function Search(t: BT, k: Key): Option<Val> {
    match t
    case Tip(_, es, _) => Lookup(es, k)
    case Fork(ks, cs) =>
      var i := Locate(ks, k);
      if i < 0 || i >= |cs| then None else Search(cs[i], k)
  }

  lemma RouteLookup(cap: nat, ks: seq<Key>, cs: seq<BT>, h: nat, hi: Bound, k: Key)
    requires Kids(cap, ks, cs, h, hi)
    ensures var i := Locate(ks, k); Lookup(FlatAll(cs), k) == if i < 0 then None else Lookup(Flat(cs[i]), k)
  {
    var i := Locate(ks, k);
    if i < 0 {
      FlatFrom(cap, ks, cs, h, hi, 0);
      assert cs[0..] == cs;
      LookupMiss(FlatAll(cs), k);
    } else {
      RouteBetween(cap, ks, cs, h, hi, i, k);
      LookupMiddle(FlatAll(cs[..i]), Flat(cs[i]), FlatAll(cs[i + 1..]), k);
    }
  }

  /** Search finds exactly what the tree contains. */
  lemma {:induction false} SearchIsLookup(cap: nat, t: BT, h: nat, lo: Bound, hi: Bound, min: nat, k: Key)
    requires WF(cap, t, h, lo, hi, min)
    ensures Search(t, k) == Lookup(Flat(t), k)
    decreases h
  {
    if t.Fork? {
      RouteLookup(cap, t.keys, t.kids, h, hi, k);
      var i := Locate(t.keys, k);
      if i >= 0 {
        assert Kid(cap, t.keys, t.kids, h, hi, i);
        SearchIsLookup(cap, t.kids[i], h - 1, At(t.keys[i]), HiOf(t.keys, hi, i), cap / 2, k);
      }
    }
  }
}
