/** Node images and the pure node operations shared by the sequential and the pull-based tree.

    A block holds either a leaf (sorted entries and the address of the right sibling, -1 for none)
    or an inner node (`key_` and `child_rep_`, of equal length; `key_[0]` bounds the first child). */
module Nodes {
  type Key = int
  type Val = int
  type Addr = nat

  datatype Option<+T> = None | Some(value: T)

  datatype Entry = Entry(key: Key, val: Val)

  datatype Node =
    | Leaf(entries: seq<Entry>, next: int)
    | Inner(keys: seq<Key>, kids: seq<Addr>)

  ghost predicate Sorted(ks: seq<Key>) {
    forall i, j :: 0 <= i < j < |ks| ==> ks[i] < ks[j]
  }

  ghost predicate EntriesSorted(es: seq<Entry>) {
    forall i, j :: 0 <= i < j < |es| ==> es[i].key < es[j].key
  }

  /** Open a slot at position `p` and store `x` there. */
  function InsertAt<T>(s: seq<T>, p: nat, x: T): (r: seq<T>)
    requires p <= |s|
    ensures |r| == |s| + 1 && r[p] == x
    ensures forall i :: 0 <= i < p ==> r[i] == s[i]
    ensures forall i :: p < i < |r| ==> r[i] == s[i - 1]
  {
    s[..p] + [x] + s[p..]
  }

  /** The child a key belongs to: the last index whose key is at most `k`, or -1. */
  function Locate(ks: seq<Key>, k: Key): (i: int)
    ensures -1 <= i < |ks|
    ensures i >= 0 ==> ks[i] <= k
    ensures forall j :: i < j < |ks| ==> k < ks[j]
  {
    if |ks| == 0 then -1
    else if ks[|ks| - 1] <= k then |ks| - 1
    else Locate(ks[..|ks| - 1], k)
  }

  /** The first position whose entry is not below `k`. */
  function Slot(es: seq<Entry>, k: Key): (p: nat)
    ensures p <= |es|
    ensures p < |es| ==> k <= es[p].key
    ensures forall j :: 0 <= j < p ==> es[j].key < k
  {
    if |es| == 0 || k <= es[0].key then 0
    else 1 + Slot(es[1..], k)
  }

  predicate Found(es: seq<Entry>, k: Key) {
    var p := Slot(es, k);
    p < |es| && es[p].key == k
  }

  function Lookup(es: seq<Entry>, k: Key): Option<Val> {
    if Found(es, k) then Some(es[Slot(es, k)].val) else None
  }

  /** Update the entry of `k`, or insert one in order. */
  function Put(es: seq<Entry>, k: Key, v: Val): (r: seq<Entry>)
    ensures |r| == if Found(es, k) then |es| else |es| + 1
  {
    if Found(es, k) then es[Slot(es, k) := Entry(k, v)]
    else InsertAt(es, Slot(es, k), Entry(k, v))
  }

  lemma LookupHit(es: seq<Entry>, i: nat)
    requires EntriesSorted(es) && i < |es|
    ensures Slot(es, es[i].key) == i
    ensures Lookup(es, es[i].key) == Some(es[i].val)
  {
    assert Slot(es, es[i].key) <= i;
  }

  lemma LookupMiss(es: seq<Entry>, k: Key)
    requires forall i :: 0 <= i < |es| ==> es[i].key != k
    ensures Lookup(es, k) == None && !Found(es, k)
  {
  }

  lemma PutSorted(es: seq<Entry>, k: Key, v: Val)
    requires EntriesSorted(es)
    ensures EntriesSorted(Put(es, k, v))
  {
  }

  /** `Put` changes exactly the binding of `k`. */
  lemma PutLookup(es: seq<Entry>, k: Key, v: Val, q: Key)
    requires EntriesSorted(es)
    ensures Lookup(Put(es, k, v), q) == if q == k then Some(v) else Lookup(es, q)
  {
    var r, p := Put(es, k, v), Slot(es, k);
    PutSorted(es, k, v);
    if q == k {
      LookupHit(r, p);
    } else if Found(es, q) {
      var j := Slot(es, q);
      LookupHit(r, if j < p || Found(es, k) then j else j + 1);
    } else {
      forall i | 0 <= i < |r| ensures r[i].key != q { PutMiss(es, k, v, q, i); }
      LookupMiss(r, q);
    }
  }

  lemma PutMiss(es: seq<Entry>, k: Key, v: Val, q: Key, i: nat)
    requires EntriesSorted(es) && q != k && !Found(es, q) && i < |Put(es, k, v)|
    ensures Put(es, k, v)[i].key != q
  {
    var p := Slot(es, k);
    if i != p {
      var j := if i < p || Found(es, k) then i else i - 1;
      assert Put(es, k, v)[i] == es[j];
      LookupHit(es, j);
    }
  }

  /** The two halves of a full leaf after the new entry has gone to its half. */
  function SplitPut(es: seq<Entry>, k: Key, v: Val, cap: nat): (r: (seq<Entry>, seq<Entry>))
    requires cap <= |es|
  {
    var h := cap / 2;
    if Slot(es, k) < h then (Put(es[..h], k, v), es[h..])
    else (es[..h], Put(es[h..], k, v))
  }

  lemma SlotUnique(es: seq<Entry>, k: Key, p: nat)
    requires p <= |es|
    requires p < |es| ==> k <= es[p].key
    requires forall j :: 0 <= j < p ==> es[j].key < k
    requires EntriesSorted(es)
    ensures Slot(es, k) == p
  {
  }

  lemma InsertLow<T>(s: seq<T>, p: nat, x: T, h: nat)
    requires p <= h <= |s|
    ensures InsertAt(s[..h], p, x) + s[h..] == InsertAt(s, p, x)
  {
  }

  lemma InsertHigh<T>(s: seq<T>, p: nat, x: T, h: nat)
    requires h <= p <= |s|
    ensures s[..h] + InsertAt(s[h..], p - h, x) == InsertAt(s, p, x)
  {
  }

  lemma SplitLow(es: seq<Entry>, k: Key, v: Val, h: nat)
    requires EntriesSorted(es) && !Found(es, k) && h <= |es| && Slot(es, k) < h
    ensures !Found(es[..h], k) && Put(es[..h], k, v) + es[h..] == Put(es, k, v)
  {
    SlotUnique(es[..h], k, Slot(es, k));
    InsertLow(es, Slot(es, k), Entry(k, v), h);
  }

  lemma SplitHigh(es: seq<Entry>, k: Key, v: Val, h: nat)
    requires EntriesSorted(es) && !Found(es, k) && h <= |es| && h <= Slot(es, k)
    ensures !Found(es[h..], k) && es[..h] + Put(es[h..], k, v) == Put(es, k, v)
  {
    SlotUnique(es[h..], k, Slot(es, k) - h);
    InsertHigh(es, Slot(es, k), Entry(k, v), h);
  }

  /** Splitting only cuts the sequence that `Put` would have produced. */
  lemma SplitPutIsPut(es: seq<Entry>, k: Key, v: Val, cap: nat)
    requires EntriesSorted(es) && !Found(es, k) && 2 <= cap == |es|
    ensures var (l, r) := SplitPut(es, k, v, cap);
            && l + r == Put(es, k, v)
            && 1 <= |l| <= cap && 1 <= |r| <= cap
  {
    if Slot(es, k) < cap / 2 {
      SplitLow(es, k, v, cap / 2);
    } else {
      SplitHigh(es, k, v, cap / 2);
    }
  }

  lemma CutSlot(es: seq<Entry>, c: nat, q: Key)
    requires EntriesSorted(es) && c < |es|
    ensures q < es[c].key ==> Slot(es[..c], q) == Slot(es, q) <= c
    ensures es[c].key <= q ==> Slot(es[c..], q) == Slot(es, q) - c
  {
    var p := Slot(es, q);
    if q < es[c].key {
      SlotUnique(es[..c], q, p);
    } else {
      forall j | 0 <= j < c ensures es[j].key < q { assert es[j].key < es[c].key; }
      SlotUnique(es[c..], q, p - c);
    }
  }

  lemma CutSorted(l: seq<Entry>, r: seq<Entry>)
    requires EntriesSorted(l + r)
    ensures EntriesSorted(l) && EntriesSorted(r)
  {
    assert l == (l + r)[..|l|] && r == (l + r)[|l|..];
  }

  lemma CutSlots(l: seq<Entry>, r: seq<Entry>, q: Key)
    requires EntriesSorted(l + r) && r != []
    ensures q < r[0].key ==> Slot(l, q) == Slot(l + r, q) <= |l|
    ensures r[0].key <= q ==> Slot(r, q) == Slot(l + r, q) - |l|
  {
    var es := l + r;
    assert l == es[..|l|] && r == es[|l|..];
    CutSlot(es, |l|, q);
  }

  /** Cutting a sorted sequence in two cuts its lookup at the first key of the right half. */
  lemma CutLookup(l: seq<Entry>, r: seq<Entry>, q: Key)
    requires EntriesSorted(l + r) && r != []
    ensures EntriesSorted(l) && EntriesSorted(r)
    ensures Lookup(l + r, q) == if q < r[0].key then Lookup(l, q) else Lookup(r, q)
  {
    CutSorted(l, r);
    CutSlots(l, r, q);
    var p := Slot(l + r, q);
    assert p < |l| ==> (l + r)[p] == l[p];
    assert |l| <= p < |l| + |r| ==> (l + r)[p] == r[p - |l|];
  }

  /** Split a full list of keys or children in the middle and insert `x` after position `pos` of the half holding it. */
  function SplitInsert<T>(s: seq<T>, pos: nat, x: T, h: nat): (r: (seq<T>, seq<T>))
    requires pos < |s| && h <= |s|
  {
    if pos < h then (InsertAt(s[..h], pos + 1, x), s[h..])
    else (s[..h], InsertAt(s[h..], pos - h + 1, x))
  }

  /** ... which again only cuts the list with `x` inserted. */
  lemma SplitInsertIsCut<T>(s: seq<T>, pos: nat, x: T, h: nat)
    requires pos < |s| && h <= |s|
    ensures var c := if pos < h then h + 1 else h;
            var all := InsertAt(s, pos + 1, x);
            SplitInsert(s, pos, x, h) == (all[..c], all[c..])
  {
    var c := if pos < h then h + 1 else h;
    var all := InsertAt(s, pos + 1, x);
    if pos < h {
      InsertLow(s, pos + 1, x, h);
    } else {
      InsertHigh(s, pos + 1, x, h);
    }
    var (l, r) := SplitInsert(s, pos, x, h);
    assert l + r == all && |l| == c;
    assert l == all[..c] && r == all[c..];
  }

  /** Searching a half for the boundary finds the position of the child that was split. */
  lemma LocateInHalf(ks: seq<Key>, pos: nat, b: Key, h: nat)
    requires Sorted(ks) && pos < |ks| && h <= |ks| && ks[pos] < b
    requires pos + 1 < |ks| ==> b < ks[pos + 1]
    ensures pos < h ==> Locate(ks[..h], b) == pos
    ensures h <= pos ==> Locate(ks[h..], b) == pos - h
  {
    LocateUnique(if pos < h then ks[..h] else ks[h..], b, if pos < h then pos else pos - h);
  }

  lemma LocateUnique(ks: seq<Key>, k: Key, i: int)
    requires -1 <= i < |ks|
    requires i >= 0 ==> ks[i] <= k
    requires i + 1 < |ks| ==> k < ks[i + 1]
    requires Sorted(ks)
    ensures Locate(ks, k) == i
  {
    assert Locate(ks, k) <= i;
  }
}
