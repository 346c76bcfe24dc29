/** The iterator of a range search walks the chain of leaves. */
module SeqIterator {
  import opened Nodes
  import opened TreeState
  import opened SeqTree
  import opened SeqInsert
  import opened SeqDelete
  import opened SeqChain
  import opened SeqRange
  import opened BPlusTree

  // ---------- what a scan returns ----------

  /** The entries from position `p` on, up to the first above the bound. */
  function Scan(es: seq<Entry>, p: nat, bounded: bool, high: Key): seq<Entry>
    decreases |es| - p
  {
    if p >= |es| || (bounded && high < es[p].key) then [] else [es[p]] + Scan(es, p + 1, bounded, high)
  }

  lemma {:induction false} ScanStops(es: seq<Entry>, p: nat, high: Key)
    requires EntriesSorted(es) && p <= |es|
    ensures Scan(es, p, true, high) == Slice(es, p, Slot(es, high + 1))
    decreases |es| - p
  {
    var q := Slot(es, high + 1);
    if p < |es| && es[p].key <= high {
      ScanStops(es, p + 1, high);
      assert es[p..q] == [es[p]] + es[p + 1..q];
    }
  }

  /** A scan from the first entry not below `low` returns exactly the entries with low <= key <= high, in order. */
  lemma ScanIsRange(es: seq<Entry>, low: Key, high: Key)
    requires EntriesSorted(es)
    ensures var r := Scan(es, Slot(es, low), true, high);
            && EntriesSorted(r) && (forall e :: e in r <==> e in es && low <= e.key <= high)
  {
    var p, q := Slot(es, low), Slot(es, high + 1);
    ScanStops(es, p, high);
    SliceIs(es, p, q, low, high, Slice(es, p, q));
  }

  function Slice(es: seq<Entry>, p: nat, q: nat): seq<Entry>
    requires q <= |es|
  {
    if p <= q then es[p..q] else []
  }

  lemma SliceSorted(es: seq<Entry>, p: nat, q: nat)
    requires EntriesSorted(es) && q <= |es|
    ensures EntriesSorted(Slice(es, p, q))
  {
  }

  lemma SliceIs(es: seq<Entry>, p: nat, q: nat, low: Key, high: Key, r: seq<Entry>)
    requires EntriesSorted(es) && p == Slot(es, low) && q == Slot(es, high + 1) && r == Slice(es, p, q)
    ensures EntriesSorted(r) && forall e :: e in r <==> e in es && low <= e.key <= high
  {
    SliceSorted(es, p, q);
    forall e ensures e in r <==> e in es && low <= e.key <= high { SliceHas(es, p, q, low, high, e); }
  }

  lemma SliceHas(es: seq<Entry>, p: nat, q: nat, low: Key, high: Key, e: Entry)
    requires EntriesSorted(es) && p == Slot(es, low) && q == Slot(es, high + 1)
    ensures e in Slice(es, p, q) <==> e in es && low <= e.key <= high
  {
    if e in Slice(es, p, q) { InSlice(es, p, q, low, high, e); }
    else if e in es && low <= e.key <= high { IntoSlice(es, p, q, low, high, e); }
  }

  lemma InSlice(es: seq<Entry>, p: nat, q: nat, low: Key, high: Key, e: Entry)
    requires EntriesSorted(es) && p == Slot(es, low) && q == Slot(es, high + 1) && p <= q && e in es[p..q]
    ensures e in es && low <= e.key <= high
  {
    var i :| 0 <= i < q - p && es[p..q][i] == e;
    assert es[p + i] == e && (i > 0 ==> es[p].key < es[p + i].key);
  }

  lemma IntoSlice(es: seq<Entry>, p: nat, q: nat, low: Key, high: Key, e: Entry)
    requires EntriesSorted(es) && p == Slot(es, low) && q == Slot(es, high + 1) && e in es && low <= e.key <= high
    ensures p <= q && e in es[p..q]
  {
    var i :| 0 <= i < |es| && es[i] == e;
    assert p <= i < q;
    assert es[p..q][i - p] == e;
  }

  // ---------- positions ----------

  lemma EntriesUpTo(ls: seq<BT>, j: nat)
    requires AllTips(ls) && j < |ls|
    ensures AllTips(ls[..j]) && AllTips(ls[..j + 1])
    ensures Entries(ls[..j + 1]) == Entries(ls[..j]) + ls[j].entries
  {
    EntriesCat(ls[..j], [ls[j]]);
    assert ls[..j] + [ls[j]] == ls[..j + 1];
    assert [ls[j]][1..] == [];
  }

  lemma EntryAt(ls: seq<BT>, j: nat, o: nat)
    requires AllTips(ls) && j < |ls| && o < |ls[j].entries|
    ensures AllTips(ls[..j]) && |Entries(ls[..j])| + o < |Entries(ls)|
    ensures Entries(ls)[|Entries(ls[..j])| + o] == ls[j].entries[o]
  {
    EntriesUpTo(ls, j);
    EntriesCat(ls[..j + 1], ls[j + 1..]);
    assert ls[..j + 1] + ls[j + 1..] == ls;
  }

  // ---------- the leaf blocks ----------

  function Blocks(ls: seq<BT>): map<nat, BT> {
    if ls == [] then map[] else Blocks(ls[1..])[TagOf(ls[0]).addr := ls[0]]
  }

  lemma {:induction false} BlockAt(ls: seq<BT>, i: nat)
    requires Distinct(TagsOf(ls)) && i < |ls|
    ensures TagOf(ls[i]).addr in Blocks(ls) && Blocks(ls)[TagOf(ls[i]).addr] == ls[i]
  {
    if i > 0 {
      assert Differ(TagsOf(ls), 0, i);
      forall j, m | 0 <= j < m < |ls[1..]| ensures Differ(TagsOf(ls[1..]), j, m) {
        assert Differ(TagsOf(ls), j + 1, m + 1);
      }
      BlockAt(ls[1..], i - 1);
    }
  }

  // ---------- the iterator ----------

  class Iterator {
    ghost const ls: seq<BT>
    const blocks: map<nat, BT>
    const bounded: bool
    const high: Key
    var leaf: nat
    var offset: nat
    ghost var at: nat

    ghost predicate Valid()
      reads this
    {
      && AllTips(ls) && Chain(TagsOf(ls)) && blocks == Blocks(ls)
      && at < |ls| && leaf == ls[at].addr && offset <= |ls[at].entries|
    }

    /** The position of the iterator among all entries. */
    ghost function Place(): nat
      reads this
      requires Valid()
    {
      |Entries(ls[..at])| + offset
    }

    constructor (t: BT, leaf: nat, offset: nat, bounded: bool, high: Key, ghost at: nat, ghost p: nat)
      requires Chain(TagsOf(Tips(t))) && Points(Tips(t), at, leaf, offset, p)
      ensures Valid() && ls == Tips(t) && this.bounded == bounded && this.high == high && Place() == p
    {
      ls, blocks := Tips(t), Blocks(Tips(t));
      this.leaf, this.offset, this.bounded, this.high, this.at := leaf, offset, bounded, high, at;
    }

    /** The next entry and whether it is within the bound; false as well once there are no more entries. */
    method Next() returns (more: bool, e: Entry)
      requires Valid()
      modifies this
      ensures Valid()
      ensures var es, p := Entries(ls), old(Place());
              if p < |es| then e == es[p] && Place() == p + 1 && more == (!bounded || es[p].key <= high)
              else !more && p == |es| == Place()
      decreases |ls| - at
    {
      BlockAt(ls, at);
      EntriesUpTo(ls, at);
      var node := blocks[leaf];
      if offset < |node.entries| {
        EntryAt(ls, at, offset);
        e := node.entries[offset];
        offset := offset + 1;
        more := !bounded || e.key <= high;
      } else if node.next != -1 {
        assert LinkAt(TagsOf(ls), at);
        leaf, offset, at := node.next, 0, at + 1;
        more, e := Next();
      } else {
        assert LinkAt(TagsOf(ls), at);
        assert ls[..at + 1] == ls;
        more, e := false, Entry(0, 0);
      }
    }
  }

  lemma ScanOne(out: seq<Entry>, es: seq<Entry>, p: nat, bounded: bool, high: Key)
    requires p < |es| && (!bounded || es[p].key <= high)
    ensures out + Scan(es, p, bounded, high) == (out + [es[p]]) + Scan(es, p + 1, bounded, high)
  {
  }

  /** What `next` has returned and what is left of the scan. */
  ghost predicate Remains(es: seq<Entry>, p: nat, bounded: bool, high: Key, more: bool, e: Entry) {
    if more then p < |es| && e == es[p] && (!bounded || e.key <= high) else Scan(es, p, bounded, high) == []
  }

  /** Calling `next` up to the first false. */
  method Drain(it: Iterator) returns (out: seq<Entry>)
    requires it.Valid()
    modifies it
    ensures out == Scan(Entries(it.ls), old(it.Place()), it.bounded, it.high)
  {
    out := [];
    ghost var es, p := Entries(it.ls), it.Place();
    ghost var all := Scan(es, p, it.bounded, it.high);
    var more, e := it.Next();
    while more
      invariant it.Valid() && Remains(es, p, it.bounded, it.high, more, e) && (more ==> it.Place() == p + 1)
      invariant out + Scan(es, p, it.bounded, it.high) == all
      decreases |es| - p, more
    {
      ScanOne(out, es, p, it.bounded, it.high);
      out := out + [e];
      p := p + 1;
      more, e := it.Next();
    }
  }

  /** `range_search`. An iterator exactly if the search for `low` reaches a leaf: the root is a leaf, or `low` is not
      below its first key. It starts at the first entry not below `low`. */
  method RangeSearch(tree: VanillaTree, low: Key, high: Key) returns (it: Iterator?)
    requires tree.Valid()
    ensures it != null <==> tree.root.Tip? || tree.root.keys[0] <= low
    ensures it != null ==> fresh(it) && it.Valid() && Entries(it.ls) == Flat(tree.root) && it.bounded && it.high == high
                           && it.Place() == Slot(Flat(tree.root), low)
  {
    ghost var min := if tree.root.Fork? then 2 else 0;
    ghost var j := LocateKeyOk(tree.cap, tree.root, tree.depth, NegInf, PosInf, min, low);
    FlatIsEntries(tree.root);
    it := null;
    match LocateKey(tree.root, low) {
      case None =>
      case Some(at) => it := new Iterator(tree.root, at.0, at.1, true, high, j, Slot(Flat(tree.root), low));
    }
  }

  /** Draining a range search returns exactly the entries within the range, in ascending order. */
  method ReadRange(tree: VanillaTree, low: Key, high: Key) returns (out: seq<Entry>)
    requires tree.Valid() && (tree.root.Tip? || tree.root.keys[0] <= low)
    ensures EntriesSorted(out) && forall e :: e in out <==> e in Flat(tree.root) && low <= e.key <= high
  {
    var it := RangeSearch(tree, low, high);
    out := Drain(it);
    FlatSorted(tree.cap, tree.root, tree.depth, NegInf, PosInf, if tree.root.Fork? then 2 else 0);
    ScanIsRange(Flat(tree.root), low, high);
  }
}
