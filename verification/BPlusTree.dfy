/** The tree object: root and height, changed by insertions and deletions, and the iterator of a range search. */
module BPlusTree {
  import opened Nodes
  import opened TreeState
  import opened SeqTree
  import opened SeqInsert
  import opened SeqDelete
  import opened SeqChain
  import opened SeqRange

  // ---------- the root ----------

  /** A whole tree: an inner root has at least two children. */
  ghost predicate WholeTree(cap: nat, t: BT, depth: nat) {
    && Even(cap) && WF(cap, t, depth, NegInf, PosInf, if t.Fork? then 2 else 0)
    && Chain(TagsOf(Tips(t))) && Snug(t)
  }

  /** The address is not used by any leaf. */
  ghost predicate Unused(t: BT, a: nat) {
    forall i {:trigger Tips(t)[i]} :: 0 <= i < |Tips(t)| ==> TagOf(Tips(t)[i]).addr != a
  }

  predicate Filled(t: BT) {
    if t.Tip? then |t.entries| > 0 else |t.keys| > 0
  }

  /** `get_leftmost_key`. */
  function First(t: BT): Key
    requires Filled(t)
  {
    if t.Tip? then t.entries[0].key else t.keys[0]
  }

  /** The boundary of a split is the first key of the right half. */
  lemma BoundaryIsFirst(cap: nat, t: BT, h: nat, lo: Bound, hi: Bound, min: nat, k: Key, v: Val, spare: nat)
    requires Even(cap) && WF(cap, t, h, lo, hi, min) && Shaped(t) && Above(lo, k) && Below(k, hi) && Snug(t)
    requires Insert(cap, t, k, v, spare).Two?
    ensures var r := Insert(cap, t, k, v, spare);
            && Filled(r.right) && First(r.right) == r.key
            && Filled(r.left) && First(r.left) < r.key
  {
    InsertOk(cap, t, h, lo, hi, min, k, v, spare);
    InsertSnug(cap, t, h, lo, hi, min, k, v, spare);
    if t.Tip? { TipBoundary(cap, t, k, v, spare); }
  }

  lemma TipBoundary(cap: nat, t: BT, k: Key, v: Val, spare: nat)
    requires t.Tip? && 2 <= cap && Insert(cap, t, k, v, spare).Two?
    ensures var r := Insert(cap, t, k, v, spare);
            r.right.Tip? && |r.right.entries| > 0 && r.right.entries[0].key == r.key && r.left.Tip?
  {
  }

  /** A new root over two halves. */
  function Grown(r: Ins): BT
    requires r.Two? && Filled(r.left)
    requires Filled(r.right)
  {
    Fork([First(r.left), First(r.right)], [r.left, r.right])
  }

  function NewRoot(r: Ins): BT
    requires r.Two? ==> Filled(r.left) && Filled(r.right)
  {
    match r
    case One(t) => t
    case Two(_, _, _) => Grown(r)
  }

  lemma GrownWF(cap: nat, r: Ins, h: nat, es: seq<Entry>)
    requires Even(cap) && r.Two? && InsOk(cap, r, h, NegInf, PosInf, 0, es)
    requires Filled(r.right) && First(r.right) == r.key
    requires Filled(r.left) && First(r.left) < r.key
    ensures WF(cap, Grown(r), h + 1, NegInf, PosInf, 2) && Flat(Grown(r)) == es && Tips(Grown(r)) == InsTips(r)
  {
    var t := Grown(r);
    FirstIsLow(cap, r.left, h, At(r.key));
    assert Kid(cap, t.keys, t.kids, h + 1, PosInf, 0);
    assert Kid(cap, t.keys, t.kids, h + 1, PosInf, 1);
    assert [r.left, r.right] == ([] + [r.left]) + ([r.right] + []);
    Four([], r.left, r.right, []);
    TipsFour([], r.left, r.right, []);
  }

  lemma FirstIsLow(cap: nat, t: BT, h: nat, hi: Bound)
    requires WF(cap, t, h, NegInf, hi, cap / 2) && Filled(t)
    ensures WF(cap, t, h, At(First(t)), hi, cap / 2)
  {
  }

  // ---------- one insertion ----------

  lemma InsertChain(t: BT, ts': seq<Tag>, spare: nat)
    requires Chain(TagsOf(Tips(t))) && Unused(t, spare) && Inserts(TagsOf(Tips(t)), ts', spare)
    ensures Chain(ts')
  {
    var ts := TagsOf(Tips(t));
    if ts' != ts {
      var i :| 0 <= i < |ts| && ts' == SplitTag(ts, i, spare);
      forall j | 0 <= j < |ts| ensures ts[j].addr != spare { assert ts[j] == TagOf(Tips(t)[j]); }
      ChainSplit(ts, i, spare);
    }
  }

  /** All that is known of the outcome `r` of an insertion at the root. */
  ghost predicate Outcome(cap: nat, t: BT, depth: nat, r: Ins, es: seq<Entry>) {
    && Even(cap) && InsOk(cap, r, depth, NegInf, PosInf, if t.Fork? then 2 else 0, es) && Chain(TagsOf(InsTips(r)))
    && (r.One? ==> Snug(r.t) && r.t.Fork? == t.Fork?)
    && (r.Two? ==> Snug(r.left) && Snug(r.right) && Filled(r.left) && Filled(r.right)
                   && First(r.right) == r.key && First(r.left) < r.key)
  }

  lemma InsertFacts(cap: nat, t: BT, depth: nat, k: Key, v: Val, spare: nat) returns (r: Ins)
    requires WholeTree(cap, t, depth) && Unused(t, spare) && Shaped(t)
    ensures r == Insert(cap, t, k, v, spare) && Outcome(cap, t, depth, r, Put(Flat(t), k, v))
  {
    var min := if t.Fork? then 2 else 0;
    r := Insert(cap, t, k, v, spare);
    InsertOk(cap, t, depth, NegInf, PosInf, min, k, v, spare);
    InsertSnug(cap, t, depth, NegInf, PosInf, min, k, v, spare);
    InsertLinks(cap, t, depth, NegInf, PosInf, min, k, v, spare);
    InsertChain(t, TagsOf(InsTips(r)), spare);
    if r.Two? { BoundaryIsFirst(cap, t, depth, NegInf, PosInf, min, k, v, spare); }
  }

  lemma NewRootOk(cap: nat, t: BT, depth: nat, r: Ins, es: seq<Entry>) returns (t': BT, depth': nat)
    requires Outcome(cap, t, depth, r, es)
    ensures t' == NewRoot(r) && depth' == depth + (if r.Two? then 1 else 0)
    ensures WholeTree(cap, t', depth') && Flat(t') == es
  {
    t', depth' := NewRoot(r), depth + (if r.Two? then 1 else 0);
    if r.Two? { GrownWF(cap, r, depth, es); }
  }

  // ---------- one deletion ----------

  /** An inner root left with a single child gives way to it. */
  function Collapsed(d: Del): BT
    requires Square(d.t)
  {
    if d.underflow && d.t.Fork? && |d.t.keys| == 1 then d.t.kids[0] else d.t
  }

  lemma DeleteChain(t: BT, ts': seq<Tag>)
    requires Chain(TagsOf(Tips(t))) && Deletes(TagsOf(Tips(t)), ts')
    ensures Chain(ts')
  {
    var ts := TagsOf(Tips(t));
    if ts' != ts {
      var i :| 0 <= i && i + 1 < |ts| && ts' == MergeTag(ts, i);
      ChainMerge(ts, i);
    }
  }

  lemma CollapseRoot(cap: nat, t: BT, h: nat)
    requires Even(cap) && t.Fork? && |t.keys| == 1 == |t.kids| && WF(cap, t, h, NegInf, PosInf, 0) && Snug(t)
    ensures var c := t.kids[0];
            && WF(cap, c, h - 1, NegInf, PosInf, if c.Fork? then 2 else 0) && Snug(c)
            && Flat(c) == Flat(t) && Tips(c) == Tips(t)
  {
    var c := t.kids[0];
    assert Kid(cap, t.keys, t.kids, h, PosInf, 0);
    SetMin(cap, c, h - 1, At(t.keys[0]), PosInf, cap / 2, if c.Fork? then 2 else 0);
    LowerLo(cap, c, h - 1, At(t.keys[0]), PosInf, if c.Fork? then 2 else 0, NegInf);
    assert t.kids == [c];
    FlatOne(c);
    TipsOne(c);
  }

  lemma DeleteRoot(cap: nat, t: BT, depth: nat, k: Key) returns (t': BT, depth': nat)
    requires WholeTree(cap, t, depth) && Shaped(t)
    ensures t' == Collapsed(Delete(cap, t, k)) && WholeTree(cap, t', depth') && Flat(t') == Remove(Flat(t), k)
    ensures var d := Delete(cap, t, k);
            && depth' == (if d.underflow && d.t.Fork? && |d.t.keys| == 1 then depth - 1 else depth)
            && d.deleted == Found(Flat(t), k) && Square(d.t)
  {
    var min := if t.Fork? then 2 else 0;
    var d := Delete(cap, t, k);
    SetMin(cap, t, depth, NegInf, PosInf, min, 0);
    DeleteOk(cap, t, depth, NegInf, PosInf, min, k);
    DeleteSnug(cap, t, k);
    DeleteLinks(cap, t, k);
    DeleteChain(t, TagsOf(Tips(d.t)));
    if d.underflow && d.t.Fork? && |d.t.keys| == 1 {
      CollapseRoot(cap, d.t, depth);
      t', depth' := d.t.kids[0], depth - 1;
    } else {
      t', depth' := d.t, depth;
      SetMin(cap, d.t, depth, NegInf, PosInf, 0, min);
    }
  }

  // ---------- how full a tree of a given height is ----------

  function Power(b: nat, n: nat): nat {
    if n == 0 then 1 else b * Power(b, n - 1)
  }

  lemma {:induction false} FullEnough(cap: nat, t: BT, h: nat, lo: Bound, hi: Bound, min: nat)
    requires WF(cap, t, h, lo, hi, min)
    ensures |Flat(t)| >= min * Power(cap / 2, h - 1)
    decreases h, 0
  {
    if t.Fork? {
      AllFull(cap, t.keys, t.kids, h, hi, 0);
      assert t.kids[0..] == t.kids;
      MulLess(min, |t.kids|, Power(cap / 2, h - 1));
    }
  }

  lemma {:induction false} AllFull(cap: nat, ks: seq<Key>, cs: seq<BT>, h: nat, hi: Bound, i: nat)
    requires Kids(cap, ks, cs, h, hi) && i <= |cs|
    ensures |FlatAll(cs[i..])| >= (|cs| - i) * Power(cap / 2, h - 1)
    decreases h - 1, |cs| - i + 1
  {
    if i < |cs| {
      assert Kid(cap, ks, cs, h, hi, i);
      FullEnough(cap, cs[i], h - 1, At(ks[i]), HiOf(ks, hi, i), cap / 2);
      AllFull(cap, ks, cs, h, hi, i + 1);
      assert cs[i..][1..] == cs[i + 1..];
      OneMore(|cs| - i - 1, Power(cap / 2, h - 1));
    }
  }

  lemma MulLess(a: nat, b: nat, p: nat)
    requires a <= b
    ensures a * p <= b * p
  {
  }

  lemma OneMore(n: nat, p: nat)
    ensures (n + 1) * p == n * p + p
  {
  }

  /** A tree of height at least 2 holds at least 2 * (CAPACITY / 2) ^ (depth - 1) keys. */
  lemma DeepIsFull(cap: nat, t: BT, depth: nat)
    requires WholeTree(cap, t, depth) && depth >= 2
    ensures |Flat(t)| >= 2 * Power(cap / 2, depth - 1)
  {
    FullEnough(cap, t, depth, NegInf, PosInf, 2);
  }

  // ---------- the tree object ----------

  /** The tree after an insertion holds what it held before with `k` bound to `v`. */
  ghost predicate Inserted(cap: nat, t: BT, depth: nat, k: Key, v: Val, t': BT, depth': nat) {
    && WholeTree(cap, t', depth') && Shaped(t') && depth <= depth' <= depth + 1 && Flat(t') == Put(Flat(t), k, v)
    && forall q {:trigger Lookup(Flat(t'), q)} :: Lookup(Flat(t'), q) == if q == k then Some(v) else Lookup(Flat(t), q)
  }

  /** At most one leaf is split, and its right half is in the block handed out. */
  lemma LeavesInserted(cap: nat, t: BT, depth: nat, k: Key, v: Val, spare: nat, r: Ins)
    requires WholeTree(cap, t, depth) && Shaped(t) && r == SeqInsert.Insert(cap, t, k, v, spare)
    requires r.Two? ==> Filled(r.left) && Filled(r.right)
    ensures Inserts(TagsOf(Tips(t)), TagsOf(Tips(NewRoot(r))), spare)
  {
    InsertLinks(cap, t, depth, NegInf, PosInf, if t.Fork? then 2 else 0, k, v, spare);
    if r.Two? {
      assert [r.left, r.right] == ([] + [r.left]) + ([r.right] + []);
      TipsFour([], r.left, r.right, []);
    }
  }

  lemma InsertTree(cap: nat, t: BT, depth: nat, k: Key, v: Val, spare: nat) returns (r: Ins, t': BT, depth': nat)
    requires WholeTree(cap, t, depth) && Unused(t, spare) && Shaped(t)
    ensures r == SeqInsert.Insert(cap, t, k, v, spare) && (r.Two? ==> Filled(r.left) && Filled(r.right))
    ensures t' == NewRoot(r) && depth' == depth + (if r.Two? then 1 else 0)
    ensures Inserted(cap, t, depth, k, v, t', depth') && Inserts(TagsOf(Tips(t)), TagsOf(Tips(t')), spare)
  {
    r := InsertFacts(cap, t, depth, k, v, spare);
    t', depth' := AfterOutcome(cap, t, depth, r, k, v);
    LeavesInserted(cap, t, depth, k, v, spare, r);
  }

  lemma AfterOutcome(cap: nat, t: BT, depth: nat, r: Ins, k: Key, v: Val) returns (t': BT, depth': nat)
    requires WholeTree(cap, t, depth) && Outcome(cap, t, depth, r, Put(Flat(t), k, v))
    ensures t' == NewRoot(r) && depth' == depth + (if r.Two? then 1 else 0) && Inserted(cap, t, depth, k, v, t', depth')
  {
    t', depth' := NewRootOk(cap, t, depth, r, Put(Flat(t), k, v));
    WFShaped(cap, t', depth', NegInf, PosInf, if t'.Fork? then 2 else 0);
    FlatSorted(cap, t, depth, NegInf, PosInf, if t.Fork? then 2 else 0);
    forall q ensures Lookup(Flat(t'), q) == if q == k then Some(v) else Lookup(Flat(t), q) {
      PutLookup(Flat(t), k, v, q);
    }
  }

  lemma DeleteTree(cap: nat, t: BT, depth: nat, k: Key) returns (d: Del, t': BT, depth': nat)
    requires WholeTree(cap, t, depth) && Shaped(t)
    ensures d == SeqDelete.Delete(cap, t, k) && t' == Collapsed(d)
    ensures depth' == (if d.underflow && d.t.Fork? && |d.t.keys| == 1 then depth - 1 else depth)
    ensures WholeTree(cap, t', depth') && Shaped(t') && Flat(t') == Remove(Flat(t), k)
    ensures d.deleted == Lookup(Flat(t), k).Some?
    ensures forall q {:trigger Lookup(Flat(t'), q)} ::
              Lookup(Flat(t'), q) == if q == k then None else Lookup(Flat(t), q)
  {
    d := SeqDelete.Delete(cap, t, k);
    t', depth' := DeleteRoot(cap, t, depth, k);
    WFShaped(cap, t', depth', NegInf, PosInf, if t'.Fork? then 2 else 0);
    FlatSorted(cap, t, depth, NegInf, PosInf, if t.Fork? then 2 else 0);
    forall q ensures Lookup(Flat(t'), q) == if q == k then None else Lookup(Flat(t), q) { RemoveLookup(Flat(t), k, q); }
  }

  /** At most two neighbouring leaves are merged. */
  lemma LeavesDeleted(cap: nat, t: BT, k: Key, d: Del)
    requires Shaped(t) && 2 <= cap && d == SeqDelete.Delete(cap, t, k) && Square(d.t)
    ensures Deletes(TagsOf(Tips(t)), TagsOf(Tips(Collapsed(d))))
  {
    DeleteLinks(cap, t, k);
    if d.underflow && d.t.Fork? && |d.t.keys| == 1 {
      assert d.t.kids == [d.t.kids[0]];
      TipsOne(d.t.kids[0]);
    }
  }

  /** What `insert` does, given the root. */
  method InsertAtRoot(cap: nat, t: BT, ghost depth: nat, k: Key, v: Val, spare: nat) returns (t': BT, grown: bool)
    requires WholeTree(cap, t, depth) && Unused(t, spare) && Shaped(t)
    ensures Inserted(cap, t, depth, k, v, t', depth + (if grown then 1 else 0))
    ensures Inserts(TagsOf(Tips(t)), TagsOf(Tips(t')), spare)
  {
    ghost var r0, t0, d0 := InsertTree(cap, t, depth, k, v, spare);
    var r := SeqInsert.Insert(cap, t, k, v, spare);
    assert r == r0;
    t', grown := NewRoot(r), r.Two?;
    assert t' == t0 && d0 == depth + (if grown then 1 else 0);
  }

  class VanillaTree {
    const cap: nat
    var root: BT
    var depth: nat

    ghost predicate Valid()
      reads this
    {
      WholeTree(cap, root, depth) && Shaped(root)
    }

    /** An empty leaf, in the block at address `a`. */
    constructor (cap: nat, a: nat)
      requires Even(cap)
      ensures Valid() && this.cap == cap && Flat(root) == [] && depth == 1
    {
      this.cap := cap;
      root, depth := Tip(a, [], -1), 1;
      new;
      assert TagsOf(Tips(root)) == [Tag(a, -1)];
    }

    /** Bind `k` to `v`, and nothing else. `spare` is the block the allocator would hand out. */
    method Insert(k: Key, v: Val, spare: nat)
      requires Valid() && Unused(root, spare)
      modifies this
      ensures Valid() && Flat(root) == Put(old(Flat(root)), k, v)
      ensures Inserts(old(TagsOf(Tips(root))), TagsOf(Tips(root)), spare)
      ensures forall q :: Lookup(Flat(root), q) == if q == k then Some(v) else old(Lookup(Flat(root), q))
    {
      var t', grown := InsertAtRoot(cap, root, depth, k, v, spare);
      root := t';
      if grown { depth := depth + 1; }
    }

    /** Remove the binding of `k`, and nothing else; say whether there was one. */
    method Delete(k: Key) returns (found: bool)
      requires Valid()
      modifies this
      ensures Valid() && Flat(root) == Remove(old(Flat(root)), k) && found == old(Lookup(Flat(root), k).Some?)
      ensures Deletes(old(TagsOf(Tips(root))), TagsOf(Tips(root)))
      ensures forall q :: Lookup(Flat(root), q) == if q == k then None else old(Lookup(Flat(root), q))
    {
      ghost var d0, t', d' := DeleteTree(cap, root, depth, k);
      var d := SeqDelete.Delete(cap, root, k);
      found := d.deleted;
      LeavesDeleted(cap, root, k, d);
      root := Collapsed(d);
      if d.underflow && d.t.Fork? && |d.t.keys| == 1 { depth := depth - 1; }
    }

    method Search(k: Key) returns (v: Option<Val>)
      requires Valid()
      ensures v == Lookup(Flat(root), k)
    {
      SearchIsLookup(cap, root, depth, NegInf, PosInf, if root.Fork? then 2 else 0, k);
      v := SeqTree.Search(root, k);
    }
  }
}
