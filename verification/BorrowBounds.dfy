/** When a deletion reads past the arrays of an inner node: the loop of a borrow moves one slot too many. */
module BorrowBounds {
  import opened Nodes
  import opened TreeState
  import opened SeqTree
  import opened SeqInsert
  import opened SeqDelete
  import opened SeqChain
  import opened SeqRange
  import opened BPlusTree

  /** The loop over a right sibling of the given size reads slot i + 1 for every i below the size. */
  predicate Reads(size: nat, slot: nat) {
    1 <= slot && slot - 1 < size
  }

  /** The slots read are all within the arrays if and only if the sibling is not full. */
  lemma ReadsFit(cap: nat, size: nat)
    requires 0 < size <= cap
    ensures (forall slot: nat {:trigger Reads(size, slot)} :: Reads(size, slot) ==> slot < cap) <==> size < cap
  {
    assert Reads(size, size);
  }

  /** Balancing these neighbours borrows from the right one and reads past its arrays. */
  predicate Overrun(cap: nat, l: BT, r: BT) {
    l.Fork? && r.Fork? && |l.keys| < Half(cap) < |r.keys| && |r.keys| == cap
  }

  /** The neighbours balanced once child `i` has been changed to `c`. */
  function Pair(cs: seq<BT>, i: nat, c: BT): (BT, BT)
    requires i < |cs| && 2 <= |cs|
  {
    var l := if i >= 1 then i - 1 else i;
    (cs[i := c][l], cs[i := c][l + 1])
  }

  /** Deleting `k` reads past the arrays of some inner node on the way. */
  predicate Overreads(cap: nat, t: BT, k: Key)
    requires Shaped(t) && 2 <= cap
  {
    match t
    case Tip(_, _, _) => false
    case Fork(ks, cs) =>
      var i := Locate(ks, k);
      i >= 0 &&
      (Overreads(cap, cs[i], k) ||
       (var d := Delete(cap, cs[i], k);
        d.deleted && d.underflow && |cs| >= 2 && var p := Pair(cs, i, d.t); Overrun(cap, p.0, p.1)))
  }

  /** Deleting `k` leaves this node too small: it has the least number of entries or children and loses one, and so does
      every node below it on the way, each beside a neighbour too small to lend. */
  predicate Shrinks(cap: nat, t: BT, k: Key)
    requires Shaped(t)
  {
    match t
    case Tip(_, es, _) => Found(es, k) && |es| == cap / 2
    case Fork(ks, cs) =>
      var i := Locate(ks, k);
      && i >= 0 && |cs| >= 2 && |ks| == cap / 2
      && Size(cs[if i >= 1 then i - 1 else 1]) == cap / 2 && Shrinks(cap, cs[i], k)
  }

  /** Deleting `k` goes, at some node, into the first child, leaves that inner node too small, and the child next to it
      is full. */
  predicate Exposed(cap: nat, t: BT, k: Key)
    requires Shaped(t) && 2 <= cap
  {
    match t
    case Tip(_, _, _) => false
    case Fork(ks, cs) =>
      var i := Locate(ks, k);
      i >= 0 &&
      (Exposed(cap, cs[i], k) ||
       (i == 0 && |cs| >= 2 && cs[1].Fork? && |cs[1].keys| == cap && Shrinks(cap, cs[0], k)))
  }

  /** A deletion reports a node too small exactly if it shrinks it. */
  lemma {:induction false} UnderflowIffShrinks(cap: nat, t: BT, h: nat, lo: Bound, hi: Bound, k: Key)
    requires Even(cap) && WF(cap, t, h, lo, hi, cap / 2) && Shaped(t)
    ensures Delete(cap, t, k).underflow <==> Shrinks(cap, t, k)
    decreases h
  {
    if t.Fork? {
      var i := Locate(t.keys, k);
      if i >= 0 {
        assert Kid(cap, t.keys, t.kids, h, hi, i);
        UnderflowIffShrinks(cap, t.kids[i], h - 1, At(t.keys[i]), HiOf(t.keys, hi, i), k);
        if |t.kids| >= 2 { ForkShrinks(cap, t, h, lo, hi, k, i); }
      }
    }
  }

  /** A node is too small after one of its children was merged away. */
  lemma ForkShrinks(cap: nat, t: BT, h: nat, lo: Bound, hi: Bound, k: Key, i: nat)
    requires Even(cap) && WF(cap, t, h, lo, hi, cap / 2) && Shaped(t) && t.Fork?
    requires i == Locate(t.keys, k) && |t.kids| >= 2
    ensures Delete(cap, t, k).underflow <==>
              && |t.keys| == cap / 2 && Size(t.kids[if i >= 1 then i - 1 else 1]) == cap / 2
              && Delete(cap, t.kids[i], k).underflow
  {
    var d := Delete(cap, t.kids[i], k);
    assert Kid(cap, t.keys, t.kids, h, hi, i);
    var size := DeletedKid(cap, t.kids[i], h - 1, At(t.keys[i]), HiOf(t.keys, hi, i), k, d);
    KidSize(cap, t, h, lo, hi, cap / 2, if i >= 1 then i - 1 else 1);
  }

  /** In a well-formed tree a deletion reads past the arrays exactly if it is exposed. */
  lemma {:induction false} OverreadsIffExposed(cap: nat, t: BT, h: nat, lo: Bound, hi: Bound, min: nat, k: Key)
    requires Even(cap) && WF(cap, t, h, lo, hi, min) && Shaped(t)
    ensures Overreads(cap, t, k) <==> Exposed(cap, t, k)
    decreases h
  {
    if t.Fork? {
      var i := Locate(t.keys, k);
      if i >= 0 {
        assert Kid(cap, t.keys, t.kids, h, hi, i);
        OverreadsIffExposed(cap, t.kids[i], h - 1, At(t.keys[i]), HiOf(t.keys, hi, i), cap / 2, k);
        UnderflowIffShrinks(cap, t.kids[i], h - 1, At(t.keys[i]), HiOf(t.keys, hi, i), k);
        if |t.kids| >= 2 { PairIs(cap, t, h, lo, hi, min, k, i); }
      }
    }
  }

  lemma PairIs(cap: nat, t: BT, h: nat, lo: Bound, hi: Bound, min: nat, k: Key, i: nat)
    requires Even(cap) && WF(cap, t, h, lo, hi, min) && Shaped(t) && t.Fork? && i == Locate(t.keys, k) && |t.kids| >= 2
    ensures var d := Delete(cap, t.kids[i], k); var p := Pair(t.kids, i, d.t);
            d.deleted && d.underflow && Overrun(cap, p.0, p.1)
            <==> i == 0 && t.kids[1].Fork? && |t.kids[1].keys| == cap && d.underflow
  {
    var cs := t.kids;
    var d := Delete(cap, cs[i], k);
    assert Kid(cap, t.keys, cs, h, hi, i);
    var after := DeletedKid(cap, cs[i], h - 1, At(t.keys[i]), HiOf(t.keys, hi, i), k, d);
    if i > 0 { KidSize(cap, t, h, lo, hi, min, i - 1); } else { KidSize(cap, t, h, lo, hi, min, 1); }
  }

  /** What a deletion leaves of a child: it is too small exactly if it says so. */
  lemma DeletedKid(cap: nat, c: BT, h: nat, lo: Bound, hi: Bound, k: Key, d: Del) returns (size: nat)
    requires Even(cap) && WF(cap, c, h, lo, hi, cap / 2) && Shaped(c) && d == Delete(cap, c, k)
    ensures d.t.Tip? == c.Tip? && size == Size(d.t) && (d.underflow <==> size < cap / 2) && (d.underflow ==> d.deleted)
  {
    size := Size(d.t);
    DeleteOk(cap, c, h, lo, hi, cap / 2, k);
  }

  lemma KidSize(cap: nat, t: BT, h: nat, lo: Bound, hi: Bound, min: nat, i: nat)
    requires Even(cap) && WF(cap, t, h, lo, hi, min) && t.Fork? && i < |t.kids|
    ensures cap / 2 <= Size(t.kids[i]) <= cap && (t.kids[i].Tip? <==> h == 2)
  {
    assert Kid(cap, t.keys, t.kids, h, hi, i);
    assert WF(cap, t.kids[i], h - 1, At(t.keys[i]), HiOf(t.keys, hi, i), cap / 2);
  }

  /** A tree of less than three levels is never exposed. */
  lemma LowIsSafe(cap: nat, t: BT, depth: nat, k: Key)
    requires WholeTree(cap, t, depth) && Shaped(t) && depth < 3
    ensures !Overreads(cap, t, k)
  {
    if t.Fork? {
      forall i | 0 <= i < |t.kids| ensures t.kids[i].Tip? {
        assert Kid(cap, t.keys, t.kids, depth, PosInf, i);
      }
      OverreadsIffExposed(cap, t, depth, NegInf, PosInf, 2, k);
    }
  }

  // ---------- an exposed tree ----------

  function Leaf2(addr: nat, k: Key, next: int): BT {
    Tip(addr, [Entry(k, 0), Entry(k + 1, 0)], next)
  }

  function Slim(): BT { Fork([0, 10], [Leaf2(0, 0, 1), Leaf2(1, 10, 2)]) }

  function Full(): BT {
    Fork([20, 30, 40, 50], [Leaf2(2, 20, 3), Leaf2(3, 30, 4), Leaf2(4, 40, 5), Leaf2(5, 50, -1)])
  }

  function Sample(): BT { Fork([0, 20], [Slim(), Full()]) }

  lemma Leaf2WF(addr: nat, k: Key, next: int, hi: Bound)
    requires Below(k + 1, hi)
    ensures WF(4, Leaf2(addr, k, next), 1, At(k), hi, 2)
  {
  }

  lemma SlimWF()
    ensures WF(4, Slim(), 2, At(0), At(20), 2) && Snug(Slim()) && Starts(Slim(), 0)
  {
    var t := Slim();
    Leaf2WF(0, 0, 1, At(10));
    Leaf2WF(1, 10, 2, At(20));
    forall i | 0 <= i < |t.kids| ensures Kid(4, t.keys, t.kids, 2, At(20), i) { }
  }

  lemma FullWF()
    ensures WF(4, Full(), 2, At(20), PosInf, 2) && Snug(Full()) && Starts(Full(), 20)
  {
    var t := Full();
    Leaf2WF(2, 20, 3, At(30));
    Leaf2WF(3, 30, 4, At(40));
    Leaf2WF(4, 40, 5, At(50));
    Leaf2WF(5, 50, -1, PosInf);
    forall i | 0 <= i < |t.kids| ensures Kid(4, t.keys, t.kids, 2, PosInf, i) { }
  }

  lemma SampleTips()
    ensures Tips(Sample()) == [Leaf2(0, 0, 1), Leaf2(1, 10, 2), Leaf2(2, 20, 3), Leaf2(3, 30, 4), Leaf2(4, 40, 5),
              Leaf2(5, 50, -1)]
  {
    var s, f := Slim().kids, Full().kids;
    assert TipsAll(s) == Tips(s[0]) + TipsAll(s[1..]);
    TipsAre2(s);
    TipsAre2(f);
    assert TipsAll([Slim(), Full()]) == Tips(Slim()) + TipsAll([Full()]);
    assert TipsAll([Full()]) == Tips(Full()) + TipsAll([]);
  }

  lemma {:induction false} TipsAre2(cs: seq<BT>)
    requires forall i {:trigger cs[i]} :: 0 <= i < |cs| ==> cs[i].Tip?
    ensures TipsAll(cs) == cs
  {
    if cs != [] { TipsAre2(cs[1..]); }
  }

  lemma SampleChain()
    ensures Chain(TagsOf(Tips(Sample())))
  {
    SampleTips();
    var ts := TagsOf(Tips(Sample()));
    assert ts == [Tag(0, 1), Tag(1, 2), Tag(2, 3), Tag(3, 4), Tag(4, 5), Tag(5, -1)];
    forall i | 0 <= i < |ts| ensures LinkAt(ts, i) { }
    forall i, j | 0 <= i < j < |ts| ensures Differ(ts, i, j) { }
  }

  lemma SampleWhole()
    ensures WholeTree(4, Sample(), 3)
  {
    var t := Sample();
    SlimWF();
    FullWF();
    SampleChain();
    forall i | 0 <= i < |t.kids| ensures Kid(4, t.keys, t.kids, 3, PosInf, i) { }
  }

  lemma SlimTip()
    ensures DeleteTip(4, Leaf2(0, 0, 1), 0) == Del(Tip(0, [Entry(1, 0)], 1), true, true)
  {
    var a := Leaf2(0, 0, 1);
    SlotUnique(a.entries, 0, 0);
    assert Remove(a.entries, 0) == [Entry(1, 0)];
  }

  lemma TipsMerge()
    ensures Balance(4, Tip(0, [Entry(1, 0)], 1), Leaf2(1, 10, 2))
              == Merged(Tip(0, [Entry(1, 0), Entry(10, 0), Entry(11, 0)], 2))
  {
    assert [Entry(1, 0)] + Leaf2(1, 10, 2).entries == [Entry(1, 0), Entry(10, 0), Entry(11, 0)];
  }

  lemma SlimDelete()
    ensures Shaped(Slim())
    ensures Delete(4, Slim(), 0) == Del(Fork([0], [Tip(0, [Entry(1, 0), Entry(10, 0), Entry(11, 0)], 2)]), true, true)
  {
    SlimWF();
    WFShaped(4, Slim(), 2, At(0), At(20), 2);
    LocateUnique([0, 10], 0, 0);
    SlimTip();
    TipsMerge();
  }

  /** In this tree of three levels, deleting key 0 leaves one child in a node whose right neighbour has four: the borrow
      reads past its arrays. */
  lemma DeleteOverreads()
    ensures WholeTree(4, Sample(), 3) && Shaped(Sample()) && Overreads(4, Sample(), 0)
    ensures var p := Pair(Sample().kids, 0, Delete(4, Sample().kids[0], 0).t); |p.0.keys| == 1 && |p.1.keys| == 4
  {
    SampleWhole();
    WFShaped(4, Sample(), 3, NegInf, PosInf, 2);
    SlimDelete();
    LocateUnique([0, 20], 0, 0);
  }

  /** In the same tree, a range search from below 0 reaches no leaf. */
  lemma RangeUnset()
    ensures WholeTree(4, Sample(), 3) && LocateKey(Sample(), -1) == None
  {
    SampleWhole();
    LocateUnique([0, 20], -1, -1);
  }
}
