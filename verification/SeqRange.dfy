/** Range search in the sequential tree: finding the first leaf, and the iterator along the leaf chain. */
module SeqRange {
  import opened Nodes
  import opened TreeState
  import opened SeqTree
  import opened SeqInsert
  import opened SeqDelete
  import opened SeqChain

  // ---------- the first key of an inner child is its separator ----------

  /** Every inner child starts with the key its parent has for it. */
  ghost predicate Snug(t: BT) {
    t.Fork? ==>
      && |t.keys| == |t.kids|
      && forall i {:trigger t.kids[i]} :: 0 <= i < |t.kids| ==> Snug(t.kids[i]) && Starts(t.kids[i], t.keys[i])
  }

  ghost predicate Starts(t: BT, k: Key) {
    t.Fork? ==> |t.keys| > 0 && t.keys[0] == k
  }

  ghost predicate InsSnug(r: Ins, first: Key) {
    match r
    case One(t) => Snug(t) && Starts(t, first)
    case Two(l, rt, b) => Snug(l) && Snug(rt) && Starts(l, first) && Starts(rt, b)
  }

  lemma SnugReplace(ks: seq<Key>, cs: seq<BT>, pos: nat, c: BT)
    requires Snug(Fork(ks, cs)) && |ks| == |cs| && pos < |cs| && Snug(c) && Starts(c, ks[pos])
    ensures Snug(Fork(ks, cs[pos := c]))
  {
    var t, t' := Fork(ks, cs), Fork(ks, cs[pos := c]);
    forall i | 0 <= i < |t'.kids| ensures Snug(t'.kids[i]) && Starts(t'.kids[i], ks[i]) { assert Snug(t.kids[i]); }
  }

  lemma SnugInsert(ks: seq<Key>, cs: seq<BT>, pos: nat, b: Key, c: BT)
    requires Snug(Fork(ks, cs)) && |ks| == |cs| && pos <= |cs| && Snug(c) && Starts(c, b)
    ensures Snug(Fork(InsertAt(ks, pos, b), InsertAt(cs, pos, c)))
  {
    var t, t' := Fork(ks, cs), Fork(InsertAt(ks, pos, b), InsertAt(cs, pos, c));
    forall i | 0 <= i < |t'.kids| ensures Snug(t'.kids[i]) && Starts(t'.kids[i], t'.keys[i]) {
      if i != pos { assert Snug(t.kids[if i < pos then i else i - 1]); }
    }
  }

  lemma SnugCut(ks: seq<Key>, cs: seq<BT>, x: nat)
    requires Snug(Fork(ks, cs)) && |ks| == |cs| && x <= |cs|
    ensures Snug(Fork(ks[..x], cs[..x])) && Snug(Fork(ks[x..], cs[x..]))
  {
    var t, l, r := Fork(ks, cs), Fork(ks[..x], cs[..x]), Fork(ks[x..], cs[x..]);
    forall i | 0 <= i < |l.kids| ensures Snug(l.kids[i]) && Starts(l.kids[i], l.keys[i]) { assert Snug(t.kids[i]); }
    forall i | 0 <= i < |r.kids| ensures Snug(r.kids[i]) && Starts(r.kids[i], r.keys[i]) { assert Snug(t.kids[x + i]); }
  }

  lemma SnugCat(l: BT, r: BT)
    requires l.Fork? && r.Fork? && Snug(l) && Snug(r)
    ensures Snug(Fork(l.keys + r.keys, l.kids + r.kids))
  {
    var t := Fork(l.keys + r.keys, l.kids + r.kids);
    forall i | 0 <= i < |t.kids| ensures Snug(t.kids[i]) && Starts(t.kids[i], t.keys[i]) {
      if i < |l.kids| { assert Snug(l.kids[i]); } else { assert Snug(r.kids[i - |l.kids|]); }
    }
  }

  lemma HalvesSnug(ks: seq<Key>, cs: seq<BT>, x: nat)
    requires Snug(Fork(ks, cs)) && |ks| == |cs| && 0 < x < |cs|
    ensures InsSnug(Two(Fork(ks[..x], cs[..x]), Fork(ks[x..], cs[x..]), ks[x]), ks[0])
  {
    SnugCut(ks, cs, x);
  }

  lemma SplitSnug(cap: nat, ks: seq<Key>, cs: seq<BT>, pos: nat, rt: BT, b: Key)
    requires Even(cap) && pos < |ks| == |cs| == cap && Sorted(ks) && ks[pos] < b && (pos + 1 < |ks| ==> b < ks[pos + 1])
    requires Snug(Fork(ks, cs)) && Snug(rt) && Starts(rt, b)
    ensures InsSnug(SplitFork(cap, ks, cs, pos, rt, b), ks[0])
  {
    var ks', cs' := InsertAt(ks, pos + 1, b), InsertAt(cs, pos + 1, rt);
    var c := if pos < cap / 2 then cap / 2 + 1 else cap / 2;
    SplitForkIsCut(cap, ks, cs, pos, rt, b);
    SnugInsert(ks, cs, pos + 1, b, rt);
    HalvesSnug(ks', cs', c);
    assert ks'[0] == ks[0];
  }

  lemma AbsorbSnug(cap: nat, ks: seq<Key>, cs: seq<BT>, h: nat, hi: Bound, pos: nat, r: Ins, es: seq<Entry>)
    requires Even(cap) && KidInsOk(cap, ks, cs, h, hi, pos, r, es) && |ks| <= cap
    requires Snug(Fork(ks, cs[pos := if r.One? then r.t else r.left])) && InsSnug(r, ks[pos])
    ensures InsSnug(Absorb(cap, ks, cs, pos, r), ks[0])
  {
    if r.Two? {
      if |ks| == cap { SplitSnug(cap, ks, cs[pos := r.left], pos, r.right, r.key); }
      else { SnugInsert(ks, cs[pos := r.left], pos + 1, r.key, r.right); }
    }
  }

  /** With the first key lowered, the first child must start with the lowered key as well. */
  lemma SnugLowered(ks: seq<Key>, cs: seq<BT>, pos: nat, c: BT, ks': seq<Key>)
    requires Snug(Fork(ks, cs)) && |ks'| == |ks| == |cs| && pos < |cs| && Snug(c) && Starts(c, ks'[pos])
    requires forall i :: 0 <= i < |ks| && i != pos ==> ks'[i] == ks[i]
    ensures Snug(Fork(ks', cs[pos := c]))
  {
    var t, t' := Fork(ks, cs), Fork(ks', cs[pos := c]);
    forall i | 0 <= i < |t'.kids| ensures Snug(t'.kids[i]) && Starts(t'.kids[i], ks'[i]) { assert Snug(t.kids[i]); }
  }

  lemma SnugStep(cap: nat, t: BT, h: nat, hi: Bound, pos: nat, ks: seq<Key>, r: Ins, es: seq<Entry>)
    requires Even(cap) && t.Fork? && Snug(t) && KidInsOk(cap, ks, t.kids, h, hi, pos, r, es) && |ks| <= cap
    requires InsSnug(r, ks[pos]) && forall i :: 0 <= i < |ks| && i != pos ==> ks[i] == t.keys[i]
    ensures InsSnug(Absorb(cap, ks, t.kids, pos, r), ks[0])
  {
    SnugLowered(t.keys, t.kids, pos, if r.One? then r.t else r.left, ks);
    AbsorbSnug(cap, ks, t.kids, h, hi, pos, r, es);
  }

  /** The child the descent takes, and the keys the node then has. */
  ghost predicate Descends(cap: nat, t: BT, h: nat, hi: Bound, k: Key, pos: nat, ks: seq<Key>, c: BT)
    requires t.Fork?
  {
    && pos == (if Locate(t.keys, k) < 0 then 0 else Locate(t.keys, k)) && pos < |t.kids| == |t.keys|
    && ks == (if Locate(t.keys, k) < 0 then t.keys[0 := k] else t.keys) && c == t.kids[pos]
    && Kids(cap, ks, t.kids, h, hi)
  }

  lemma Descend(cap: nat, t: BT, h: nat, lo: Bound, hi: Bound, min: nat, k: Key) returns (pos: nat, ks: seq<Key>, c: BT)
    requires Even(cap) && WF(cap, t, h, lo, hi, min) && Shaped(t) && t.Fork? && Below(k, hi)
    ensures Descends(cap, t, h, hi, k, pos, ks, c) && |ks| == |t.keys| <= cap && Shaped(c) && h > 0
    ensures WF(cap, c, h - 1, At(ks[pos]), HiOf(ks, hi, pos), cap / 2)
    ensures ks[pos] <= k && Below(k, HiOf(ks, hi, pos)) && ks[0] == (if t.keys[0] <= k then t.keys[0] else k)
    ensures ks[pos] == (if t.keys[pos] <= k then t.keys[pos] else k)
  {
    var i := Locate(t.keys, k);
    pos := if i < 0 then 0 else i;
    ks := if i < 0 then t.keys[0 := k] else t.keys;
    if i < 0 { LowerFirst(cap, t.keys, t.kids, h, hi, k); }
    assert Kid(cap, ks, t.kids, h, hi, pos);
    c := t.kids[pos];
  }

  lemma InsertIs(cap: nat, t: BT, h: nat, hi: Bound, k: Key, v: Val, spare: nat, pos: nat, ks: seq<Key>, c: BT)
    requires 2 <= cap && t.Fork? && Shaped(t) && Descends(cap, t, h, hi, k, pos, ks, c)
    ensures Shaped(c) && Insert(cap, t, k, v, spare) == Absorb(cap, ks, t.kids, pos, Insert(cap, c, k, v, spare))
  {
  }

  lemma KidIns(cap: nat, t: BT, h: nat, hi: Bound, k: Key, v: Val, spare: nat, pos: nat, ks: seq<Key>, c: BT)
      returns (r: Ins, es: seq<Entry>)
    requires Even(cap) && t.Fork? && Descends(cap, t, h, hi, k, pos, ks, c) && h > 0 && Shaped(c)
    requires WF(cap, c, h - 1, At(ks[pos]), HiOf(ks, hi, pos), cap / 2) && ks[pos] <= k && Below(k, HiOf(ks, hi, pos))
    ensures r == Insert(cap, c, k, v, spare) && KidInsOk(cap, ks, t.kids, h, hi, pos, r, es)
  {
    r, es := Insert(cap, c, k, v, spare), Put(Flat(c), k, v);
    InsertOk(cap, c, h - 1, At(ks[pos]), HiOf(ks, hi, pos), cap / 2, k, v, spare);
  }

  lemma ForkSnug(cap: nat, t: BT, h: nat, hi: Bound, k: Key, v: Val, spare: nat, pos: nat, ks: seq<Key>, c: BT)
    requires Even(cap) && t.Fork? && Snug(t) && Shaped(t) && Descends(cap, t, h, hi, k, pos, ks, c)
    requires |ks| <= cap && h > 0
    requires WF(cap, c, h - 1, At(ks[pos]), HiOf(ks, hi, pos), cap / 2) && ks[pos] <= k && Below(k, HiOf(ks, hi, pos))
    requires InsSnug(Insert(cap, c, k, v, spare), ks[pos])
    ensures InsSnug(Insert(cap, t, k, v, spare), ks[0])
  {
    var r, es := KidIns(cap, t, h, hi, k, v, spare, pos, ks, c);
    SnugStep(cap, t, h, hi, pos, ks, r, es);
    InsertIs(cap, t, h, hi, k, v, spare, pos, ks, c);
  }

  lemma TipSnug(cap: nat, t: BT, k: Key, v: Val, spare: nat, first: Key)
    requires t.Tip? && 2 <= cap
    ensures InsSnug(Insert(cap, t, k, v, spare), first)
  {
  }

  /** The first key of a child after the insertion, told by the key its parent then has for it. */
  lemma KidSnug(cap: nat, c: BT, k: Key, v: Val, spare: nat, was: Key, key: Key)
    requires Shaped(c) && 2 <= cap && Starts(c, was) && key == (if was <= k then was else k)
    requires InsSnug(Insert(cap, c, k, v, spare), if c.Fork? && c.keys[0] <= k then c.keys[0] else k)
    ensures InsSnug(Insert(cap, c, k, v, spare), key)
  {
    if c.Tip? { TipSnug(cap, c, k, v, spare, key); }
  }

  lemma {:induction false} InsertSnug(cap: nat, t: BT, h: nat, lo: Bound, hi: Bound, min: nat, k: Key, v: Val,
        spare: nat)
    requires Even(cap) && WF(cap, t, h, lo, hi, min) && Shaped(t) && Above(lo, k) && Below(k, hi) && Snug(t)
    ensures InsSnug(Insert(cap, t, k, v, spare), if t.Fork? && t.keys[0] <= k then t.keys[0] else k)
    decreases h
  {
    if t.Tip? {
      TipSnug(cap, t, k, v, spare, k);
    } else {
      var pos, ks, c := Descend(cap, t, h, lo, hi, min, k);
      assert Snug(c) && Starts(c, t.keys[pos]);
      InsertSnug(cap, c, h - 1, At(ks[pos]), HiOf(ks, hi, pos), cap / 2, k, v, spare);
      KidSnug(cap, c, k, v, spare, t.keys[pos], ks[pos]);
      ForkSnug(cap, t, h, hi, k, v, spare, pos, ks, c);
    }
  }

  ghost predicate BalSnug(b: Bal, l: BT) {
    match b
    case Borrowed(x, y, key) =>
      && Snug(x) && Snug(y) && Starts(y, key)
      && (x.Fork? ==> l.Fork? && |l.keys| > 0 && Starts(x, l.keys[0]))
    case Merged(m) => Snug(m) && (m.Fork? ==> l.Fork? && |l.keys| > 0 && Starts(m, l.keys[0]))
  }

  lemma BalanceSnug(cap: nat, l: BT, r: BT)
    requires 2 <= cap && Square(l) && Square(r) && l.Tip? == r.Tip? && Snug(l) && Snug(r)
    ensures BalSnug(Balance(cap, l, r), l)
  {
    if l.Fork? {
      SnugCat(l, r);
      if BalanceForks(cap, l, r).Borrowed? {
        var x := if |l.keys| < Half(cap) then |l.keys| + 1 else |l.keys| - 1;
        ForksBorrow(cap, l, r, x);
        SnugCut(l.keys + r.keys, l.kids + r.kids, x);
      }
    }
  }

  lemma RejoinSnug(cap: nat, ks: seq<Key>, cs: seq<BT>, l: nat, b: Bal)
    requires l + 1 < |ks| == |cs| && Snug(Fork(ks, cs)) && BalSnug(b, cs[l])
    ensures Snug(Rejoin(cap, ks, cs, l, b).t) && Rejoin(cap, ks, cs, l, b).t.keys[0] == ks[0]
  {
    var t, t' := Fork(ks, cs), Rejoin(cap, ks, cs, l, b).t;
    assert Snug(t.kids[l]);
    forall i | 0 <= i < |t'.kids| ensures Snug(t'.kids[i]) && Starts(t'.kids[i], t'.keys[i]) {
      assert Snug(t.kids[i]);
      if b.Merged? && i > l { assert Snug(t.kids[i + 1]); }
    }
  }

  lemma {:induction false} DeleteSnug(cap: nat, t: BT, k: Key)
    requires Shaped(t) && 2 <= cap && Snug(t)
    ensures Snug(Delete(cap, t, k).t) && (t.Fork? ==> Starts(Delete(cap, t, k).t, t.keys[0]))
  {
    if t.Fork? {
      var i := Locate(t.keys, k);
      if i >= 0 {
        assert Shaped(t.kids[i]) && Snug(t.kids[i]);
        DeleteSnug(cap, t.kids[i], k);
        var d := Delete(cap, t.kids[i], k);
        if d.deleted {
          var cs := t.kids[i := d.t];
          SnugReplace(t.keys, t.kids, i, d.t);
          if d.underflow && |cs| >= 2 {
            forall j | 0 <= j < |cs| ensures Square(cs[j]) && cs[j].Tip? == t.kids[0].Tip? { assert Shaped(t.kids[j]); }
            MendSnug(cap, t.keys, cs, i);
          }
        }
      }
    }
  }

  lemma MendSnug(cap: nat, ks: seq<Key>, cs: seq<BT>, i: nat)
    requires i < |ks| == |cs| && 2 <= |cs| && 2 <= cap && Snug(Fork(ks, cs))
    requires forall j {:trigger cs[j]} :: 0 <= j < |cs| ==> Square(cs[j]) && cs[j].Tip? == cs[0].Tip?
    ensures Snug(Mend(cap, ks, cs, i).t) && Starts(Mend(cap, ks, cs, i).t, ks[0])
  {
    var l := if i >= 1 then i - 1 else i;
    assert cs[l].Tip? == cs[0].Tip? && cs[l + 1].Tip? == cs[0].Tip?;
    var t := Fork(ks, cs);
    assert Snug(t.kids[l]) && Snug(t.kids[l + 1]);
    BalanceSnug(cap, cs[l], cs[l + 1]);
    RejoinSnug(cap, ks, cs, l, Balance(cap, cs[l], cs[l + 1]));
  }

  // ---------- finding the first leaf ----------

  /** `locate_key`: the leaf and the position a range search starts from, or nothing. */
  function LocateKey(t: BT, low: Key): Option<(nat, nat)> {
    match t
    case Tip(a, es, _) => Some((a, Slot(es, low)))
    case Fork(ks, cs) =>
      var i := Locate(ks, low);
      if i < 0 || i >= |cs| then None else LocateKey(cs[i], low)
  }

  /** Leaf `j` holds position `p`, counted from the first entry of the first leaf, at its own position `o`. */
  ghost predicate Points(ls: seq<BT>, j: nat, a: nat, o: nat, p: nat) {
    && AllTips(ls) && j < |ls| && ls[j].addr == a && o <= |ls[j].entries|
    && AllTips(ls[..j]) && |Entries(ls[..j])| + o == p
  }

  lemma PointsMiddle(a: seq<BT>, m: seq<BT>, b: seq<BT>, j: nat, addr: nat, o: nat, p: nat)
    requires AllTips(a) && AllTips(b) && Points(m, j, addr, o, p)
    ensures Points(a + m + b, |a| + j, addr, o, |Entries(a)| + p)
  {
    EntriesCat(a, m[..j]);
    assert (a + m + b)[..|a| + j] == a + m[..j];
  }

  /** What a child has for the range search, its parent has. */
  lemma PointsUp(cap: nat, t: BT, h: nat, hi: Bound, low: Key, i: nat, c: BT, j: nat, a: nat, o: nat) returns (j': nat)
    requires t.Fork? && Kids(cap, t.keys, t.kids, h, hi) && i < |t.kids| && Locate(t.keys, low) == i && c == t.kids[i]
    requires Points(Tips(c), j, a, o, Slot(Flat(c), low))
    ensures Points(Tips(t), j', a, o, Slot(Flat(t), low))
  {
    RouteBetween(cap, t.keys, t.kids, h, hi, i, low);
    SlotMiddle(FlatAll(t.kids[..i]), Flat(c), FlatAll(t.kids[i + 1..]), low);
    TipsAroundKid(t.kids, i);
    FlatAllIsEntries(t.kids[..i]);
    TipsAllAre(t.kids[i + 1..]);
    PointsMiddle(TipsAll(t.kids[..i]), Tips(c), TipsAll(t.kids[i + 1..]), j, a, o, Slot(Flat(c), low));
    j' := |TipsAll(t.kids[..i])| + j;
  }

  /** A range search finds the first entry not below `low` exactly if `low` is not below the first key of an inner root.
      */
  lemma {:induction false} LocateKeyOk(cap: nat, t: BT, h: nat, lo: Bound, hi: Bound, min: nat, low: Key)
      returns (j: nat)
    requires WF(cap, t, h, lo, hi, min) && Snug(t)
    ensures LocateKey(t, low).Some? <==> t.Tip? || t.keys[0] <= low
    ensures LocateKey(t, low).Some? ==>
              Points(Tips(t), j, LocateKey(t, low).value.0, LocateKey(t, low).value.1, Slot(Flat(t), low))
    decreases h
  {
    j := 0;
    if t.Fork? {
      var i := Locate(t.keys, low);
      if i >= 0 {
        assert Kid(cap, t.keys, t.kids, h, hi, i);
        var c := t.kids[i];
        assert Snug(c) && Starts(c, t.keys[i]);
        j := LocateKeyOk(cap, c, h - 1, At(t.keys[i]), HiOf(t.keys, hi, i), cap / 2, low);
        j := PointsUp(cap, t, h, hi, low, i, c, j, LocateKey(c, low).value.0, LocateKey(c, low).value.1);
      }
    } else {
      assert [t][..0] == [];
    }
  }
}
