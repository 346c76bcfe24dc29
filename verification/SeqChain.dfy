/** The leaves of the sequential tree form a chain, from left to right, through every insertion and deletion. */
module SeqChain {
  import opened Nodes
  import opened TreeState
  import opened SeqTree
  import opened SeqInsert
  import opened SeqDelete

  // ---------- the leaves, from left to right ----------

  function Tips(t: BT): seq<BT> {
    match t
    case Tip(_, _, _) => [t]
    case Fork(_, cs) => TipsAll(cs)
  }

  function TipsAll(cs: seq<BT>): seq<BT> {
    if cs == [] then [] else Tips(cs[0]) + TipsAll(cs[1..])
  }

  lemma {:induction false} TipsCat(a: seq<BT>, b: seq<BT>)
    ensures TipsAll(a + b) == TipsAll(a) + TipsAll(b)
  {
    if a == [] {
      assert a + b == b;
    } else {
      assert (a + b)[1..] == a[1..] + b;
      TipsCat(a[1..], b);
    }
  }

  lemma TipsOne(c: BT)
    ensures TipsAll([c]) == Tips(c)
  {
    assert [c][1..] == [];
  }

  lemma TipsSnoc(a: seq<BT>, x: BT)
    ensures TipsAll(a + [x]) == TipsAll(a) + Tips(x)
  {
    TipsCat(a, [x]);
    TipsOne(x);
  }

  lemma TipsCons(y: BT, d: seq<BT>)
    ensures TipsAll([y] + d) == Tips(y) + TipsAll(d)
  {
    TipsCat([y], d);
    TipsOne(y);
  }

  lemma TipsThree(a: seq<BT>, c: BT, b: seq<BT>)
    ensures TipsAll(a + [c] + b) == TipsAll(a) + Tips(c) + TipsAll(b)
  {
    TipsCat(a + [c], b);
    TipsSnoc(a, c);
  }

  lemma TipsFour(a: seq<BT>, x: BT, y: BT, d: seq<BT>)
    ensures TipsAll((a + [x]) + ([y] + d)) == TipsAll(a) + (Tips(x) + Tips(y)) + TipsAll(d)
  {
    TipsCat(a + [x], [y] + d);
    TipsSnoc(a, x);
    TipsCons(y, d);
    Regroup(TipsAll(a), Tips(x), Tips(y), TipsAll(d));
  }

  ghost predicate AllTips(ls: seq<BT>) {
    forall i {:trigger ls[i]} :: 0 <= i < |ls| ==> ls[i].Tip?
  }

  lemma {:induction false} TipsAre(t: BT)
    ensures AllTips(Tips(t))
    decreases t, 1
  {
    if t.Fork? { TipsAllAre(t.kids); }
  }

  lemma {:induction false} TipsAllAre(cs: seq<BT>)
    ensures AllTips(TipsAll(cs))
    decreases cs, 0
  {
    if cs != [] {
      TipsAre(cs[0]);
      TipsAllAre(cs[1..]);
    }
  }

  function Entries(ls: seq<BT>): seq<Entry>
    requires AllTips(ls)
  {
    if ls == [] then [] else ls[0].entries + Entries(ls[1..])
  }

  lemma {:induction false} EntriesCat(a: seq<BT>, b: seq<BT>)
    requires AllTips(a) && AllTips(b)
    ensures AllTips(a + b) && Entries(a + b) == Entries(a) + Entries(b)
  {
    if a == [] {
      assert a + b == b;
    } else {
      assert (a + b)[1..] == a[1..] + b;
      EntriesCat(a[1..], b);
    }
  }

  /** The entries of a tree are those of its leaves, one after the other. */
  lemma {:induction false} FlatIsEntries(t: BT)
    ensures AllTips(Tips(t)) && Flat(t) == Entries(Tips(t))
    decreases t, 1
  {
    if t.Fork? { FlatAllIsEntries(t.kids); } else { assert [t][1..] == []; }
  }

  lemma {:induction false} FlatAllIsEntries(cs: seq<BT>)
    ensures AllTips(TipsAll(cs)) && FlatAll(cs) == Entries(TipsAll(cs))
    decreases cs, 0
  {
    if cs != [] {
      FlatIsEntries(cs[0]);
      FlatAllIsEntries(cs[1..]);
      EntriesCat(Tips(cs[0]), TipsAll(cs[1..]));
    }
  }

  // ---------- addresses and links ----------

  datatype Tag = Tag(addr: nat, next: int)

  function TagOf(t: BT): Tag {
    if t.Tip? then Tag(t.addr, t.next) else Tag(0, -1)
  }

  function TagsOf(ls: seq<BT>): (ts: seq<Tag>)
    ensures |ts| == |ls| && forall i {:trigger ts[i]} :: 0 <= i < |ts| ==> ts[i] == TagOf(ls[i])
  {
    seq(|ls|, i requires 0 <= i < |ls| => TagOf(ls[i]))
  }

  lemma TagsCat(a: seq<BT>, b: seq<BT>)
    ensures TagsOf(a + b) == TagsOf(a) + TagsOf(b)
  {
  }

  /** Every leaf links to the next one, the last to nothing, and no two share an address. */
  ghost predicate Chain(ts: seq<Tag>) {
    Linked(ts) && Distinct(ts)
  }

  ghost predicate Linked(ts: seq<Tag>) {
    forall i {:trigger LinkAt(ts, i)} :: 0 <= i < |ts| ==> LinkAt(ts, i)
  }

  predicate LinkAt(ts: seq<Tag>, i: nat)
    requires i < |ts|
  {
    ts[i].next == if i + 1 < |ts| then ts[i + 1].addr else -1
  }

  ghost predicate Distinct(ts: seq<Tag>) {
    forall i, j {:trigger Differ(ts, i, j)} :: 0 <= i < j < |ts| ==> Differ(ts, i, j)
  }

  predicate Differ(ts: seq<Tag>, i: nat, j: nat)
    requires i < |ts| && j < |ts|
  {
    ts[i].addr != ts[j].addr
  }

  /** A leaf splits: the new one, at address `s`, comes after it and takes over its link. */
  function SplitTag(ts: seq<Tag>, i: nat, s: nat): seq<Tag>
    requires i < |ts|
  {
    ts[..i] + [Tag(ts[i].addr, s), Tag(s, ts[i].next)] + ts[i + 1..]
  }

  /** Two neighbours merge: the left one takes over the link of the right one. */
  function MergeTag(ts: seq<Tag>, i: nat): seq<Tag>
    requires i + 1 < |ts|
  {
    ts[..i] + [Tag(ts[i].addr, ts[i + 1].next)] + ts[i + 2..]
  }

  lemma SplitAt(ts: seq<Tag>, i: nat, s: nat, j: nat)
    requires i < |ts| && j <= |ts|
    ensures SplitTag(ts, i, s)[j].addr == if j <= i then ts[j].addr else if j == i + 1 then s else ts[j - 1].addr
    ensures SplitTag(ts, i, s)[j].next == if j < i then ts[j].next else if j == i then s else ts[j - 1].next
  {
  }

  lemma ChainSplit(ts: seq<Tag>, i: nat, s: nat)
    requires Chain(ts) && i < |ts| && forall j {:trigger ts[j]} :: 0 <= j < |ts| ==> ts[j].addr != s
    ensures Chain(SplitTag(ts, i, s))
  {
    var ts' := SplitTag(ts, i, s);
    forall j | 0 <= j < |ts'| ensures LinkAt(ts', j) {
      SplitAt(ts, i, s, j);
      if j + 1 < |ts'| { SplitAt(ts, i, s, j + 1); }
      assert LinkAt(ts, if j <= i then j else j - 1);
    }
    forall j, m | 0 <= j < m < |ts'| ensures Differ(ts', j, m) {
      SplitAt(ts, i, s, j);
      SplitAt(ts, i, s, m);
      var j0, m0 := if j <= i then j else j - 1, if m <= i then m else m - 1;
      assert j0 < m0 ==> Differ(ts, j0, m0);
    }
  }

  lemma MergeAt(ts: seq<Tag>, i: nat, j: nat)
    requires i + 1 < |ts| && j + 1 < |ts|
    ensures MergeTag(ts, i)[j].addr == ts[if j <= i then j else j + 1].addr
    ensures MergeTag(ts, i)[j].next == ts[if j < i then j else j + 1].next
  {
  }

  lemma ChainMerge(ts: seq<Tag>, i: nat)
    requires Chain(ts) && i + 1 < |ts|
    ensures Chain(MergeTag(ts, i))
  {
    var ts' := MergeTag(ts, i);
    forall j | 0 <= j < |ts'| ensures LinkAt(ts', j) {
      MergeAt(ts, i, j);
      if j + 1 < |ts'| { MergeAt(ts, i, j + 1); }
      assert LinkAt(ts, if j < i then j else j + 1);
    }
    forall j, m | 0 <= j < m < |ts'| ensures Differ(ts', j, m) {
      MergeAt(ts, i, j);
      MergeAt(ts, i, m);
      assert Differ(ts, if j <= i then j else j + 1, if m <= i then m else m + 1);
    }
  }

  // ---------- insertion ----------

  function InsTips(r: Ins): seq<BT> {
    match r
    case One(t) => Tips(t)
    case Two(l, rt, _) => Tips(l) + Tips(rt)
  }

  /** The links are as before, or one leaf has split. */
  ghost predicate Inserts(ts: seq<Tag>, ts': seq<Tag>, s: nat) {
    ts' == ts || exists i {:trigger SplitTag(ts, i, s)} :: 0 <= i < |ts| && ts' == SplitTag(ts, i, s)
  }

  lemma TagsAround(a: seq<BT>, m: seq<BT>, b: seq<BT>)
    ensures TagsOf(a + m + b) == TagsOf(a) + TagsOf(m) + TagsOf(b)
  {
    TagsCat(a + m, b);
    TagsCat(a, m);
  }

  lemma SplitMiddle(a: seq<Tag>, m: seq<Tag>, b: seq<Tag>, i: nat, s: nat)
    requires i < |m|
    ensures SplitTag(a + m + b, |a| + i, s) == a + SplitTag(m, i, s) + b
  {
    var ts := a + m + b;
    assert ts[..|a| + i] == a + m[..i] && ts[|a| + i + 1..] == m[i + 1..] + b && ts[|a| + i] == m[i];
  }

  lemma InsertsMiddle(a: seq<Tag>, m: seq<Tag>, m': seq<Tag>, b: seq<Tag>, s: nat)
    requires Inserts(m, m', s)
    ensures Inserts(a + m + b, a + m' + b, s)
  {
    if m' != m {
      var i :| 0 <= i < |m| && m' == SplitTag(m, i, s);
      SplitMiddle(a, m, b, i, s);
      assert a + m' + b == SplitTag(a + m + b, |a| + i, s);
    }
  }

  lemma AbsorbTips(cap: nat, ks: seq<Key>, cs: seq<BT>, h: nat, hi: Bound, pos: nat, r: Ins, es: seq<Entry>)
    requires Even(cap) && KidInsOk(cap, ks, cs, h, hi, pos, r, es) && |ks| <= cap
    ensures InsTips(Absorb(cap, ks, cs, pos, r)) == TipsAll(cs[..pos]) + InsTips(r) + TipsAll(cs[pos + 1..])
  {
    if r.One? {
      Replaced(cs, pos, r.t);
      TipsThree(cs[..pos], r.t, cs[pos + 1..]);
    } else {
      InsertedAfter(cs, pos, r.left, r.right);
      TipsFour(cs[..pos], r.left, r.right, cs[pos + 1..]);
      if |ks| == cap {
        SplitForkIsCut(cap, ks, cs[pos := r.left], pos, r.right, r.key);
        CutTips(InsertAt(cs[pos := r.left], pos + 1, r.right), if pos < cap / 2 then cap / 2 + 1 else cap / 2);
      }
    }
  }

  lemma CutTips(cs: seq<BT>, x: nat)
    requires x <= |cs|
    ensures TipsAll(cs[..x]) + TipsAll(cs[x..]) == TipsAll(cs)
  {
    Halved(cs, x);
    TipsCat(cs[..x], cs[x..]);
  }

  lemma TipsAroundKid(cs: seq<BT>, i: nat)
    requires i < |cs|
    ensures TipsAll(cs) == TipsAll(cs[..i]) + Tips(cs[i]) + TipsAll(cs[i + 1..])
  {
    Pieces(cs, i);
    TipsThree(cs[..i], cs[i], cs[i + 1..]);
  }

  /** An insertion splits at most one leaf, and links the new one in after it. */
  lemma {:induction false} InsertLinks(cap: nat, t: BT, h: nat, lo: Bound, hi: Bound, min: nat, k: Key, v: Val,
        spare: nat)
    requires Even(cap) && WF(cap, t, h, lo, hi, min) && Shaped(t) && Above(lo, k) && Below(k, hi)
    ensures Inserts(TagsOf(Tips(t)), TagsOf(InsTips(Insert(cap, t, k, v, spare))), spare)
    decreases h
  {
    if t.Tip? {
      TipLinks(cap, t, k, v, spare);
    } else {
      var i := Locate(t.keys, k);
      var pos := if i < 0 then 0 else i;
      var ks := if i < 0 then t.keys[0 := k] else t.keys;
      if i < 0 { LowerFirst(cap, t.keys, t.kids, h, hi, k); }
      assert Kid(cap, ks, t.kids, h, hi, pos);
      var r := Insert(cap, t.kids[pos], k, v, spare);
      InsertLinks(cap, t.kids[pos], h - 1, At(ks[pos]), HiOf(ks, hi, pos), cap / 2, k, v, spare);
      InsertOk(cap, t.kids[pos], h - 1, At(ks[pos]), HiOf(ks, hi, pos), cap / 2, k, v, spare);
      AbsorbTips(cap, ks, t.kids, h, hi, pos, r, Put(Flat(t.kids[pos]), k, v));
      TipsAroundKid(t.kids, pos);
      MiddleLinks(TipsAll(t.kids[..pos]), Tips(t.kids[pos]), InsTips(r), TipsAll(t.kids[pos + 1..]), spare);
    }
  }

  lemma MiddleLinks(a: seq<BT>, m: seq<BT>, m': seq<BT>, b: seq<BT>, s: nat)
    requires Inserts(TagsOf(m), TagsOf(m'), s)
    ensures Inserts(TagsOf(a + m + b), TagsOf(a + m' + b), s)
  {
    TagsAround(a, m, b);
    TagsAround(a, m', b);
    InsertsMiddle(TagsOf(a), TagsOf(m), TagsOf(m'), TagsOf(b), s);
  }

  lemma TipLinks(cap: nat, t: BT, k: Key, v: Val, spare: nat)
    requires t.Tip? && 2 <= cap
    ensures Inserts(TagsOf(Tips(t)), TagsOf(InsTips(Insert(cap, t, k, v, spare))), spare)
  {
    var ts, r := TagsOf([t]), Insert(cap, t, k, v, spare);
    if r.Two? {
      assert TagsOf(InsTips(r)) == [Tag(t.addr, spare), Tag(spare, t.next)];
      assert SplitTag(ts, 0, spare) == [Tag(t.addr, spare), Tag(spare, t.next)];
    } else {
      assert TagsOf(InsTips(r)) == ts;
    }
  }

  // ---------- deletion ----------

  function BalTips(b: Bal): seq<BT> {
    match b
    case Borrowed(x, y, _) => Tips(x) + Tips(y)
    case Merged(m) => Tips(m)
  }

  /** The links are as before, or two neighbours have merged. */
  ghost predicate Deletes(ts: seq<Tag>, ts': seq<Tag>) {
    ts' == ts || exists i {:trigger MergeTag(ts, i)} :: 0 <= i && i + 1 < |ts| && ts' == MergeTag(ts, i)
  }

  lemma MergeMiddle(a: seq<Tag>, m: seq<Tag>, b: seq<Tag>, i: nat)
    requires i + 1 < |m|
    ensures MergeTag(a + m + b, |a| + i) == a + MergeTag(m, i) + b
  {
    var ts := a + m + b;
    assert ts[..|a| + i] == a + m[..i] && ts[|a| + i + 2..] == m[i + 2..] + b;
    assert ts[|a| + i] == m[i] && ts[|a| + i + 1] == m[i + 1];
  }

  lemma DeletesMiddle(a: seq<Tag>, m: seq<Tag>, m': seq<Tag>, b: seq<Tag>)
    requires Deletes(m, m')
    ensures Deletes(a + m + b, a + m' + b)
  {
    if m' != m {
      var i :| 0 <= i && i + 1 < |m| && m' == MergeTag(m, i);
      MergeMiddle(a, m, b, i);
      assert a + m' + b == MergeTag(a + m + b, |a| + i);
    }
  }

  lemma MiddleUnlinks(a: seq<BT>, m: seq<BT>, m': seq<BT>, b: seq<BT>)
    requires Deletes(TagsOf(m), TagsOf(m'))
    ensures Deletes(TagsOf(a + m + b), TagsOf(a + m' + b))
  {
    TagsAround(a, m, b);
    TagsAround(a, m', b);
    DeletesMiddle(TagsOf(a), TagsOf(m), TagsOf(m'), TagsOf(b));
  }

  /** Balancing leaves changes no link, unless it merges them; balancing inner nodes moves no leaf. */
  lemma BalanceLinks(cap: nat, l: BT, r: BT)
    requires 2 <= cap && Square(l) && Square(r) && l.Tip? == r.Tip?
    ensures if l.Fork? then BalTips(Balance(cap, l, r)) == Tips(l) + Tips(r)
            else Deletes(TagsOf([l, r]), TagsOf(BalTips(Balance(cap, l, r))))
  {
    var b := Balance(cap, l, r);
    if l.Fork? {
      if b.Borrowed? {
        var x := if |l.keys| < Half(cap) then |l.keys| + 1 else |l.keys| - 1;
        ForksBorrow(cap, l, r, x);
        CutTips(l.kids + r.kids, x);
      }
      TipsCat(l.kids, r.kids);
    } else if b.Borrowed? {
      assert TagsOf(BalTips(b)) == TagsOf([l, r]);
    } else {
      assert TagsOf(BalTips(b)) == MergeTag(TagsOf([l, r]), 0);
    }
  }

  lemma RejoinTips(cap: nat, ks: seq<Key>, cs: seq<BT>, l: nat, b: Bal)
    requires l + 1 < |ks| == |cs|
    ensures Tips(Rejoin(cap, ks, cs, l, b).t) == TipsAll(cs[..l]) + BalTips(b) + TipsAll(cs[l + 2..])
  {
    match b
    case Borrowed(x, y, _) =>
      Paired(cs, l, x, y);
      TipsFour(cs[..l], x, y, cs[l + 2..]);
    case Merged(m) =>
      Unpaired(cs, l, m);
      TipsThree(cs[..l], m, cs[l + 2..]);
  }

  lemma TipsPair(cs: seq<BT>, l: nat)
    requires l + 1 < |cs|
    ensures TipsAll(cs) == TipsAll(cs[..l]) + (Tips(cs[l]) + Tips(cs[l + 1])) + TipsAll(cs[l + 2..])
  {
    Pair(cs, l);
    TipsFour(cs[..l], cs[l], cs[l + 1], cs[l + 2..]);
  }

  /** Replacing child `i` by its outcome. */
  lemma ReplaceLinks(cs: seq<BT>, i: nat, c: BT)
    requires i < |cs| && Deletes(TagsOf(Tips(cs[i])), TagsOf(Tips(c)))
    ensures Deletes(TagsOf(TipsAll(cs)), TagsOf(TipsAll(cs[i := c])))
  {
    TipsAroundKid(cs, i);
    Replaced(cs, i, c);
    TipsThree(cs[..i], c, cs[i + 1..]);
    MiddleUnlinks(TipsAll(cs[..i]), Tips(cs[i]), Tips(c), TipsAll(cs[i + 1..]));
  }

  lemma SameLinks(cs: seq<BT>, i: nat, c: BT)
    requires i < |cs| && TagsOf(Tips(cs[i])) == TagsOf(Tips(c))
    ensures TagsOf(TipsAll(cs)) == TagsOf(TipsAll(cs[i := c]))
  {
    TipsAroundKid(cs, i);
    Replaced(cs, i, c);
    TipsThree(cs[..i], c, cs[i + 1..]);
    TagsAround(TipsAll(cs[..i]), Tips(cs[i]), TipsAll(cs[i + 1..]));
    TagsAround(TipsAll(cs[..i]), Tips(c), TipsAll(cs[i + 1..]));
  }

  lemma MendLinks(cap: nat, ks: seq<Key>, cs: seq<BT>, i: nat) returns (d: Del)
    requires i < |ks| == |cs| && 2 <= |cs| && 2 <= cap
    requires forall j {:trigger cs[j]} :: 0 <= j < |cs| ==> Square(cs[j]) && cs[j].Tip? == cs[0].Tip?
    ensures d == Mend(cap, ks, cs, i)
    ensures if cs[0].Fork? then Tips(d.t) == TipsAll(cs) else Deletes(TagsOf(TipsAll(cs)), TagsOf(Tips(d.t)))
  {
    d := Mend(cap, ks, cs, i);
    var l := if i >= 1 then i - 1 else i;
    assert cs[l].Tip? == cs[0].Tip? && cs[l + 1].Tip? == cs[0].Tip?;
    var b := Balance(cap, cs[l], cs[l + 1]);
    BalanceLinks(cap, cs[l], cs[l + 1]);
    RejoinTips(cap, ks, cs, l, b);
    TipsPair(cs, l);
    if cs[0].Tip? {
      assert Tips(cs[l]) + Tips(cs[l + 1]) == [cs[l], cs[l + 1]];
      MiddleUnlinks(TipsAll(cs[..l]), [cs[l], cs[l + 1]], BalTips(b), TipsAll(cs[l + 2..]));
    }
  }

  /** A deletion merges at most two leaves, and takes the right one out of the chain. */
  lemma {:induction false} DeleteLinks(cap: nat, t: BT, k: Key)
    requires Shaped(t) && 2 <= cap
    ensures Deletes(TagsOf(Tips(t)), TagsOf(Tips(Delete(cap, t, k).t)))
    ensures t.Tip? ==> TagsOf(Tips(t)) == TagsOf(Tips(Delete(cap, t, k).t))
  {
    if t.Fork? {
      var i := Locate(t.keys, k);
      if i >= 0 {
        assert Shaped(t.kids[i]);
        DeleteLinks(cap, t.kids[i], k);
        var d := Delete(cap, t.kids[i], k);
        if d.deleted {
          var cs := t.kids[i := d.t];
          ReplaceLinks(t.kids, i, d.t);
          if d.underflow && |cs| >= 2 {
            forall j | 0 <= j < |cs| ensures Square(cs[j]) && cs[j].Tip? == t.kids[0].Tip? { assert Shaped(t.kids[j]); }
            var d' := MendLinks(cap, t.keys, cs, i);
            if t.kids[0].Tip? { SameLinks(t.kids, i, d.t); }
          }
        }
      }
    }
  }
}
