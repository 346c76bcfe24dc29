/** Insertion into the sequential tree, through any chain of splits, is insertion into the sorted entries. */
module SeqInsert {
  import opened Nodes
  import opened TreeState
  import opened SeqTree

  /** A subtree after an insertion: one tree, or two with the boundary between them. */
  datatype Ins = One(t: BT) | Two(left: BT, right: BT, key: Key)

  /** Take the outcome at child `pos` back into its parent. */
  function Absorb(cap: nat, ks: seq<Key>, cs: seq<BT>, pos: nat, r: Ins): Ins
    requires pos < |ks| == |cs| && 2 <= cap
  {
    match r
    case One(c) => Keep(ks, cs, pos, c)
    case Two(l, rt, b) =>
      if |ks| < cap then Link(ks, cs[pos := l], pos, rt, b) else SplitFork(cap, ks, cs[pos := l], pos, rt, b)
  }

  function Keep(ks: seq<Key>, cs: seq<BT>, pos: nat, c: BT): Ins
    requires pos < |cs|
  {
    One(Fork(ks, cs[pos := c]))
  }

  function Link(ks: seq<Key>, cs: seq<BT>, pos: nat, rt: BT, b: Key): Ins
    requires pos < |ks| == |cs|
  {
    One(Fork(InsertAt(ks, pos + 1, b), InsertAt(cs, pos + 1, rt)))
  }

  /** Split a full inner node in the middle, and put the new child into the half its sibling is in. */
  function SplitFork(cap: nat, ks: seq<Key>, cs: seq<BT>, pos: nat, rt: BT, b: Key): (r: Ins)
    requires pos < |ks| == |cs| && cap <= |ks| && 2 <= cap
  {
    if pos < cap / 2 then SplitToLeft(ks, cs, cap / 2, rt, b) else SplitToRight(ks, cs, cap / 2, rt, b)
  }

  function SplitToLeft(ks: seq<Key>, cs: seq<BT>, h: nat, rt: BT, b: Key): Ins
    requires h < |ks| == |cs|
  {
    var i := Locate(ks[..h], b) + 1;
    Two(Fork(InsertAt(ks[..h], i, b), InsertAt(cs[..h], i, rt)), Fork(ks[h..], cs[h..]), ks[h])
  }

  function SplitToRight(ks: seq<Key>, cs: seq<BT>, h: nat, rt: BT, b: Key): Ins
    requires h < |ks| == |cs|
  {
    var i := Locate(ks[h..], b) + 1;
    var rk := InsertAt(ks[h..], i, b);
    Two(Fork(ks[..h], cs[..h]), Fork(rk, InsertAt(cs[h..], i, rt)), rk[0])
  }

  /** `insert_with_split_support`; `spare` is the address of the leaf a split would allocate. */
  function Insert(cap: nat, t: BT, k: Key, v: Val, spare: nat): Ins
    requires Shaped(t) && 2 <= cap
  {
    match t
    case Tip(_, es, _) =>
      if Found(es, k) || |es| < cap then PutTip(t, k, v) else SplitTip(cap, t, k, v, spare)
    case Fork(ks, cs) =>
      var i := Locate(ks, k);
      var pos := if i < 0 then 0 else i;
      Absorb(cap, if i < 0 then ks[0 := k] else ks, cs, pos, Insert(cap, cs[pos], k, v, spare))
  }

  function PutTip(t: BT, k: Key, v: Val): Ins
    requires t.Tip?
  {
    One(t.(entries := Put(t.entries, k, v)))
  }

  function SplitTip(cap: nat, t: BT, k: Key, v: Val, spare: nat): Ins
    requires t.Tip? && 2 <= cap <= |t.entries|
  {
    var (l, r) := SplitPut(t.entries, k, v, cap);
    Two(Tip(t.addr, l, spare), Tip(spare, r, t.next), r[0].key)
  }

  // ---------- correctness ----------

  ghost predicate Even(cap: nat) {
    4 <= cap && cap % 2 == 0
  }

  /** What an insertion must leave: well-formed trees over the same range, together holding `es`. */
  ghost predicate InsOk(cap: nat, r: Ins, h: nat, lo: Bound, hi: Bound, min: nat, es: seq<Entry>) {
    match r
    case One(t) => WF(cap, t, h, lo, hi, min) && Flat(t) == es
    case Two(l, rt, b) =>
      && WF(cap, l, h, lo, At(b), cap / 2) && WF(cap, rt, h, At(b), hi, cap / 2)
      && Above(lo, b) && (lo.At? ==> lo.k < b) && Below(b, hi) && Flat(l) + Flat(rt) == es
  }

  lemma LowerLo(cap: nat, t: BT, h: nat, lo: Bound, hi: Bound, min: nat, lo': Bound)
    requires WF(cap, t, h, lo, hi, min) && (lo'.NegInf? || (lo.At? && lo'.At? && lo'.k <= lo.k))
    ensures WF(cap, t, h, lo', hi, min)
  {
  }

  // ----- leaves -----

  lemma TipInsert(cap: nat, t: BT, lo: Bound, hi: Bound, min: nat, k: Key, v: Val, spare: nat)
    requires Even(cap) && t.Tip? && WF(cap, t, 1, lo, hi, min) && Above(lo, k) && Below(k, hi)
    ensures InsOk(cap, Insert(cap, t, k, v, spare), 1, lo, hi, min, Put(t.entries, k, v))
  {
    var es := t.entries;
    PutSorted(es, k, v);
    PutWithin(es, k, v, lo, hi);
    if !Found(es, k) && |es| >= cap {
      SplitPutIsPut(es, k, v, cap);
      var (l, r) := SplitPut(es, k, v, cap);
      CutWithin(l, r, lo, hi);
      SplitSizes(es, k, v, cap);
    }
  }

  lemma PutWithin(es: seq<Entry>, k: Key, v: Val, lo: Bound, hi: Bound)
    requires Within(es, lo, hi) && Above(lo, k) && Below(k, hi)
    ensures Within(Put(es, k, v), lo, hi)
  {
    var r, p := Put(es, k, v), Slot(es, k);
    forall i | 0 <= i < |r| ensures Above(lo, r[i].key) && Below(r[i].key, hi) {
      if i != p { assert r[i] == es[if i < p || Found(es, k) then i else i - 1]; }
    }
  }

  lemma SplitSizes(es: seq<Entry>, k: Key, v: Val, cap: nat)
    requires Even(cap) && !Found(es, k) && |es| == cap && EntriesSorted(es)
    ensures var (l, r) := SplitPut(es, k, v, cap); cap / 2 <= |l| && cap / 2 <= |r|
  {
    if Slot(es, k) < cap / 2 { SplitLow(es, k, v, cap / 2); } else { SplitHigh(es, k, v, cap / 2); }
  }

  lemma CutWithin(l: seq<Entry>, r: seq<Entry>, lo: Bound, hi: Bound)
    requires EntriesSorted(l + r) && Within(l + r, lo, hi) && l != [] && r != []
    ensures EntriesSorted(l) && EntriesSorted(r) && Within(l, lo, At(r[0].key)) && Within(r, At(r[0].key), hi)
    ensures Above(lo, r[0].key) && (lo.At? ==> lo.k < r[0].key) && Below(r[0].key, hi)
  {
    var es := l + r;
    assert es[|l|] == r[0] && es[0] == l[0];
    forall i | 0 <= i < |l| ensures Above(lo, l[i].key) && l[i].key < r[0].key { assert es[i] == l[i]; }
    forall i | 0 <= i < |r| ensures r[0].key <= r[i].key && Below(r[i].key, hi) { assert es[|l| + i] == r[i]; }
    forall i, j | 0 <= i < j < |l| ensures l[i].key < l[j].key { assert es[i] == l[i] && es[j] == l[j]; }
    forall i, j | 0 <= i < j < |r| ensures r[i].key < r[j].key { assert es[|l| + i] == r[i] && es[|l| + j] == r[j]; }
  }

  // ----- inner nodes -----

  lemma ReplaceKid(cap: nat, ks: seq<Key>, cs: seq<BT>, h: nat, hi: Bound, pos: nat, c: BT)
    requires Kids(cap, ks, cs, h, hi) && pos < |cs| && WF(cap, c, h - 1, At(ks[pos]), HiOf(ks, hi, pos), cap / 2)
    ensures Kids(cap, ks, cs[pos := c], h, hi)
  {
    var cs' := cs[pos := c];
    forall i | 0 <= i < |cs'| ensures Kid(cap, ks, cs', h, hi, i) { assert Kid(cap, ks, cs, h, hi, i); }
  }

  lemma InsertedKey(ks: seq<Key>, hi: Bound, pos: nat, b: Key, i: nat)
    requires pos < |ks| && i <= |ks| && Sorted(ks) && ks[pos] < b && Below(b, HiOf(ks, hi, pos))
    ensures var ks' := InsertAt(ks, pos + 1, b);
            && Sorted(ks')
            && ks'[i] == (if i <= pos then ks[i] else if i == pos + 1 then b else ks[i - 1])
            && HiOf(ks', hi, i) == (if i < pos then HiOf(ks, hi, i)
                   else if i == pos then At(b) else HiOf(ks, hi, i - 1))
  {
  }

  lemma InsertKidAt(cap: nat, ks: seq<Key>, cs: seq<BT>, h: nat, hi: Bound, pos: nat, l: BT, rt: BT, b: Key,
                    ks': seq<Key>, cs': seq<BT>, i: nat)
    requires Kids(cap, ks, cs, h, hi) && pos < |cs| && ks[pos] < b && Below(b, HiOf(ks, hi, pos)) && i <= |cs|
    requires WF(cap, l, h - 1, At(ks[pos]), At(b), cap / 2) && WF(cap, rt, h - 1, At(b), HiOf(ks, hi, pos), cap / 2)
    requires ks' == InsertAt(ks, pos + 1, b) && cs' == InsertAt(cs[pos := l], pos + 1, rt)
    ensures Kid(cap, ks', cs', h, hi, i)
  {
    InsertedKey(ks, hi, pos, b, i);
    if i < pos { assert cs'[i] == cs[i] && Kid(cap, ks, cs, h, hi, i); }
    else if i == pos { assert cs'[i] == l; }
    else if i == pos + 1 { assert cs'[i] == rt; }
    else { assert cs'[i] == cs[i - 1] && Kid(cap, ks, cs, h, hi, i - 1); }
  }

  lemma InsertKid(cap: nat, ks: seq<Key>, cs: seq<BT>, h: nat, hi: Bound, pos: nat, l: BT, rt: BT, b: Key)
    requires Kids(cap, ks, cs, h, hi) && pos < |cs| && ks[pos] < b && Below(b, HiOf(ks, hi, pos))
    requires WF(cap, l, h - 1, At(ks[pos]), At(b), cap / 2) && WF(cap, rt, h - 1, At(b), HiOf(ks, hi, pos), cap / 2)
    ensures Kids(cap, InsertAt(ks, pos + 1, b), InsertAt(cs[pos := l], pos + 1, rt), h, hi)
  {
    var ks', cs' := InsertAt(ks, pos + 1, b), InsertAt(cs[pos := l], pos + 1, rt);
    InsertedKey(ks, hi, pos, b, |ks|);
    forall i | 0 <= i < |cs'| ensures Kid(cap, ks', cs', h, hi, i) {
      InsertKidAt(cap, ks, cs, h, hi, pos, l, rt, b, ks', cs', i);
    }
  }

  lemma LeftKids(cap: nat, ks: seq<Key>, cs: seq<BT>, h: nat, hi: Bound, x: nat)
    requires Kids(cap, ks, cs, h, hi) && 0 < x < |ks|
    ensures Kids(cap, ks[..x], cs[..x], h, At(ks[x]))
  {
    forall i | 0 <= i < x ensures Kid(cap, ks[..x], cs[..x], h, At(ks[x]), i) { assert Kid(cap, ks, cs, h, hi, i); }
  }

  lemma RightKids(cap: nat, ks: seq<Key>, cs: seq<BT>, h: nat, hi: Bound, x: nat)
    requires Kids(cap, ks, cs, h, hi) && x < |ks|
    ensures Kids(cap, ks[x..], cs[x..], h, hi)
  {
    forall i | 0 <= i < |ks| - x ensures Kid(cap, ks[x..], cs[x..], h, hi, i) { assert Kid(cap, ks, cs, h, hi, x + i); }
  }

  /** Splitting a full node only cuts the node with its new child in two. */
  lemma SplitForkIsCut(cap: nat, ks: seq<Key>, cs: seq<BT>, pos: nat, rt: BT, b: Key)
    requires Even(cap) && pos < |ks| == |cs| == cap && Sorted(ks) && ks[pos] < b && (pos + 1 < |ks| ==> b < ks[pos + 1])
    ensures var c := if pos < cap / 2 then cap / 2 + 1 else cap / 2;
            var ks', cs' := InsertAt(ks, pos + 1, b), InsertAt(cs, pos + 1, rt);
            SplitFork(cap, ks, cs, pos, rt, b) == Two(Fork(ks'[..c], cs'[..c]), Fork(ks'[c..], cs'[c..]), ks'[c])
  {
    var h := cap / 2;
    LocateInHalf(ks, pos, b, h);
    SplitInsertIsCut(ks, pos, b, h);
    SplitInsertIsCut(cs, pos, rt, h);
  }

  lemma FlatInsert(cs: seq<BT>, pos: nat, l: BT, rt: BT)
    requires pos < |cs|
    ensures FlatAll(InsertAt(cs[pos := l], pos + 1, rt))
              == FlatAll(cs[..pos]) + (Flat(l) + Flat(rt)) + FlatAll(cs[pos + 1..])
  {
    InsertedAfter(cs, pos, l, rt);
    Four(cs[..pos], l, rt, cs[pos + 1..]);
  }

  lemma InsertedAfter<T>(cs: seq<T>, pos: nat, l: T, r: T)
    requires pos < |cs|
    ensures InsertAt(cs[pos := l], pos + 1, r) == (cs[..pos] + [l]) + ([r] + cs[pos + 1..])
  {
  }

  ghost predicate KidInsOk(cap: nat, ks: seq<Key>, cs: seq<BT>, h: nat, hi: Bound, pos: nat, r: Ins, es: seq<Entry>) {
    && Kids(cap, ks, cs, h, hi) && pos < |cs| && InsOk(cap, r, h - 1, At(ks[pos]), HiOf(ks, hi, pos), cap / 2, es)
  }

  lemma AbsorbOne(cap: nat, ks: seq<Key>, cs: seq<BT>, h: nat, lo: Bound, hi: Bound, min: nat, pos: nat, r: Ins,
        es: seq<Entry>)
    requires Even(cap) && KidInsOk(cap, ks, cs, h, hi, pos, r, es) && r.One?
    requires min <= |ks| <= cap && Above(lo, ks[0])
    ensures InsOk(cap, Absorb(cap, ks, cs, pos, r), h, lo, hi, min, FlatAll(cs[..pos]) + es + FlatAll(cs[pos + 1..]))
  {
    ReplaceKid(cap, ks, cs, h, hi, pos, r.t);
    FlatReplace(cs, pos, r.t);
  }

  lemma AbsorbLink(cap: nat, ks: seq<Key>, cs: seq<BT>, h: nat, lo: Bound, hi: Bound, min: nat, pos: nat, r: Ins,
        es: seq<Entry>)
    requires Even(cap) && KidInsOk(cap, ks, cs, h, hi, pos, r, es) && r.Two? && |ks| < cap
    requires min <= |ks| && Above(lo, ks[0])
    ensures InsOk(cap, Absorb(cap, ks, cs, pos, r), h, lo, hi, min, FlatAll(cs[..pos]) + es + FlatAll(cs[pos + 1..]))
  {
    InsertKid(cap, ks, cs, h, hi, pos, r.left, r.right, r.key);
    FlatInsert(cs, pos, r.left, r.right);
  }

  lemma CutKids(cap: nat, ks: seq<Key>, cs: seq<BT>, h: nat, lo: Bound, hi: Bound, x: nat)
    requires Even(cap) && Kids(cap, ks, cs, h, hi) && |ks| == cap + 1 && cap / 2 <= x <= cap / 2 + 1 && Above(lo, ks[0])
    ensures InsOk(cap, Two(Fork(ks[..x], cs[..x]), Fork(ks[x..], cs[x..]), ks[x]), h, lo, hi, cap / 2, FlatAll(cs))
  {
    LeftKids(cap, ks, cs, h, hi, x);
    RightKids(cap, ks, cs, h, hi, x);
    Halved(cs, x);
    FlatCat(cs[..x], cs[x..]);
    assert ks[..x][|ks[..x]| - 1] == ks[x - 1] && ks[0] < ks[x];
  }

  lemma AbsorbSplit(cap: nat, ks: seq<Key>, cs: seq<BT>, h: nat, lo: Bound, hi: Bound, min: nat, pos: nat, r: Ins,
        es: seq<Entry>)
    requires Even(cap) && KidInsOk(cap, ks, cs, h, hi, pos, r, es) && r.Two? && |ks| == cap && Above(lo, ks[0])
    ensures InsOk(cap, Absorb(cap, ks, cs, pos, r), h, lo, hi, min, FlatAll(cs[..pos]) + es + FlatAll(cs[pos + 1..]))
  {
    InsertKid(cap, ks, cs, h, hi, pos, r.left, r.right, r.key);
    FlatInsert(cs, pos, r.left, r.right);
    SplitForkIsCut(cap, ks, cs[pos := r.left], pos, r.right, r.key);
    CutKids(cap, InsertAt(ks, pos + 1, r.key), InsertAt(cs[pos := r.left], pos + 1, r.right), h, lo, hi,
            if pos < cap / 2 then cap / 2 + 1 else cap / 2);
  }

  /** A key below the first key lowers it; the children stay well-formed under the lowered key. */
  lemma LowerFirst(cap: nat, ks: seq<Key>, cs: seq<BT>, h: nat, hi: Bound, k: Key)
    requires Kids(cap, ks, cs, h, hi) && k < ks[0]
    ensures Kids(cap, ks[0 := k], cs, h, hi)
  {
    var ks' := ks[0 := k];
    forall i | 0 <= i < |cs| ensures Kid(cap, ks', cs, h, hi, i) {
      assert Kid(cap, ks, cs, h, hi, i);
      if i == 0 { LowerLo(cap, cs[0], h - 1, At(ks[0]), HiOf(ks, hi, 0), cap / 2, At(k)); }
    }
  }

  lemma AbsorbOk(cap: nat, ks: seq<Key>, cs: seq<BT>, h: nat, lo: Bound, hi: Bound, min: nat, pos: nat, r: Ins,
        es: seq<Entry>)
    requires Even(cap) && KidInsOk(cap, ks, cs, h, hi, pos, r, es)
    requires min <= |ks| <= cap && Above(lo, ks[0])
    ensures InsOk(cap, Absorb(cap, ks, cs, pos, r), h, lo, hi, min, FlatAll(cs[..pos]) + es + FlatAll(cs[pos + 1..]))
  {
    if r.One? { AbsorbOne(cap, ks, cs, h, lo, hi, min, pos, r, es); }
    else if |ks| < cap { AbsorbLink(cap, ks, cs, h, lo, hi, min, pos, r, es); }
    else { AbsorbSplit(cap, ks, cs, h, lo, hi, min, pos, r, es); }
  }

  /** Insertion leaves well-formed trees whose entries are the old ones with `k` bound to `v`. */
  lemma {:induction false} InsertOk(cap: nat, t: BT, h: nat, lo: Bound, hi: Bound, min: nat, k: Key, v: Val, spare: nat)
    requires Even(cap) && WF(cap, t, h, lo, hi, min) && Shaped(t) && Above(lo, k) && Below(k, hi)
    ensures InsOk(cap, Insert(cap, t, k, v, spare), h, lo, hi, min, Put(Flat(t), k, v))
    decreases h
  {
    if t.Tip? {
      TipInsert(cap, t, lo, hi, min, k, v, spare);
    } else {
      var i := Locate(t.keys, k);
      var pos := if i < 0 then 0 else i;
      var ks := if i < 0 then t.keys[0 := k] else t.keys;
      if i < 0 { LowerFirst(cap, t.keys, t.kids, h, hi, k); }
      assert Kid(cap, ks, t.kids, h, hi, pos);
      InsertOk(cap, t.kids[pos], h - 1, At(ks[pos]), HiOf(ks, hi, pos), cap / 2, k, v, spare);
      AbsorbOk(cap, ks, t.kids, h, lo, hi, min, pos, Insert(cap, t.kids[pos], k, v, spare),
          Put(Flat(t.kids[pos]), k, v));
      RouteBetween(cap, ks, t.kids, h, hi, pos, k);
      PutMiddle(FlatAll(t.kids[..pos]), Flat(t.kids[pos]), FlatAll(t.kids[pos + 1..]), k, v);
    }
  }
}
