/** Deletion from the sequential tree: borrowing from or merging with a sibling, up to the collapse of the root. */
module SeqDelete {
  import opened Nodes
  import opened TreeState
  import opened SeqTree
  import opened SeqInsert

  /** Two siblings after balancing: an entry or child borrowed, with the new boundary, or the two merged. */
  datatype Bal = Borrowed(left: BT, right: BT, key: Key) | Merged(t: BT)

  /** The underflow bound. */
  function Half(cap: nat): nat {
    (cap + 1) / 2
  }

  predicate Square(t: BT) {
    t.Fork? ==> 0 < |t.keys| == |t.kids|
  }

  function Size(t: BT): nat {
    if t.Tip? then |t.entries| else |t.keys|
  }

  /** The left leaf takes the first entry of the right one. */
  function TakeFirst(l: BT, r: BT): Bal
    requires l.Tip? && r.Tip? && |r.entries| > 1
  {
    Borrowed(l.(entries := l.entries + [r.entries[0]]), r.(entries := r.entries[1..]), r.entries[1].key)
  }

  /** The right leaf takes the last entry of the left one. */
  function GiveLast(l: BT, r: BT): Bal
    requires l.Tip? && r.Tip? && |l.entries| > 0
  {
    var n := |l.entries| - 1;
    Borrowed(l.(entries := l.entries[..n]), r.(entries := [l.entries[n]] + r.entries), l.entries[n].key)
  }

  function BalanceTips(cap: nat, l: BT, r: BT): Bal
    requires l.Tip? && r.Tip? && 2 <= cap
  {
    if |l.entries| < Half(cap) && |r.entries| > Half(cap) then TakeFirst(l, r)
    else if |r.entries| < Half(cap) && |l.entries| > Half(cap) then GiveLast(l, r)
    else Merged(Tip(l.addr, l.entries + r.entries, r.next))
  }

  function TakeFirstKid(l: BT, r: BT): Bal
    requires l.Fork? && r.Fork? && |r.keys| > 1 && Square(r)
  {
    Borrowed(Fork(l.keys + [r.keys[0]], l.kids + [r.kids[0]]), Fork(r.keys[1..], r.kids[1..]), r.keys[1])
  }

  function GiveLastKid(l: BT, r: BT): Bal
    requires l.Fork? && r.Fork? && Square(l)
  {
    var n := |l.keys| - 1;
    Borrowed(Fork(l.keys[..n], l.kids[..n]), Fork([l.keys[n]] + r.keys, [l.kids[n]] + r.kids), l.keys[n])
  }

  function BalanceForks(cap: nat, l: BT, r: BT): Bal
    requires l.Fork? && r.Fork? && Square(l) && Square(r) && 2 <= cap
  {
    if |l.keys| < Half(cap) && |r.keys| > Half(cap) then TakeFirstKid(l, r)
    else if |r.keys| < Half(cap) && |l.keys| > Half(cap) then GiveLastKid(l, r)
    else Merged(Fork(l.keys + r.keys, l.kids + r.kids))
  }

  function Balance(cap: nat, l: BT, r: BT): Bal
    requires Square(l) && Square(r) && l.Tip? == r.Tip? && 2 <= cap
  {
    if l.Tip? then BalanceTips(cap, l, r) else BalanceForks(cap, l, r)
  }

  /** A subtree after a deletion, whether the key was there, and whether the subtree has become too small. */
  datatype Del = Del(t: BT, deleted: bool, underflow: bool)

  function DropAt<T>(s: seq<T>, i: nat): seq<T>
    requires i < |s|
  {
    s[..i] + s[i + 1..]
  }

  /** Take the outcome of balancing children `l` and `l + 1` back into their parent. */
  function Rejoin(cap: nat, ks: seq<Key>, cs: seq<BT>, l: nat, b: Bal): Del
    requires l + 1 < |ks| == |cs|
  {
    match b
    case Borrowed(x, y, key) => Del(Fork(ks[l + 1 := key], cs[l := x][l + 1 := y]), true, false)
    case Merged(m) => Del(Fork(DropAt(ks, l + 1), DropAt(cs[l := m], l + 1)), true, |ks| - 1 < Half(cap))
  }

  /** `delete_key` at a leaf. */
  function DeleteTip(cap: nat, t: BT, k: Key): Del
    requires t.Tip?
  {
    var found := Found(t.entries, k);
    Del(t.(entries := Remove(t.entries, k)), found, found && |t.entries| - 1 < Half(cap))
  }

  /** `delete_key`. */
  function Delete(cap: nat, t: BT, k: Key): (d: Del)
    requires Shaped(t) && 2 <= cap
    ensures d.t.Tip? == t.Tip? && Square(d.t)
  {
    match t
    case Tip(_, _, _) => DeleteTip(cap, t, k)
    case Fork(ks, cs) =>
      var i := Locate(ks, k);
      if i < 0 then Del(t, false, false)
      else
        var d := Delete(cap, cs[i], k);
        if !d.deleted then Del(t, false, false)
        else if !d.underflow || |cs| < 2 then Del(Fork(ks, cs[i := d.t]), true, d.underflow)
        else
          var cs' := cs[i := d.t];
          assert forall j {:trigger cs'[j]} :: 0 <= j < |cs'| ==> Square(cs'[j]) && cs'[j].Tip? == cs'[0].Tip? by {
            forall j | 0 <= j < |cs'| ensures Square(cs'[j]) && cs'[j].Tip? == cs[0].Tip? { assert Shaped(cs[j]); }
          }
          Mend(cap, ks, cs', i)
  }

  /** Child `i` is too small: balance it with its left sibling, or with its right one if it is the first. */
  function Mend(cap: nat, ks: seq<Key>, cs: seq<BT>, i: nat): (d: Del)
    requires i < |ks| == |cs| && 2 <= |cs| && 2 <= cap
    requires forall j {:trigger cs[j]} :: 0 <= j < |cs| ==> Square(cs[j]) && cs[j].Tip? == cs[0].Tip?
    ensures d.t.Fork? && Square(d.t)
  {
    var l := if i >= 1 then i - 1 else i;
    Rejoin(cap, ks, cs, l, Balance(cap, cs[l], cs[l + 1]))
  }

  // ---------- balancing ----------

  ghost predicate NotAbove(hi: Bound, hi': Bound) {
    hi'.PosInf? || (hi.At? && hi'.At? && hi.k <= hi'.k)
  }

  /** A tree stays well-formed under a wider upper bound. */
  lemma {:induction false} WidenHi(cap: nat, t: BT, h: nat, lo: Bound, hi: Bound, min: nat, hi': Bound)
    requires WF(cap, t, h, lo, hi, min) && NotAbove(hi, hi')
    ensures WF(cap, t, h, lo, hi', min)
    decreases h
  {
    if t.Fork? {
      forall i | 0 <= i < |t.kids| ensures Kid(cap, t.keys, t.kids, h, hi', i) {
        assert Kid(cap, t.keys, t.kids, h, hi, i);
        if i + 1 == |t.keys| { WidenHi(cap, t.kids[i], h - 1, At(t.keys[i]), hi, cap / 2, hi'); }
      }
    }
  }

  /** One of two neighbours is one short, the other is not. */
  ghost predicate Uneven(cap: nat, l: BT, r: BT) {
    (Size(l) == cap / 2 - 1 && Size(r) >= cap / 2) || (Size(r) == cap / 2 - 1 && Size(l) >= cap / 2)
  }

  ghost predicate Siblings(cap: nat, l: BT, r: BT, h: nat, lo: Key, sep: Key, hi: Bound) {
    && Even(cap) && Uneven(cap, l, r) && lo < sep && Below(sep, hi)
    && WF(cap, l, h, At(lo), At(sep), cap / 2 - 1) && WF(cap, r, h, At(sep), hi, cap / 2 - 1)
  }

  /** What balancing must leave: well-formed neighbours, or one well-formed node, with the same entries. */
  ghost predicate BalOk(cap: nat, b: Bal, h: nat, lo: Key, hi: Bound, es: seq<Entry>) {
    match b
    case Borrowed(x, y, key) =>
      && WF(cap, x, h, At(lo), At(key), cap / 2) && WF(cap, y, h, At(key), hi, cap / 2)
      && lo < key && Below(key, hi) && Flat(x) + Flat(y) == es
    case Merged(m) => WF(cap, m, h, At(lo), hi, cap / 2) && Flat(m) == es
  }

  /** Borrowing only moves the cut between the entries of the two leaves. */
  lemma TipsBorrow(cap: nat, l: BT, r: BT, x: nat)
    requires 2 <= cap && l.Tip? && r.Tip? && BalanceTips(cap, l, r).Borrowed?
    requires x == if |l.entries| < Half(cap) then |l.entries| + 1 else |l.entries| - 1
    ensures var es := l.entries + r.entries;
            && 0 < x < |es|
            && BalanceTips(cap, l, r) == Borrowed(l.(entries := es[..x]), r.(entries := es[x..]), es[x].key)
  {
    var es, n := l.entries + r.entries, |l.entries|;
    if n < Half(cap) { assert es[..x] == l.entries + [r.entries[0]] && es[x..] == r.entries[1..]; }
    else { assert es[..x] == l.entries[..n - 1] && es[x..] == [l.entries[n - 1]] + r.entries; }
  }

  lemma TipsBalance(cap: nat, l: BT, r: BT, lo: Key, sep: Key, hi: Bound)
    requires l.Tip? && r.Tip? && Siblings(cap, l, r, 1, lo, sep, hi)
    ensures BalOk(cap, BalanceTips(cap, l, r), 1, lo, hi, l.entries + r.entries)
  {
    SortedCat(l.entries, r.entries, At(lo), sep, hi);
    if BalanceTips(cap, l, r).Borrowed? {
      var es := l.entries + r.entries;
      var x := if |l.entries| < Half(cap) then |l.entries| + 1 else |l.entries| - 1;
      TipsBorrow(cap, l, r, x);
      CutAt(es, x, es[..x], es[x..], At(lo), hi);
    }
  }

  lemma CutAt(es: seq<Entry>, i: nat, x: seq<Entry>, y: seq<Entry>, lo: Bound, hi: Bound)
    requires EntriesSorted(es) && Within(es, lo, hi) && 0 < i < |es| && x == es[..i] && y == es[i..]
    ensures x + y == es && EntriesSorted(x) && EntriesSorted(y) && Within(x, lo, At(y[0].key))
    ensures Within(y, At(y[0].key), hi)
    ensures Above(lo, y[0].key) && (lo.At? ==> lo.k < y[0].key) && Below(y[0].key, hi)
  {
    assert x + y == es;
    CutWithin(x, y, lo, hi);
  }

  /** Two lists of children side by side. */
  lemma CatKids(cap: nat, l: BT, r: BT, h: nat, sep: Key, hi: Bound)
    requires l.Fork? && r.Fork? && Kids(cap, l.keys, l.kids, h, At(sep)) && Kids(cap, r.keys, r.kids, h, hi)
    requires sep <= r.keys[0]
    ensures Kids(cap, l.keys + r.keys, l.kids + r.kids, h, hi)
  {
    var ks, cs, n := l.keys + r.keys, l.kids + r.kids, |l.keys|;
    forall i, j | 0 <= i < j < |ks| ensures ks[i] < ks[j] {
      if i < n <= j { assert l.keys[i] <= l.keys[n - 1] < sep <= r.keys[0] <= r.keys[j - n]; }
    }
    forall i | 0 <= i < |cs| ensures Kid(cap, ks, cs, h, hi, i) {
      if i < n {
        assert Kid(cap, l.keys, l.kids, h, At(sep), i);
        if i + 1 == n { WidenHi(cap, l.kids[i], h - 1, At(l.keys[i]), At(sep), cap / 2, At(r.keys[0])); }
      } else {
        assert Kid(cap, r.keys, r.kids, h, hi, i - n);
      }
    }
  }

  lemma CutKidsAt(cap: nat, ks: seq<Key>, cs: seq<BT>, h: nat, lo: Key, hi: Bound, x: nat)
    requires Kids(cap, ks, cs, h, hi) && 0 < x < |ks| && lo <= ks[0] && cap / 2 <= x <= cap
    requires cap / 2 <= |ks| - x <= cap
    ensures BalOk(cap, Borrowed(Fork(ks[..x], cs[..x]), Fork(ks[x..], cs[x..]), ks[x]), h, lo, hi, FlatAll(cs))
  {
    LeftKids(cap, ks, cs, h, hi, x);
    RightKids(cap, ks, cs, h, hi, x);
    Halved(cs, x);
    FlatCat(cs[..x], cs[x..]);
    assert ks[..x][|ks[..x]| - 1] == ks[x - 1] && ks[0] < ks[x];
  }

  /** Borrowing only moves the cut between the two lists of children. */
  lemma ForksBorrow(cap: nat, l: BT, r: BT, x: nat)
    requires 2 <= cap && l.Fork? && r.Fork? && Square(l) && Square(r) && BalanceForks(cap, l, r).Borrowed?
    requires x == if |l.keys| < Half(cap) then |l.keys| + 1 else |l.keys| - 1
    ensures var ks, cs := l.keys + r.keys, l.kids + r.kids;
            0 < x < |ks| && BalanceForks(cap, l, r) == Borrowed(Fork(ks[..x], cs[..x]), Fork(ks[x..], cs[x..]), ks[x])
  {
    var ks, cs, n := l.keys + r.keys, l.kids + r.kids, |l.keys|;
    if n < Half(cap) {
      assert ks[..x] == l.keys + [r.keys[0]] && ks[x..] == r.keys[1..];
      assert cs[..x] == l.kids + [r.kids[0]] && cs[x..] == r.kids[1..];
    } else {
      assert ks[..x] == l.keys[..n - 1] && ks[x..] == [l.keys[n - 1]] + r.keys;
      assert cs[..x] == l.kids[..n - 1] && cs[x..] == [l.kids[n - 1]] + r.kids;
    }
  }

  lemma ForksBalance(cap: nat, l: BT, r: BT, h: nat, lo: Key, sep: Key, hi: Bound)
    requires l.Fork? && r.Fork? && Siblings(cap, l, r, h, lo, sep, hi)
    ensures BalOk(cap, BalanceForks(cap, l, r), h, lo, hi, FlatAll(l.kids + r.kids))
  {
    CatKids(cap, l, r, h, sep, hi);
    if BalanceForks(cap, l, r).Borrowed? {
      var x := if |l.keys| < Half(cap) then |l.keys| + 1 else |l.keys| - 1;
      ForksBorrow(cap, l, r, x);
      CutKidsAt(cap, l.keys + r.keys, l.kids + r.kids, h, lo, hi, x);
    }
  }

  lemma BalanceOk(cap: nat, l: BT, r: BT, h: nat, lo: Key, sep: Key, hi: Bound) returns (b: Bal)
    requires Siblings(cap, l, r, h, lo, sep, hi)
    ensures Square(l) && Square(r) && l.Tip? == r.Tip? && b == Balance(cap, l, r)
    ensures BalOk(cap, b, h, lo, hi, Flat(l) + Flat(r))
  {
    b := Balance(cap, l, r);
    if l.Tip? { TipsBalance(cap, l, r, lo, sep, hi); }
    else {
      ForksBalance(cap, l, r, h, lo, sep, hi);
      FlatCat(l.kids, r.kids);
    }
  }

  // ---------- taking a balanced pair back ----------

  /** The children of a node of which child `i` is one short. */
  ghost predicate KidsBut(cap: nat, ks: seq<Key>, cs: seq<BT>, h: nat, hi: Bound, i: nat) {
    && Even(cap) && h >= 2 && i < |ks| == |cs| && Sorted(ks) && Below(ks[|ks| - 1], hi)
    && (forall j {:trigger Kid(cap, ks, cs, h, hi, j)} :: 0 <= j < |cs| && j != i ==> Kid(cap, ks, cs, h, hi, j))
    && WF(cap, cs[i], h - 1, At(ks[i]), HiOf(ks, hi, i), cap / 2 - 1) && Size(cs[i]) == cap / 2 - 1
  }

  lemma BorrowKids(cap: nat, ks: seq<Key>, cs: seq<BT>, h: nat, hi: Bound, i: nat, l: nat, x: BT, y: BT, key: Key)
    requires KidsBut(cap, ks, cs, h, hi, i) && l + 1 < |ks| && (i == l || i == l + 1)
    requires WF(cap, x, h - 1, At(ks[l]), At(key), cap / 2) && WF(cap, y, h - 1, At(key), HiOf(ks, hi, l + 1), cap / 2)
    requires ks[l] < key && Below(key, HiOf(ks, hi, l + 1))
    ensures Kids(cap, ks[l + 1 := key], cs[l := x][l + 1 := y], h, hi)
  {
    var ks', cs' := ks[l + 1 := key], cs[l := x][l + 1 := y];
    forall j | 0 <= j < |cs'| ensures Kid(cap, ks', cs', h, hi, j) {
      if j != l && j != l + 1 { assert Kid(cap, ks, cs, h, hi, j); }
    }
  }

  lemma MergeKids(cap: nat, ks: seq<Key>, cs: seq<BT>, h: nat, hi: Bound, i: nat, l: nat, m: BT)
    requires KidsBut(cap, ks, cs, h, hi, i) && l + 1 < |ks| && (i == l || i == l + 1)
    requires WF(cap, m, h - 1, At(ks[l]), HiOf(ks, hi, l + 1), cap / 2)
    ensures Kids(cap, DropAt(ks, l + 1), DropAt(cs[l := m], l + 1), h, hi)
  {
    var ks', cs' := DropAt(ks, l + 1), DropAt(cs[l := m], l + 1);
    forall j | 0 <= j < |cs'| ensures Kid(cap, ks', cs', h, hi, j) {
      MergeKidAt(cap, ks, cs, h, hi, i, l, m, ks', cs', j);
    }
  }

  lemma MergeKidAt(cap: nat, ks: seq<Key>, cs: seq<BT>, h: nat, hi: Bound, i: nat, l: nat, m: BT,
                   ks': seq<Key>, cs': seq<BT>, j: nat)
    requires KidsBut(cap, ks, cs, h, hi, i) && l + 1 < |ks| && (i == l || i == l + 1) && j + 1 < |cs|
    requires WF(cap, m, h - 1, At(ks[l]), HiOf(ks, hi, l + 1), cap / 2)
    requires ks' == DropAt(ks, l + 1) && cs' == DropAt(cs[l := m], l + 1)
    ensures Kid(cap, ks', cs', h, hi, j)
  {
    if j < l { assert Kid(cap, ks, cs, h, hi, j); }
    else if j > l { assert cs'[j] == cs[j + 1] && ks'[j] == ks[j + 1] && Kid(cap, ks, cs, h, hi, j + 1); }
  }

  lemma FlatPair(cs: seq<BT>, l: nat)
    requires l + 1 < |cs|
    ensures FlatAll(cs) == FlatAll(cs[..l]) + (Flat(cs[l]) + Flat(cs[l + 1])) + FlatAll(cs[l + 2..])
  {
    Pair(cs, l);
    Four(cs[..l], cs[l], cs[l + 1], cs[l + 2..]);
  }

  lemma Pair<T>(cs: seq<T>, l: nat)
    requires l + 1 < |cs|
    ensures cs == (cs[..l] + [cs[l]]) + ([cs[l + 1]] + cs[l + 2..])
  {
  }

  lemma Paired<T>(cs: seq<T>, l: nat, x: T, y: T)
    requires l + 1 < |cs|
    ensures cs[l := x][l + 1 := y] == (cs[..l] + [x]) + ([y] + cs[l + 2..])
  {
  }

  lemma Unpaired<T>(cs: seq<T>, l: nat, m: T)
    requires l + 1 < |cs|
    ensures DropAt(cs[l := m], l + 1) == cs[..l] + [m] + cs[l + 2..]
  {
  }

  /** What a deletion must leave. */
  ghost predicate DelOk(cap: nat, d: Del, t: BT, h: nat, lo: Bound, hi: Bound, es: seq<Entry>) {
    && WF(cap, d.t, h, lo, hi, 0) && Flat(d.t) == es && Size(d.t) >= Size(t) - 1
    && (d.underflow ==> Size(d.t) < cap / 2)
    && (Size(t) >= cap / 2 && Size(d.t) < cap / 2 ==> d.underflow)
    && (t.Fork? && Size(d.t) == 1 ==> d.underflow)
  }

  lemma RejoinBorrow(cap: nat, ks: seq<Key>, cs: seq<BT>, h: nat, lo: Bound, hi: Bound, i: nat, l: nat, b: Bal,
        es: seq<Entry>)
    requires KidsBut(cap, ks, cs, h, hi, i) && l + 1 < |ks| <= cap && (i == l || i == l + 1) && Above(lo, ks[0])
    requires b.Borrowed? && BalOk(cap, b, h - 1, ks[l], HiOf(ks, hi, l + 1), es)
    ensures var d := Rejoin(cap, ks, cs, l, b);
            && WF(cap, d.t, h, lo, hi, 0) && Size(d.t) == |ks|
            && Flat(d.t) == FlatAll(cs[..l]) + es + FlatAll(cs[l + 2..])
  {
    BorrowKids(cap, ks, cs, h, hi, i, l, b.left, b.right, b.key);
    Paired(cs, l, b.left, b.right);
    Four(cs[..l], b.left, b.right, cs[l + 2..]);
  }

  lemma RejoinMerge(cap: nat, ks: seq<Key>, cs: seq<BT>, h: nat, lo: Bound, hi: Bound, i: nat, l: nat, b: Bal,
        es: seq<Entry>)
    requires KidsBut(cap, ks, cs, h, hi, i) && l + 1 < |ks| <= cap && (i == l || i == l + 1) && Above(lo, ks[0])
    requires b.Merged? && BalOk(cap, b, h - 1, ks[l], HiOf(ks, hi, l + 1), es)
    ensures var d := Rejoin(cap, ks, cs, l, b);
            && WF(cap, d.t, h, lo, hi, 0) && Size(d.t) == |ks| - 1
            && Flat(d.t) == FlatAll(cs[..l]) + es + FlatAll(cs[l + 2..])
  {
    MergeKids(cap, ks, cs, h, hi, i, l, b.t);
    Unpaired(cs, l, b.t);
    Three(DropAt(cs[l := b.t], l + 1), cs[..l], b.t, cs[l + 2..]);
  }

  lemma RejoinOk(cap: nat, ks: seq<Key>, cs: seq<BT>, h: nat, lo: Bound, hi: Bound, i: nat, l: nat, b: Bal, t: BT)
    requires KidsBut(cap, ks, cs, h, hi, i) && l + 1 < |ks| <= cap && (i == l || i == l + 1) && Above(lo, ks[0])
    requires BalOk(cap, b, h - 1, ks[l], HiOf(ks, hi, l + 1), Flat(cs[l]) + Flat(cs[l + 1]))
    requires t.Fork? && |t.keys| == |ks|
    ensures DelOk(cap, Rejoin(cap, ks, cs, l, b), t, h, lo, hi, FlatAll(cs))
  {
    FlatPair(cs, l);
    if b.Borrowed? { RejoinBorrow(cap, ks, cs, h, lo, hi, i, l, b, Flat(cs[l]) + Flat(cs[l + 1])); }
    else { RejoinMerge(cap, ks, cs, h, lo, hi, i, l, b, Flat(cs[l]) + Flat(cs[l + 1])); }
  }

  /** The least size of the top node may be set to anything it has. */
  lemma SetMin(cap: nat, t: BT, h: nat, lo: Bound, hi: Bound, min: nat, min': nat)
    requires WF(cap, t, h, lo, hi, min) && min' <= Size(t)
    ensures WF(cap, t, h, lo, hi, min') && min <= Size(t)
  {
  }

  lemma MendSiblings(cap: nat, ks: seq<Key>, cs: seq<BT>, h: nat, hi: Bound, i: nat, l: nat)
    requires KidsBut(cap, ks, cs, h, hi, i) && l + 1 < |ks| && (i == l || i == l + 1)
    ensures Siblings(cap, cs[l], cs[l + 1], h - 1, ks[l], ks[l + 1], HiOf(ks, hi, l + 1))
  {
    var j := if i == l then l + 1 else l;
    assert Kid(cap, ks, cs, h, hi, j);
    SetMin(cap, cs[j], h - 1, At(ks[j]), HiOf(ks, hi, j), cap / 2, cap / 2 - 1);
  }

  lemma MendOk(cap: nat, ks: seq<Key>, cs: seq<BT>, h: nat, lo: Bound, hi: Bound, i: nat, t: BT) returns (d: Del)
    requires KidsBut(cap, ks, cs, h, hi, i) && 2 <= |ks| <= cap && Above(lo, ks[0]) && t.Fork? && |t.keys| == |ks|
    requires forall j {:trigger cs[j]} :: 0 <= j < |cs| ==> Square(cs[j]) && cs[j].Tip? == cs[0].Tip?
    ensures d == Mend(cap, ks, cs, i) && DelOk(cap, d, t, h, lo, hi, FlatAll(cs))
  {
    d := Mend(cap, ks, cs, i);
    var l := if i >= 1 then i - 1 else i;
    MendSiblings(cap, ks, cs, h, hi, i, l);
    var b := BalanceOk(cap, cs[l], cs[l + 1], h - 1, ks[l], ks[l + 1], HiOf(ks, hi, l + 1));
    RejoinOk(cap, ks, cs, h, lo, hi, i, l, b, t);
  }

  // ---------- deletion ----------

  lemma TipOk(cap: nat, d: Del, t: BT, r: seq<Entry>, lo: Bound, hi: Bound, found: bool)
    requires Even(cap) && t.Tip? && |t.entries| <= cap && EntriesSorted(r) && Within(r, lo, hi)
    requires |r| == |t.entries| - (if found then 1 else 0)
    requires d == Del(t.(entries := r), found, found && |t.entries| - 1 < Half(cap))
    ensures DelOk(cap, d, t, 1, lo, hi, r)
  {
  }

  lemma TipDelete(cap: nat, t: BT, lo: Bound, hi: Bound, min: nat, k: Key)
    requires Even(cap) && t.Tip? && WF(cap, t, 1, lo, hi, min)
    ensures DelOk(cap, DeleteTip(cap, t, k), t, 1, lo, hi, Remove(t.entries, k))
  {
    RemoveSorted(t.entries, k);
    RemoveWithin(t.entries, k, lo, hi);
    TipOk(cap, DeleteTip(cap, t, k), t, Remove(t.entries, k), lo, hi, Found(t.entries, k));
  }

  lemma RemoveWithin(es: seq<Entry>, k: Key, lo: Bound, hi: Bound)
    requires Within(es, lo, hi)
    ensures Within(Remove(es, k), lo, hi) && |Remove(es, k)| == |es| - (if Found(es, k) then 1 else 0)
  {
    var r := Remove(es, k);
    forall i | 0 <= i < |r| ensures Above(lo, r[i].key) && Below(r[i].key, hi) {
      assert r[i] == es[if Found(es, k) && i >= Slot(es, k) then i + 1 else i];
    }
  }

  /** A key below the first key of a node is not in it. */
  lemma NotBelow(cap: nat, ks: seq<Key>, cs: seq<BT>, h: nat, hi: Bound, k: Key)
    requires Kids(cap, ks, cs, h, hi) && k < ks[0]
    ensures !Found(FlatAll(cs), k)
  {
    FlatFrom(cap, ks, cs, h, hi, 0);
    assert cs[0..] == cs;
    LookupMiss(FlatAll(cs), k);
  }

  /** Deleting from child `i` deletes from the node. */
  lemma RouteRemove(cap: nat, ks: seq<Key>, cs: seq<BT>, h: nat, hi: Bound, k: Key, c: BT)
    requires Kids(cap, ks, cs, h, hi) && ks[0] <= k
    requires Flat(c) == Remove(Flat(cs[Locate(ks, k)]), k)
    ensures FlatAll(cs[Locate(ks, k) := c]) == Remove(FlatAll(cs), k)
    ensures Found(FlatAll(cs), k) == Found(Flat(cs[Locate(ks, k)]), k)
  {
    var i := Locate(ks, k);
    RouteBetween(cap, ks, cs, h, hi, i, k);
    RemoveMiddle(FlatAll(cs[..i]), Flat(cs[i]), FlatAll(cs[i + 1..]), k);
    SlotMiddle(FlatAll(cs[..i]), Flat(cs[i]), FlatAll(cs[i + 1..]), k);
    FlatReplace(cs, i, c);
  }

  /** The child has lost an entry and is still large enough. */
  lemma ForkKeeps(cap: nat, t: BT, h: nat, lo: Bound, hi: Bound, k: Key, i: nat, d: Del)
    requires Even(cap) && t.Fork? && WF(cap, t, h, lo, hi, 0) && i == Locate(t.keys, k)
    requires i >= 0 && !d.underflow && Size(t) >= 2
    requires DelOk(cap, d, t.kids[i], h - 1, At(t.keys[i]), HiOf(t.keys, hi, i), Remove(Flat(t.kids[i]), k))
    ensures DelOk(cap, Del(Fork(t.keys, t.kids[i := d.t]), true, false), t, h, lo, hi, FlatAll(t.kids[i := d.t]))
  {
    assert Kid(cap, t.keys, t.kids, h, hi, i);
    SetMin(cap, t.kids[i], h - 1, At(t.keys[i]), HiOf(t.keys, hi, i), cap / 2, 0);
    SetMin(cap, d.t, h - 1, At(t.keys[i]), HiOf(t.keys, hi, i), 0, cap / 2);
    ReplaceKid(cap, t.keys, t.kids, h, hi, i, d.t);
  }

  lemma ThinKid(cap: nat, t: BT, h: nat, lo: Bound, hi: Bound, k: Key, i: nat, d: Del, cs: seq<BT>)
    requires Even(cap) && t.Fork? && WF(cap, t, h, lo, hi, 0)
    requires i == Locate(t.keys, k) && i >= 0 && d.underflow && cs == t.kids[i := d.t]
    requires DelOk(cap, d, t.kids[i], h - 1, At(t.keys[i]), HiOf(t.keys, hi, i), Remove(Flat(t.kids[i]), k))
    ensures KidsBut(cap, t.keys, cs, h, hi, i)
  {
    assert Kid(cap, t.keys, t.kids, h, hi, i);
    SetMin(cap, t.kids[i], h - 1, At(t.keys[i]), HiOf(t.keys, hi, i), cap / 2, 0);
    SetMin(cap, d.t, h - 1, At(t.keys[i]), HiOf(t.keys, hi, i), 0, cap / 2 - 1);
    forall j | 0 <= j < |cs| && j != i ensures Kid(cap, t.keys, cs, h, hi, j) {
      assert Kid(cap, t.keys, t.kids, h, hi, j);
    }
  }

  /** The child has lost an entry and is one short. */
  lemma ForkMends(cap: nat, t: BT, h: nat, lo: Bound, hi: Bound, k: Key, i: nat, d: Del, cs: seq<BT>)
    requires Even(cap) && t.Fork? && WF(cap, t, h, lo, hi, 0) && Shaped(t) && Size(t) >= 2
    requires i == Locate(t.keys, k) && i >= 0 && d.underflow && d.t.Tip? == t.kids[i].Tip? && Square(d.t)
    requires DelOk(cap, d, t.kids[i], h - 1, At(t.keys[i]), HiOf(t.keys, hi, i), Remove(Flat(t.kids[i]), k))
    requires cs == t.kids[i := d.t]
    ensures forall j {:trigger cs[j]} :: 0 <= j < |cs| ==> Square(cs[j]) && cs[j].Tip? == cs[0].Tip?
    ensures DelOk(cap, Mend(cap, t.keys, cs, i), t, h, lo, hi, FlatAll(cs))
  {
    forall j | 0 <= j < |cs| ensures Square(cs[j]) && cs[j].Tip? == t.kids[0].Tip? { assert Shaped(t.kids[j]); }
    ThinKid(cap, t, h, lo, hi, k, i, d, cs);
    var d' := MendOk(cap, t.keys, cs, h, lo, hi, i, t);
  }

  lemma ForkDelete(cap: nat, t: BT, h: nat, lo: Bound, hi: Bound, k: Key, i: nat, d: Del)
    requires Even(cap) && t.Fork? && WF(cap, t, h, lo, hi, 0) && Shaped(t) && Size(t) >= 2
    requires i == Locate(t.keys, k) && i >= 0 && d == Delete(cap, t.kids[i], k) && d.deleted
    requires DelOk(cap, d, t.kids[i], h - 1, At(t.keys[i]), HiOf(t.keys, hi, i), Remove(Flat(t.kids[i]), k))
    ensures DelOk(cap, Delete(cap, t, k), t, h, lo, hi, FlatAll(t.kids[i := d.t])) && Delete(cap, t, k).deleted
  {
    if d.underflow { ForkMends(cap, t, h, lo, hi, k, i, d, t.kids[i := d.t]); }
    else { ForkKeeps(cap, t, h, lo, hi, k, i, d); }
  }

  /** Deletion reports whether the key was there, leaves the entries without it, and keeps the tree well-formed; the
      top node loses at most one entry or child, and says so if it is too small then. */
  lemma {:induction false} DeleteOk(cap: nat, t: BT, h: nat, lo: Bound, hi: Bound, min: nat, k: Key)
    requires Even(cap) && WF(cap, t, h, lo, hi, min) && Shaped(t) && (t.Fork? ==> Size(t) >= 2)
    ensures DelOk(cap, Delete(cap, t, k), t, h, lo, hi, Remove(Flat(t), k))
    ensures Delete(cap, t, k).deleted == Found(Flat(t), k)
    decreases h
  {
    SetMin(cap, t, h, lo, hi, min, 0);
    if t.Tip? {
      TipDelete(cap, t, lo, hi, min, k);
    } else {
      var i := Locate(t.keys, k);
      if i < 0 {
        NotBelow(cap, t.keys, t.kids, h, hi, k);
      } else {
        assert Kid(cap, t.keys, t.kids, h, hi, i);
        DeleteOk(cap, t.kids[i], h - 1, At(t.keys[i]), HiOf(t.keys, hi, i), cap / 2, k);
        var d := Delete(cap, t.kids[i], k);
        RouteRemove(cap, t.keys, t.kids, h, hi, k, d.t);
        if d.deleted { ForkDelete(cap, t, h, lo, hi, k, i, d); }
      }
    }
  }
}
