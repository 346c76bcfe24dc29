/** Splits: what writing the two halves of a node, and linking the right half into its parent, keeps. */
module TreeSplits {
  import opened Nodes
  import opened TreeState
  import opened TreeWrites

  /** A node has one parent at one position. */
  lemma OneParent(t: Tree, a: Addr, i: nat, b: Addr, j: nat)
    requires Sound(t)
    requires IsInner(t, a) && i < |t.store[a].kids|
    requires IsInner(t, b) && j < |t.store[b].kids|
    requires t.store[a].kids[i] == t.store[b].kids[j]
    ensures a == b && i == j
  {
    assert KidOk(t, a, i) && KidOk(t, b, j);
    assert InnerOk(t, a) && InnerOk(t, b) && FenceOk(t, a) && FenceOk(t, b);
    assert a == b || Apart(t, a, b);
  }

  /** `up` is where a split of `n` has to be linked: the parent and position, or nothing for the root. */
  ghost predicate UpOk(t: Tree, n: Addr, up: Option<(Addr, nat)>) {
    match up
    case None => n == t.root && t.rootSplit == None
    case Some((p, i)) =>
      && IsInner(t, p) && i < |t.store[p].kids| && t.store[p].kids[i] == n
      && p !in t.pend
  }

  /** The boundary of the split belongs after the child that was split. */
  ghost predicate UpBelow(t: Tree, up: Option<(Addr, nat)>, b: Key) {
    up.Some? ==>
      && IsInner(t, up.value.0) && up.value.1 < |t.store[up.value.0].keys|
      && t.store[up.value.0].keys[up.value.1] < b
  }

  /** `b` cuts the interval of `n` strictly inside. */
  ghost predicate Inside(t: Tree, n: Addr, b: Key)
    requires Live(t, n)
  {
    && (t.fence[n].lo.At? ==> t.fence[n].lo.k < b)
    && Below(b, t.fence[n].hi)
  }

  lemma CutRoot(t: Tree, n: Addr, left: Node, right: Node, b: Key, up: Option<(Addr, nat)>)
    requires Sound(t) && Live(t, n) && UpOk(t, n, up)
    requires left.Leaf? ==> left.entries != []
    ensures RootOk(Cut(t, n, left, right, b, up))
  {
    if up.Some? {
      var (p, i) := up.value;
      assert KidOk(t, p, i) && FenceOk(t, p);
    }
  }

  lemma CutFences(t: Tree, n: Addr, left: Node, right: Node, b: Key, up: Option<(Addr, nat)>)
    requires Sound(t) && Live(t, n) && Inside(t, n, b)
    requires left.Leaf? ==> left.entries != []
    requires left.Leaf? == right.Leaf? == t.store[n].Leaf?
    requires left.Leaf? && t.fence[n].lo.NegInf? ==> left.entries[0].key <= t.least
    requires t.least < b
    ensures var t' := Cut(t, n, left, right, b, up);
            && (forall a :: Live(t', a) ==> FenceOk(t', a))
            && (forall a, c :: Live(t', a) && Live(t', c) && a != c ==> Apart(t', a, c))
  {
    var t' := Cut(t, n, left, right, b, up);
    var r := |t.store|;
    assert FenceOk(t, n);
    forall a | Live(t', a) ensures FenceOk(t', a) {
      if a < r { assert FenceOk(t, a); }
    }
    forall a, c | Live(t', a) && Live(t', c) && a != c ensures Apart(t', a, c) {
      var a0 := if a == r then n else a;
      var c0 := if c == r then n else c;
      assert FenceOk(t, a0) && FenceOk(t, c0);
      if a0 != c0 { assert Apart(t, a0, c0); }
    }
  }

  // ---------- splitting a full leaf ----------

  ghost predicate CanSplitLeaf(t: Tree, n: Addr, k: Key, up: Option<(Addr, nat)>) {
    && Sound(t) && IsLeaf(t, n) && InFence(t, n, k) && UpOk(t, n, up)
    && !Found(t.store[n].entries, k) && |t.store[n].entries| == t.cap
    && (up.Some? ==> !Lagging(t, up.value.0))
  }

  ghost function Halves(t: Tree, n: Addr, k: Key, v: Val): (r: (seq<Entry>, seq<Entry>))
    requires Sound(t) && IsLeaf(t, n) && !Found(t.store[n].entries, k) && |t.store[n].entries| == t.cap
    ensures r.0 + r.1 == Put(t.store[n].entries, k, v)
    ensures 1 <= |r.0| <= t.cap && 1 <= |r.1| <= t.cap
    ensures EntriesSorted(r.0 + r.1) && EntriesSorted(r.0) && EntriesSorted(r.1)
  {
    var es := t.store[n].entries;
    assert LeafOk(t, n);
    SplitPutIsPut(es, k, v, t.cap);
    PutSorted(es, k, v);
    var r := SplitPut(es, k, v, t.cap);
    CutLookup(r.0, r.1, k);
    r
  }

  ghost function CutLeaf(t: Tree, n: Addr, k: Key, v: Val, up: Option<(Addr, nat)>): Tree
    requires CanSplitLeaf(t, n, k, up)
  {
    var (l, r) := Halves(t, n, k, v);
    Cut(t, n, Leaf(l, |t.store|), Leaf(r, t.store[n].next), r[0].key, up)
  }

  /** The boundary lies above the old first key and strictly inside the interval. */
  lemma LeafBoundary(t: Tree, n: Addr, k: Key, v: Val)
    requires Sound(t) && IsLeaf(t, n) && InFence(t, n, k)
    requires !Found(t.store[n].entries, k) && |t.store[n].entries| == t.cap
    ensures var (l, r) := Halves(t, n, k, v);
            && Inside(t, n, r[0].key) && t.store[n].entries[0].key < r[0].key
            && (t.fence[n].lo.NegInf? ==> l[0].key <= t.least)
            && t.least < r[0].key
  {
    var es := t.store[n].entries;
    var (l, r) := Halves(t, n, k, v);
    var all := Put(es, k, v);
    assert LeafOk(t, n) && FenceOk(t, n);
    FirstOfPut(es, k, v);
    assert all[|l|] == r[0] && all[0] == l[0];
    assert InFence(t, n, all[|l|].key) by { KeyOfPut(t, n, k, v, |l|); }
    assert InFence(t, n, all[0].key) by { KeyOfPut(t, n, k, v, 0); }
    assert es[0].key < r[0].key by { FirstBelowBoundary(es, k, v, t.cap); }
  }

  lemma FirstBelowBoundary(es: seq<Entry>, k: Key, v: Val, cap: nat)
    requires EntriesSorted(es) && !Found(es, k) && 2 <= cap == |es|
    ensures var (l, r) := SplitPut(es, k, v, cap); r != [] && es[0].key < r[0].key
  {
    var h := cap / 2;
    if h <= Slot(es, k) {
      FirstOfPut(es[h..], k, v);
    }
  }

  lemma CutLeafNodes(t: Tree, n: Addr, k: Key, v: Val, up: Option<(Addr, nat)>)
    requires CanSplitLeaf(t, n, k, up)
    ensures var t' := CutLeaf(t, n, k, v, up);
            && (forall a :: IsLeaf(t', a) ==> LeafOk(t', a))
            && (forall a :: Live(t', a) && t'.store[a].Inner? ==> InnerOk(t', a))
  {
    var t' := CutLeaf(t, n, k, v, up);
    var (l, r) := Halves(t, n, k, v);
    LeafBoundary(t, n, k, v);
    forall a | IsLeaf(t', a) ensures LeafOk(t', a) {
      if a == n {
        forall i | 0 <= i < |l| ensures InFence(t', n, l[i].key) { LeftKeyIn(t, n, k, v, i); }
      } else if a == |t.store| {
        forall i | 0 <= i < |r| ensures InFence(t', a, r[i].key) { RightKeyIn(t, n, k, v, i); }
      } else {
        assert LeafOk(t, a) && LeafOk(t, n);
        assert Apart(t, a, n) && FenceOk(t, a) && FenceOk(t, n);
      }
    }
    forall a | Live(t', a) && t'.store[a].Inner? ensures InnerOk(t', a) {
      assert InnerOk(t, a);
    }
  }

  lemma LeftKeyIn(t: Tree, n: Addr, k: Key, v: Val, i: nat)
    requires Sound(t) && IsLeaf(t, n) && InFence(t, n, k)
    requires !Found(t.store[n].entries, k) && |t.store[n].entries| == t.cap
    requires i < |Halves(t, n, k, v).0|
    ensures var (l, r) := Halves(t, n, k, v); Above(t.fence[n].lo, l[i].key) && l[i].key < r[0].key
  {
    var (l, r) := Halves(t, n, k, v);
    KeyOfPut(t, n, k, v, i);
    assert (l + r)[i] == l[i] && (l + r)[|l|] == r[0];
  }

  lemma RightKeyIn(t: Tree, n: Addr, k: Key, v: Val, i: nat)
    requires Sound(t) && IsLeaf(t, n) && InFence(t, n, k)
    requires !Found(t.store[n].entries, k) && |t.store[n].entries| == t.cap
    requires i < |Halves(t, n, k, v).1|
    ensures var (l, r) := Halves(t, n, k, v); r[0].key <= r[i].key && Below(r[i].key, t.fence[n].hi)
  {
    var (l, r) := Halves(t, n, k, v);
    KeyOfPut(t, n, k, v, |l| + i);
    assert (l + r)[|l| + i] == r[i];
  }

  lemma CutLeafChain(t: Tree, n: Addr, k: Key, v: Val, up: Option<(Addr, nat)>)
    requires CanSplitLeaf(t, n, k, up)
    ensures var t' := CutLeaf(t, n, k, v, up); forall a :: IsLeaf(t', a) ==> ChainOk(t', a)
  {
    var t' := CutLeaf(t, n, k, v, up);
    forall a | IsLeaf(t', a) ensures ChainOk(t', a) { CutLeafChainAt(t, n, k, v, up, t', a); }
  }

  lemma ChainAfterCut(t: Tree, n: Addr, left: Node, right: Node, b: Key, up: Option<(Addr, nat)>, a: Addr)
    requires Sound(t) && IsLeaf(t, n) && left.Leaf? && left.entries != [] && left.next == |t.store|
    requires right.Leaf? && right.next == t.store[n].next && IsLeaf(Cut(t, n, left, right, b, up), a)
    ensures ChainOk(Cut(t, n, left, right, b, up), a)
  {
    assert ChainOk(t, if a < |t.store| then a else n);
    if a != n && a < |t.store| && !t.fence[a].hi.PosInf? {
      assert IsLeaf(t, t.store[a].next);
    }
  }

  lemma CutLeafChainAt(t: Tree, n: Addr, k: Key, v: Val, up: Option<(Addr, nat)>, t': Tree, a: Addr)
    requires CanSplitLeaf(t, n, k, up) && t' == CutLeaf(t, n, k, v, up) && IsLeaf(t', a)
    ensures ChainOk(t', a)
  {
    var (l, r) := Halves(t, n, k, v);
    ChainAfterCut(t, n, Leaf(l, |t.store|), Leaf(r, t.store[n].next), r[0].key, up, a);
  }

  /** A split of `n` is recorded at its only parent, and touches the interval of no other child. */
  lemma CutKid(t: Tree, n: Addr, left: Node, right: Node, b: Key, up: Option<(Addr, nat)>, a: Addr, i: nat)
    requires Sound(t) && Live(t, n) && UpOk(t, n, up) && n !in t.pend
    requires left.Leaf? ==> left.entries != []
    requires IsInner(t, a) && a != n && i < |t.store[a].kids|
    ensures KidOk(Cut(t, n, left, right, b, up), a, i)
  {
    assert KidOk(t, a, i) && FenceOk(t, a);
    if t.store[a].kids[i] == n && up.Some? {
      OneParent(t, a, i, up.value.0, up.value.1);
    }
  }

  lemma CutPend(t: Tree, n: Addr, left: Node, right: Node, b: Key, up: Option<(Addr, nat)>, a: Addr)
    requires Sound(t) && Live(t, n) && UpOk(t, n, up) && n !in t.pend && Inside(t, n, b)
    requires left.Leaf? ==> left.entries != []
    requires UpBelow(t, up, b)
    requires var t' := Cut(t, n, left, right, b, up); a in t'.pend
    ensures PendOk(Cut(t, n, left, right, b, up), a)
  {
    var t' := Cut(t, n, left, right, b, up);
    if up.Some? && a == up.value.0 {
      assert KidOk(t, a, up.value.1);
    } else {
      assert PendOk(t, a);
      var q := t.pend[a].right;
      assert q != n by {
        if q == n {
          NotPendingRight(t, a, n, up);
        }
      }
      assert a != n;
    }
  }

  lemma NotPendingRight(t: Tree, a: Addr, n: Addr, up: Option<(Addr, nat)>)
    requires Sound(t) && Live(t, n) && UpOk(t, n, up)
    requires a in t.pend && (up.Some? ==> up.value.0 != a)
    ensures t.pend[a].right != n
  {
    assert PendOk(t, a) && FenceOk(t, a) && InnerOk(t, a);
    if up.Some? {
      var (p, i) := up.value;
      assert KidOk(t, p, i) && InnerOk(t, p) && FenceOk(t, p);
      assert Apart(t, a, p);
    }
  }

  lemma CutLeafSound(t: Tree, n: Addr, k: Key, v: Val, up: Option<(Addr, nat)>)
    requires CanSplitLeaf(t, n, k, up)
    ensures Sound(CutLeaf(t, n, k, v, up))
  {
    var t' := CutLeaf(t, n, k, v, up);
    var (l, r) := Halves(t, n, k, v);
    var left, right := Leaf(l, |t.store|), Leaf(r, t.store[n].next);
    LeafBoundary(t, n, k, v);
    CutRoot(t, n, left, right, r[0].key, up);
    CutFences(t, n, left, right, r[0].key, up);
    CutLeafNodes(t, n, k, v, up);
    CutLeafChain(t, n, k, v, up);
    LeafNotPending(t, n);
    LeafUpBelow(t, n, k, v, up);
    forall a, i | IsInner(t', a) && 0 <= i < |t'.store[a].kids| ensures KidOk(t', a, i) {
      CutKid(t, n, left, right, r[0].key, up, a, i);
    }
    forall a | a in t'.pend ensures PendOk(t', a) {
      CutPend(t, n, left, right, r[0].key, up, a);
    }
  }

  lemma LeafUpBelow(t: Tree, n: Addr, k: Key, v: Val, up: Option<(Addr, nat)>)
    requires CanSplitLeaf(t, n, k, up)
    ensures UpBelow(t, up, Halves(t, n, k, v).1[0].key)
  {
    LeafBoundary(t, n, k, v);
    if up.Some? {
      var (p, i) := up.value;
      assert KidOk(t, p, i) && InnerOk(t, p) && FenceOk(t, p);
    }
  }

  lemma LeafNotPending(t: Tree, n: Addr)
    requires Sound(t) && IsLeaf(t, n)
    ensures n !in t.pend
  {
    assert n in t.pend ==> PendOk(t, n);
  }

  lemma CutLeafRepresents(t: Tree, n: Addr, k: Key, v: Val, up: Option<(Addr, nat)>, m: map<Key, Val>)
    requires CanSplitLeaf(t, n, k, up) && Represents(t, m)
    ensures Represents(CutLeaf(t, n, k, v, up), m[k := v])
  {
    var t' := CutLeaf(t, n, k, v, up);
    var (l, r) := Halves(t, n, k, v);
    assert LeafOk(t, n) && FenceOk(t, n);
    LeafBoundary(t, n, k, v);
    forall a, q | IsLeaf(t', a) && InFence(t', a, q)
      ensures Lookup(t'.store[a].entries, q) == Get(m[k := v], q)
    {
      if a == n || a == |t.store| {
        assert InFence(t, n, q);
        CutLookup(l, r, q);
        PutLookup(t.store[n].entries, k, v, q);
      } else {
        assert IsLeaf(t, a) && InFence(t, a, q);
        assert Apart(t, a, n) && FenceOk(t, a);
      }
    }
  }
}
