/** Linking the right half of a split into its parent, splitting a full parent, and growing a root. */
module TreeLinks {
  import opened Nodes
  import opened TreeState
  import opened TreeWrites
  import opened TreeSplits

  /** Node `n` with the right half of its split child linked in, and with first key `k0`. */
  ghost function Linked(t: Tree, n: Addr, k0: Key): (node: Node)
    requires n in t.pend && PendOk(t, n)
    ensures node.Inner? && |node.keys| == |node.kids| == |t.store[n].keys| + 1
  {
    var p := t.pend[n];
    Inner(InsertAt(t.store[n].keys[0 := k0], p.pos + 1, p.key), InsertAt(t.store[n].kids, p.pos + 1, p.right))
  }

  /** A first key may only be lowered, and only on the left spine. */
  ghost predicate FirstKeyOk(t: Tree, n: Addr, k0: Key)
    requires IsInner(t, n)
  {
    k0 == t.store[n].keys[0] || (k0 < t.store[n].keys[0] && t.fence[n].lo.NegInf?)
  }

  ghost predicate CanLink(t: Tree, n: Addr, k0: Key) {
    && Sound(t) && n in t.pend && IsInner(t, n) && FirstKeyOk(t, n, k0)
    && |t.store[n].keys| < t.cap
  }

  lemma LinkInner(t: Tree, n: Addr, k0: Key)
    requires CanLink(t, n, k0) && PendOk(t, n)
    ensures InnerOk(Absorb(t, n, Linked(t, n, k0)), n)
  {
    var p := t.pend[n];
    var ks := t.store[n].keys;
    var node := Linked(t, n, k0);
    assert InnerOk(t, n);
    forall i, j | 0 <= i < j < |node.keys| ensures node.keys[i] < node.keys[j] {
      var i0 := if i <= p.pos then i else i - 1;
      var j0 := if j <= p.pos then j else j - 1;
      assert ks[i0] <= ks[j0];
    }
  }

  lemma LinkKidsOfN(t: Tree, n: Addr, k0: Key, i: nat)
    requires CanLink(t, n, k0) && PendOk(t, n) && i <= |t.store[n].kids|
    ensures KidOk(Absorb(t, n, Linked(t, n, k0)), n, i)
  {
    var p := t.pend[n];
    assert InnerOk(t, n);
    if i != p.pos + 1 {
      assert KidOk(t, n, if i <= p.pos then i else i - 1);
    }
  }

  lemma LinkOthers(t: Tree, n: Addr, k0: Key)
    requires CanLink(t, n, k0) && PendOk(t, n)
    ensures var t' := Absorb(t, n, Linked(t, n, k0));
            && (forall a, i :: IsInner(t', a) && 0 <= i < |t'.store[a].kids| && a != n ==> KidOk(t', a, i))
            && (forall a :: a in t'.pend ==> PendOk(t', a))
            && (forall a :: Live(t', a) && t'.store[a].Inner? && a != n ==> InnerOk(t', a))
  {
    var t' := Absorb(t, n, Linked(t, n, k0));
    forall a, i | IsInner(t', a) && 0 <= i < |t'.store[a].kids| && a != n ensures KidOk(t', a, i) {
      assert KidOk(t, a, i);
    }
    forall a | a in t'.pend ensures PendOk(t', a) {
      assert PendOk(t, a);
    }
    forall a | Live(t', a) && t'.store[a].Inner? && a != n ensures InnerOk(t', a) {
      assert InnerOk(t, a);
    }
  }

  /** Rewriting an inner node by an inner node changes no interval and no leaf. */
  lemma InnerRewrite(t: Tree, n: Addr, node: Node)
    requires Sound(t) && IsInner(t, n) && node.Inner?
    ensures var t' := Absorb(t, n, node);
            && RootOk(t')
            && (forall a :: Live(t', a) ==> FenceOk(t', a))
            && (forall a :: IsLeaf(t', a) ==> LeafOk(t', a))
            && (forall a :: IsLeaf(t', a) ==> ChainOk(t', a))
            && (forall a, b :: Live(t', a) && Live(t', b) && a != b ==> Apart(t', a, b))
  {
    var t' := Absorb(t, n, node);
    forall a | Live(t', a) ensures FenceOk(t', a) { assert FenceOk(t, a); }
    forall a | IsLeaf(t', a) ensures LeafOk(t', a) && ChainOk(t', a) {
      assert LeafOk(t, a) && ChainOk(t, a);
    }
    forall a, b | Live(t', a) && Live(t', b) && a != b ensures Apart(t', a, b) { assert Apart(t, a, b); }
  }

  lemma LinkSound(t: Tree, n: Addr, k0: Key)
    requires CanLink(t, n, k0)
    ensures PendOk(t, n) && Sound(Absorb(t, n, Linked(t, n, k0)))
  {
    assert PendOk(t, n);
    var t' := Absorb(t, n, Linked(t, n, k0));
    InnerRewrite(t, n, Linked(t, n, k0));
    LinkInner(t, n, k0);
    LinkOthers(t, n, k0);
    forall i | 0 <= i < |t'.store[n].kids| ensures KidOk(t', n, i) {
      LinkKidsOfN(t, n, k0, i);
    }
  }

  lemma InnerKeepsMap(t: Tree, n: Addr, node: Node, m: map<Key, Val>)
    requires Represents(t, m) && IsInner(t, n) && node.Inner?
    ensures Represents(Absorb(t, n, node), m)
  {
    var t' := Absorb(t, n, node);
    forall a, q | IsLeaf(t', a) && InFence(t', a, q) ensures Lookup(t'.store[a].entries, q) == Get(m, q) {
      assert IsLeaf(t, a) && InFence(t, a, q);
    }
  }

  // ---------- lowering a first key ----------

  ghost function Lowered(t: Tree, n: Addr, k0: Key): (node: Node)
    requires IsInner(t, n)
    ensures node.Inner?
  {
    Inner(t.store[n].keys[0 := k0], t.store[n].kids)
  }

  lemma LowerSound(t: Tree, n: Addr, k0: Key)
    requires Sound(t) && IsInner(t, n) && n !in t.pend && FirstKeyOk(t, n, k0)
    ensures Sound(Absorb(t, n, Lowered(t, n, k0)))
  {
    var t' := Absorb(t, n, Lowered(t, n, k0));
    InnerRewrite(t, n, Lowered(t, n, k0));
    forall a | Live(t', a) && t'.store[a].Inner? ensures InnerOk(t', a) { assert InnerOk(t, a); }
    forall a, i | IsInner(t', a) && 0 <= i < |t'.store[a].kids| ensures KidOk(t', a, i) {
      LowerKid(t, n, k0, t', a, i);
    }
    forall a | a in t'.pend ensures PendOk(t', a) { LowerPend(t, n, k0, t', a); }
  }

  lemma LowerKid(t: Tree, n: Addr, k0: Key, t': Tree, a: Addr, i: nat)
    requires Sound(t) && IsInner(t, n) && n !in t.pend && FirstKeyOk(t, n, k0) && t' == Absorb(t, n, Lowered(t, n, k0))
    requires IsInner(t', a) && i < |t'.store[a].kids|
    ensures KidOk(t', a, i)
  {
    assert KidOk(t, a, i);
  }

  lemma LowerPend(t: Tree, n: Addr, k0: Key, t': Tree, a: Addr)
    requires Sound(t) && IsInner(t, n) && n !in t.pend && FirstKeyOk(t, n, k0) && t' == Absorb(t, n, Lowered(t, n, k0))
    requires a in t'.pend
    ensures PendOk(t', a)
  {
    assert PendOk(t, a);
  }

  // ---------- splitting an inner node ----------

  ghost function LeftPart(node: Node, x: nat): (l: Node)
    requires node.Inner? && x <= |node.keys| && x <= |node.kids|
    ensures l.Inner?
  {
    Inner(node.keys[..x], node.kids[..x])
  }

  ghost function RightPart(node: Node, x: nat): (r: Node)
    requires node.Inner? && x <= |node.keys| && x <= |node.kids|
    ensures r.Inner?
  {
    Inner(node.keys[x..], node.kids[x..])
  }

  ghost predicate CanCutInner(t: Tree, n: Addr, x: nat, up: Option<(Addr, nat)>) {
    && Sound(t) && IsInner(t, n) && n !in t.pend && UpOk(t, n, up)
    && 1 <= x < |t.store[n].keys| && UpBelow(t, up, t.store[n].keys[x])
    && t.least <= t.store[n].keys[0]
  }

  ghost function CutInner(t: Tree, n: Addr, x: nat, up: Option<(Addr, nat)>): Tree
    requires CanCutInner(t, n, x, up)
  {
    Cut(t, n, LeftPart(t.store[n], x), RightPart(t.store[n], x), t.store[n].keys[x], up)
  }

  lemma CutInnerNodes(t: Tree, n: Addr, x: nat, up: Option<(Addr, nat)>)
    requires CanCutInner(t, n, x, up)
    ensures var t' := CutInner(t, n, x, up);
            && InnerOk(t', n) && InnerOk(t', |t.store|)
            && (forall a :: Live(t', a) && t'.store[a].Inner? ==> InnerOk(t', a))
  {
    var t' := CutInner(t, n, x, up);
    assert InnerOk(t, n);
    forall a | Live(t', a) && t'.store[a].Inner? && a != n && a != |t.store| ensures InnerOk(t', a) {
      assert InnerOk(t, a);
    }
  }

  lemma CutInnerLeaves(t: Tree, n: Addr, x: nat, up: Option<(Addr, nat)>)
    requires CanCutInner(t, n, x, up)
    ensures var t' := CutInner(t, n, x, up);
            && (forall a :: IsLeaf(t', a) ==> LeafOk(t', a))
            && (forall a :: IsLeaf(t', a) ==> ChainOk(t', a))
  {
    var t' := CutInner(t, n, x, up);
    assert FenceOk(t, n);
    assert |t.store| != 1 by {
      assert KidOk(t, n, 0);
    }
    forall a | IsLeaf(t', a) ensures LeafOk(t', a) && ChainOk(t', a) {
      assert LeafOk(t, a) && ChainOk(t, a);
    }
  }

  lemma CutInnerLeftKid(t: Tree, n: Addr, x: nat, up: Option<(Addr, nat)>, i: nat)
    requires CanCutInner(t, n, x, up) && i < x
    ensures KidOk(CutInner(t, n, x, up), n, i)
  {
    assert KidOk(t, n, i);
    KidAbove(t, n, i, up);
  }

  lemma CutInnerRightKid(t: Tree, n: Addr, x: nat, up: Option<(Addr, nat)>, i: nat)
    requires CanCutInner(t, n, x, up) && x + i < |t.store[n].kids|
    ensures KidOk(CutInner(t, n, x, up), |t.store|, i)
  {
    assert KidOk(t, n, x + i);
    KidAbove(t, n, x + i, up);
  }

  /** A child of `n` is neither `n` nor the parent of `n`. */
  lemma KidAbove(t: Tree, n: Addr, i: nat, up: Option<(Addr, nat)>)
    requires Sound(t) && IsInner(t, n) && UpOk(t, n, up) && i < |t.store[n].kids|
    ensures t.store[n].kids[i] != n && (up.Some? ==> up.value.0 != n && t.store[n].kids[i] != up.value.0)
    ensures |t.store| !in t.pend
  {
    assert KidOk(t, n, i);
    if up.Some? {
      assert KidOk(t, up.value.0, up.value.1);
    }
    assert |t.store| in t.pend ==> PendOk(t, |t.store|);
  }

  lemma CutInnerSound(t: Tree, n: Addr, x: nat, up: Option<(Addr, nat)>)
    requires CanCutInner(t, n, x, up)
    ensures Sound(CutInner(t, n, x, up))
  {
    var t' := CutInner(t, n, x, up);
    var node := t.store[n];
    var l, r, b := LeftPart(node, x), RightPart(node, x), node.keys[x];
    assert InnerOk(t, n);
    assert Inside(t, n, b);
    CutRoot(t, n, l, r, b, up);
    CutFences(t, n, l, r, b, up);
    CutInnerNodes(t, n, x, up);
    CutInnerLeaves(t, n, x, up);
    forall a, i | IsInner(t', a) && 0 <= i < |t'.store[a].kids| ensures KidOk(t', a, i) {
      if a == n {
        CutInnerLeftKid(t, n, x, up, i);
      } else if a == |t.store| {
        CutInnerRightKid(t, n, x, up, i);
      } else {
        CutKid(t, n, l, r, b, up, a, i);
      }
    }
    forall a | a in t'.pend ensures PendOk(t', a) {
      CutPend(t, n, l, r, b, up, a);
    }
  }

  // ---------- linking into a full node: the node splits as well ----------

  lemma Widen(t: Tree)
    requires Sound(t)
    ensures Sound(t.(cap := t.cap + 1))
  {
    var w := t.(cap := t.cap + 1);
    forall a | Live(w, a) ensures FenceOk(w, a) { assert FenceOk(t, a); }
    forall a | IsLeaf(w, a) ensures LeafOk(w, a) && ChainOk(w, a) { assert LeafOk(t, a) && ChainOk(t, a); }
    forall a | Live(w, a) && w.store[a].Inner? ensures InnerOk(w, a) { assert InnerOk(t, a); }
    forall a, i | IsInner(w, a) && 0 <= i < |w.store[a].kids| ensures KidOk(w, a, i) { assert KidOk(t, a, i); }
    forall a | a in w.pend ensures PendOk(w, a) { assert PendOk(t, a); }
    forall a, b | Live(w, a) && Live(w, b) && a != b ensures Apart(w, a, b) { assert Apart(t, a, b); }
  }

  ghost predicate Fits(t: Tree, cap: nat, a: Addr)
    requires Live(t, a)
  {
    if t.store[a].Leaf? then |t.store[a].entries| <= cap else |t.store[a].keys| <= cap
  }

  lemma Narrow(w: Tree, cap: nat)
    requires Sound(w) && 2 <= cap
    requires forall a :: Live(w, a) ==> Fits(w, cap, a)
    ensures Sound(w.(cap := cap))
  {
    var t := w.(cap := cap);
    forall a | Live(t, a) ensures FenceOk(t, a) { assert FenceOk(w, a); }
    forall a | IsLeaf(t, a) ensures LeafOk(t, a) && ChainOk(t, a) {
      assert LeafOk(w, a) && ChainOk(w, a) && Fits(w, cap, a);
    }
    forall a | Live(t, a) && t.store[a].Inner? ensures InnerOk(t, a) { assert InnerOk(w, a) && Fits(w, cap, a); }
    forall a, i | IsInner(t, a) && 0 <= i < |t.store[a].kids| ensures KidOk(t, a, i) { assert KidOk(w, a, i); }
    forall a | a in t.pend ensures PendOk(t, a) { assert PendOk(w, a); }
    forall a, b | Live(t, a) && Live(t, b) && a != b ensures Apart(t, a, b) { assert Apart(w, a, b); }
  }

  ghost predicate CanCutLinked(t: Tree, n: Addr, k0: Key, x: nat, up: Option<(Addr, nat)>) {
    && Sound(t) && n in t.pend && IsInner(t, n) && FirstKeyOk(t, n, k0) && UpOk(t, n, up)
    && |t.store[n].keys| == t.cap && 1 <= x <= t.cap && t.least <= k0
    && PendOk(t, n) && UpBelow(t, up, Linked(t, n, k0).keys[x])
  }

  ghost function CutLinked(t: Tree, n: Addr, k0: Key, x: nat, up: Option<(Addr, nat)>): Tree
    requires CanCutLinked(t, n, k0, x, up)
  {
    var node := Linked(t, n, k0);
    Cut(t, n, LeftPart(node, x), RightPart(node, x), node.keys[x], up)
  }

  ghost function Wide(t: Tree, n: Addr, k0: Key): Tree
    requires n in t.pend && PendOk(t, n)
  {
    Absorb(t.(cap := t.cap + 1), n, Linked(t, n, k0))
  }

  lemma WideSound(t: Tree, n: Addr, k0: Key, x: nat, up: Option<(Addr, nat)>) returns (w: Tree)
    requires CanCutLinked(t, n, k0, x, up)
    ensures w == Wide(t, n, k0) && Sound(w) && IsInner(w, n) && n !in w.pend
    ensures w.store[n] == Linked(t, n, k0) && w.least == t.least
    ensures w.root == t.root && w.rootSplit == t.rootSplit && |w.store| == |t.store| && w.pend == t.pend - {n}
    ensures forall a {:trigger w.store[a]} :: 0 <= a < |t.store| && a != n ==> w.store[a] == t.store[a]
  {
    var v := t.(cap := t.cap + 1);
    Widen(t);
    assert PendOk(t, n);
    LinkSound(v, n, k0);
    assert Linked(v, n, k0) == Linked(t, n, k0);
    w := Wide(t, n, k0);
  }

  lemma WideOk(t: Tree, n: Addr, k0: Key, x: nat, up: Option<(Addr, nat)>)
    requires CanCutLinked(t, n, k0, x, up)
    ensures CanCutInner(Wide(t, n, k0), n, x, up)
  {
    var w := WideSound(t, n, k0, x, up);
    if up.Some? {
      assert KidOk(t, up.value.0, up.value.1);
      assert up.value.0 != n && w.store[up.value.0] == t.store[up.value.0];
    }
  }

  lemma WideCut(t: Tree, n: Addr, k0: Key, x: nat, up: Option<(Addr, nat)>)
    requires CanCutLinked(t, n, k0, x, up) && CanCutInner(Wide(t, n, k0), n, x, up)
    ensures CutLinked(t, n, k0, x, up) == CutInner(Wide(t, n, k0), n, x, up).(cap := t.cap)
  {
    var t1 := Wide(t, n, k0);
    assert t1.store[n] == Linked(t, n, k0);
    assert t1.store[n := LeftPart(t1.store[n], x)] == t.store[n := LeftPart(t1.store[n], x)];
  }

  lemma WideFits(t: Tree, n: Addr, k0: Key, x: nat, up: Option<(Addr, nat)>, a: Addr)
    requires CanCutLinked(t, n, k0, x, up) && CanCutInner(Wide(t, n, k0), n, x, up)
    requires Live(CutInner(Wide(t, n, k0), n, x, up), a)
    ensures Fits(CutInner(Wide(t, n, k0), n, x, up), t.cap, a)
  {
    if a != n && a < |t.store| {
      if t.store[a].Leaf? { assert LeafOk(t, a); } else { assert InnerOk(t, a); }
    }
  }

  /** A full node that links in the right half of a child and splits stays sound. */
  lemma CutLinkedSound(t: Tree, n: Addr, k0: Key, x: nat, up: Option<(Addr, nat)>)
    requires CanCutLinked(t, n, k0, x, up)
    ensures Sound(CutLinked(t, n, k0, x, up))
  {
    WideOk(t, n, k0, x, up);
    WideCut(t, n, k0, x, up);
    var t2 := CutInner(Wide(t, n, k0), n, x, up);
    CutInnerSound(Wide(t, n, k0), n, x, up);
    forall a | Live(t2, a) ensures Fits(t2, t.cap, a) {
      WideFits(t, n, k0, x, up, a);
    }
    Narrow(t2, t.cap);
  }

  lemma CutLinkedKeepsMap(t: Tree, n: Addr, k0: Key, x: nat, up: Option<(Addr, nat)>, m: map<Key, Val>)
    requires CanCutLinked(t, n, k0, x, up) && Represents(t, m)
    ensures Represents(CutLinked(t, n, k0, x, up), m)
  {
    var t' := CutLinked(t, n, k0, x, up);
    forall a, q | IsLeaf(t', a) && InFence(t', a, q) ensures Lookup(t'.store[a].entries, q) == Get(m, q) {
      assert IsLeaf(t, a) && InFence(t, a, q);
    }
  }

  // ---------- a new root ----------

  ghost predicate CanRaise(t: Tree, k0: Key) {
    && Sound(t) && t.rootSplit.Some? && k0 < t.rootSplit.value.key
  }

  ghost function NewRoot(t: Tree, k0: Key): Node
    requires t.rootSplit.Some?
  {
    Inner([k0, t.rootSplit.value.key], [t.root, t.rootSplit.value.right])
  }

  lemma RaiseSound(t: Tree, k0: Key)
    requires CanRaise(t, k0)
    ensures Sound(Raise(t, NewRoot(t, k0)))
  {
    var t' := Raise(t, NewRoot(t, k0));
    var r := |t.store|;
    assert FenceOk(t, t.root);
    forall a | Live(t', a) ensures FenceOk(t', a) { if a != r { assert FenceOk(t, a); } }
    forall a, b | Live(t', a) && Live(t', b) && a != b ensures Apart(t', a, b) {
      if a != r && b != r {
        assert Apart(t, a, b);
      } else {
        assert FenceOk(t, if a == r then b else a);
      }
    }
    RaiseNodes(t, k0);
    RaiseKids(t, k0);
  }

  lemma RaiseNodes(t: Tree, k0: Key)
    requires CanRaise(t, k0)
    ensures var t' := Raise(t, NewRoot(t, k0));
            && (forall a :: IsLeaf(t', a) ==> LeafOk(t', a))
            && (forall a :: IsLeaf(t', a) ==> ChainOk(t', a))
            && (forall a :: Live(t', a) && t'.store[a].Inner? ==> InnerOk(t', a))
  {
    var t' := Raise(t, NewRoot(t, k0));
    forall a | IsLeaf(t', a) ensures LeafOk(t', a) && ChainOk(t', a) {
      assert LeafOk(t, a) && ChainOk(t, a);
    }
    forall a | Live(t', a) && t'.store[a].Inner? ensures InnerOk(t', a) {
      if a != |t.store| { assert InnerOk(t, a); }
    }
  }

  lemma RaiseKids(t: Tree, k0: Key)
    requires CanRaise(t, k0)
    ensures var t' := Raise(t, NewRoot(t, k0));
            && (forall a, i :: IsInner(t', a) && 0 <= i < |t'.store[a].kids| ==> KidOk(t', a, i))
            && (forall a :: a in t'.pend ==> PendOk(t', a))
  {
    var t' := Raise(t, NewRoot(t, k0));
    assert |t.store| in t.pend ==> PendOk(t, |t.store|);
    forall a, i | IsInner(t', a) && 0 <= i < |t'.store[a].kids| ensures KidOk(t', a, i) {
      if a != |t.store| { assert KidOk(t, a, i); }
    }
    forall a | a in t'.pend ensures PendOk(t', a) { assert PendOk(t, a); }
  }

  lemma RaiseKeepsMap(t: Tree, k0: Key, m: map<Key, Val>)
    requires CanRaise(t, k0) && Represents(t, m)
    ensures Represents(Raise(t, NewRoot(t, k0)), m)
  {
    var t' := Raise(t, NewRoot(t, k0));
    forall a, q | IsLeaf(t', a) && InFence(t', a, q) ensures Lookup(t'.store[a].entries, q) == Get(m, q) {
      assert IsLeaf(t, a) && InFence(t, a, q);
    }
  }
}
