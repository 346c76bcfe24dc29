/** Each write of an insertion changes the tree only at nodes the insertion holds for writing. */
module RiseFrames {
  import opened Nodes
  import opened TreeState
  import opened TreeWrites
  import opened TreeSplits
  import opened Contexts
  import opened Invariants
  import opened Frames
  import opened LocalSteps

  ghost predicate SpineIn(t: Tree, w: set<Addr>) {
    forall a {:trigger t.fence[a]} :: Live(t, a) && t.fence[a].lo.NegInf? ==> a in w
  }

  lemma PutLeafStep(t: Tree, n: Addr, leaf: Node, w: set<Addr>)
    requires |t.fence| == |t.store| && Live(t, n) && n in w && leaf.Leaf? && leaf.entries != []
    requires PutLeaf(t, n, leaf).least != t.least ==> SpineIn(t, w)
    ensures TreeStep(t, PutLeaf(t, n, leaf), w)
  {
    var t' := PutLeaf(t, n, leaf);
    forall a | 0 <= a < |t.store| ensures Kept(t, t', w, a) {
    }
  }

  lemma CutStep(t: Tree, n: Addr, left: Node, right: Node, b: Key, up: Option<(Addr, nat)>, w: set<Addr>)
    requires Sound(t) && Live(t, n) && UpOk(t, n, up) && n in w && (up.Some? ==> up.value.0 in w)
    requires left.Leaf? ==> left.entries != []
    requires Cut(t, n, left, right, b, up).least != t.least ==> SpineIn(t, w)
    ensures TreeStep(t, Cut(t, n, left, right, b, up), w)
  {
    var t' := Cut(t, n, left, right, b, up);
    forall a | 0 <= a < |t.store| ensures Kept(t, t', w, a) {
    }
    forall a, p | 0 <= a < |t.store| && t'.fence[a].hi != t.fence[a].hi && IsInner(t, p) && a in t.store[p].kids
      ensures p in w
    {
      ParentOf(t, n, up, p);
    }
  }

  lemma ParentOf(t: Tree, n: Addr, up: Option<(Addr, nat)>, p: Addr)
    requires Sound(t) && Live(t, n) && UpOk(t, n, up) && IsInner(t, p) && n in t.store[p].kids
    ensures up.Some? && p == up.value.0
  {
    var i :| 0 <= i < |t.store[p].kids| && t.store[p].kids[i] == n;
    assert KidOk(t, p, i) && FenceOk(t, p);
    if up.Some? { OneParent(t, p, i, up.value.0, up.value.1); }
  }

  lemma AbsorbStep(t: Tree, n: Addr, node: Node, w: set<Addr>)
    requires |t.fence| == |t.store| && Live(t, n) && n in w
    ensures TreeStep(t, Absorb(t, n, node), w)
  {
    var t' := Absorb(t, n, node);
    forall a | 0 <= a < |t.store| ensures Kept(t, t', w, a) {
    }
  }

  lemma RaiseStep(t: Tree, node: Node, w: set<Addr>)
    requires |t.fence| == |t.store| && t.root in w
    ensures TreeStep(t, Raise(t, node), w)
  {
    var t' := Raise(t, node);
    forall a | 0 <= a < |t.store| ensures Kept(t, t', w, a) {
    }
  }

  lemma PutLeafFresh(t: Tree, n: Addr, leaf: Node)
    requires Sound(t) && Live(t, n) && leaf.Leaf? && leaf.entries != []
    ensures FreshQuiet(t, PutLeaf(t, n, leaf))
  {
    forall a | a >= |t.store| ensures Quiet(PutLeaf(t, n, leaf), a) {
      assert a in t.pend ==> PendOk(t, a);
    }
  }

  lemma AbsorbFresh(t: Tree, n: Addr, node: Node)
    requires Sound(t) && Live(t, n)
    ensures FreshQuiet(t, Absorb(t, n, node))
  {
    forall a | a >= |t.store| ensures Quiet(Absorb(t, n, node), a) {
      assert a in t.pend ==> PendOk(t, a);
    }
  }

  lemma CutFresh(t: Tree, n: Addr, left: Node, right: Node, b: Key, up: Option<(Addr, nat)>)
    requires Sound(t) && Live(t, n) && UpOk(t, n, up)
    requires left.Leaf? ==> left.entries != []
    ensures FreshQuiet(t, Cut(t, n, left, right, b, up))
  {
    var t' := Cut(t, n, left, right, b, up);
    forall a | a >= |t.store| ensures Quiet(t', a) {
      assert a in t.pend ==> PendOk(t, a);
    }
  }

  lemma RaiseFresh(t: Tree, node: Node)
    requires Sound(t) && node.Inner? && |node.keys| > 0 && node.keys[0] == t.least
    ensures FreshQuiet(t, Raise(t, node))
  {
    forall a | a >= |t.store| ensures Quiet(Raise(t, node), a) {
      assert a in t.pend ==> PendOk(t, a);
    }
  }

  // ---------- the left spine ----------

  /** Along a path held from the root the levels go down one by one. */
  lemma {:induction false} PathLevels(t: Tree, x: Ctx, extra: nat, i: nat)
    requires Sound(t) && Path(t, x, extra) && x.held <= i < |x.parents| && x.parents[x.held].addr == t.root
    ensures Live(t, x.parents[i].addr) && t.fence[x.parents[i].addr].level == t.depth - (i - x.held)
    decreases i
  {
    assert HeldDown(t, x, i);
    if i > x.held {
      PathLevels(t, x, extra, i - 1);
      assert HeldDown(t, x, i - 1);
      var p := x.parents[i - 1];
      assert t.store[p.addr].kids[p.pos] == x.parents[i].addr;
      assert KidOk(t, p.addr, p.pos);
    }
  }

  lemma SameSpine(t: Tree, a: Addr, b: Addr)
    requires Sound(t) && Live(t, a) && Live(t, b) && t.fence[a].level == t.fence[b].level
    requires t.fence[a].lo.NegInf? && t.fence[b].lo.NegInf?
    ensures a == b
  {
    assert a == b || Apart(t, a, b);
  }

  lemma TokenIn(x: Ctx, i: nat)
    requires i < |x.tokens| && x.tokens[i].write
    ensures x.tokens[i].addr in WriteHeld(x)
  {
  }

  /** The leaf is the node the context stands on. */
  lemma LastIn(x: Ctx)
    requires Holds(x, true)
    ensures x.nodeRef in WriteHeld(x)
  {
    TokenIn(x, |x.tokens| - 1);
  }

  /** A context that lowers the first keys of its path holds the whole left spine. */
  lemma BoundaryHoldsSpine(t: Tree, x: Ctx, a: Addr)
    requires Sound(t) && Settled(t, x) && Holds(x, true) && IsLeaf(t, x.nodeRef)
    requires x.nodeRef != t.root && x.boundary && !x.optimistic && t.fence[x.nodeRef].lo.NegInf?
    requires Live(t, a) && t.fence[a].lo.NegInf?
    ensures a in WriteHeld(x)
  {
    var last := |x.parents| - 1;
    PathLevels(t, x, 1, last);
    assert HeldDown(t, x, last);
    var p := x.parents[last];
    assert t.store[p.addr].kids[p.pos] == x.nodeRef;
    assert KidOk(t, p.addr, p.pos) && FenceOk(t, a) && FenceOk(t, x.nodeRef);
    if t.fence[a].level == 1 {
      SameSpine(t, a, x.nodeRef);
      LastIn(x);
    } else {
      var i := x.held + t.depth - t.fence[a].level;
      PathLevels(t, x, 1, i);
      assert HeldDown(t, x, i);
      SameSpine(t, a, x.parents[i].addr);
      TokenIn(x, i - x.held);
    }
  }

  /** A leaf root is the whole tree, up to a pending half. */
  lemma RootLeafSpine(t: Tree, n: Addr, a: Addr)
    requires Sound(t) && IsLeaf(t, n) && n == t.root && Live(t, a) && t.fence[a].lo.NegInf?
    ensures a == n
  {
    assert FenceOk(t, n) && FenceOk(t, a);
    SameSpine(t, a, n);
  }

  /** Whenever writing `k` to the leaf moves the least key, the whole left spine is held. */
  lemma SpineHeld(t: Tree, x: Ctx)
    requires Sound(t) && Settled(t, x) && Holds(x, true) && IsLeaf(t, x.nodeRef) && t.fence[x.nodeRef].lo.NegInf?
    requires x.req.key < t.least || t.store[x.nodeRef].entries == []
    ensures SpineIn(t, WriteHeld(x))
  {
    forall a | Live(t, a) && t.fence[a].lo.NegInf? ensures a in WriteHeld(x) {
      if x.nodeRef == t.root {
        RootLeafSpine(t, x.nodeRef, a);
        LastIn(x);
      } else {
        assert LeafOk(t, x.nodeRef);
        BoundaryHoldsSpine(t, x, a);
      }
    }
  }
}
