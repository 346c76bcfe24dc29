/** A context is not disturbed by the writes of another: what a step of one context may change in the
    tree, and why the invariant of every other context survives it. */
module Frames {
  import opened Nodes
  import opened TreeState
  import opened Contexts
  import opened Invariants

  /** The tree changes only where `w` allows. */
  ghost predicate TreeStep(t: Tree, t': Tree, w: set<Addr>) {
    && t'.cap == t.cap && t.depth <= t'.depth
    && |t.fence| == |t.store| <= |t'.store| == |t'.fence|
    && (forall a {:trigger t'.store[a]} {:trigger t'.fence[a]} :: 0 <= a < |t.store| ==> Kept(t, t', w, a))
    && (forall a, p {:trigger t'.fence[a], t.store[p]} ::
          0 <= a < |t.store| && t'.fence[a].hi != t.fence[a].hi && IsInner(t, p) && a in t.store[p].kids ==> p in w)
    && (t'.root == t.root || (t.root in w && t'.root >= |t.store|))
    && (t'.depth == t.depth || t.root in w)
    && (t'.rootSplit == t.rootSplit || t.root in w)
    && (t'.least != t.least ==> forall a {:trigger t.fence[a]} :: Live(t, a) && t.fence[a].lo.NegInf? ==> a in w)
  }

  ghost predicate Kept(t: Tree, t': Tree, w: set<Addr>, a: Addr)
    requires Live(t, a) && Live(t', a)
  {
    && t'.fence[a].level == t.fence[a].level && t'.fence[a].lo == t.fence[a].lo
    && (a !in w ==>
          && t'.store[a] == t.store[a] && t'.fence[a].hi == t.fence[a].hi
          && (a in t'.pend <==> a in t.pend) && (a in t.pend ==> t'.pend[a] == t.pend[a]))
  }

  ghost predicate Outside(x: Ctx, w: set<Addr>) {
    forall i {:trigger x.tokens[i]} :: 0 <= i < |x.tokens| ==> x.tokens[i].addr !in w
  }

  lemma FrameQuiet(t: Tree, t': Tree, w: set<Addr>, a: Addr)
    requires TreeStep(t, t', w) && Live(t, a) && a !in w
    ensures Quiet(t, a) ==> Quiet(t', a)
    ensures Lagging(t', a) <==> Lagging(t, a)
    ensures a == t'.root <==> a == t.root
  {
    assert Kept(t, t', w, a);
  }

  lemma FrameBasics(t: Tree, t': Tree, w: set<Addr>, x: Ctx)
    requires TreeStep(t, t', w) && Outside(x, w) && Ladder(t, x)
    ensures Ladder(t', x)
    ensures Clean(t, x) ==> Clean(t', x)
  {
    forall i | 0 <= i < |x.tokens| ensures Live(t', x.tokens[i].addr) && Kept(t, t', w, x.tokens[i].addr) {
    }
    if Clean(t, x) {
      forall i | 0 <= i < |x.tokens| ensures Quiet(t', x.tokens[i].addr) {
        FrameQuiet(t, t', w, x.tokens[i].addr);
      }
    }
  }

  lemma FrameAbove(t: Tree, t': Tree, w: set<Addr>, x: Ctx, n: int)
    requires TreeStep(t, t', w) && AllAbove(t, x, n)
    ensures AllAbove(t', x, n)
  {
    assert Kept(t, t', w, n);
    forall i | 0 <= i < |x.tokens| ensures Kept(t, t', w, x.tokens[i].addr) {
    }
  }

  lemma FrameImage(t: Tree, t': Tree, w: set<Addr>, p: Parent, k: Key)
    requires TreeStep(t, t', w) && p.addr !in w && Image(t, p, k)
    ensures Image(t', p, k)
    ensures Routes(t, p, k) ==> Routes(t', p, k)
  {
    assert Kept(t, t', w, p.addr);
  }

  lemma FramePath(t: Tree, t': Tree, w: set<Addr>, x: Ctx, extra: nat)
    requires TreeStep(t, t', w) && Outside(x, w) && Path(t, x, extra)
    ensures Path(t', x, extra)
  {
    forall i | x.held <= i < |x.parents| ensures HeldDown(t', x, i) {
      assert HeldDown(t, x, i);
      assert x.tokens[i - x.held].addr == x.parents[i].addr;
      FrameImage(t, t', w, x.parents[i], x.req.key);
    }
  }

  /** The interval of a child stays while its parent is held. */
  lemma FrameChild(t: Tree, t': Tree, w: set<Addr>, p: Addr, n: Addr)
    requires TreeStep(t, t', w) && IsInner(t, p) && p !in w && n in t.store[p].kids && Live(t, n)
    ensures t'.fence[n] == t.fence[n] && n < |t'.fence|
  {
    assert Kept(t, t', w, n);
  }

  lemma FrameEdge(t: Tree, t': Tree, w: set<Addr>, x: Ctx, n: Addr, q: Addr)
    requires TreeStep(t, t', w) && Live(t, n) && EdgeOk(t, x, n)
    requires Live(t, q) && q !in w && t.fence[n].lo.NegInf? ==> t.fence[q].lo.NegInf?
    requires Live(t, q) && q !in w
    ensures EdgeOk(t', x, n)
  {
    assert Kept(t, t', w, n);
  }

  lemma FrameCovered(t: Tree, t': Tree, w: set<Addr>, x: Ctx, extra: nat)
    requires TreeStep(t, t', w) && Outside(x, w) && Path(t, x, extra) && Covered(t, x)
    ensures Covered(t', x)
  {
    assert HeldDown(t, x, x.held);
    assert x.tokens[0].addr == x.parents[x.held].addr;
  }

  lemma FrameGoing(t: Tree, t': Tree, w: set<Addr>, x: Ctx, extra: nat)
    requires TreeStep(t, t', w) && Outside(x, w) && Sound(t) && Going(t, x, extra)
    ensures Going(t', x, extra)
  {
    var i := |x.parents| - 1;
    var p := x.parents[i];
    assert HeldDown(t, x, i);
    assert x.tokens[i - x.held].addr == p.addr;
    assert t.store[p.addr].kids[p.pos] == x.nodeRef;
    FrameChild(t, t', w, p.addr, x.nodeRef);
    FramePath(t, t', w, x, extra);
    assert KidOk(t, p.addr, p.pos);
    FrameEdge(t, t', w, x, x.nodeRef, p.addr);
    if !x.optimistic { FrameCovered(t, t', w, x, extra); }
  }

  lemma FrameFromRoot(t: Tree, t': Tree, w: set<Addr>, x: Ctx, extra: nat)
    requires TreeStep(t, t', w) && Outside(x, w) && FromRoot(t, x, extra)
    ensures FromRoot(t', x, extra)
  {
    FramePath(t, t', w, x, extra);
    assert Kept(t, t', w, x.nodeRef);
  }

  lemma FrameSettled(t: Tree, t': Tree, w: set<Addr>, x: Ctx)
    requires TreeStep(t, t', w) && Outside(x, w) && Settled(t, x)
    ensures Settled(t', x) && t'.store[x.nodeRef] == t.store[x.nodeRef]
  {
    assert x.tokens[|x.tokens| - 1].addr == x.nodeRef;
    assert Kept(t, t', w, x.nodeRef);
    FramePath(t, t', w, x, 1);
    if x.nodeRef != t.root {
      FrameEdge(t, t', w, x, x.nodeRef, x.nodeRef);
      if !x.optimistic { FrameCovered(t, t', w, x, 1); }
    }
  }

  lemma FrameRising(t: Tree, t': Tree, w: set<Addr>, x: Ctx)
    requires TreeStep(t, t', w) && Outside(x, w) && Ladder(t, x) && Rising(t, x)
    ensures Rising(t', x)
  {
    forall i | x.held <= i < |x.parents| ensures HeldUp(t', x, i) {
      assert HeldUp(t, x, i);
      assert x.tokens[i - x.held].addr == x.parents[i].addr;
      FrameImage(t, t', w, x.parents[i], x.req.key);
      FrameQuiet(t, t', w, x.parents[i].addr);
      if i + 1 < |x.parents| {
        assert HeldUp(t, x, i + 1) && x.tokens[i + 1 - x.held].addr == x.parents[i + 1].addr;
        assert Kept(t, t', w, x.parents[i + 1].addr);
        assert Kept(t, t', w, x.parents[i].addr);
      }
    }
    forall j | 0 <= j < |x.tokens| ensures Settling(t', x, j) {
      assert Settling(t, x, j);
      FrameQuiet(t, t', w, x.tokens[j].addr);
      assert Kept(t, t', w, x.tokens[j].addr);
    }
    if x.childSplit {
      assert HeldUp(t, x, x.held) && x.tokens[0].addr == x.parents[x.held].addr;
      var i := |x.parents| - 1;
      assert HeldUp(t, x, i) && x.tokens[i - x.held].addr == x.parents[i].addr;
      assert Kept(t, t', w, x.parents[i].addr);
    }
  }

  lemma FrameRootSplit(t: Tree, t': Tree, w: set<Addr>, x: Ctx)
    requires TreeStep(t, t', w) && Outside(x, w) && Ladder(t, x) && RootSplit(t, x) && RootOk(t)
    ensures RootSplit(t', x)
  {
    assert x.tokens[0].addr == t.root;
    assert t.fence[t.root].lo.NegInf?;
    forall j | 0 <= j < |x.tokens| ensures x.tokens[j].addr !in t'.pend && !Lagging(t', x.tokens[j].addr) {
      FrameQuiet(t, t', w, x.tokens[j].addr);
      assert Kept(t, t', w, x.tokens[j].addr);
    }
  }

  lemma FrameAsking(t: Tree, t': Tree, w: set<Addr>, x: Ctx)
    requires TreeStep(t, t', w) && Outside(x, w) && Sound(t) && Asking(t, x)
    ensures Asking(t', x)
  {
    if x.nodeRef == -1 {
      assert FenceOk(t, t.root);
    } else {
      FrameAbove(t, t', w, x, x.nodeRef);
      FrameGoing(t, t', w, x, 0);
    }
  }

  lemma FrameEntering(t: Tree, t': Tree, w: set<Addr>, x: Ctx)
    requires TreeStep(t, t', w) && Outside(x, w) && Sound(t) && Entering(t, x)
    ensures Entering(t', x)
  {
    var extra := if x.waiting then 0 else 1;
    if x.waiting { FrameAbove(t, t', w, x, x.nodeRef); }
    if x.referToRoot { FrameFromRoot(t, t', w, x, extra); } else { FrameGoing(t, t', w, x, extra); }
  }

  lemma FramePhase(t: Tree, t': Tree, w: set<Addr>, x: Ctx, pc: int)
    requires TreeStep(t, t', w) && Outside(x, w) && Sound(t) && Ladder(t, x) && Phase(t, x, pc)
    ensures Phase(t', x, pc)
  {
    if pc == 0 { FrameAsking(t, t', w, x); }
    else if pc == 10001 { FrameEntering(t, t', w, x); }
    else if pc == 1 || pc == 2 { FrameSettled(t, t', w, x); }
    else if pc == 9 || pc == 10 { FrameRising(t, t', w, x); }
    else if pc == 12 { FrameRootSplit(t, t', w, x); }
  }

  lemma FrameInsert(t: Tree, t': Tree, w: set<Addr>, x: Ctx)
    requires TreeStep(t, t', w) && Outside(x, w) && Sound(t) && InsertInv(t, x)
    ensures InsertInv(t', x)
  {
    FrameBasics(t, t', w, x);
    FramePhase(t, t', w, x, x.Pc());
  }

  lemma FrameSearch(t: Tree, t': Tree, w: set<Addr>, x: Ctx)
    requires TreeStep(t, t', w) && Outside(x, w) && SearchInv(t, x)
    ensures SearchInv(t', x)
  {
    var pc := x.Pc();
    FrameBasics(t, t', w, x);
    if pc == 0 || (pc == 1 && x.waiting) {
      FrameAbove(t, t', w, x, x.nodeRef);
      assert Kept(t, t', w, x.nodeRef);
      if x.tokens != [] {
        assert x.tokens[0].addr !in w;
        assert Kept(t, t', w, x.tokens[0].addr);
        FrameChild(t, t', w, x.tokens[0].addr, x.nodeRef);
      }
    } else {
      assert x.tokens[|x.tokens| - 1].addr !in w;
      assert Kept(t, t', w, x.nodeRef);
    }
  }

  /** The invariant of a context survives every change made under barriers it does not hold. */
  lemma FrameCtx(t: Tree, t': Tree, w: set<Addr>, x: Ctx)
    requires TreeStep(t, t', w) && Outside(x, w) && Sound(t) && CtxInv(t, x)
    ensures CtxInv(t', x)
  {
    if x.busy {
      if x.req.insert { FrameInsert(t, t', w, x); } else { FrameSearch(t, t', w, x); }
    }
  }
}
