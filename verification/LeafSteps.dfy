/** The leaf step: inserting into the leaf, in place or by a split, keeps the invariant. */
module LeafSteps {
  import opened Nodes
  import opened TreeState
  import opened TreeWrites
  import opened TreeSplits
  import opened Contexts
  import opened Steps
  import opened Invariants
  import opened Frames
  import opened Exclusion
  import opened Releases
  import opened LocalSteps
  import opened DescentSteps
  import opened RiseFrames

  /** A context standing on its leaf with the write barrier, about to insert. */
  ghost predicate AtLeaf(t: Tree, x: Ctx) {
    && Sound(t) && Settled(t, x) && Ladder(t, x) && Clean(t, x) && Unheld(x)
    && x.req.insert && IsLeaf(t, x.nodeRef) && Holds(x, true) && x.buffer == t.store[x.nodeRef]
  }

  lemma LeafOpened(s: Sys, c: Cid)
    requires Runs(s, c, 2) && s.ctxs[c].buffer.Leaf?
    ensures Safe(s, c) && AtLeaf(s.t, s.ctxs[c])
  {
    Opened(s, c, 2);
    var n := s.ctxs[c].nodeRef;
    assert FenceOk(s.t, n) && LeafOk(s.t, n);
  }

  /** The least key after key `k` has gone into the leaf. */
  lemma LeastAfter(t: Tree, x: Ctx, t': Tree)
    requires AtLeaf(t, x)
    requires t'.least == if t.fence[x.nodeRef].lo.NegInf?
                         then Put(t.store[x.nodeRef].entries, x.req.key, x.req.val)[0].key else t.least
    ensures t'.least != t.least ==> SpineIn(t, WriteHeld(x))
    ensures x.nodeRef != t.root ==> t'.least == (if x.boundary then x.req.key else t.least)
  {
    var n := x.nodeRef;
    assert LeafOk(t, n);
    FirstOfPut(t.store[n].entries, x.req.key, x.req.val);
    if t'.least != t.least { SpineHeld(t, x); }
  }

  /** Writing a leaf leaves the inner nodes alone. */
  ghost predicate InnersKept(t: Tree, t': Tree) {
    && |t.store| <= |t'.store| && |t.fence| <= |t'.fence|
    && forall a {:trigger t.store[a]} :: IsInner(t, a) ==>
         t'.store[a] == t.store[a] && t'.fence[a].lo == t.fence[a].lo
  }

  /** The parents of the leaf, seen from below once the leaf is written. */
  lemma ParentsRise(t: Tree, x: Ctx, t': Tree, y: Ctx, i: nat)
    requires AtLeaf(t, x) && x.nodeRef != t.root && x.held <= i < |x.parents|
    requires t'.least == if x.boundary then x.req.key else t.least
    requires InnersKept(t, t')
    requires y.tokens == x.tokens && y.parents == x.parents && y.held == x.held && y.req == x.req
    ensures HeldUp(t', y, i)
  {
    assert HeldDown(t, x, i);
    var p := x.parents[i];
    assert Quiet(t, x.tokens[i - x.held].addr);
    if i + 1 < |x.parents| {
      assert HeldDown(t, x, i + 1);
      assert Quiet(t, x.tokens[i + 1 - x.held].addr);
    }
  }

  /** Of the held nodes only the parents can lag, and only the last parent can have a pending child. */
  lemma TokensSettle(t: Tree, x: Ctx, t': Tree, y: Ctx, j: nat)
    requires AtLeaf(t, x) && j < |x.tokens| && y.tokens == x.tokens && y.parents == x.parents && y.held == x.held
    requires t'.root == t.root && t'.rootSplit == t.rootSplit
    requires forall a {:trigger a in t'.pend} ::
               a in t'.pend ==>
                 a in t.pend || (y.childSplit && |x.parents| > x.held && a == x.parents[|x.parents| - 1].addr)
    requires IsLeaf(t', x.nodeRef)
    ensures Settling(t', y, j)
  {
    var a := x.tokens[j].addr;
    assert Quiet(t, a);
    if j < |x.parents| - x.held {
      assert HeldDown(t, x, x.held + j);
      if y.childSplit && |x.parents| > x.held && a == x.parents[|x.parents| - 1].addr {
        var last := |x.parents| - 1;
        assert HeldDown(t, x, last);
        assert x.tokens[last - x.held].addr == a;
        assert Distinct(t, x, j, last - x.held);
      }
    } else {
      assert a == x.nodeRef;
      assert |x.parents| > x.held ==> HeldDown(t, x, |x.parents| - 1);
    }
  }

  ghost predicate Distinct(t: Tree, x: Ctx, i: nat, j: nat)
    requires Ladder(t, x) && i < |x.tokens| && j < |x.tokens|
    ensures Distinct(t, x, i, j)
  {
    x.tokens[i].addr == x.tokens[j].addr ==> i == j
  }

  lemma LadderKept(t: Tree, t': Tree, x: Ctx, y: Ctx, w: set<Addr>)
    requires Ladder(t, x) && TreeStep(t, t', w) && y.tokens == x.tokens
    ensures Ladder(t', y)
  {
    forall i | 0 <= i < |x.tokens| ensures Kept(t, t', w, x.tokens[i].addr) {
    }
  }

  // ---------- inserting in place ----------

  ghost function PutTree(t: Tree, x: Ctx): Tree
    requires AtLeaf(t, x)
  {
    PutLeaf(t, x.nodeRef, NewLeaf(t, x.nodeRef, x.req.key, x.req.val))
  }

  lemma PutStep(t: Tree, x: Ctx)
    requires AtLeaf(t, x)
    ensures TreeStep(t, PutTree(t, x), WriteHeld(x)) && FreshQuiet(t, PutTree(t, x))
    ensures InnersKept(t, PutTree(t, x))
  {
    var leaf := NewLeaf(t, x.nodeRef, x.req.key, x.req.val);
    LeastAfter(t, x, PutTree(t, x));
    LastIn(x);
    PutLeafStep(t, x.nodeRef, leaf, WriteHeld(x));
    PutLeafFresh(t, x.nodeRef, leaf);
  }

  lemma PutRising(t: Tree, x: Ctx, y: Ctx)
    requires AtLeaf(t, x) && InnersKept(t, PutTree(t, x))
    requires y.tokens == x.tokens && y.parents == x.parents && y.held == x.held && y.req == x.req && !y.childSplit
    ensures Rising(PutTree(t, x), y)
  {
    var t' := PutTree(t, x);
    LeastAfter(t, x, t');
    forall i | y.held <= i < |y.parents| ensures HeldUp(t', y, i) { ParentsRise(t, x, t', y, i); }
    forall j | 0 <= j < |y.tokens| ensures Settling(t', y, j) { TokensSettle(t, x, t', y, j); }
  }

  lemma PutInv(t: Tree, x: Ctx, y: Ctx)
    requires AtLeaf(t, x) && x.busy && x.ready == 1 && x.io == 0 && !x.waiting
    requires y == Flushing(x.(childSplit := false), 10, 1)
    ensures CtxInv(PutTree(t, x), y) && Flow(y)
  {
    PutStep(t, x);
    PutRising(t, x, y);
    LadderKept(t, PutTree(t, x), x, y, WriteHeld(x));
  }

  lemma PutCore(s: Sys, c: Cid, x: Ctx) returns (s': Sys)
    requires Runs(s, c, 2) && x == s.ctxs[c] && AtLeaf(s.t, x)
    requires Found(x.buffer.entries, x.req.key) || |x.buffer.entries| < s.t.cap
    ensures s' == PutInLeaf(s, c, x) && Core(s')
  {
    Opened(s, c, 2);
    PutStep(s.t, x);
    var y := Flushing(x.(childSplit := false), 10, 1);
    PutInv(s.t, x, y);
    PutLeafSound(s.t, x.nodeRef, x.req.key, x.req.val);
    TreeOf(s);
    PutLeafRepresents(s.t, x.nodeRef, x.req.key, x.req.val, Apply(s.log));
    var w := Write(x.req.id, x.req.key, x.req.val);
    ApplyAppend(s.log, w);
    s' := LocalStep(s, c, y, PutTree(s.t, x), s.log + [w]);
  }

  // ---------- splitting the leaf ----------

  ghost predicate MustSplit(t: Tree, x: Ctx) {
    && AtLeaf(t, x) && !x.optimistic && !Found(x.buffer.entries, x.req.key) && |x.buffer.entries| == t.cap
  }

  lemma LeafUp(t: Tree, x: Ctx)
    requires MustSplit(t, x)
    ensures CanSplitLeaf(t, x.nodeRef, x.req.key, UpOf(t, x))
    ensures UpOf(t, x).Some? ==> UpOf(t, x).value.0 in WriteHeld(x)
    ensures UpOf(t, x).Some? <==> x.nodeRef != t.root
  {
    if x.nodeRef == t.root {
      assert Quiet(t, x.tokens[|x.tokens| - 1].addr);
    } else {
      var i := |x.parents| - 1;
      assert HeldDown(t, x, i);
      assert Quiet(t, x.tokens[i - x.held].addr);
      TokenIn(x, i - x.held);
    }
  }

  ghost function SplitTree(t: Tree, x: Ctx): Tree
    requires MustSplit(t, x) && CanSplitLeaf(t, x.nodeRef, x.req.key, UpOf(t, x))
  {
    CutLeaf(t, x.nodeRef, x.req.key, x.req.val, UpOf(t, x))
  }

  lemma SplitStep(t: Tree, x: Ctx)
    requires MustSplit(t, x) && CanSplitLeaf(t, x.nodeRef, x.req.key, UpOf(t, x))
    ensures TreeStep(t, SplitTree(t, x), WriteHeld(x)) && FreshQuiet(t, SplitTree(t, x))
    ensures InnersKept(t, SplitTree(t, x))
  {
    var (l, r) := Halves(t, x.nodeRef, x.req.key, x.req.val);
    var left, right := Leaf(l, |t.store|), Leaf(r, t.store[x.nodeRef].next);
    assert (l + r)[0] == l[0];
    LeafUp(t, x);
    LeastAfter(t, x, SplitTree(t, x));
    LastIn(x);
    CutStep(t, x.nodeRef, left, right, r[0].key, UpOf(t, x), WriteHeld(x));
    CutFresh(t, x.nodeRef, left, right, r[0].key, UpOf(t, x));
  }

  /** What the context remembers of the split. */
  ghost function LeafSplit(t: Tree, x: Ctx): Split
    requires MustSplit(t, x)
  {
    var (l, r) := Halves(t, x.nodeRef, x.req.key, x.req.val);
    Split(x.nodeRef, Leaf(l, |t.store|), |t.store|, Leaf(r, t.store[x.nodeRef].next), r[0].key)
  }

  lemma SplitRising(t: Tree, x: Ctx, y: Ctx)
    requires MustSplit(t, x) && CanSplitLeaf(t, x.nodeRef, x.req.key, UpOf(t, x)) && x.nodeRef != t.root
    requires InnersKept(t, SplitTree(t, x))
    requires y.tokens == x.tokens && y.parents == x.parents && y.held == x.held && y.req == x.req
    requires y.childSplit && y.split == LeafSplit(t, x)
    ensures Rising(SplitTree(t, x), y)
  {
    var t' := SplitTree(t, x);
    var (l, r) := Halves(t, x.nodeRef, x.req.key, x.req.val);
    assert (l + r)[0] == l[0];
    LeafUp(t, x);
    LeastAfter(t, x, t');
    forall i | y.held <= i < |y.parents| ensures HeldUp(t', y, i) { ParentsRise(t, x, t', y, i); }
    forall j | 0 <= j < |y.tokens| ensures Settling(t', y, j) { TokensSettle(t, x, t', y, j); }
    assert HeldUp(t', y, y.held);
  }

  lemma SplitRootLeaf(t: Tree, x: Ctx, y: Ctx)
    requires MustSplit(t, x) && CanSplitLeaf(t, x.nodeRef, x.req.key, UpOf(t, x)) && x.nodeRef == t.root
    requires y.tokens == x.tokens && y.parents == x.parents && y.held == x.held && y.req == x.req
    requires y.split == LeafSplit(t, x)
    ensures RootSplit(SplitTree(t, x), y)
  {
    var t' := SplitTree(t, x);
    var (l, r) := Halves(t, x.nodeRef, x.req.key, x.req.val);
    assert (l + r)[0] == l[0];
    LeafUp(t, x);
    LeafNotPending(t, x.nodeRef);
    RootAlone(t, x);
  }

  /** A context at a root that is a leaf holds nothing else. */
  lemma RootAlone(t: Tree, x: Ctx)
    requires AtLeaf(t, x) && x.nodeRef == t.root
    ensures |x.tokens| == 1 && x.tokens[0].addr == t.root
  {
  }

  lemma SplitInv(t: Tree, x: Ctx, y: Ctx)
    requires MustSplit(t, x) && CanSplitLeaf(t, x.nodeRef, x.req.key, UpOf(t, x))
    requires x.busy && x.ready == 1 && x.io == 0 && !x.waiting
    requires y == Flushing(x.(childSplit := true, split := LeafSplit(t, x)), if x.nodeRef == t.root then 12 else 10, 2)
    ensures CtxInv(SplitTree(t, x), y) && Flow(y)
  {
    SplitStep(t, x);
    LadderKept(t, SplitTree(t, x), x, y, WriteHeld(x));
    if x.nodeRef == t.root { SplitRootLeaf(t, x, y); } else { SplitRising(t, x, y); }
  }

  lemma SplitFacts(t: Tree, x: Ctx, y: Ctx, log: seq<Write>, w: Write) returns (t': Tree)
    requires MustSplit(t, x) && CanSplitLeaf(t, x.nodeRef, x.req.key, UpOf(t, x)) && Represents(t, Apply(log))
    requires x.busy && x.ready == 1 && x.io == 0 && !x.waiting && w == Write(x.req.id, x.req.key, x.req.val)
    requires y == Flushing(x.(childSplit := true, split := LeafSplit(t, x)), if x.nodeRef == t.root then 12 else 10, 2)
    ensures t' == SplitTree(t, x) && CtxInv(t', y) && Flow(y)
    ensures TreeStep(t, t', WriteHeld(x)) && FreshQuiet(t, t') && Sound(t') && Represents(t', Apply(log + [w]))
  {
    t' := SplitTree(t, x);
    SplitStep(t, x);
    SplitInv(t, x, y);
    CutLeafSound(t, x.nodeRef, x.req.key, x.req.val, UpOf(t, x));
    CutLeafRepresents(t, x.nodeRef, x.req.key, x.req.val, UpOf(t, x), Apply(log));
    ApplyAppend(log, w);
  }

  /** The step of the code is the step described. */
  lemma SplitIs(s: Sys, c: Cid, x: Ctx, y: Ctx)
    requires c < |s.ctxs| && x.ready > 0 && MustSplit(s.t, x) && CanSplitLeaf(s.t, x.nodeRef, x.req.key, UpOf(s.t, x))
    requires y == Flushing(x.(childSplit := true, split := LeafSplit(s.t, x)),
                           if x.nodeRef == s.t.root then 12 else 10, 2)
    ensures SplitLeaf(s, c, x)
         == SetCtx(s, c, y).(t := SplitTree(s.t, x), log := s.log + [Write(x.req.id, x.req.key, x.req.val)])
  {
  }

  /** What the step needs, and what it makes of the system. */
  lemma SplitReady(s: Sys, c: Cid, x: Ctx) returns (y: Ctx, t: Tree, log: seq<Write>)
    requires Runs(s, c, 2) && x == s.ctxs[c] && MustSplit(s.t, x)
    requires CanSplitLeaf(s.t, x.nodeRef, x.req.key, UpOf(s.t, x))
    ensures SameClaims(x, y) && TreeStep(s.t, t, WriteHeld(x)) && FreshQuiet(s.t, t)
    ensures Sound(t) && Represents(t, Apply(log)) && CtxInv(t, y) && Flow(y)
    ensures x.ready > 0 && t == SplitTree(s.t, x) && log == s.log + [Write(x.req.id, x.req.key, x.req.val)]
    ensures y == Flushing(x.(childSplit := true, split := LeafSplit(s.t, x)),
                          if x.nodeRef == s.t.root then 12 else 10, 2)
  {
    Opened(s, c, 2);
    y := Flushing(x.(childSplit := true, split := LeafSplit(s.t, x)), if x.nodeRef == s.t.root then 12 else 10, 2);
    var w := Write(x.req.id, x.req.key, x.req.val);
    log := s.log + [w];
    TreeOf(s);
    t := SplitFacts(s.t, x, y, s.log, w);
  }

  lemma SplitCore(s: Sys, c: Cid, x: Ctx) returns (s': Sys)
    requires Runs(s, c, 2) && x == s.ctxs[c] && MustSplit(s.t, x)
    requires CanSplitLeaf(s.t, x.nodeRef, x.req.key, UpOf(s.t, x))
    ensures s' == SplitLeaf(s, c, x) && Core(s')
  {
    var y, t, log := SplitReady(s, c, x);
    s' := LocalStep(s, c, y, t, log);
    SplitIs(s, c, x, y);
  }

  lemma InsertLeafCore(s: Sys, c: Cid)
    requires Runs(s, c, 2) && s.ctxs[c].buffer.Leaf?
    ensures Safe(s, c) && Core(InsertLeaf(s, c))
  {
    LeafOpened(s, c);
    var x := s.ctxs[c];
    if x.optimistic && |x.buffer.entries| == s.t.cap {
      GiveUpCore(s, c);
    } else if Found(x.buffer.entries, x.req.key) || |x.buffer.entries| < s.t.cap {
      var s' := PutCore(s, c, x);
    } else {
      LeafUp(s.t, x);
      var s' := SplitCore(s, c, x);
    }
  }
}
