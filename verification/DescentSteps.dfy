/** The way down: every step of an insertion before its leaf is written keeps the invariant. */
module DescentSteps {
  import opened Nodes
  import opened TreeState
  import opened Contexts
  import opened Steps
  import opened Invariants
  import opened Exclusion
  import opened Releases
  import opened LocalSteps

  /** A context about to run. */
  ghost predicate Runs(s: Sys, c: Cid, state: int) {
    && Core(s) && c < |s.ctxs|
    && s.ctxs[c].busy && s.ctxs[c].ready > 0 && s.ctxs[c].req.insert && s.ctxs[c].state == state
  }

  lemma Opened(s: Sys, c: Cid, state: int)
    requires Runs(s, c, state)
    ensures var x := s.ctxs[c];
            && InsertInv(s.t, x) && Phase(s.t, x, state) && Flow(x) && !x.waiting
            && (state != 10 && state != 12 ==> x.ready == 1 && x.io == 0)
            && 2 <= s.t.cap && |s.t.fence| == |s.t.store| && Sound(s.t)
  {
    assert Look(s, 0);
    assert CtxOk(s, c);
  }

  /** Two contexts that agree on everything the path speaks of. */
  ghost predicate SameBody(x: Ctx, y: Ctx) {
    && y.tokens == x.tokens && y.parents == x.parents && y.held == x.held && y.optimistic == x.optimistic
    && y.req == x.req && y.boundary == x.boundary && y.nodeRef == x.nodeRef && y.level == x.level
    && y.nextLeaf == x.nextLeaf && y.freeSlot == x.freeSlot
  }

  lemma BodyPath(t: Tree, x: Ctx, y: Ctx, extra: nat)
    requires SameBody(x, y) && Path(t, x, extra)
    ensures Path(t, y, extra)
  {
    forall i | y.held <= i < |y.parents| ensures HeldDown(t, y, i) { assert HeldDown(t, x, i); }
  }

  // ---------- state 0 ----------

  lemma VisitReady(t: Tree, x: Ctx, y: Ctx)
    requires Sound(t) && InsertInv(t, x) && x.ready == 1 && x.state == 0 && Asking(t, x)
    requires y == Visiting(t, x).(waiting := true, ready := 0)
    ensures InsertInv(t, y)
  {
    if x.nodeRef != -1 { BodyPath(t, x, y, 0); }
    assert Entering(t, y);
  }

  lemma VisitCore(s: Sys, c: Cid)
    requires Runs(s, c, 0)
    ensures Safe(s, c) && Core(Visit(s, c))
  {
    Opened(s, c, 0);
    var x := s.ctxs[c];
    var y := Visiting(s.t, x);
    var w := y.(waiting := true, ready := 0);
    VisitReady(s.t, x, w);
    var s' := AcquireCore(s, c, y, w, y.nodeRef);
  }

  // ---------- state 10001 ----------

  /** A context that sets its new fields and then gives its first `n` tokens back. */
  lemma LetGo(s: Sys, c: Cid, x1: Ctx, y: Ctx, n: nat) returns (s': Sys)
    requires Core(s) && c < |s.ctxs| && SameClaims(s.ctxs[c], x1)
    requires Ladder(s.t, x1) && Clean(s.t, x1) && n <= |x1.tokens|
    requires y == x1.(tokens := x1.tokens[n..]) && CtxInv(s.t, y) && Flow(y)
    ensures s' == Release(SetCtx(s, c, x1), c, n) && Core(s')
  {
    var s1 := SetCtx(s, c, x1);
    OwnCore(s, s1, c);
    s' := ReleaseRest(s1, c, n);
    assert CtxOk(s', c);
    Whole(s', c);
  }

  /** The root has moved: start again from nothing. */
  lemma EnterMoved(s: Sys, c: Cid)
    requires Runs(s, c, 10001) && Safe(s, c) && |s.ctxs[c].tokens| > 0
    requires s.ctxs[c].referToRoot && s.ctxs[c].tokens[|s.ctxs[c].tokens| - 1].addr != s.t.root
    ensures Core(Enter(s, c))
  {
    Opened(s, c, 10001);
    var x := s.ctxs[c];
    assert FenceOk(s.t, x.nodeRef);
    var x1 := x.(nodeRef := -1, next := 0, state := 0);
    var y := x1.(tokens := x1.tokens[|x.tokens|..]);
    assert y.tokens == [];
    assert InsertInv(s.t, y);
    var s' := LetGo(s, c, x1, y, |x.tokens|);
  }

  /** The barrier of the root is held and it is still the root. */
  lemma RootSettled(t: Tree, x: Ctx, y: Ctx)
    requires Sound(t) && Clean(t, x) && FromRoot(t, x, 1) && Holds(x, x.WantsWrite()) && x.nodeRef == t.root
    requires SameBody(x, y) && !y.referToRoot
    ensures Settled(t, y)
  {
    assert Quiet(t, x.tokens[|x.tokens| - 1].addr);
    BodyPath(t, x, y, 1);
  }

  /** The barrier of a child is held; an optimistic context keeps nothing else. */
  lemma ChildSettledOptimistic(t: Tree, x: Ctx, y: Ctx)
    requires Going(t, x, 1) && Holds(x, x.WantsWrite()) && x.optimistic
    requires y.tokens == [x.tokens[|x.tokens| - 1]] && y.held == |x.parents|
    requires SameBody(x.(tokens := y.tokens, held := y.held), y) && !y.referToRoot
    ensures Settled(t, y)
  {
  }

  /** A pessimistic context whose parent has room keeps the parent and the child. */
  lemma ChildSettledRoomy(t: Tree, x: Ctx, y: Ctx)
    requires Going(t, x, 1) && Holds(x, x.WantsWrite()) && !x.optimistic && x.freeSlot && !x.boundary
    requires |x.tokens| >= 2 && y.tokens == x.tokens[|x.tokens| - 2..] && y.held == |x.parents| - 1
    requires SameBody(x.(tokens := y.tokens, held := y.held), y) && !y.referToRoot
    ensures Settled(t, y)
  {
    var i := |x.parents| - 1;
    assert HeldDown(t, x, i);
    assert y.tokens[0] == x.tokens[i - x.held];
    assert HeldDown(t, y, i);
  }

  /** Otherwise it keeps the whole path. */
  lemma ChildSettledTight(t: Tree, x: Ctx, y: Ctx)
    requires Going(t, x, 1) && Holds(x, x.WantsWrite()) && !x.optimistic
    requires SameBody(x, y) && !y.referToRoot
    ensures Settled(t, y)
  {
    BodyPath(t, x, y, 1);
  }

  lemma UnheldOf(x: Ctx, y: Ctx)
    requires Unheld(x) && y.parents == x.parents && y.held >= x.held
    requires forall i {:trigger x.parents[i]} :: x.held <= i < |x.parents| && i < y.held ==> !x.parents[i].modified
    ensures Unheld(y)
  {
  }

  lemma SettledInv(t: Tree, y: Ctx)
    requires Ladder(t, y) && Unheld(y) && Clean(t, y) && Settled(t, y)
    requires y.busy && y.req.insert && y.ready == 1 && y.io == 0 && !y.waiting && y.state == 1
    ensures CtxInv(t, y) && Flow(y)
  {
  }

  lemma PathUnmodified(t: Tree, x: Ctx, extra: nat)
    requires Path(t, x, extra) && Unheld(x) && !x.boundary
    ensures forall i {:trigger x.parents[i]} :: 0 <= i < |x.parents| ==> !x.parents[i].modified
  {
    forall i | 0 <= i < |x.parents| ensures !x.parents[i].modified {
      if i >= x.held { assert HeldDown(t, x, i); }
    }
  }

  lemma SuffixLadder(t: Tree, x: Ctx, y: Ctx, n: nat)
    requires Ladder(t, x) && Clean(t, x) && n <= |x.tokens| && y.tokens == x.tokens[n..]
    ensures Ladder(t, y) && Clean(t, y)
  {
    forall i | 0 <= i < |y.tokens| ensures y.tokens[i] == x.tokens[n + i] {
    }
  }

  lemma EnterRoot(s: Sys, c: Cid)
    requires Runs(s, c, 10001) && Safe(s, c) && s.ctxs[c].referToRoot
    requires |s.ctxs[c].tokens| > 0 && s.ctxs[c].tokens[|s.ctxs[c].tokens| - 1].addr == s.t.root
    ensures Core(Enter(s, c))
  {
    Opened(s, c, 10001);
    var x := s.ctxs[c];
    var x1 := x.(referToRoot := false, next := 1, state := 1);
    RootSettled(s.t, x, x1);
    SettledInv(s.t, x1);
    if x.optimistic {
      assert x1.(held := |x.parents|) == x1;
      assert x1.(tokens := x1.tokens[0..]) == x1;
      var s' := LetGo(s, c, x1, x1, 0);
    } else {
      var s' := OwnStep(s, c, x1);
    }
  }

  lemma OptimisticInv(t: Tree, x: Ctx, x1: Ctx, y: Ctx)
    requires InsertInv(t, x) && Going(t, x, 1) && Holds(x, x.WantsWrite()) && x.optimistic
    requires Clean(t, x) && x.ready == 1 && x.io == 0 && x.busy && x.req.insert && !x.waiting
    requires x1 == x.(referToRoot := false, next := 1, state := 1, held := |x.parents|)
    requires y == x1.(tokens := x1.tokens[|x.tokens| - 1..])
    ensures CtxInv(t, y) && Flow(y)
  {
    assert y.tokens == [x.tokens[|x.tokens| - 1]];
    ChildSettledOptimistic(t, x, y);
    PathUnmodified(t, x, 1);
    UnheldOf(x, y);
    SuffixLadder(t, x, y, |x.tokens| - 1);
    SettledInv(t, y);
  }

  lemma EnterOptimistic(s: Sys, c: Cid)
    requires Runs(s, c, 10001) && !s.ctxs[c].referToRoot && s.ctxs[c].optimistic && |s.ctxs[c].tokens| > 0
    ensures Core(Enter(s, c))
  {
    Opened(s, c, 10001);
    var x := s.ctxs[c];
    var n := |x.tokens|;
    var x1 := x.(referToRoot := false, next := 1, state := 1, held := |x.parents|);
    var y := x1.(tokens := x1.tokens[n - 1..]);
    OptimisticInv(s.t, x, x1, y);
    var s' := LetGo(s, c, x1, y, n - 1);
  }

  lemma RoomyInv(t: Tree, x: Ctx, x1: Ctx, y: Ctx)
    requires InsertInv(t, x) && Going(t, x, 1) && Holds(x, x.WantsWrite()) && !x.optimistic && x.freeSlot && !x.boundary
    requires Clean(t, x) && x.ready == 1 && x.io == 0 && x.busy && x.req.insert && !x.waiting
    requires |x.tokens| > 1
    requires x1 == x.(referToRoot := false, next := 1, state := 1, held := |x.parents| - 1)
    requires y == x1.(tokens := x1.tokens[|x.tokens| - 2..])
    ensures CtxInv(t, y) && Flow(y)
  {
    ChildSettledRoomy(t, x, y);
    PathUnmodified(t, x, 1);
    UnheldOf(x, y);
    SuffixLadder(t, x, y, |x.tokens| - 2);
    SettledInv(t, y);
  }

  lemma OpenedGoing(s: Sys, c: Cid)
    requires Runs(s, c, 10001) && !s.ctxs[c].referToRoot
    ensures Going(s.t, s.ctxs[c], 1) && Holds(s.ctxs[c], s.ctxs[c].WantsWrite()) && |s.ctxs[c].tokens| > 1
  {
    Opened(s, c, 10001);
  }

  lemma EnterRoomy(s: Sys, c: Cid, x1: Ctx)
    requires Runs(s, c, 10001) && !s.ctxs[c].referToRoot && !s.ctxs[c].optimistic
    requires s.ctxs[c].freeSlot && !s.ctxs[c].boundary && |s.ctxs[c].tokens| > 1 && Going(s.t, s.ctxs[c], 1)
    requires Holds(s.ctxs[c], s.ctxs[c].WantsWrite())
    requires x1 == s.ctxs[c].(referToRoot := false, next := 1, state := 1, held := |s.ctxs[c].parents| - 1)
    ensures Core(Release(SetCtx(s, c, x1), c, |s.ctxs[c].tokens| - 2))
  {
    Opened(s, c, 10001);
    var y := x1.(tokens := x1.tokens[|s.ctxs[c].tokens| - 2..]);
    RoomyInv(s.t, s.ctxs[c], x1, y);
    var s' := LetGo(s, c, x1, y, |s.ctxs[c].tokens| - 2);
  }

  lemma EnterTight(s: Sys, c: Cid)
    requires Runs(s, c, 10001) && !s.ctxs[c].referToRoot && !s.ctxs[c].optimistic && |s.ctxs[c].tokens| > 0
    requires !(s.ctxs[c].freeSlot && !s.ctxs[c].boundary)
    ensures Core(Enter(s, c))
  {
    Opened(s, c, 10001);
    var x := s.ctxs[c];
    var x1 := x.(referToRoot := false, next := 1, state := 1);
    ChildSettledTight(s.t, x, x1);
    SettledInv(s.t, x1);
    var s' := OwnStep(s, c, x1);
  }

  lemma EnterSafe(s: Sys, c: Cid)
    requires Runs(s, c, 10001)
    ensures Safe(s, c) && |s.ctxs[c].tokens| > 0
  {
    Opened(s, c, 10001);
    if !s.ctxs[c].referToRoot { OpenedGoing(s, c); }
  }

  lemma EnterChild(s: Sys, c: Cid)
    requires Runs(s, c, 10001) && Safe(s, c) && !s.ctxs[c].referToRoot
    ensures Core(Enter(s, c))
  {
    var x := s.ctxs[c];
    if x.optimistic {
      EnterOptimistic(s, c);
    } else if x.freeSlot && !x.boundary {
      OpenedGoing(s, c);
      EnterRoomy(s, c, x.(referToRoot := false, next := 1, state := 1, held := |x.parents| - 1));
    } else {
      EnterTight(s, c);
    }
  }

  lemma EnterCore(s: Sys, c: Cid)
    requires Runs(s, c, 10001)
    ensures Safe(s, c) && Core(Enter(s, c))
  {
    EnterSafe(s, c);
    var x := s.ctxs[c];
    if !x.referToRoot {
      EnterChild(s, c);
    } else if x.tokens[|x.tokens| - 1].addr == s.t.root {
      EnterRoot(s, c);
    } else {
      EnterMoved(s, c);
    }
  }

  // ---------- state 1 ----------

  lemma FetchInv(t: Tree, x: Ctx, y: Ctx)
    requires InsertInv(t, x) && x.Pc() == 1 && Flow(x) && !x.waiting && x.ready == 1
    requires x.io == 0 && x.busy && x.req.insert
    requires Live(t, x.nodeRef) && y == x.(next := 2, buffer := t.store[x.nodeRef], io := 1, ready := 0)
    ensures CtxInv(t, y) && Flow(y) && SameClaims(x, y)
  {
    BodyPath(t, x, y, 1);
    assert Settled(t, y);
  }

  lemma FetchCore(s: Sys, c: Cid)
    requires Runs(s, c, 1)
    ensures Safe(s, c) && Core(Fetch(s, c))
  {
    Opened(s, c, 1);
    var x := s.ctxs[c];
    var y := x.(next := 2, buffer := s.t.store[x.nodeRef], io := x.io + 1, ready := x.ready - 1);
    FetchInv(s.t, x, y);
    var s' := OwnStep(s, c, y);
  }

  // ---------- state 2 at an inner node ----------

  /** The key is below the first key of a node exactly when it is below every key of the tree. */
  lemma ExceedEdge(t: Tree, x: Ctx)
    requires Sound(t) && Settled(t, x) && Clean(t, x) && IsInner(t, x.nodeRef)
    ensures var exceed := x.req.key < t.store[x.nodeRef].keys[0];
            && (exceed <==> t.fence[x.nodeRef].lo.NegInf? && x.req.key < t.least)
            && (x.nodeRef != t.root ==> exceed == x.boundary)
  {
    assert Quiet(t, x.tokens[|x.tokens| - 1].addr);
    assert InnerOk(t, x.nodeRef) && FenceOk(t, x.nodeRef);
  }

  /** The parent noted on the way down is current and routes the key to the child. */
  lemma NoteParent(t: Tree, n: Addr, k: Key, p: Parent)
    requires Sound(t) && IsInner(t, n) && InFence(t, n, k) && n !in t.pend
    requires var i := Locate(t.store[n].keys, k);
             p == Parent(n, if i < 0 then Inner(t.store[n].keys[0 := k], t.store[n].kids) else t.store[n],
                         if i < 0 then 0 else i, i < 0)
    requires k < t.store[n].keys[0] ==> t.fence[n].lo.NegInf?
    ensures Image(t, p, k) && Routes(t, p, k)
    ensures var m := t.store[n].kids[p.pos];
            && Live(t, m) && InFence(t, m, k) && t.fence[m].level + 1 == t.fence[n].level
            && (t.fence[m].lo.NegInf? <==> p.pos == 0 && t.fence[n].lo.NegInf?)
  {
    assert InnerOk(t, n) && KidOk(t, n, p.pos);
  }

  ghost function Below1(x: Ctx, t: Tree): Ctx
    requires x.nodeRef >= 0 && x.buffer.Inner? && 0 < |x.buffer.keys| == |x.buffer.kids|
  {
    var i := Locate(x.buffer.keys, x.req.key);
    var pos := if i < 0 then 0 else i;
    var node := if i < 0 then x.buffer.(keys := x.buffer.keys[0 := x.req.key]) else x.buffer;
    x.(parents := x.parents + [Parent(x.nodeRef, node, pos, i < 0)],
       nodeRef := node.kids[pos], freeSlot := |node.keys| < t.cap, boundary := i < 0,
       nextLeaf := x.level == 2, level := x.level - 1, next := 0, state := 0)
  }

  lemma DescendPath(t: Tree, x: Ctx, y: Ctx)
    requires x.req.insert && Sound(t) && Settled(t, x) && Clean(t, x) && IsInner(t, x.nodeRef)
    requires x.buffer == t.store[x.nodeRef] && y == Below1(x, t)
    requires Locate(x.buffer.keys, x.req.key) < 0 ==> !x.optimistic
    ensures Path(t, y, 0)
  {
    var n, P := x.nodeRef, |x.parents|;
    ExceedEdge(t, x);
    assert Quiet(t, x.tokens[|x.tokens| - 1].addr);
    NoteParent(t, n, x.req.key, y.parents[P]);
    assert InnerOk(t, n);
    forall i | y.held <= i < |y.parents| ensures HeldDown(t, y, i) {
      if i < P {
        assert HeldDown(t, x, i) && y.parents[i] == x.parents[i];
      } else {
        assert y.tokens[i - y.held] == x.tokens[|x.tokens| - 1];
      }
    }
  }

  lemma DescendGoing(t: Tree, x: Ctx, y: Ctx)
    requires x.req.insert && Sound(t) && Settled(t, x) && Clean(t, x) && IsInner(t, x.nodeRef) && Ladder(t, x)
    requires x.buffer == t.store[x.nodeRef] && y == Below1(x, t)
    requires Locate(x.buffer.keys, x.req.key) < 0 ==> !x.optimistic
    ensures Going(t, y, 0) && AllAbove(t, y, y.nodeRef)
  {
    var n, P := x.nodeRef, |x.parents|;
    ExceedEdge(t, x);
    assert Quiet(t, x.tokens[|x.tokens| - 1].addr);
    NoteParent(t, n, x.req.key, y.parents[P]);
    DescendPath(t, x, y);
    assert FenceOk(t, n);
    if !y.optimistic && n != t.root {
      assert y.parents[y.held] == x.parents[x.held];
    }
  }

  lemma DescendInv(t: Tree, x: Ctx, y: Ctx)
    requires Sound(t) && InsertInv(t, x) && x.state == 2 && x.ready == 1 && x.io == 0
    requires x.busy && !x.waiting && x.req.insert
    requires IsInner(t, x.nodeRef) && Settled(t, x) && x.buffer == t.store[x.nodeRef] && y == Below1(x, t)
    requires Locate(x.buffer.keys, x.req.key) < 0 ==> !x.optimistic
    ensures CtxInv(t, y) && Flow(y)
  {
    DescendGoing(t, x, y);
    forall i | 0 <= i < |y.parents| && i < y.held ensures !y.parents[i].modified {
      if i < |x.parents| { assert y.parents[i] == x.parents[i]; }
    }
  }

  lemma GiveUpCore(s: Sys, c: Cid)
    requires Runs(s, c, 2) && s.ctxs[c].optimistic
    ensures Core(GiveUp(s, c))
  {
    Opened(s, c, 2);
    var x := s.ctxs[c];
    assert CtxOk(GiveUp(s, c), c);
    var s' := OwnStep(s, c, s.ctxs[c].(state := 13, next := 13));
  }

  lemma DescendSafe(s: Sys, c: Cid)
    requires Runs(s, c, 2) && s.ctxs[c].buffer.Inner?
    ensures Safe(s, c) && IsInner(s.t, s.ctxs[c].nodeRef) && Settled(s.t, s.ctxs[c])
    ensures s.ctxs[c].buffer == s.t.store[s.ctxs[c].nodeRef]
  {
    Opened(s, c, 2);
    assert InnerOk(s.t, s.ctxs[c].nodeRef);
  }

  lemma DescendCore(s: Sys, c: Cid)
    requires Runs(s, c, 2) && s.ctxs[c].buffer.Inner?
    ensures Safe(s, c) && Core(Descend(s, c))
  {
    DescendSafe(s, c);
    var x := s.ctxs[c];
    if Locate(x.buffer.keys, x.req.key) < 0 && x.optimistic {
      GiveUpCore(s, c);
    } else {
      DescendOn(s, c, Below1(x, s.t));
    }
  }

  lemma DescendOn(s: Sys, c: Cid, y: Ctx)
    requires Runs(s, c, 2) && IsInner(s.t, s.ctxs[c].nodeRef) && Settled(s.t, s.ctxs[c])
    requires s.ctxs[c].buffer == s.t.store[s.ctxs[c].nodeRef] && y == Below1(s.ctxs[c], s.t)
    requires Locate(s.ctxs[c].buffer.keys, s.ctxs[c].req.key) < 0 ==> !s.ctxs[c].optimistic
    ensures Core(SetCtx(s, c, y))
  {
    Opened(s, c, 2);
    DescendInv(s.t, s.ctxs[c], y);
    var s' := OwnStep(s, c, y);
  }

  // ---------- state 13 ----------

  lemma RetryCore(s: Sys, c: Cid)
    requires Runs(s, c, 13)
    ensures Safe(s, c) && Core(Retry(s, c))
  {
    Opened(s, c, 13);
    var x := s.ctxs[c];
    var x1 := x.(optimistic := false, freeSlot := false, referToRoot := false, nextLeaf := s.t.depth == 1,
                 level := s.t.depth, nodeRef := -1, next := 0, state := 0, held := |x.parents|);
    var y := x1.(tokens := x1.tokens[|x.tokens|..]);
    assert y.tokens == [];
    assert InsertInv(s.t, y);
    var s' := LetGo(s, c, x1, y, |x.tokens|);
  }
}
