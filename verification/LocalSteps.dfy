/** Steps that change a context and the tree under its own barriers, or ask for a barrier. */
module LocalSteps {
  import opened Nodes
  import opened TreeState
  import opened Contexts
  import opened Invariants
  import opened Frames
  import opened Exclusion
  import opened Releases

  /** The nodes a context holds for writing. */
  ghost function WriteHeld(x: Ctx): set<Addr> {
    set i | 0 <= i < |x.tokens| && x.tokens[i].write :: x.tokens[i].addr
  }

  lemma OthersOutside(s: Sys, c: Cid, d: Cid)
    requires BarriersOk(s) && c < |s.ctxs| && d < |s.ctxs| && c != d
    ensures Outside(s.ctxs[d], WriteHeld(s.ctxs[c]))
  {
    var x, y := s.ctxs[c], s.ctxs[d];
    forall i | 0 <= i < |y.tokens| ensures y.tokens[i].addr !in WriteHeld(x) {
      var a := y.tokens[i].addr;
      if a in WriteHeld(x) {
        var j :| 0 <= j < |x.tokens| && x.tokens[j].write && x.tokens[j].addr == a;
        assert x.tokens[j] == Token(a, true) && y.tokens[i] == Token(a, y.tokens[i].write);
        assert BarOk(s, a);
        Exclusive(s, a, c, d, y.tokens[i].write);
      }
    }
  }

  ghost predicate Replaces(s: Sys, s': Sys, c: Cid) {
    && c < |s.ctxs| == |s'.ctxs| && s'.bars == s.bars
    && forall d :: 0 <= d < |s.ctxs| && d != c ==> s'.ctxs[d] == s.ctxs[d]
  }

  ghost predicate FreshQuiet(t: Tree, t': Tree) {
    forall a {:trigger Quiet(t', a)} :: a >= |t.store| ==> Quiet(t', a)
  }

  lemma OwnedKeeps(s: Sys, s': Sys, c: Cid, a: Addr)
    requires Rest(s, |s.ctxs|) && Replaces(s, s', c)
    requires TreeStep(s.t, s'.t, WriteHeld(s.ctxs[c])) && FreshQuiet(s.t, s'.t)
    ensures Owned(s', a)
  {
    assert Look(s, 0);
    assert Owned(s, a);
    if !Quiet(s'.t, a) {
      assert a < |s.t.store|;
      if a in WriteHeld(s.ctxs[c]) {
        var j :| 0 <= j < |s.ctxs[c].tokens| && s.ctxs[c].tokens[j].write && s.ctxs[c].tokens[j].addr == a;
        assert s.ctxs[c].tokens[j] == Token(a, true);
        assert BarOk(s, a);
        HolderCount(s, a, c, true);
      } else {
        FrameQuiet(s.t, s'.t, WriteHeld(s.ctxs[c]), a);
      }
    }
  }

  /** A step that keeps its tokens and changes the tree only where it holds write barriers. */
  lemma LocalRest(s: Sys, s': Sys, c: Cid)
    requires Core(s) && Replaces(s, s', c) && SameClaims(s.ctxs[c], s'.ctxs[c])
    requires TreeStep(s.t, s'.t, WriteHeld(s.ctxs[c])) && FreshQuiet(s.t, s'.t)
    requires Sound(s'.t) && Represents(s'.t, Apply(s'.log))
    ensures Rest(s', c) && AllBlocked(s')
  {
    assert Look(s, 0);
    UpdateKeeps(s, s', c);
    forall d | 0 <= d < |s'.ctxs| && d != c ensures CtxOk(s', d) {
      assert CtxOk(s, d);
      OthersOutside(s, c, d);
      FrameCtx(s.t, s'.t, WriteHeld(s.ctxs[c]), s.ctxs[d]);
    }
    forall a ensures Owned(s', a) { OwnedKeeps(s, s', c, a); }
    forall a ensures Blocked(s', a) { assert Blocked(s, a); }
  }

  lemma LocalCore(s: Sys, s': Sys, c: Cid)
    requires Core(s) && Replaces(s, s', c) && SameClaims(s.ctxs[c], s'.ctxs[c])
    requires TreeStep(s.t, s'.t, WriteHeld(s.ctxs[c])) && FreshQuiet(s.t, s'.t)
    requires Sound(s'.t) && Represents(s'.t, Apply(s'.log))
    requires CtxOk(s', c)
    ensures Core(s')
  {
    LocalRest(s, s', c);
    Whole(s', c);
  }

  lemma LocalStep(s: Sys, c: Cid, y: Ctx, t: Tree, log: seq<Write>) returns (s': Sys)
    requires Core(s) && c < |s.ctxs| && SameClaims(s.ctxs[c], y)
    requires TreeStep(s.t, t, WriteHeld(s.ctxs[c])) && FreshQuiet(s.t, t)
    requires Sound(t) && Represents(t, Apply(log)) && CtxInv(t, y) && Flow(y)
    ensures s' == SetCtx(s, c, y).(t := t, log := log) && Core(s')
  {
    s' := SetCtx(s, c, y).(t := t, log := log);
    LocalCore(s, s', c);
  }

  lemma Whole(s: Sys, c: Cid)
    requires Rest(s, c) && AllBlocked(s) && c < |s.ctxs| && CtxOk(s, c)
    ensures Core(s)
  {
  }

  lemma SameTree(t: Tree, w: set<Addr>)
    requires |t.fence| == |t.store|
    ensures TreeStep(t, t, w)
  {
    forall a | 0 <= a < |t.store| ensures Kept(t, t, w, a) {
    }
  }

  lemma NothingFresh(t: Tree)
    requires Sound(t)
    ensures FreshQuiet(t, t)
  {
    forall a | a >= |t.store| ensures Quiet(t, a) {
      assert a in t.pend ==> PendOk(t, a);
    }
  }

  /** A step that changes only its own context. */
  lemma OwnCore(s: Sys, s': Sys, c: Cid)
    requires Core(s) && Replaces(s, s', c) && SameClaims(s.ctxs[c], s'.ctxs[c])
    requires s'.t == s.t && s'.log == s.log
    ensures Rest(s', c) && AllBlocked(s')
    ensures CtxOk(s', c) ==> Core(s')
  {
    assert Look(s, 0);
    SameTree(s.t, WriteHeld(s.ctxs[c]));
    NothingFresh(s.t);
    LocalRest(s, s', c);
    if CtxOk(s', c) { Whole(s', c); }
  }

  /** A step that replaces its own context by a sound one. */
  lemma OwnStep(s: Sys, c: Cid, y: Ctx) returns (s': Sys)
    requires Core(s) && c < |s.ctxs| && SameClaims(s.ctxs[c], y) && CtxInv(s.t, y) && Flow(y)
    ensures s' == SetCtx(s, c, y) && Core(s')
  {
    s' := SetCtx(s, c, y);
    OwnCore(s, s', c);
  }

  lemma OthersSame(s: Sys, s': Sys, c: Cid)
    requires Core(s) && c < |s.ctxs| == |s'.ctxs| && s'.t == s.t && s'.log == s.log
    requires forall d :: 0 <= d < |s.ctxs| && d != c ==> s'.ctxs[d] == s.ctxs[d]
    requires forall b {:trigger Bar(s', b)} :: Bar(s', b).writers >= Bar(s, b).writers
    requires BarriersOk(s') && AllBlocked(s') && CtxOk(s', c)
    ensures Core(s')
  {
    assert Look(s, 0);
    forall d | 0 <= d < |s'.ctxs| ensures CtxOk(s', d) {
      if d != c { assert CtxOk(s, d); }
    }
    forall b ensures Owned(s', b) { assert Owned(s, b); }
  }

  lemma SelfGrant(t: Tree, x: Ctx, w: Ctx, a: Addr, x': Ctx)
    requires x.busy && x.ready == 1 && x.nodeRef == a && !x.waiting && w == x.(waiting := true, ready := 0)
    requires RootOk(t) && CtxInv(t, w) && Flow(w) && Quiet(t, a)
    requires x' == Granted(t, x, a, x.WantsWrite())
    ensures CtxInv(t, x') && Flow(x') && Token(a, x.WantsWrite()) !in x.tokens
  {
    assert x' == Granted(t, w, a, w.WantsWrite()).(waiting := false, ready := 1);
    GrantCtx(t, w, a, x');
  }

  lemma AcquireSelf(s: Sys, c: Cid, x: Ctx, w: Ctx, a: Addr)
    requires c < |s.ctxs| && Owned(s, a)
    requires x.busy && x.ready == 1 && x.nodeRef == a && !x.waiting && w == x.(waiting := true, ready := 0)
    requires RootOk(s.t) && CtxInv(s.t, w) && Flow(w)
    ensures CtxOk(Acquire(s, c, x, a, x.WantsWrite()), c)
    ensures Grantable(Bar(s, a), x.WantsWrite()) ==> Token(a, x.WantsWrite()) !in x.tokens
  {
    if Grantable(Bar(s, a), x.WantsWrite()) {
      SelfGrant(s.t, x, w, a, Granted(s.t, x, a, x.WantsWrite()));
    }
  }

  lemma AcquireBars(s: Sys, c: Cid, x: Ctx, a: Addr)
    requires BarriersOk(s) && AllBlocked(s) && c < |s.ctxs| && SameClaims(s.ctxs[c], x)
    requires x.busy && x.ready == 1 && x.nodeRef == a
    requires Grantable(Bar(s, a), x.WantsWrite()) ==> Token(a, x.WantsWrite()) !in x.tokens
    ensures var s' := Acquire(s, c, x, a, x.WantsWrite());
            && BarriersOk(s') && AllBlocked(s')
            && forall b {:trigger Bar(s', b)} :: Bar(s', b).writers >= Bar(s, b).writers
  {
    if Grantable(Bar(s, a), x.WantsWrite()) {
      AcquireGrantKeeps(s, c, x, a, x.WantsWrite());
    } else {
      AcquireWaitKeeps(s, c, x, a, x.WantsWrite());
    }
  }

  /** Asking for a barrier: `x` would be a sound waiting context `w`, so it is one or is granted at once. */
  lemma AcquireCore(s: Sys, c: Cid, x: Ctx, w: Ctx, a: Addr) returns (s': Sys)
    requires Core(s) && c < |s.ctxs| && SameClaims(s.ctxs[c], x)
    requires x.busy && x.ready == 1 && x.nodeRef == a && w == x.(waiting := true, ready := 0)
    requires CtxInv(s.t, w) && Flow(w)
    ensures s' == Acquire(s, c, x, a, x.WantsWrite()) && Core(s')
  {
    s' := Acquire(s, c, x, a, x.WantsWrite());
    assert Look(s, 0);
    assert Owned(s, a);
    AcquireSelf(s, c, x, w, a);
    AcquireBars(s, c, x, a);
    OthersSame(s, s', c);
  }
}
