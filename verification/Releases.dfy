/** The invariant of the whole system, and why granting and releasing barriers keep it. */
module Releases {
  import opened Nodes
  import opened TreeState
  import opened Contexts
  import opened Invariants
  import opened Exclusion

  ghost predicate CtxOk(s: Sys, c: Cid)
    requires c < |s.ctxs|
  {
    CtxInv(s.t, s.ctxs[c]) && Flow(s.ctxs[c])
  }

  /** Always true: a marker for the verifier. What holds of a state as a whole is stated under it, so that a proof that
      passes through many states unfolds the invariant only of those for which it says `assert Look(s, 0)`. The number
      has no meaning. */
  ghost predicate Look(s: Sys, k: nat) {
    true
  }

  /** Everything but the context `c` that is in the middle of a step. */
  ghost predicate Rest(s: Sys, c: Cid) {
    forall k: nat {:trigger Look(s, k)} :: Look(s, k) ==> Parts(s, c)
  }

  ghost predicate Parts(s: Sys, c: Cid) {
    && Sound(s.t) && Represents(s.t, Apply(s.log))
    && BarriersOk(s)
    && (forall d {:trigger CtxOk(s, d)} :: 0 <= d < |s.ctxs| && d != c ==> CtxOk(s, d))
    && (forall a {:trigger Owned(s, a)} :: Owned(s, a))
  }

  /** The invariant between steps. */
  ghost predicate Core(s: Sys) {
    Rest(s, |s.ctxs|) && AllBlocked(s)
  }

  lemma TreeOf(s: Sys)
    requires Core(s)
    ensures Sound(s.t) && Represents(s.t, Apply(s.log))
  {
    assert Look(s, 0);
  }

  /** What a context in the middle of a step must keep while it gives barriers back. */
  ghost predicate Letting(s: Sys, c: Cid) {
    c < |s.ctxs| && Ladder(s.t, s.ctxs[c]) && Clean(s.t, s.ctxs[c]) && !s.ctxs[c].waiting
  }

  /** A context that may have been granted a barrier, and nothing else. */
  ghost predicate SamePlace(x: Ctx, y: Ctx) {
    && y == x.(tokens := y.tokens, state := y.state, covered := y.covered, atRoot := y.atRoot,
               waiting := y.waiting, ready := y.ready)
    && y.Pc() == x.Pc() && y.ready + (if y.waiting then 1 else 0) == x.ready + (if x.waiting then 1 else 0)
  }

  /** It is as it was, or it waited and has been granted what it waited for. */
  ghost predicate Woken(t: Tree, x: Ctx, y: Ctx) {
    || y == x
    || (x.waiting && x.nodeRef >= 0
        && y == Granted(t, x, x.nodeRef, x.WantsWrite()).(waiting := false, ready := x.ready + 1))
  }

  ghost predicate OthersPlaced(s: Sys, s': Sys, c: Cid) {
    && |s'.ctxs| == |s.ctxs|
    && forall d {:trigger s'.ctxs[d]} :: 0 <= d < |s.ctxs| && d != c ==>
         SamePlace(s.ctxs[d], s'.ctxs[d]) && Woken(s.t, s.ctxs[d], s'.ctxs[d])
  }

  lemma PlacedThen(s: Sys, s1: Sys, s2: Sys, c: Cid)
    requires OthersPlaced(s, s1, c) && OthersPlaced(s1, s2, c) && s1.t == s.t
    ensures OthersPlaced(s, s2, c)
  {
    forall d | 0 <= d < |s.ctxs| && d != c
      ensures SamePlace(s.ctxs[d], s2.ctxs[d]) && Woken(s.t, s.ctxs[d], s2.ctxs[d])
    {
      assert SamePlace(s.ctxs[d], s1.ctxs[d]) && SamePlace(s1.ctxs[d], s2.ctxs[d]);
    }
  }

  // ---------- a granted context ----------

  lemma GrantLadder(t: Tree, x: Ctx, a: Addr, write: bool)
    requires Ladder(t, x) && AllAbove(t, x, a) && Clean(t, x) && Quiet(t, a)
    ensures Ladder(t, Granted(t, x, a, write)) && Clean(t, Granted(t, x, a, write))
    ensures Token(a, write) !in x.tokens && Token(a, !write) !in x.tokens
  {
    var x' := Granted(t, x, a, write);
    forall i | 0 <= i < |x'.tokens| ensures Live(t, x'.tokens[i].addr) && Quiet(t, x'.tokens[i].addr) {
      if i < |x.tokens| { assert x'.tokens[i] == x.tokens[i]; }
    }
    forall i | 0 <= i < |x.tokens| ensures x.tokens[i].addr != a {
    }
  }

  lemma GrantPath(t: Tree, x: Ctx, x': Ctx, k: Token)
    requires Path(t, x, 0) && x'.tokens == x.tokens + [k]
    requires x'.held == x.held && x'.parents == x.parents && x'.optimistic == x.optimistic
    requires x'.req == x.req && x'.boundary == x.boundary
    ensures Path(t, x', 1)
  {
    forall i | x.held <= i < |x.parents| ensures HeldDown(t, x', i) {
      assert HeldDown(t, x, i);
    }
  }

  /** A waiting insertion that gets its barrier. */
  lemma GrantInsert(t: Tree, x: Ctx, a: Addr, x': Ctx)
    requires InsertInv(t, x) && x.waiting && x.ready == 0 && x.next == 10001 && x.nodeRef == a && Quiet(t, a)
    requires x' == Granted(t, x, a, x.WantsWrite()).(waiting := false, ready := 1)
    ensures InsertInv(t, x') && Token(a, x.WantsWrite()) !in x.tokens
  {
    assert Phase(t, x, 10001) && Entering(t, x);
    GrantLadder(t, x, a, x.WantsWrite());
    assert Unheld(x');
    GrantPath(t, x, x', Token(a, x.WantsWrite()));
    assert Entering(t, x');
  }

  /** A waiting search that gets its barrier. */
  lemma GrantSearch(t: Tree, x: Ctx, a: Addr, x': Ctx)
    requires RootOk(t) && SearchInv(t, x) && x.waiting && x.ready == 0 && x.next == 1 && x.nodeRef == a && Quiet(t, a)
    requires x' == Granted(t, x, a, false).(waiting := false, ready := 1)
    ensures SearchInv(t, x') && Token(a, false) !in x.tokens
  {
    GrantLadder(t, x, a, false);
    assert Reading(x') by {
      forall i | 0 <= i < |x'.tokens| ensures !x'.tokens[i].write {
        if i < |x.tokens| { assert x'.tokens[i] == x.tokens[i]; }
      }
    }
  }

  lemma GrantCtx(t: Tree, x: Ctx, a: Addr, x': Ctx)
    requires RootOk(t) && CtxInv(t, x) && Flow(x) && x.busy && x.waiting && x.nodeRef == a && Quiet(t, a)
    requires x' == Granted(t, x, a, x.WantsWrite()).(waiting := false, ready := 1)
    ensures CtxInv(t, x') && Flow(x') && Token(a, x.WantsWrite()) !in x.tokens
  {
    if x.req.insert { GrantInsert(t, x, a, x'); } else { GrantSearch(t, x, a, x'); }
  }

  // ---------- offering ----------

  lemma FireRest(s: Sys, a: Addr, c: Cid)
    requires Rest(s, c) && Offerable(s, a) && c <= |s.ctxs|
    requires c < |s.ctxs| ==> !s.ctxs[c].waiting
    ensures var s' := Fire(s, a);
            && Rest(s', c) && s'.t == s.t && OthersPlaced(s, s', c)
            && (c < |s.ctxs| ==> s'.ctxs[c] == s.ctxs[c])
            && (BlockedBut(s, a) ==> BlockedBut(s', a))
  {
    assert Look(s, 0);
    var d := Bar(s, a).queue[0].cid;
    FireCtx(s, a, c, d, Fire(s, a).ctxs[d]);
    FireKeeps(s, a);
    FireParts(s, a, c, d, Fire(s, a));
  }

  lemma FireCtx(s: Sys, a: Addr, c: Cid, d: Cid, y: Ctx)
    requires Parts(s, c) && Offerable(s, a) && d == Bar(s, a).queue[0].cid && y == Fire(s, a).ctxs[d]
    requires c < |s.ctxs| ==> !s.ctxs[c].waiting
    ensures CtxInv(s.t, y) && Flow(y) && d != c && SamePlace(s.ctxs[d], y) && Woken(s.t, s.ctxs[d], y)
    ensures Token(a, Bar(s, a).queue[0].write) !in s.ctxs[d].tokens
  {
    assert QueueOk(s, a) && WaitOk(s, a, Bar(s, a).queue[0]);
    assert CtxOk(s, d) && Owned(s, a);
    GrantCtx(s.t, s.ctxs[d], a, y);
  }

  lemma FireParts(s: Sys, a: Addr, c: Cid, d: Cid, s': Sys)
    requires Parts(s, c) && Offerable(s, a) && s' == Fire(s, a) && d == Bar(s, a).queue[0].cid && BarriersOk(s')
    requires CtxOk(s', d)
    ensures Rest(s', c)
  {
    forall e | 0 <= e < |s'.ctxs| && e != c ensures CtxOk(s', e) {
      if e != d { assert CtxOk(s, e); }
    }
    forall b ensures Owned(s', b) { assert Owned(s, b); }
  }

  /** Offering a barrier grants its queue as far as possible and keeps everything else. */
  lemma {:induction false} OfferRest(s: Sys, a: Addr, c: Cid)
    requires Rest(s, c) && c <= |s.ctxs| && BlockedBut(s, a)
    requires c < |s.ctxs| ==> !s.ctxs[c].waiting
    ensures var s' := Offer(s, a);
            && Rest(s', c) && AllBlocked(s') && s'.t == s.t && OthersPlaced(s, s', c)
            && (c < |s.ctxs| ==> s'.ctxs[c] == s.ctxs[c])
            && s' == s.(bars := s'.bars, ctxs := s'.ctxs)
    decreases |Bar(s, a).queue|
  {
    assert Look(s, 0);
    if Offerable(s, a) {
      FireRest(s, a, c);
      OfferRest(Fire(s, a), a, c);
      PlacedThen(s, Fire(s, a), Offer(Fire(s, a), a), c);
    } else {
      forall b ensures Blocked(s, b) {
        if b == a && Bar(s, a).queue != [] {
          assert QueueOk(s, a) && WaitOk(s, a, Bar(s, a).queue[0]);
        }
      }
    }
  }

  // ---------- releasing ----------

  lemma DropLetting(t: Tree, x: Ctx, i: nat)
    requires Ladder(t, x) && Clean(t, x) && i < |x.tokens|
    ensures var x' := x.(tokens := x.tokens[..i] + x.tokens[i + 1..]); Ladder(t, x') && Clean(t, x')
  {
    var x' := x.(tokens := x.tokens[..i] + x.tokens[i + 1..]);
    forall j | 0 <= j < |x'.tokens|
      ensures Live(t, x'.tokens[j].addr) && Quiet(t, x'.tokens[j].addr)
    {
      assert x'.tokens[j] == x.tokens[if j < i then j else j + 1];
    }
    forall j, m | 0 <= j < m < |x'.tokens|
      ensures t.fence[x'.tokens[j].addr].level > t.fence[x'.tokens[m].addr].level
    {
      assert x'.tokens[j] == x.tokens[if j < i then j else j + 1];
      assert x'.tokens[m] == x.tokens[if m < i then m else m + 1];
    }
  }

  lemma DropRest(s: Sys, c: Cid, i: nat)
    requires Rest(s, c) && Letting(s, c) && AllBlocked(s) && i < |s.ctxs[c].tokens|
    ensures var s' := Drop(s, c, i);
            Rest(s', c) && Letting(s', c) && BlockedBut(s', s.ctxs[c].tokens[i].addr)
  {
    assert Look(s, 0);
    var s' := Drop(s, c, i);
    var k := s.ctxs[c].tokens[i];
    DropKeeps(s, c, i, s.t);
    DropLetting(s.t, s.ctxs[c], i);
    assert Quiet(s.t, k.addr);
    forall d | 0 <= d < |s'.ctxs| && d != c ensures CtxOk(s', d) { assert CtxOk(s, d); }
    forall a ensures Owned(s', a) { assert Owned(s, a); }
  }

  /** Releasing the first `n` tokens keeps everything but those tokens. */
  lemma {:induction false} ReleaseRest(s: Sys, c: Cid, n: nat) returns (s': Sys)
    requires Rest(s, c) && Letting(s, c) && AllBlocked(s) && n <= |s.ctxs[c].tokens|
    ensures s' == Release(s, c, n)
    ensures Rest(s', c) && AllBlocked(s') && s'.t == s.t && OthersPlaced(s, s', c)
    ensures s'.ctxs[c] == s.ctxs[c].(tokens := s.ctxs[c].tokens[n..])
    ensures s' == s.(bars := s'.bars, ctxs := s'.ctxs)
    decreases n
  {
    if n > 0 {
      var s1, s2 := ReleaseOne(s, c, n);
      s' := ReleaseRest(s2, c, n - 1);
      PlacedThen(s, s2, s', c);
    } else {
      s' := s;
      assert s.ctxs[c].tokens[0..] == s.ctxs[c].tokens;
    }
  }

  /** Giving back one token and offering its barrier. */
  lemma ReleaseOne(s: Sys, c: Cid, n: nat) returns (s1: Sys, s2: Sys)
    requires Rest(s, c) && Letting(s, c) && AllBlocked(s) && 0 < n <= |s.ctxs[c].tokens|
    ensures s1 == Drop(s, c, n - 1) && s2 == Offer(s1, s.ctxs[c].tokens[n - 1].addr)
    ensures Rest(s2, c) && Letting(s2, c) && AllBlocked(s2) && s2.t == s.t && OthersPlaced(s, s2, c)
    ensures s2.ctxs[c] == s.ctxs[c].(tokens := s2.ctxs[c].tokens)
    ensures n - 1 <= |s2.ctxs[c].tokens| && s2.ctxs[c].tokens[n - 1..] == s.ctxs[c].tokens[n..]
    ensures s2 == s.(bars := s2.bars, ctxs := s2.ctxs)
  {
    s1 := Drop(s, c, n - 1);
    DropRest(s, c, n - 1);
    OfferRest(s1, s.ctxs[c].tokens[n - 1].addr, c);
    s2 := Offer(s1, s.ctxs[c].tokens[n - 1].addr);
    assert s1.ctxs[c].tokens[n - 1..] == s.ctxs[c].tokens[n..];
  }
}
