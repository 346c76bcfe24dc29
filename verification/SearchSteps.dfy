/** Searches: every step of a search keeps the invariant, and what a search reports. */
module SearchSteps {
  import opened Nodes
  import opened TreeState
  import opened Contexts
  import opened Steps
  import opened Invariants
  import opened Exclusion
  import opened Releases
  import opened LocalSteps
  import opened DescentSteps
  import opened RiseSteps

  ghost predicate Seeks(s: Sys, c: Cid, state: int) {
    && Core(s) && c < |s.ctxs|
    && s.ctxs[c].busy && s.ctxs[c].ready > 0 && !s.ctxs[c].req.insert && s.ctxs[c].state == state
  }

  lemma SeekOpened(s: Sys, c: Cid, state: int)
    requires Seeks(s, c, state)
    ensures var x := s.ctxs[c];
            && SearchInv(s.t, x) && Flow(x) && !x.waiting && x.ready == 1 && x.io == 0
            && 2 <= s.t.cap && |s.t.fence| == |s.t.store| && Sound(s.t)
  {
    assert Look(s, 0);
    assert CtxOk(s, c);
  }

  lemma SeekSafe(s: Sys, c: Cid)
    requires c < |s.ctxs| && Seeks(s, c, s.ctxs[c].state)
    ensures Safe(s, c)
  {
    var x := s.ctxs[c];
    SeekOpened(s, c, x.state);
    if x.state == 2 && x.buffer.Inner? { assert InnerOk(s.t, x.nodeRef); }
  }

  lemma SearchVisitCore(s: Sys, c: Cid)
    requires Seeks(s, c, 0) && Live(s.t, s.ctxs[c].nodeRef)
    ensures Core(SearchVisit(s, c))
  {
    SeekOpened(s, c, 0);
    var x := s.ctxs[c].(next := 1);
    var w := x.(waiting := true, ready := 0);
    assert SearchInv(s.t, w);
    var s' := AcquireCore(s, c, x, w, x.nodeRef);
  }

  lemma FetchInv(t: Tree, x: Ctx, y: Ctx, n: nat)
    requires n == Surplus(x)
    requires SearchInv(t, x) && x.busy && !x.req.insert && x.state == 1 && x.ready == 1
    requires x.io == 0 && !x.waiting && Live(t, x.nodeRef)
    requires y == x.(next := 2, buffer := t.store[x.nodeRef], io := x.io + 1, ready := x.ready - 1,
               tokens := x.tokens[n..])
    ensures CtxInv(t, y) && Flow(y)
  {
    SuffixLadder(t, x, y, n);
    forall i | 0 <= i < |y.tokens| ensures !y.tokens[i].write {
      assert y.tokens[i] == x.tokens[n + i];
    }
  }

  lemma SearchFetchLets(s: Sys, c: Cid, x1: Ctx, y: Ctx, n: nat) returns (s': Sys)
    requires Core(s) && c < |s.ctxs| && SameClaims(s.ctxs[c], x1) && n <= |x1.tokens|
    requires Ladder(s.t, s.ctxs[c]) && Clean(s.t, s.ctxs[c]) && y == x1.(tokens := x1.tokens[n..])
    requires CtxInv(s.t, y) && Flow(y)
    ensures s' == Release(SetCtx(s, c, x1), c, n) && Core(s')
  {
    s' := LetGo(s, c, x1, y, n);
  }

  lemma SearchFetchParts(s: Sys, c: Cid, x: Ctx, x1: Ctx, y: Ctx)
    requires Seeks(s, c, 1) && x == s.ctxs[c] && Live(s.t, x.nodeRef)
    requires x1 == x.(next := 2, buffer := s.t.store[x.nodeRef], io := x.io + 1, ready := x.ready - 1)
    requires Surplus(x) <= |x1.tokens| && y == x1.(tokens := x1.tokens[Surplus(x)..])
    ensures SameClaims(x, x1) && Ladder(s.t, x) && Clean(s.t, x) && CtxInv(s.t, y) && Flow(y)
  {
    SeekOpened(s, c, 1);
    FetchInv(s.t, x, y, Surplus(x));
  }

  lemma SearchFetchCore(s: Sys, c: Cid)
    requires Seeks(s, c, 1) && Live(s.t, s.ctxs[c].nodeRef)
    ensures Core(SearchFetch(s, c))
  {
    var x := s.ctxs[c];
    var x1 := x.(next := 2, buffer := s.t.store[x.nodeRef], io := x.io + 1, ready := x.ready - 1);
    var y := x1.(tokens := x1.tokens[Surplus(x)..]);
    SearchFetchParts(s, c, x, x1, y);
    var s' := SearchFetchLets(s, c, x1, y, Surplus(x));
    assert s' == SearchFetch(s, c);
  }

  /** The child a search goes on to tracks the key as the node did. */
  lemma ChildTracks(t: Tree, x: Ctx)
    requires Sound(t) && SearchInv(t, x) && x.ready == 1 && x.state == 2 && !x.waiting && IsInner(t, x.nodeRef)
    requires Locate(x.buffer.keys, x.req.key) >= 0
    ensures x.buffer == t.store[x.nodeRef] && Tracks(t, x, x.nodeRef)
    ensures var m := x.buffer.kids[Locate(x.buffer.keys, x.req.key)];
            Tracks(t, x, m) && t.fence[m].level + 1 == t.fence[x.nodeRef].level
  {
    var i := Locate(x.buffer.keys, x.req.key);
    assert Quiet(t, x.tokens[0].addr);
    assert InnerOk(t, x.nodeRef) && KidOk(t, x.nodeRef, i) && FenceOk(t, x.nodeRef);
  }

  lemma SearchOn(s: Sys, c: Cid, y: Ctx)
    requires Seeks(s, c, 2) && s.ctxs[c].buffer.Inner? && IsInner(s.t, s.ctxs[c].nodeRef)
    requires Locate(s.ctxs[c].buffer.keys, s.ctxs[c].req.key) >= 0 && |s.ctxs[c].buffer.keys| == |s.ctxs[c].buffer.kids|
    requires y == s.ctxs[c].(nodeRef := s.ctxs[c].buffer.kids[Locate(s.ctxs[c].buffer.keys, s.ctxs[c].req.key)],
               next := 0, state := 0)
    ensures Core(SetCtx(s, c, y))
  {
    SeekOpened(s, c, 2);
    ChildTracks(s.t, s.ctxs[c]);
    assert SearchInv(s.t, y);
    var s' := OwnStep(s, c, y);
  }

  lemma SearchReadCore(s: Sys, c: Cid)
    requires Seeks(s, c, 2) && Safe(s, c)
    ensures Core(SearchRead(s, c))
  {
    SeekOpened(s, c, 2);
    var x := s.ctxs[c];
    if Answer(x).Some? {
      FinishCore(s, c, [Report(x.req, Answer(x).value)]);
    } else {
      assert InnerOk(s.t, x.nodeRef);
      SearchOn(s, c, x.(nodeRef := x.buffer.kids[Locate(x.buffer.keys, x.req.key)], next := 0, state := 0));
    }
  }

  lemma RunSearchCore(s: Sys, c: Cid)
    requires c < |s.ctxs| && Seeks(s, c, s.ctxs[c].state)
    ensures Safe(s, c) && Core(RunSearch(s, c))
  {
    SeekSafe(s, c);
    var x := s.ctxs[c];
    if x.state == 0 { SearchVisitCore(s, c); }
    else if x.state == 1 { SearchFetchCore(s, c); }
    else { SearchReadCore(s, c); }
  }

  // ---------- the answer ----------

  /** A key outside the interval of a leaf, or below the least key, is not in it. */
  lemma OutsideLeaf(t: Tree, n: Addr, k: Key)
    requires Sound(t) && IsLeaf(t, n) && !InFence(t, n, k)
    ensures Lookup(t.store[n].entries, k) == None
  {
    assert LeafOk(t, n);
    LookupMiss(t.store[n].entries, k);
  }

  /** No key below the least key is in the map. */
  lemma BelowLeast(t: Tree, m: map<Key, Val>, k: Key, n: Addr)
    requires Sound(t) && Represents(t, m) && IsLeaf(t, n) && InFence(t, n, k) && k < t.least
    ensures Get(m, k) == None
  {
    assert LeafOk(t, n) && FenceOk(t, n);
    forall i | 0 <= i < |t.store[n].entries| ensures t.store[n].entries[i].key != k {
      assert t.fence[n].lo.NegInf?;
      assert t.store[n].entries[0].key == t.least;
    }
    LookupMiss(t.store[n].entries, k);
  }

  /** Some leaf is responsible for every key. */
  lemma {:induction false} LeafFor(t: Tree, a: Addr, k: Key) returns (n: Addr)
    requires Sound(t) && Live(t, a) && InFence(t, a, k)
    ensures IsLeaf(t, n) && InFence(t, n, k)
    decreases t.fence[a].level
  {
    assert FenceOk(t, a);
    if t.store[a].Leaf? {
      n := a;
    } else {
      assert InnerOk(t, a);
      var b := ChildFor(t, a, k);
      n := LeafFor(t, b, k);
    }
  }

  /** Some child, or the pending right half of one, is responsible for a key of the node. */
  lemma ChildFor(t: Tree, a: Addr, k: Key) returns (b: Addr)
    requires Sound(t) && IsInner(t, a) && InFence(t, a, k)
    ensures Live(t, b) && InFence(t, b, k) && t.fence[b].level + 1 == t.fence[a].level
  {
    var i := Locate(t.store[a].keys, k);
    var j := if i < 0 then 0 else i;
    assert InnerOk(t, a) && FenceOk(t, a) && KidOk(t, a, j);
    b := t.store[a].kids[j];
    if a in t.pend && t.pend[a].pos == j {
      assert PendOk(t, a);
      if k >= t.pend[a].key { b := t.pend[a].right; }
    }
  }

  lemma NoKeyBelowLeast(t: Tree, m: map<Key, Val>, k: Key)
    requires Sound(t) && Represents(t, m) && k < t.least
    ensures Get(m, k) == None
  {
    var top := t.root;
    if t.rootSplit.Some? && t.rootSplit.value.key <= k { top := t.rootSplit.value.right; }
    var n := LeafFor(t, top, k);
    BelowLeast(t, m, k, n);
  }

  /** The answer of a search in state 2, exactly: the answer of the map if its key was below the upper fence of the
      node it started from when it got its first barrier, and "not found" otherwise. */
  lemma AnswerIs(t: Tree, m: map<Key, Val>, x: Ctx)
    requires Sound(t) && Represents(t, m) && SearchInv(t, x) && x.Pc() == 2
    requires x.buffer.Inner? ==> 0 < |x.buffer.keys| == |x.buffer.kids|
    ensures Answer(x).Some? ==> Answer(x).value == if x.covered then Get(m, x.req.key) else None
  {
    var n := x.nodeRef;
    assert Quiet(t, x.tokens[0].addr);
    if x.buffer.Leaf? {
      if !x.covered { OutsideLeaf(t, n, x.req.key); }
    } else if Answer(x).Some? {
      assert InnerOk(t, n) && FenceOk(t, n);
      NoKeyBelowLeast(t, m, x.req.key);
    }
  }
}
