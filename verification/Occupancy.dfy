/** Every block below the root is at least half full, in every state of every run. */
module Occupancy {
  import opened Nodes
  import opened TreeState
  import opened TreeWrites
  import opened TreeLinks
  import opened Contexts
  import opened Steps
  import opened Releases
  import opened DescentSteps
  import opened LeafSteps
  import opened RiseSteps
  import opened Scheduler
  import opened Ledger

  function Weight(n: Node): nat {
    if n.Leaf? then |n.entries| else |n.keys|
  }

  /** Every block but an undivided root is at least half full. */
  ghost predicate Stocked(t: Tree, a: Addr) {
    a < |t.store| && !(a == t.root && t.rootSplit == None) ==> Weight(t.store[a]) >= t.cap / 2
  }

  /** ... and an inner root has at least two children. */
  ghost predicate Stocks(t: Tree) {
    && (forall a: Addr {:trigger Stocked(t, a)} :: Stocked(t, a))
    && t.root < |t.store| && (t.store[t.root].Inner? && t.rootSplit == None ==> |t.store[t.root].keys| >= 2)
  }

  /** Block `a` gets no lighter, or is half full. */
  ghost predicate Heavier(t: Tree, t': Tree, a: Addr) {
    a < |t.store| ==>
      && a < |t'.store| && t'.store[a].Leaf? == t.store[a].Leaf?
      && (Weight(t'.store[a]) >= Weight(t.store[a])
          || (Weight(t'.store[a]) >= t.cap / 2 && !(a == t'.root && t'.rootSplit == None)))
  }

  /** A change of the tree that keeps blocks half full. */
  ghost predicate Restocks(t: Tree, t': Tree) {
    && t'.cap == t.cap
    && (forall a: Addr {:trigger Heavier(t, t', a)} :: Heavier(t, t', a))
    && (forall a: Addr {:trigger Stocked(t', a)} :: a >= |t.store| ==> Stocked(t', a))
    && if t'.root == t.root then t'.rootSplit == t.rootSplit || (t'.rootSplit.Some? && Stocked(t', t.root))
       else
         && t.rootSplit.Some? && t.root < |t.store| <= t'.root < |t'.store|
         && Weight(t'.store[t'.root]) == 2 && t'.rootSplit == None
  }

  lemma RestocksKeeps(t: Tree, t': Tree)
    requires Stocks(t) && Restocks(t, t')
    ensures Stocks(t')
  {
    assert Heavier(t, t', t.root);
    forall a: Addr ensures Stocked(t', a) {
      assert Heavier(t, t', a) && Stocked(t, a);
    }
  }

  lemma SameRestocks(t: Tree)
    ensures Restocks(t, t)
  {
  }

  // ---------- each write ----------

  lemma PutRestocks(t: Tree, n: Addr, leaf: Node)
    requires Live(t, n) && t.store[n].Leaf? && leaf.Leaf? && leaf.entries != []
    requires |t.store[n].entries| <= |leaf.entries|
    ensures Restocks(t, PutLeaf(t, n, leaf))
  {
  }

  lemma CutRestocks(t: Tree, n: Addr, left: Node, right: Node, b: Key, up: Option<(Addr, nat)>, t': Tree)
    requires Live(t, n) && |t.fence| == |t.store| && left.Leaf? == t.store[n].Leaf?
    requires (left.Leaf? ==> left.entries != [])
    requires Weight(left) >= t.cap / 2 && Weight(right) >= t.cap / 2
    requires (up == None <==> n == t.root) && t.root < |t.store|
    requires t' == Cut(t, n, left, right, b, up)
    ensures Restocks(t, t')
  {
    forall a: Addr ensures Heavier(t, t', a) { }
  }

  lemma AbsorbRestocks(t: Tree, n: Addr, node: Node)
    requires IsInner(t, n) && node.Inner? && |t.store[n].keys| <= |node.keys|
    ensures Restocks(t, Absorb(t, n, node))
  {
  }

  lemma RaiseRestocks(t: Tree, node: Node)
    requires t.rootSplit.Some? && t.root < |t.store| && node.Inner? && |node.keys| == 2
    ensures Restocks(t, Raise(t, node))
  {
  }

  // ---------- steps that leave the tree alone ----------

  predicate Mute(state: int) {
    state == 0 || state == 10001 || state == 11 || state == 13
  }

  lemma SilentTree(s: Sys, c: Cid)
    requires Safe(s, c) && (s.ctxs[c].req.insert ==> Mute(s.ctxs[c].state))
    ensures Run(s, c).t == s.t
  {
    var x := s.ctxs[c];
    if x.req.insert {
      if x.state == 10001 { EnterTree(s, c); }
      else if x.state == 11 { FinishTree(s, c, []); }
      else if x.state == 13 { RetryTree(s, c); }
    } else {
      if x.state == 1 { SearchFetchTree(s, c); }
      else if x.state == 2 && Answer(x).Some? { FinishTree(s, c, [Report(x.req, Answer(x).value)]); }
    }
  }

  lemma LetTree(s: Sys, c: Cid, y: Ctx, n: nat)
    requires c < |s.ctxs|
    ensures Release(SetCtx(s, c, y), c, n).t == s.t
  {
    ReleaseGrants(SetCtx(s, c, y), c, n);
  }

  lemma EnterTree(s: Sys, c: Cid)
    requires Safe(s, c) && s.ctxs[c].req.insert && s.ctxs[c].state == 10001
    ensures Enter(s, c).t == s.t
  {
    var x := s.ctxs[c];
    var n := |x.tokens|;
    var x1 := x.(referToRoot := false, next := 1, state := 1);
    LetTree(s, c, x.(nodeRef := -1, next := 0, state := 0), n);
    LetTree(s, c, x1.(held := |x.parents|), n - 1);
    if n > 1 { LetTree(s, c, x1.(held := if |x.parents| > 0 then |x.parents| - 1 else 0), n - 2); }
  }

  lemma FinishTree(s: Sys, c: Cid, out: seq<Report>)
    requires c < |s.ctxs| && s.ctxs[c].ready > 0
    ensures Finish(s, c, out).t == s.t
  {
    ReleaseGrants(Retire(s, c, out), c, |s.ctxs[c].tokens|);
  }

  lemma RetryTree(s: Sys, c: Cid)
    requires c < |s.ctxs|
    ensures Retry(s, c).t == s.t
  {
    var x := s.ctxs[c];
    LetTree(s, c, x.(optimistic := false, freeSlot := false, referToRoot := false, nextLeaf := s.t.depth == 1,
                     level := s.t.depth, nodeRef := -1, next := 0, state := 0, held := |x.parents|), |x.tokens|);
  }

  lemma SearchFetchTree(s: Sys, c: Cid)
    requires c < |s.ctxs| && s.ctxs[c].ready > 0 && Live(s.t, s.ctxs[c].nodeRef)
    ensures SearchFetch(s, c).t == s.t
  {
    var x := s.ctxs[c];
    LetTree(s, c, x.(next := 2, buffer := s.t.store[x.nodeRef], io := x.io + 1, ready := x.ready - 1), Surplus(x));
  }

  // ---------- each step ----------

  lemma SplitWeights(es: seq<Entry>, k: Key, v: Val, cap: nat)
    requires 2 <= cap == |es|
    ensures |SplitPut(es, k, v, cap).0| >= cap / 2 && |SplitPut(es, k, v, cap).1| >= cap / 2
  {
  }

  lemma LeafRestocks(s: Sys, c: Cid)
    requires Runs(s, c, 2) && s.ctxs[c].buffer.Leaf? && Safe(s, c)
    ensures Restocks(s.t, InsertLeaf(s, c).t)
  {
    LeafOpened(s, c);
    var x := s.ctxs[c];
    if x.optimistic && |x.buffer.entries| == s.t.cap {
    } else if Found(x.buffer.entries, x.req.key) || |x.buffer.entries| < s.t.cap {
      PutRestocks(s.t, x.nodeRef, Leaf(Put(x.buffer.entries, x.req.key, x.req.val), x.buffer.next));
    } else {
      LeafUp(s.t, x);
      var (l, r) := SplitPut(x.buffer.entries, x.req.key, x.req.val, s.t.cap);
      SplitWeights(x.buffer.entries, x.req.key, x.req.val, s.t.cap);
      CutRestocks(s.t, x.nodeRef, Leaf(l, |s.t.store|), Leaf(r, x.buffer.next), r[0].key, UpOf(s.t, x),
          InsertLeaf(s, c).t);
    }
  }

  lemma SplitUpRestocks(t: Tree, x: Ctx)
    requires SplitsUp(t, x) && x.held < |x.parents|
    ensures Restocks(t, SplitUpTree(t, x))
  {
    var p, i := x.parents[|x.parents| - 1], CutPoint(x, t.cap);
    var node := Linked(t, p.addr, p.node.keys[0]);
    GrandParent(t, x);
    CutRestocks(t, p.addr, LeftPart(node, i), RightPart(node, i), node.keys[i], UpOfParent(t, x), SplitUpTree(t, x));
  }

  lemma FlushRestocks(s: Sys, c: Cid, x: Ctx)
    requires Runs(s, c, 9) && Safe(s, c) && x == s.ctxs[c] && !x.childSplit && Up(s.t, x)
    ensures Restocks(s.t, FlushParent(s, c).t)
  {
    SameRestocks(s.t);
    var ps := DropClean(x.parents);
    if ps != [] {
      var m := |ps| - 1;
      assert ps[m] == x.parents[m];
      ModifiedHeld(x, m);
      ImageFirst(s.t, x, m);
      AbsorbRestocks(s.t, ps[m].addr, ps[m].node);
    }
  }

  lemma LinkedRestocks(t: Tree, x: Ctx, p: Parent)
    requires Up(t, x) && x.childSplit && x.held < |x.parents| && p == x.parents[|x.parents| - 1]
    requires p.node.Inner? && p.pos < |p.node.keys| == |p.node.kids|
    ensures IsInner(t, p.addr) && Restocks(t, Absorb(t, p.addr, LinkNode(x)))
  {
    ImageFirst(t, x, |x.parents| - 1);
    AbsorbRestocks(t, p.addr, LinkNode(x));
  }

  lemma LinkRestocks(s: Sys, c: Cid, x: Ctx, p: Parent)
    requires Runs(s, c, 9) && Safe(s, c) && x == s.ctxs[c] && x.childSplit && Up(s.t, x)
    requires p == x.parents[|x.parents| - 1] && |p.node.keys| < s.t.cap
    ensures Restocks(s.t, LinkChild(s, c).t)
  {
    LinkedRestocks(s.t, x, p);
  }

  lemma SplitRestocks(s: Sys, c: Cid, x: Ctx)
    requires Runs(s, c, 9) && Safe(s, c) && x == s.ctxs[c] && x.childSplit && Up(s.t, x)
    requires |x.parents[|x.parents| - 1].node.keys| == s.t.cap
    ensures Restocks(s.t, SplitParent(s, c).t)
  {
    ImageFirst(s.t, x, |x.parents| - 1);
    SplitUpReady(s.t, x);
    SplitParentIs(s, c);
    SplitUpRestocks(s.t, x);
  }

  lemma RiseRestocks(s: Sys, c: Cid)
    requires Runs(s, c, 9) && Safe(s, c)
    ensures Restocks(s.t, RunInsert(s, c).t)
  {
    UpSafe(s, c);
    var x := s.ctxs[c];
    if !x.childSplit { FlushRestocks(s, c, x); }
    else {
      var p := x.parents[|x.parents| - 1];
      if |p.node.keys| < s.t.cap { LinkRestocks(s, c, x, p); } else { SplitRestocks(s, c, x); }
    }
  }

  lemma GrowRestocks(s: Sys, c: Cid)
    requires Runs(s, c, 12) && Safe(s, c)
    ensures Restocks(s.t, GrowRoot(s, c).t)
  {
    Opened(s, c, 12);
    TreeOf(s);
    var x := s.ctxs[c];
    if x.wbCount + 1 == x.wbTarget { RaiseRestocks(s.t, GrownNode(x)); }
  }

  lemma RunRestocks(s: Sys, c: Cid)
    requires Core(s) && c < |s.ctxs| && s.ctxs[c].ready > 0 && Safe(s, c)
    ensures Restocks(s.t, Run(s, c).t)
  {
    assert Look(s, 0);
    assert CtxOk(s, c);
    var x := s.ctxs[c];
    SameRestocks(s.t);
    if !x.req.insert || Mute(x.state) { SilentTree(s, c); }
    else if x.state == 2 {
      if x.buffer.Leaf? { LeafRestocks(s, c); }
    }
    else if x.state == 9 { RiseRestocks(s, c); }
    else if x.state == 12 { GrowRestocks(s, c); }
  }

  lemma NextRestocks(s: Sys, s': Sys)
    requires Core(s) && Next(s, s')
    ensures Restocks(s.t, s'.t)
  {
    var e :| Enabled(s, e) && s' == After(s, e);
    if e.Ran? { RunRestocks(s, e.c); } else { SameRestocks(s.t); }
  }

  /** In every state of every run every block but an undivided root is at least half full. */
  lemma {:induction false} RunsKeepStocks(tr: seq<Sys>, cap: nat, slots: nat, i: nat)
    requires IsRun(tr, cap, slots) && i < |tr|
    ensures Stocks(tr[i].t)
    decreases i
  {
    if i > 0 {
      var j := i - 1;
      RunsKeepStocks(tr, cap, slots, j);
      RunsKeepCore(tr, cap, slots, j);
      assert Next(tr[j], tr[j + 1]);
      NextRestocks(tr[j], tr[i]);
      RestocksKeeps(tr[j].t, tr[i].t);
    }
  }
}
