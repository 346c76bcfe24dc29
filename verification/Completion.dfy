/** Without new requests every run ends, whatever the order of events, and then every request has completed. */
module Completion {
  import opened Nodes
  import opened TreeState
  import opened TreeWrites
  import opened Contexts
  import opened Steps
  import opened Invariants
  import opened Exclusion
  import opened Releases
  import opened LocalSteps
  import opened DescentSteps
  import opened SearchSteps
  import opened Scheduler
  import opened Ledger
  import opened Guarantees

  // ---------- the work left to a context ----------

  /** An optimistic attempt may have to be made again from the root. */
  function Again(t: Tree, x: Ctx): nat {
    if x.optimistic then 7 * t.depth + 10 else 0
  }

  function Levels(x: Ctx): nat {
    if x.level > 0 then x.level else 0
  }

  /** How far an insertion is from its end: levels to go down, parents to go back to, and a new start from the root if
      it waits for a node that is the root no more. */
  function InsertAhead(t: Tree, x: Ctx, pc: int): nat {
    var m, d := 3 * |x.parents|, 7 * t.depth;
    if pc == 11 then 0
    else if pc == 12 then 1
    else if pc == 9 then m + 2
    else if pc == 10 then m + 3
    else if pc == 13 then m + d + 16
    else if pc == 0 && x.nodeRef == -1 then Again(t, x) + m + d + 14
    else if pc == 10001 && x.referToRoot && x.nodeRef != t.root then Again(t, x) + m + d + 15
    else
      Again(t, x) + m + 7 * Levels(x)
      + (if pc == 0 then 13 else if pc == 10001 then 12 else if pc == 1 then 11 else 10)
  }

  function SearchAhead(t: Tree, x: Ctx, pc: int): nat {
    (if 0 <= x.nodeRef < |t.fence| then 7 * t.fence[x.nodeRef].level else 0)
        + (if pc == 0 then 3 else if pc == 1 then 2 else 1)
  }

  /** Every I/O outstanding and every wait counts, and every state ahead for more than what it submits. */
  function Work(t: Tree, x: Ctx): nat {
    if !x.busy then 0
    else
      4 * (if x.req.insert then InsertAhead(t, x, x.Pc()) else SearchAhead(t, x, x.Pc()))
      + 2 * x.io + x.ready + (if x.waiting then 1 else 0)
  }

  /** An insertion that may still split the root. */
  predicate Growing(x: Ctx) {
    x.busy && x.req.insert && x.Pc() != 11
  }

  /** The tree keeps its root, its height and the level of every node. */
  ghost predicate SameLevels(t: Tree, t': Tree) {
    && t'.root == t.root && t'.depth == t.depth && |t.fence| <= |t'.fence|
    && forall a {:trigger t'.fence[a]} :: 0 <= a < |t.fence| ==> t'.fence[a].level == t.fence[a].level
  }

  lemma SameWork(t: Tree, x: Ctx, t': Tree, y: Ctx)
    requires SameLevels(t, t') && SamePlace(x, y) && (x.busy && !x.req.insert ==> 0 <= x.nodeRef < |t.fence|)
    ensures Work(t', y) == Work(t, x)
  {
  }

  lemma SameGrowing(x: Ctx, y: Ctx)
    requires SamePlace(x, y)
    ensures Growing(y) == Growing(x)
  {
  }

  // ---------- every step spends work ----------

  /** The work of the stepping context falls, or it can split the root no more. */
  predicate Spent(t: Tree, x: Ctx, t': Tree, y: Ctx) {
    if Growing(x) && !Growing(y) then true else Growing(y) == Growing(x) && Work(t', y) < Work(t, x)
  }

  ghost predicate Spends(s: Sys, c: Cid, s': Sys)
    requires c < |s.ctxs|
  {
    && OthersPlaced(s, s', c) && s'.submitting == s.submitting && s'.queue == s.queue
    && Spent(s.t, s.ctxs[c], s'.t, s'.ctxs[c])
    && (Growing(s'.ctxs[c]) == Growing(s.ctxs[c]) ==> SameLevels(s.t, s'.t))
  }

  lemma OwnSpends(s: Sys, c: Cid, y: Ctx, s': Sys)
    requires c < |s.ctxs| && s'.ctxs == s.ctxs[c := y] && s'.submitting == s.submitting && s'.queue == s.queue
    requires Spent(s.t, s.ctxs[c], s'.t, y) && (Growing(y) == Growing(s.ctxs[c]) ==> SameLevels(s.t, s'.t))
    ensures Spends(s, c, s')
  {
  }

  /** A context sets its own fields and the books, and gives back its first `n` tokens. */
  lemma LetSpends(s: Sys, c: Cid, y: Ctx, y': Ctx, m: Sys, n: nat)
    requires Core(s) && c < |s.ctxs| && SameClaims(s.ctxs[c], y) && n <= |y.tokens|
    requires Ladder(s.t, s.ctxs[c]) && Clean(s.t, s.ctxs[c])
    requires m.t == s.t && m.bars == s.bars && m.log == s.log && m.ctxs == s.ctxs[c := y]
    requires m.submitting == s.submitting && m.queue == s.queue
    requires y' == y.(tokens := y.tokens[n..]) && Spent(s.t, s.ctxs[c], s.t, y')
    ensures Spends(s, c, Release(m, c, n))
  {
    OwnCore(s, m, c);
    var s' := ReleaseRest(m, c, n);
    forall d | 0 <= d < |s.ctxs| && d != c
      ensures SamePlace(s.ctxs[d], s'.ctxs[d]) && Woken(s.t, s.ctxs[d], s'.ctxs[d])
    {
      assert m.ctxs[d] == s.ctxs[d];
    }
  }

  lemma AskSpends(s: Sys, c: Cid, x: Ctx, g: Ctx, w: Ctx, a: Addr, write: bool)
    requires c < |s.ctxs| && x.ready > 0 && g == Granted(s.t, x, a, write)
    requires w == x.(waiting := true, ready := x.ready - 1)
    requires Spent(s.t, s.ctxs[c], s.t, g) && Spent(s.t, s.ctxs[c], s.t, w)
    ensures Spends(s, c, Acquire(s, c, x, a, write))
  {
    if Grantable(Bar(s, a), write) { OwnSpends(s, c, g, Grant(s, c, x, a, write)); }
    else { OwnSpends(s, c, w, Enqueue(s, c, x, a, write)); }
  }

  // ---------- an insertion ----------

  lemma VisitSpent(t: Tree, x: Ctx, y: Ctx, g: Ctx, w: Ctx)
    requires x.busy && x.req.insert && x.state == 0 && x.ready == 1 && x.io == 0 && !x.waiting && x.nodeRef >= -1
    requires Asking(t, x) && y == Visiting(t, x) && g == Granted(t, y, y.nodeRef, y.WantsWrite())
    requires w == y.(waiting := true, ready := 0)
    ensures Spent(t, x, t, g) && Spent(t, x, t, w)
  {
  }

  lemma VisitSpends(s: Sys, c: Cid)
    requires Runs(s, c, 0)
    ensures Safe(s, c) && Spends(s, c, Visit(s, c))
  {
    Opened(s, c, 0);
    var y := Visiting(s.t, s.ctxs[c]);
    var g, w := Granted(s.t, y, y.nodeRef, y.WantsWrite()), y.(waiting := true, ready := y.ready - 1);
    VisitSpent(s.t, s.ctxs[c], y, g, w);
    AskSpends(s, c, y, g, w, y.nodeRef, y.WantsWrite());
  }

  lemma MovedSpent(t: Tree, x: Ctx, y: Ctx)
    requires x.busy && x.req.insert && x.state == 10001 && x.ready == 1 && x.referToRoot && x.nodeRef != t.root
    requires y == x.(nodeRef := -1, next := 0, state := 0, tokens := y.tokens)
    ensures Spent(t, x, t, y)
  {
  }

  lemma EnteredSpent(t: Tree, x: Ctx, y: Ctx)
    requires x.busy && x.req.insert && x.state == 10001 && x.ready == 1 && !(x.referToRoot && x.nodeRef != t.root)
    requires y == x.(referToRoot := false, next := 1, state := 1, held := y.held, tokens := y.tokens)
    ensures Spent(t, x, t, y)
  {
  }

  lemma EnterLets(s: Sys, c: Cid, x: Ctx, y: Ctx, n: nat)
    requires Runs(s, c, 10001) && x == s.ctxs[c] && n <= |x.tokens| && !(x.referToRoot && x.nodeRef != s.t.root)
    requires y == x.(referToRoot := false, next := 1, state := 1, held := y.held)
    ensures Spends(s, c, Release(SetCtx(s, c, y), c, n))
  {
    Opened(s, c, 10001);
    var y' := y.(tokens := y.tokens[n..]);
    EnteredSpent(s.t, x, y');
    LetSpends(s, c, y, y', SetCtx(s, c, y), n);
  }

  lemma EnterSpends(s: Sys, c: Cid)
    requires Runs(s, c, 10001) && Safe(s, c)
    ensures Spends(s, c, Enter(s, c))
  {
    Opened(s, c, 10001);
    var x := s.ctxs[c];
    var n := |x.tokens|;
    assert x.tokens[n - 1].addr == x.nodeRef;
    if x.referToRoot && x.nodeRef != s.t.root {
      var y := x.(nodeRef := -1, next := 0, state := 0);
      MovedSpent(s.t, x, y.(tokens := y.tokens[n..]));
      LetSpends(s, c, y, y.(tokens := y.tokens[n..]), SetCtx(s, c, y), n);
    } else { EnteredSpends(s, c, x); }
  }

  lemma EnteredSpends(s: Sys, c: Cid, x: Ctx)
    requires Runs(s, c, 10001) && Safe(s, c) && x == s.ctxs[c] && !(x.referToRoot && x.nodeRef != s.t.root)
    requires x.tokens[|x.tokens| - 1].addr == x.nodeRef
    ensures Spends(s, c, Enter(s, c))
  {
    var n := |x.tokens|;
    var y := x.(referToRoot := false, next := 1, state := 1);
    if x.optimistic { EnterLets(s, c, x, y.(held := |x.parents|), n - 1); } else { PessimistSpends(s, c, x, y); }
  }

  lemma StaysSpends(s: Sys, c: Cid, x: Ctx, y: Ctx)
    requires Runs(s, c, 10001) && x == s.ctxs[c] && !(x.referToRoot && x.nodeRef != s.t.root)
    requires y == x.(referToRoot := false, next := 1, state := 1)
    ensures Spends(s, c, SetCtx(s, c, y))
  {
    Opened(s, c, 10001);
    EnteredSpent(s.t, x, y);
    OwnSpends(s, c, y, SetCtx(s, c, y));
  }

  lemma PessimistSpends(s: Sys, c: Cid, x: Ctx, y: Ctx)
    requires Runs(s, c, 10001) && Safe(s, c) && x == s.ctxs[c] && !(x.referToRoot && x.nodeRef != s.t.root)
    requires x.tokens[|x.tokens| - 1].addr == x.nodeRef && !x.optimistic
    requires y == x.(referToRoot := false, next := 1, state := 1)
    ensures Spends(s, c, Enter(s, c))
  {
    if x.freeSlot && !x.boundary {
      EnterLets(s, c, x, y.(held := if |x.parents| > 0 then |x.parents| - 1 else 0), |x.tokens| - 2);
    } else { StaysSpends(s, c, x, y); }
  }

  lemma FetchSpends(s: Sys, c: Cid)
    requires Runs(s, c, 1) && Safe(s, c)
    ensures Spends(s, c, Fetch(s, c))
  {
    Opened(s, c, 1);
    OwnSpends(s, c, Fetch(s, c).ctxs[c], Fetch(s, c));
  }

  /** From the leaf on: fewer parents, or none to go back to. */
  lemma FlushSpent(t: Tree, x: Ctx, z: Ctx, next: int, n: nat, t': Tree)
    requires x.busy && x.req.insert && x.ready == 1 && x.io == 0 && !x.waiting && x.Pc() in {2, 9}
    requires z == x.(childSplit := z.childSplit, split := z.split, parents := z.parents, nodeRef := z.nodeRef)
    requires 1 <= n <= 2 && (next == 10 || next == 12) && |z.parents| <= |x.parents|
    requires (x.Pc() == 9 ==> |z.parents| < |x.parents|)
    ensures Spent(t, x, t', Flushing(z, next, n))
  {
  }

  lemma CutLevels(t: Tree, n: Addr, left: Node, right: Node, b: Key, up: Option<(Addr, nat)>)
    requires Live(t, n) && |t.fence| == |t.store| && (left.Leaf? ==> left.entries != [])
    ensures SameLevels(t, Cut(t, n, left, right, b, up))
  {
  }

  lemma PutSpends(s: Sys, c: Cid, x: Ctx)
    requires Runs(s, c, 2) && x == s.ctxs[c] && Live(s.t, x.nodeRef) && x.buffer.Leaf?
    ensures Spends(s, c, PutInLeaf(s, c, x))
  {
    Opened(s, c, 2);
    var z := x.(childSplit := false);
    FlushSpent(s.t, x, z, 10, 1, PutInLeaf(s, c, x).t);
    OwnSpends(s, c, Flushing(z, 10, 1), PutInLeaf(s, c, x));
  }

  lemma SplitSpends(s: Sys, c: Cid, x: Ctx)
    requires Runs(s, c, 2) && x == s.ctxs[c] && Live(s.t, x.nodeRef) && |s.t.fence| == |s.t.store|
    requires x.buffer.Leaf? && 2 <= s.t.cap == |x.buffer.entries|
    ensures Spends(s, c, SplitLeaf(s, c, x))
  {
    Opened(s, c, 2);
    var s' := SplitLeaf(s, c, x);
    var (l, r) := SplitPut(x.buffer.entries, x.req.key, x.req.val, s.t.cap);
    var left, right := Leaf(l, |s.t.store|), Leaf(r, x.buffer.next);
    var z := x.(childSplit := true, split := Split(x.nodeRef, left, |s.t.store|, right, r[0].key));
    CutLevels(s.t, x.nodeRef, left, right, r[0].key, UpOf(s.t, x));
    FlushSpent(s.t, x, z, if x.nodeRef == s.t.root then 12 else 10, 2, s'.t);
    OwnSpends(s, c, s'.ctxs[c], s');
  }

  lemma GiveUpSpends(s: Sys, c: Cid, x: Ctx)
    requires Runs(s, c, 2) && x == s.ctxs[c] && x.optimistic
    ensures Spends(s, c, GiveUp(s, c))
  {
    Opened(s, c, 2);
    OwnSpends(s, c, x.(state := 13, next := 13), GiveUp(s, c));
  }

  lemma LeafSpends(s: Sys, c: Cid)
    requires Runs(s, c, 2) && Safe(s, c) && s.ctxs[c].buffer.Leaf?
    ensures Spends(s, c, InsertLeaf(s, c))
  {
    var x := s.ctxs[c];
    if x.optimistic && |x.buffer.entries| == s.t.cap { GiveUpSpends(s, c, x); }
    else if Found(x.buffer.entries, x.req.key) || |x.buffer.entries| < s.t.cap { PutSpends(s, c, x); }
    else { SplitSpends(s, c, x); }
  }

  lemma DescendSpent(t: Tree, x: Ctx, y: Ctx)
    requires x.busy && x.req.insert && x.ready == 1 && x.io == 0 && !x.waiting && x.Pc() == 2
    requires Settled(t, x) && Live(t, x.nodeRef) && FenceOk(t, x.nodeRef)
    requires x.buffer == t.store[x.nodeRef] && x.buffer.Inner?
    requires y == x.(parents := y.parents, nodeRef := y.nodeRef, freeSlot := y.freeSlot, boundary := y.boundary,
                     nextLeaf := x.level == 2, level := x.level - 1, next := 0, state := 0)
    requires |y.parents| == |x.parents| + 1 && y.nodeRef >= 0
    ensures Spent(t, x, t, y) && Growing(y)
  {
  }

  lemma StepDownSpends(s: Sys, c: Cid, x: Ctx)
    requires Runs(s, c, 2) && Safe(s, c) && x == s.ctxs[c] && x.buffer.Inner?
    requires Locate(x.buffer.keys, x.req.key) >= 0 || !x.optimistic
    ensures Spends(s, c, Descend(s, c))
  {
    Opened(s, c, 2);
    var y := Descend(s, c).ctxs[c];
    assert FenceOk(s.t, x.nodeRef);
    DescendSpent(s.t, x, y);
    OwnSpends(s, c, y, SetCtx(s, c, y));
  }

  lemma DescendSpends(s: Sys, c: Cid)
    requires Runs(s, c, 2) && Safe(s, c) && s.ctxs[c].buffer.Inner?
    ensures Spends(s, c, Descend(s, c))
  {
    var x := s.ctxs[c];
    if Locate(x.buffer.keys, x.req.key) < 0 && x.optimistic { GiveUpSpends(s, c, x); }
    else { StepDownSpends(s, c, x); }
  }

  lemma FlushParentSpends(s: Sys, c: Cid, x: Ctx)
    requires Runs(s, c, 9) && Safe(s, c) && x == s.ctxs[c] && !x.childSplit
    ensures Spends(s, c, FlushParent(s, c))
  {
    Opened(s, c, 9);
    var ps, s' := DropClean(x.parents), FlushParent(s, c);
    if ps == [] { OwnSpends(s, c, x.(parents := [], state := 11, next := 11), s'); }
    else {
      var z := x.(parents := ps[..|ps| - 1]);
      FlushSpent(s.t, x, z, 10, 1, s'.t);
      OwnSpends(s, c, Flushing(z, 10, 1), s');
    }
  }

  lemma LinkSpends(s: Sys, c: Cid, x: Ctx)
    requires Runs(s, c, 9) && Safe(s, c) && x == s.ctxs[c] && x.childSplit
    requires |x.parents[|x.parents| - 1].node.keys| < s.t.cap
    ensures Spends(s, c, LinkChild(s, c))
  {
    Opened(s, c, 9);
    var m := |x.parents| - 1;
    var z, s' := x.(parents := x.parents[..m], nodeRef := x.parents[m].addr, childSplit := false), LinkChild(s, c);
    FlushSpent(s.t, x, z, 10, 1, s'.t);
    OwnSpends(s, c, Flushing(z, 10, 1), s');
  }

  lemma SplitParentSpends(s: Sys, c: Cid, x: Ctx, n: nat, left: Node, right: Node)
    requires Runs(s, c, 9) && x == s.ctxs[c] && n == |x.parents| - 1 && Live(s.t, x.parents[n].addr)
    requires |s.t.fence| == |s.t.store| && left.Inner? && right.Inner? && |right.keys| > 0
    ensures Spends(s, c, SplitAtParent(s, c, x, n, left, right))
  {
    Opened(s, c, 9);
    var a, s' := x.parents[n].addr, SplitAtParent(s, c, x, n, left, right);
    var z := x.(parents := x.parents[..n], nodeRef := a, split := Split(a, left, |s.t.store|, right, right.keys[0]));
    CutLevels(s.t, a, left, right, right.keys[0], UpFrom(s.t, x.parents, n));
    FlushSpent(s.t, x, z, if a == s.t.root then 12 else 10, 2, s'.t);
    OwnSpends(s, c, s'.ctxs[c], s');
  }

  lemma RiseSpends(s: Sys, c: Cid)
    requires Runs(s, c, 9) && Safe(s, c)
    ensures Spends(s, c, RunInsert(s, c))
  {
    var x := s.ctxs[c];
    if !x.childSplit { FlushParentSpends(s, c, x); }
    else {
      var n := |x.parents| - 1;
      if |x.parents[n].node.keys| < s.t.cap { LinkSpends(s, c, x); }
      else {
        var h := ParentHalves(x.parents[n], x.split.key, x.split.right, s.t.cap);
        SplitParentSpends(s, c, x, n, h.0, h.1);
      }
    }
  }

  lemma WriteSpends(s: Sys, c: Cid)
    requires Runs(s, c, 10) && Safe(s, c)
    ensures Spends(s, c, WriteDone(s, c))
  {
    Opened(s, c, 10);
    OwnSpends(s, c, WriteDone(s, c).ctxs[c], WriteDone(s, c));
  }

  lemma GrowSpends(s: Sys, c: Cid)
    requires Runs(s, c, 12) && Safe(s, c)
    ensures Spends(s, c, GrowRoot(s, c))
  {
    Opened(s, c, 12);
    OwnSpends(s, c, GrowRoot(s, c).ctxs[c], GrowRoot(s, c));
  }

  lemma RetrySpends(s: Sys, c: Cid)
    requires Runs(s, c, 13) && Safe(s, c)
    ensures Spends(s, c, Retry(s, c))
  {
    Opened(s, c, 13);
    var x := s.ctxs[c];
    var y := x.(optimistic := false, freeSlot := false, referToRoot := false, nextLeaf := s.t.depth == 1,
                level := s.t.depth, nodeRef := -1, next := 0, state := 0, held := |x.parents|);
    LetSpends(s, c, y, y.(tokens := y.tokens[|x.tokens|..]), SetCtx(s, c, y), |x.tokens|);
  }

  lemma FinishSpends(s: Sys, c: Cid, out: seq<Report>)
    requires Core(s) && c < |s.ctxs| && s.ctxs[c].busy && s.ctxs[c].ready == 1
    requires s.ctxs[c].io == 0 && !s.ctxs[c].waiting
    requires Ladder(s.t, s.ctxs[c]) && Clean(s.t, s.ctxs[c]) && (s.ctxs[c].req.insert ==> s.ctxs[c].state == 11)
    ensures Spends(s, c, Finish(s, c, out))
  {
    var x := s.ctxs[c];
    var y := x.(busy := false, ready := x.ready - 1);
    LetSpends(s, c, y, y.(tokens := y.tokens[|x.tokens|..]), Retire(s, c, out), |x.tokens|);
  }

  // ---------- a search ----------

  lemma SearchVisitSpends(s: Sys, c: Cid)
    requires Seeks(s, c, 0) && Live(s.t, s.ctxs[c].nodeRef)
    ensures Spends(s, c, SearchVisit(s, c))
  {
    SeekOpened(s, c, 0);
    var x := s.ctxs[c].(next := 1);
    AskSpends(s, c, x, Granted(s.t, x, x.nodeRef, false), x.(waiting := true, ready := x.ready - 1), x.nodeRef, false);
  }

  lemma SearchFetchSpends(s: Sys, c: Cid)
    requires Seeks(s, c, 1) && Live(s.t, s.ctxs[c].nodeRef)
    ensures Spends(s, c, SearchFetch(s, c))
  {
    var x := s.ctxs[c];
    var y := x.(next := 2, buffer := s.t.store[x.nodeRef], io := x.io + 1, ready := x.ready - 1);
    SearchReady(s, c, x);
    var s' := SearchFetchLetsGo(s, c, x, y, Surplus(x));
    assert s' == SearchFetch(s, c);
  }

  lemma SearchReady(s: Sys, c: Cid, x: Ctx)
    requires Seeks(s, c, 1) && x == s.ctxs[c]
    ensures x.ready == 1 && x.io == 0 && !x.waiting && Ladder(s.t, x) && Clean(s.t, x) && Surplus(x) <= |x.tokens|
  {
    SeekOpened(s, c, 1);
  }

  lemma SearchFetchLetsGo(s: Sys, c: Cid, x: Ctx, y: Ctx, n: nat) returns (s': Sys)
    requires Core(s) && c < |s.ctxs| && x == s.ctxs[c] && x.busy && !x.req.insert
    requires x.state == 1 && x.ready == 1 && n <= |x.tokens|
    requires Ladder(s.t, x) && Clean(s.t, x) && !x.waiting
    requires y == x.(next := 2, buffer := y.buffer, io := x.io + 1, ready := 0)
    ensures s' == Release(SetCtx(s, c, y), c, n) && Spends(s, c, s')
  {
    var y' := y.(tokens := y.tokens[n..]);
    SearchFetchSpent(s.t, x, y');
    assert SameClaims(x, y);
    var m := SetCtx(s, c, y);
    LetSpends(s, c, y, y', m, n);
    s' := Release(m, c, n);
  }

  lemma SearchFetchSpent(t: Tree, x: Ctx, y: Ctx)
    requires x.busy && !x.req.insert && x.state == 1 && x.ready == 1
    requires y == x.(next := 2, buffer := y.buffer, io := x.io + 1, ready := 0, tokens := y.tokens)
    ensures Spent(t, x, t, y)
  {
  }

  lemma SearchReadSpends(s: Sys, c: Cid)
    requires Seeks(s, c, 2) && Safe(s, c)
    ensures Spends(s, c, SearchRead(s, c))
  {
    SeekOpened(s, c, 2);
    var x := s.ctxs[c];
    if Answer(x).Some? { FinishSpends(s, c, [Report(x.req, Answer(x).value)]); }
    else {
      assert InnerOk(s.t, x.nodeRef);
      ChildTracks(s.t, x);
      OwnSpends(s, c, SearchRead(s, c).ctxs[c], SearchRead(s, c));
    }
  }

  lemma InsertSpends(s: Sys, c: Cid)
    requires c < |s.ctxs| && Runs(s, c, s.ctxs[c].state) && Safe(s, c)
    ensures Spends(s, c, RunInsert(s, c))
  {
    var x := s.ctxs[c];
    if x.state == 0 { VisitSpends(s, c); }
    else if x.state == 10001 { EnterSpends(s, c); }
    else if x.state == 1 { FetchSpends(s, c); }
    else if x.state == 2 { if x.buffer.Leaf? { LeafSpends(s, c); } else { DescendSpends(s, c); } }
    else if x.state == 9 { RiseSpends(s, c); }
    else if x.state == 10 { WriteSpends(s, c); }
    else if x.state == 11 {
      Opened(s, c, 11);
      FinishSpends(s, c, []);
    }
    else if x.state == 12 { GrowSpends(s, c); }
    else { RetrySpends(s, c); }
  }

  lemma SearchSpends(s: Sys, c: Cid)
    requires c < |s.ctxs| && Seeks(s, c, s.ctxs[c].state) && Safe(s, c)
    ensures Spends(s, c, RunSearch(s, c))
  {
    var x := s.ctxs[c];
    if x.state == 0 { SearchVisitSpends(s, c); }
    else if x.state == 1 { SearchFetchSpends(s, c); }
    else { SearchReadSpends(s, c); }
  }

  /** Every step of a context spends work, or ends its chance to split the root. */
  lemma RunSpends(s: Sys, c: Cid)
    requires Core(s) && c < |s.ctxs| && s.ctxs[c].ready > 0
    ensures Safe(s, c) && Spends(s, c, Run(s, c))
  {
    RunCore(s, c);
    if s.ctxs[c].req.insert { InsertSpends(s, c); } else { SearchSpends(s, c); }
  }

  // ---------- the measure ----------

  function Total(t: Tree, xs: seq<Ctx>): nat {
    if xs == [] then 0 else Total(t, xs[..|xs| - 1]) + Work(t, xs[|xs| - 1])
  }

  function Growers(xs: seq<Ctx>): nat {
    if xs == [] then 0 else Growers(xs[..|xs| - 1]) + (if Growing(xs[|xs| - 1]) then 1 else 0)
  }

  lemma {:induction false} TotalStep(t: Tree, xs: seq<Ctx>, t': Tree, ys: seq<Ctx>, c: Cid)
    requires |ys| == |xs| && forall d {:trigger ys[d]} :: 0 <= d < |xs| && d != c ==> Work(t', ys[d]) == Work(t, xs[d])
    requires c < |xs| ==> Work(t', ys[c]) < Work(t, xs[c])
    ensures if c < |xs| then Total(t', ys) < Total(t, xs) else Total(t', ys) == Total(t, xs)
  {
    if xs != [] {
      var k := |xs| - 1;
      forall d | 0 <= d < k && d != c ensures Work(t', ys[..k][d]) == Work(t, xs[..k][d]) {
        assert ys[..k][d] == ys[d];
      }
      if c == k { TotalStep(t, xs[..k], t', ys[..k], k); } else { TotalStep(t, xs[..k], t', ys[..k], c); }
    }
  }

  lemma {:induction false} GrowersStep(xs: seq<Ctx>, ys: seq<Ctx>, c: Cid)
    requires |ys| == |xs| && forall d {:trigger ys[d]} :: 0 <= d < |xs| && d != c ==> Growing(ys[d]) == Growing(xs[d])
    requires c < |xs| ==> (Growing(ys[c]) ==> Growing(xs[c]))
    ensures Growers(ys) == Growers(xs) - if c < |xs| && Growing(xs[c]) && !Growing(ys[c]) then 1 else 0
  {
    if xs != [] {
      var k := |xs| - 1;
      forall d | 0 <= d < k && d != c ensures Growing(ys[..k][d]) == Growing(xs[..k][d]) { assert ys[..k][d] == ys[d]; }
      if c == k { GrowersStep(xs[..k], ys[..k], k); } else { GrowersStep(xs[..k], ys[..k], c); }
    }
  }

  /** What is left to do: requests to push, requests to admit, insertions that may split the root, and the work of all
      contexts. A split of the root may send others back to it, and is one of a limited number. */
  datatype Left = Left(submitting: nat, queue: nat, growers: nat, work: nat)

  function LeftOf(s: Sys): Left {
    Left(|s.submitting|, |s.queue|, Growers(s.ctxs), Total(s.t, s.ctxs))
  }

  predicate Less(a: Left, b: Left) {
    || a.submitting < b.submitting
    || (a.submitting == b.submitting &&
        (a.queue < b.queue ||
         (a.queue == b.queue && (a.growers < b.growers || (a.growers == b.growers && a.work < b.work)))))
  }

  lemma RunLowers(s: Sys, c: Cid, s': Sys)
    requires Core(s) && c < |s.ctxs| && Spends(s, c, s')
    ensures Less(LeftOf(s'), LeftOf(s))
  {
    forall d | 0 <= d < |s.ctxs| && d != c ensures Growing(s'.ctxs[d]) == Growing(s.ctxs[d]) {
      SameGrowing(s.ctxs[d], s'.ctxs[d]);
    }
    GrowersStep(s.ctxs, s'.ctxs, c);
    if Growing(s'.ctxs[c]) == Growing(s.ctxs[c]) {
      assert Look(s, 0);
      forall d | 0 <= d < |s.ctxs| && d != c ensures Work(s'.t, s'.ctxs[d]) == Work(s.t, s.ctxs[d]) {
        assert CtxOk(s, d);
        SearchLive(s.t, s.ctxs[d]);
        SameWork(s.t, s.ctxs[d], s'.t, s'.ctxs[d]);
      }
      TotalStep(s.t, s.ctxs, s'.t, s'.ctxs, c);
    }
  }

  lemma SearchLive(t: Tree, x: Ctx)
    requires CtxInv(t, x) && Flow(x)
    ensures x.busy && !x.req.insert ==> 0 <= x.nodeRef < |t.fence|
  {
  }

  lemma CompleteSpent(t: Tree, x: Ctx, y: Ctx)
    requires x.io > 0 && x.busy && (x.ready > 0 ==> x.next == x.state)
    requires y == x.(io := x.io - 1, ready := x.ready + 1, state := x.next)
    ensures Work(t, y) < Work(t, x) && Growing(y) == Growing(x)
  {
  }

  lemma CompleteLowers(s: Sys, c: Cid)
    requires c < |s.ctxs| && s.ctxs[c].io > 0 && s.ctxs[c].busy
    requires (s.ctxs[c].ready > 0 ==> s.ctxs[c].next == s.ctxs[c].state)
    ensures Less(LeftOf(Complete(s, c)), LeftOf(s))
  {
    var s' := Complete(s, c);
    CompleteSpent(s.t, s.ctxs[c], s'.ctxs[c]);
    GrowersStep(s.ctxs, s'.ctxs, c);
    TotalStep(s.t, s.ctxs, s'.t, s'.ctxs, c);
  }

  /** An event that is no new request and does not stop the scheduler. */
  predicate Working(e: Event) {
    e.Pushed? || e.Admitted? || e.Completed? || e.Ran?
  }

  /** Every such event lowers what is left to do. */
  lemma EventLowers(s: Sys, e: Event)
    requires Core(s) && Working(e) && Enabled(s, e)
    ensures Less(LeftOf(After(s, e)), LeftOf(s))
  {
    match e
    case Pushed(_) =>
    case Admitted(_) =>
    case Completed(c) =>
      assert Look(s, 0);
      assert CtxOk(s, c);
      CompleteLowers(s, c);
    case Ran(c) =>
      RunSpends(s, c);
      RunLowers(s, c, Run(s, c));
  }

  // ---------- every run ends ----------

  ghost predicate Works(s: Sys, s': Sys) {
    exists e: Event :: Working(e) && Enabled(s, e) && s' == After(s, e)
  }

  ghost predicate Stuck(s: Sys) {
    forall e: Event {:trigger Enabled(s, e)} :: Working(e) ==> !Enabled(s, e)
  }

  /** A schedule that goes on as long as it can. */
  ghost predicate Goes(f: nat -> Sys) {
    forall i: nat {:trigger Works(f(i), f(i + 1))} :: Works(f(i), f(i + 1)) || (Stuck(f(i)) && f(i + 1) == f(i))
  }

  lemma {:induction false} FindEnd(f: nat -> Sys, i: nat, slots: nat) returns (j: nat)
    requires Goes(f) && Core(f(i)) && Books(f(i), slots)
    ensures Core(f(j)) && Books(f(j), slots) && Stuck(f(j))
    decreases LeftOf(f(i)).submitting, LeftOf(f(i)).queue, LeftOf(f(i)).growers, LeftOf(f(i)).work
  {
    if Works(f(i), f(i + 1)) {
      var e: Event :| Working(e) && Enabled(f(i), e) && f(i + 1) == After(f(i), e);
      EventLowers(f(i), e);
      NextCore(f(i), e);
      NextBooks(f(i), e, slots);
      j := FindEnd(f, i + 1, slots);
    } else { j := i; }
  }

  /** From any state of any run, whatever the order of the events that follow, if no new request comes in then at some
      point none is pending: every request ever issued has completed. */
  lemma EveryRequestCompletes(tr: seq<Sys>, cap: nat, slots: nat, k: nat, f: nat -> Sys) returns (j: nat)
    requires IsRun(tr, cap, slots) && k < |tr| && slots > 0 && f(0) == tr[k] && Goes(f)
    ensures f(j).pending == 0 && multiset(f(j).done) == multiset(f(j).issued)
  {
    RunsKeepCore(tr, cap, slots, k);
    RunsKeepBooks(tr, cap, slots, k);
    j := FindEnd(f, 0, slots);
    AllDone(f(j), slots);
    if f(j).pending > 0 {
      var e := SomeEvent(f(j), slots);
      assert Working(e) && Enabled(f(j), e);
    }
  }
}
