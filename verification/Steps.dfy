/** One step of a context: the code of one `case` of `insert_context::run` or `search_context::run`.

    A call of `run` is a chain of these steps; taking them one at a time allows more interleavings than
    the scheduler produces, so what holds over every run of steps holds over every run of the scheduler. */
module Steps {
  import opened Nodes
  import opened TreeState
  import opened TreeWrites
  import opened Contexts

  /** What the code takes for granted in the state a context is in: its assertions and its array accesses. */
  ghost predicate Safe(s: Sys, c: Cid) {
    && c < |s.ctxs| && s.ctxs[c].ready > 0 && s.ctxs[c].busy
    && 2 <= s.t.cap && |s.t.fence| == |s.t.store|
    && if s.ctxs[c].req.insert then SafeInsert(s.t, s.ctxs[c]) else SafeSearch(s.t, s.ctxs[c])
  }

  ghost predicate SafeInsert(t: Tree, x: Ctx) {
    && (0 <= x.state <= 2 || 9 <= x.state <= 13 || x.state == 10001)
    && (x.state == 0 ==> x.nodeRef >= -1)
    && (x.state == 10001 ==> |x.tokens| > 0)
    && (x.state == 10001 && !x.optimistic && x.freeSlot && !x.boundary ==> |x.tokens| > 1)
    && (x.state == 1 ==> Live(t, x.nodeRef))
    && (x.state == 2 ==>
          && Live(t, x.nodeRef)
          && (x.buffer.Leaf? ==>
                && x.level == 1 && |x.tokens| > 0 && x.tokens[|x.tokens| - 1].write
                && |x.buffer.entries| <= t.cap)
          && (x.buffer.Inner? ==> 0 < |x.buffer.keys| == |x.buffer.kids|))
    && (x.state == 9 && x.childSplit ==> |x.parents| > 0 && ParentOk(t, x.parents[|x.parents| - 1]))
    && (x.state == 9 && !x.childSplit ==>
          forall i :: 0 <= i < |x.parents| && x.parents[i].modified ==> ParentOk(t, x.parents[i]))
    && (x.state == 12 ==> NonEmpty(x.split.leftNode) && NonEmpty(x.split.rightNode))
  }

  ghost predicate ParentOk(t: Tree, p: Parent) {
    && Live(t, p.addr) && p.node.Inner?
    && p.pos < |p.node.keys| == |p.node.kids| <= t.cap
  }

  ghost predicate SafeSearch(t: Tree, x: Ctx) {
    && 0 <= x.state <= 2
    && Live(t, x.nodeRef)
    && (x.state == 1 ==> 1 <= |x.tokens| <= 2)
    && (x.state == 2 && x.buffer.Inner? ==> 0 < |x.buffer.keys| == |x.buffer.kids|)
  }

  predicate NonEmpty(n: Node) {
    match n
    case Leaf(es, _) => |es| > 0
    case Inner(ks, _) => |ks| > 0
  }

  function Leftmost(n: Node): Key
    requires NonEmpty(n)
  {
    match n
    case Leaf(es, _) => es[0].key
    case Inner(ks, _) => ks[0]
  }

  // ---------- insert_context ----------

  /** State 0: ask for the barrier of the next node, starting from the root. */
  function Visit(s: Sys, c: Cid): Sys
    requires c < |s.ctxs| && s.ctxs[c].ready > 0 && s.ctxs[c].nodeRef >= -1
  {
    var x := Visiting(s.t, s.ctxs[c]);
    Acquire(s, c, x, x.nodeRef, x.WantsWrite())
  }

  function Visiting(t: Tree, x: Ctx): (y: Ctx)
    requires x.nodeRef >= -1
    ensures y.nodeRef >= 0 && y.ready == x.ready
  {
    x.(referToRoot := if x.nodeRef == -1 then true else x.referToRoot,
       nodeRef := if x.nodeRef == -1 then t.root else x.nodeRef,
       level := if x.nodeRef == -1 then t.depth else x.level,
       next := 10001)
  }

  /** State 10001: the barrier is held; restart if the root has moved, otherwise let go of ancestors. */
  function Enter(s: Sys, c: Cid): Sys
    requires c < |s.ctxs| && |s.ctxs[c].tokens| > 0
    requires !s.ctxs[c].optimistic && s.ctxs[c].freeSlot && !s.ctxs[c].boundary ==> |s.ctxs[c].tokens| > 1
  {
    var x := s.ctxs[c];
    var n := |x.tokens|;
    if x.referToRoot && x.tokens[n - 1].addr != s.t.root then
      Release(SetCtx(s, c, x.(nodeRef := -1, next := 0, state := 0)), c, n)
    else
      var x1 := x.(referToRoot := false, next := 1, state := 1);
      if x.optimistic then
        Release(SetCtx(s, c, x1.(held := |x.parents|)), c, n - 1)
      else if x.freeSlot && !x.boundary then
        Release(SetCtx(s, c, x1.(held := if |x.parents| > 0 then |x.parents| - 1 else 0)), c, n - 2)
      else
        SetCtx(s, c, x1)
  }

  /** State 1: read the node; the read takes effect when it is submitted. */
  function Fetch(s: Sys, c: Cid): Sys
    requires c < |s.ctxs| && s.ctxs[c].ready > 0 && Live(s.t, s.ctxs[c].nodeRef)
  {
    var x := s.ctxs[c];
    SetCtx(s, c, x.(next := 2, buffer := s.t.store[x.nodeRef], io := x.io + 1, ready := x.ready - 1))
  }

  /** A context that has submitted `n` writes waits in state `next` for their completion. */
  function Flushing(x: Ctx, next: int, n: nat): Ctx
    requires x.ready > 0
  {
    x.(next := next, wbCount := 0, wbTarget := n, io := x.io + n, ready := x.ready - 1)
  }

  /** The optimistic attempt fails. */
  function GiveUp(s: Sys, c: Cid): Sys
    requires c < |s.ctxs|
  {
    SetCtx(s, c, s.ctxs[c].(state := 13, next := 13))
  }

  /** State 2 at a leaf: insert, splitting a full leaf. */
  function InsertLeaf(s: Sys, c: Cid): Sys
    requires Safe(s, c) && s.ctxs[c].req.insert && s.ctxs[c].state == 2 && s.ctxs[c].buffer.Leaf?
  {
    var x := s.ctxs[c];
    if x.optimistic && |x.buffer.entries| == s.t.cap then GiveUp(s, c)
    else if Found(x.buffer.entries, x.req.key) || |x.buffer.entries| < s.t.cap then PutInLeaf(s, c, x)
    else SplitLeaf(s, c, x)
  }

  function PutInLeaf(s: Sys, c: Cid, x: Ctx): Sys
    requires c < |s.ctxs| && x.ready > 0 && Live(s.t, x.nodeRef) && x.buffer.Leaf?
  {
    var es := Put(x.buffer.entries, x.req.key, x.req.val);
    SetCtx(s, c, Flushing(x.(childSplit := false), 10, 1))
    .(t := PutLeaf(s.t, x.nodeRef, Leaf(es, x.buffer.next)), log := s.log + [Write(x.req.id, x.req.key, x.req.val)])
  }

  function SplitLeaf(s: Sys, c: Cid, x: Ctx): Sys
    requires c < |s.ctxs| && x.ready > 0 && Live(s.t, x.nodeRef) && |s.t.fence| == |s.t.store|
    requires x.buffer.Leaf? && 2 <= s.t.cap == |x.buffer.entries|
  {
    var (l, r) := SplitPut(x.buffer.entries, x.req.key, x.req.val, s.t.cap);
    var left, right := Leaf(l, |s.t.store|), Leaf(r, x.buffer.next);
    SetCtx(s, c, Flushing(x.(childSplit := true, split := Split(x.nodeRef, left, |s.t.store|, right, r[0].key)),
                          if x.nodeRef == s.t.root then 12 else 10, 2))
    .(t := Cut(s.t, x.nodeRef, left, right, r[0].key, UpOf(s.t, x)),
      log := s.log + [Write(x.req.id, x.req.key, x.req.val)])
  }

  /** Where a split of the leaf has to be linked. */
  function UpOf(t: Tree, x: Ctx): Option<(Addr, nat)> {
    if x.nodeRef == t.root || x.parents == [] then None
    else Some((x.parents[|x.parents| - 1].addr, x.parents[|x.parents| - 1].pos))
  }

  /** State 2 at an inner node: note it on the way down. */
  function Descend(s: Sys, c: Cid): Sys
    requires Safe(s, c) && s.ctxs[c].req.insert && s.ctxs[c].state == 2 && s.ctxs[c].buffer.Inner?
  {
    var x := s.ctxs[c];
    var i := Locate(x.buffer.keys, x.req.key);
    var exceed := i < 0;
    if exceed && x.optimistic then GiveUp(s, c)
    else
      var pos := if exceed then 0 else i;
      var node := if exceed then x.buffer.(keys := x.buffer.keys[0 := x.req.key]) else x.buffer;
      SetCtx(s, c, x.(parents := x.parents + [Parent(x.nodeRef, node, pos, exceed)],
                      nodeRef := node.kids[pos], freeSlot := |node.keys| < s.t.cap, boundary := exceed,
                      nextLeaf := x.level == 2, level := x.level - 1, next := 0, state := 0))
  }

  /** State 9 with a split child and a parent with a free slot: link the new node in. */
  function LinkChild(s: Sys, c: Cid): Sys
    requires Safe(s, c) && s.ctxs[c].req.insert && s.ctxs[c].state == 9 && s.ctxs[c].childSplit
    requires |s.ctxs[c].parents[|s.ctxs[c].parents| - 1].node.keys| < s.t.cap
  {
    var x := s.ctxs[c];
    var p := x.parents[|x.parents| - 1];
    var node := Inner(InsertAt(p.node.keys, p.pos + 1, x.split.key), InsertAt(p.node.kids, p.pos + 1, x.split.right));
    SetCtx(s, c, Flushing(x.(parents := x.parents[..|x.parents| - 1], nodeRef := p.addr, childSplit := false), 10, 1))
    .(t := Absorb(s.t, p.addr, node))
  }

  /** The halves of a full parent after the new child has gone to its half. */
  function ParentHalves(p: Parent, key: Key, right: Addr, cap: nat): (r: (Node, Node))
    requires p.node.Inner? && p.pos < |p.node.keys| == |p.node.kids| == cap && 2 <= cap
    ensures r.0.Inner? && r.1.Inner? && |r.1.keys| > 0
  {
    var h := cap / 2;
    var lk, rk, lc, rc := p.node.keys[..h], p.node.keys[h..], p.node.kids[..h], p.node.kids[h..];
    if p.pos < h then
      var i := Locate(lk, key) + 1;
      (Inner(InsertAt(lk, i, key), InsertAt(lc, i, right)), Inner(rk, rc))
    else
      var i := Locate(rk, key) + 1;
      (Inner(lk, lc), Inner(InsertAt(rk, i, key), InsertAt(rc, i, right)))
  }

  /** Where a split of parent `n` has to be linked. */
  function UpFrom(t: Tree, ps: seq<Parent>, n: nat): Option<(Addr, nat)>
    requires n < |ps|
  {
    if ps[n].addr == t.root || n == 0 then None else Some((ps[n - 1].addr, ps[n - 1].pos))
  }

  /** State 9 with a split child and a full parent: split the parent. */
  function SplitParent(s: Sys, c: Cid): Sys
    requires Safe(s, c) && s.ctxs[c].req.insert && s.ctxs[c].state == 9 && s.ctxs[c].childSplit
    requires |s.ctxs[c].parents[|s.ctxs[c].parents| - 1].node.keys| == s.t.cap
  {
    var x := s.ctxs[c];
    var n := |x.parents| - 1;
    var h := ParentHalves(x.parents[n], x.split.key, x.split.right, s.t.cap);
    SplitAtParent(s, c, x, n, h.0, h.1)
  }

  function SplitAtParent(s: Sys, c: Cid, x: Ctx, n: nat, left: Node, right: Node): Sys
    requires c < |s.ctxs| && x.ready > 0 && n < |x.parents| && Live(s.t, x.parents[n].addr)
    requires |s.t.fence| == |s.t.store|
    requires left.Inner? && right.Inner? && |right.keys| > 0
  {
    var a := x.parents[n].addr;
    SetCtx(s, c, Flushing(x.(parents := x.parents[..n], nodeRef := a,
                             split := Split(a, left, |s.t.store|, right, right.keys[0])),
                          if a == s.t.root then 12 else 10, 2))
    .(t := Cut(s.t, a, left, right, right.keys[0], UpFrom(s.t, x.parents, n)))
  }

  /** The parents left once the unchanged ones at the end have been dropped. */
  function DropClean(ps: seq<Parent>): (r: seq<Parent>)
    ensures r <= ps
    ensures r != [] ==> r[|r| - 1].modified
    ensures forall i :: |r| <= i < |ps| ==> !ps[i].modified
  {
    if ps == [] || ps[|ps| - 1].modified then ps else DropClean(ps[..|ps| - 1])
  }

  /** State 9 without a split child: write the next changed parent back, or finish. */
  function FlushParent(s: Sys, c: Cid): Sys
    requires Safe(s, c) && s.ctxs[c].req.insert && s.ctxs[c].state == 9 && !s.ctxs[c].childSplit
  {
    var x := s.ctxs[c];
    var ps := DropClean(x.parents);
    if ps == [] then SetCtx(s, c, x.(parents := [], state := 11, next := 11))
    else
      var p := ps[|ps| - 1];
      assert p == x.parents[|ps| - 1];
      SetCtx(s, c, Flushing(x.(parents := ps[..|ps| - 1]), 10, 1)).(t := Absorb(s.t, p.addr, p.node))
  }

  /** State 10: one more write has completed. */
  function WriteDone(s: Sys, c: Cid): Sys
    requires c < |s.ctxs| && s.ctxs[c].ready > 0
  {
    var x := s.ctxs[c];
    if x.wbCount + 1 == x.wbTarget then SetCtx(s, c, x.(wbCount := x.wbCount + 1, state := 9, next := 9))
    else SetCtx(s, c, OneWritten(x))
  }

  /** One of several writes has completed. */
  function OneWritten(x: Ctx): Ctx
    requires x.ready > 0
  {
    x.(wbCount := x.wbCount + 1, ready := x.ready - 1)
  }

  /** State 12: both halves of the root are written; publish the new root. */
  function GrowRoot(s: Sys, c: Cid): Sys
    requires Safe(s, c) && s.ctxs[c].req.insert && s.ctxs[c].state == 12
  {
    var x := s.ctxs[c];
    if x.wbCount + 1 == x.wbTarget then PublishRoot(s, c) else SetCtx(s, c, OneWritten(x))
  }

  function PublishRoot(s: Sys, c: Cid): Sys
    requires Safe(s, c) && s.ctxs[c].req.insert && s.ctxs[c].state == 12
  {
    var x := s.ctxs[c];
    var node := Inner([Leftmost(x.split.leftNode), Leftmost(x.split.rightNode)], [x.split.left, x.split.right]);
    SetCtx(s, c, Flushing(x.(childSplit := false), 11, 1)).(t := Raise(s.t, node))
  }

  /** A context is done with its request, and has reported `out`. */
  function Retire(s: Sys, c: Cid, out: seq<Report>): Sys
    requires c < |s.ctxs| && s.ctxs[c].ready > 0
  {
    var x := s.ctxs[c];
    SetCtx(s, c, x.(busy := false, ready := x.ready - 1))
    .(done := s.done + [x.req], reports := s.reports + out, pending := s.pending - 1, free := s.free + 1)
  }

  /** Return a context to its pool and report its request as done. */
  function Finish(s: Sys, c: Cid, out: seq<Report>): Sys
    requires c < |s.ctxs| && s.ctxs[c].ready > 0
  {
    Release(Retire(s, c, out), c, |s.ctxs[c].tokens|)
  }

  /** State 13: start again, pessimistically. The parents gathered so far are not cleared. */
  function Retry(s: Sys, c: Cid): Sys
    requires c < |s.ctxs|
  {
    var x := s.ctxs[c];
    Release(SetCtx(s, c, x.(optimistic := false, freeSlot := false, referToRoot := false, nextLeaf := s.t.depth == 1,
                            level := s.t.depth, nodeRef := -1, next := 0, state := 0, held := |x.parents|)),
            c, |x.tokens|)
  }

  function RunInsert(s: Sys, c: Cid): Sys
    requires Safe(s, c) && s.ctxs[c].req.insert
  {
    var x := s.ctxs[c];
    if x.state == 0 then Visit(s, c)
    else if x.state == 10001 then Enter(s, c)
    else if x.state == 1 then Fetch(s, c)
    else if x.state == 2 then (if x.buffer.Leaf? then InsertLeaf(s, c) else Descend(s, c))
    else if x.state == 9 then
      if !x.childSplit then FlushParent(s, c)
      else if |x.parents[|x.parents| - 1].node.keys| < s.t.cap then LinkChild(s, c)
      else SplitParent(s, c)
    else if x.state == 10 then WriteDone(s, c)
    else if x.state == 11 then Finish(s, c, [])
    else if x.state == 12 then GrowRoot(s, c)
    else Retry(s, c)
  }

  // ---------- search_context ----------

  /** State 0: ask for the read barrier of the node. */
  function SearchVisit(s: Sys, c: Cid): Sys
    requires c < |s.ctxs| && s.ctxs[c].ready > 0 && Live(s.t, s.ctxs[c].nodeRef)
  {
    Acquire(s, c, s.ctxs[c].(next := 1), s.ctxs[c].nodeRef, false)
  }

  /** State 1: let go of the parent and read the node. */
  function SearchFetch(s: Sys, c: Cid): Sys
    requires c < |s.ctxs| && s.ctxs[c].ready > 0 && Live(s.t, s.ctxs[c].nodeRef)
  {
    var x := s.ctxs[c];
    Release(SetCtx(s, c, x.(next := 2, buffer := s.t.store[x.nodeRef], io := x.io + 1, ready := x.ready - 1)),
            c, Surplus(x))
  }

  /** The tokens a search gives back before it reads: that of the parent, once it holds the child. */
  function Surplus(x: Ctx): nat {
    if |x.tokens| == 2 then 1 else 0
  }

  /** What a search reports when it runs in state 2, or nothing if it goes on to a child. */
  function Answer(x: Ctx): Option<Option<Val>>
    requires x.buffer.Inner? ==> 0 < |x.buffer.keys| == |x.buffer.kids|
  {
    match x.buffer
    case Leaf(es, _) => Some(Lookup(es, x.req.key))
    case Inner(ks, _) => if Locate(ks, x.req.key) < 0 then Some(None) else None
  }

  /** State 2: report, or go on to the child. */
  function SearchRead(s: Sys, c: Cid): Sys
    requires Safe(s, c) && !s.ctxs[c].req.insert && s.ctxs[c].state == 2
  {
    var x := s.ctxs[c];
    if Answer(x).Some? then Finish(s, c, [Report(x.req, Answer(x).value)])
    else SetCtx(s, c, x.(nodeRef := x.buffer.kids[Locate(x.buffer.keys, x.req.key)], next := 0, state := 0))
  }

  function RunSearch(s: Sys, c: Cid): Sys
    requires Safe(s, c) && !s.ctxs[c].req.insert
  {
    var x := s.ctxs[c];
    if x.state == 0 then SearchVisit(s, c)
    else if x.state == 1 then SearchFetch(s, c)
    else SearchRead(s, c)
  }

  function Run(s: Sys, c: Cid): Sys
    requires Safe(s, c)
  {
    if s.ctxs[c].req.insert then RunInsert(s, c) else RunSearch(s, c)
  }
}
