/** What holds of every context, in terms of the shared tree, at each point of its run. */
module Invariants {
  import opened Nodes
  import opened TreeState
  import opened Contexts
  import opened Steps

  /** None of the nodes the context holds is in the middle of a change. */
  ghost predicate Clean(t: Tree, x: Ctx) {
    forall i {:trigger x.tokens[i]} :: 0 <= i < |x.tokens| ==> Quiet(t, x.tokens[i].addr)
  }

  ghost predicate Quiet(t: Tree, a: Addr) {
    && a !in t.pend && !Lagging(t, a)
    && (a == t.root ==> t.rootSplit == None)
  }

  /** Tokens are held on live nodes of strictly decreasing level. */
  ghost predicate Ladder(t: Tree, x: Ctx) {
    && (forall i {:trigger x.tokens[i]} :: 0 <= i < |x.tokens| ==> Live(t, x.tokens[i].addr))
    && (forall i, j :: 0 <= i < j < |x.tokens| ==>
          t.fence[x.tokens[i].addr].level > t.fence[x.tokens[j].addr].level)
  }

  /** The most recent token is the one of the node being visited. */
  ghost predicate Holds(x: Ctx, write: bool) {
    x.nodeRef >= 0 && |x.tokens| > 0 && x.tokens[|x.tokens| - 1] == Token(x.nodeRef, write)
  }

  /** Every held node is above node `n`. */
  ghost predicate AllAbove(t: Tree, x: Ctx, n: int) {
    && Live(t, n)
    && (forall i {:trigger x.tokens[i]} :: 0 <= i < |x.tokens| ==>
          Live(t, x.tokens[i].addr) && t.fence[x.tokens[i].addr].level > t.fence[n].level)
  }

  /** The image kept of parent `p` is the stored block, up to the first key this insertion lowers. */
  ghost predicate Image(t: Tree, p: Parent, k: Key) {
    && IsInner(t, p.addr)
    && p.pos < |t.store[p.addr].kids|
    && p.node == (if p.modified then Inner(t.store[p.addr].keys[0 := k], t.store[p.addr].kids) else t.store[p.addr])
    && (p.modified ==> t.fence[p.addr].lo.NegInf? && p.pos == 0 && k < t.store[p.addr].keys[0])
  }

  /** Parent `p` sends key `k` to the child it was left by. */
  ghost predicate Routes(t: Tree, p: Parent, k: Key)
    requires Image(t, p, k)
  {
    && InFence(t, p.addr, k)
    && (!p.modified ==> t.store[p.addr].keys[p.pos] <= k && Below(k, UpTo(t, p.addr, p.pos)))
  }

  ghost predicate IsChild(p: Parent, n: int) {
    p.node.Inner? && p.pos < |p.node.kids| && p.node.kids[p.pos] == n
  }

  /** Parents below `held` are never changed: they are only remembered. */
  ghost predicate Unheld(x: Ctx) {
    forall i {:trigger x.parents[i]} :: 0 <= i < |x.parents| && i < x.held ==> !x.parents[i].modified
  }

  /** Parent `i` is held, with the right kind of token, and its image and position are current. */
  ghost predicate HeldDown(t: Tree, x: Ctx, i: nat)
    requires x.held <= i < |x.parents|
  {
    && i - x.held < |x.tokens| && x.tokens[i - x.held].addr == x.parents[i].addr
    && (x.optimistic || x.tokens[i - x.held].write)
    && Image(t, x.parents[i], x.req.key) && Routes(t, x.parents[i], x.req.key)
    && x.parents[i].modified == x.boundary
    && (i + 1 < |x.parents| ==> IsChild(x.parents[i], x.parents[i + 1].addr))
  }

  /** The held part of the path, `extra` tokens beyond the parents. */
  ghost predicate Path(t: Tree, x: Ctx, extra: nat) {
    && x.held <= |x.parents|
    && |x.tokens| == |x.parents| - x.held + extra
    && (forall i {:trigger HeldDown(t, x, i)} :: x.held <= i < |x.parents| ==> HeldDown(t, x, i))
  }

  /** The insertion lowers the first keys of its path exactly when its key is below all keys. */
  ghost predicate EdgeOk(t: Tree, x: Ctx, n: Addr)
    requires Live(t, n)
  {
    if t.fence[n].lo.NegInf? then x.boundary <==> x.req.key < t.least else !x.boundary
  }

  /** A pessimistic context holds everything from the node that will take the last change down. */
  ghost predicate Covered(t: Tree, x: Ctx) {
    && x.held < |x.parents| && x.parents[x.held].node.Inner?
    && (x.parents[x.held].addr == t.root || (|x.parents[x.held].node.keys| < t.cap && !x.boundary))
  }

  /** The context is on its way to child `nodeRef` of its last parent. */
  ghost predicate Going(t: Tree, x: Ctx, extra: nat) {
    && !x.referToRoot && Path(t, x, extra) && Live(t, x.nodeRef)
    && x.held < |x.parents|
    && IsChild(x.parents[|x.parents| - 1], x.nodeRef)
    && InFence(t, x.nodeRef, x.req.key)
    && x.level == t.fence[x.nodeRef].level
    && x.nodeRef != t.root
    && (x.nextLeaf <==> x.level == 1)
    && (x.freeSlot <==> |x.parents[|x.parents| - 1].node.keys| < t.cap)
    && EdgeOk(t, x, x.nodeRef)
    && (x.optimistic ==> x.held == |x.parents| - 1 && !x.boundary)
    && (!x.optimistic ==> Covered(t, x))
  }

  /** The context is on its way to what was the root when it looked. */
  ghost predicate FromRoot(t: Tree, x: Ctx, extra: nat) {
    && x.referToRoot && Path(t, x, extra) && x.held == |x.parents|
    && Live(t, x.nodeRef)
    && x.level == t.fence[x.nodeRef].level
    && (x.level == 1 ==> x.nextLeaf)
    && !x.freeSlot
  }

  /** The context holds the barrier of `nodeRef`, the node its key belongs to. */
  ghost predicate Settled(t: Tree, x: Ctx) {
    && !x.referToRoot && Path(t, x, 1) && Live(t, x.nodeRef)
    && Holds(x, x.WantsWrite())
    && InFence(t, x.nodeRef, x.req.key)
    && x.level == t.fence[x.nodeRef].level
    && (x.level == 1 ==> x.nextLeaf)
    && if x.nodeRef == t.root then x.held == |x.parents|
       else
         && EdgeOk(t, x, x.nodeRef)
         && (x.optimistic ==> x.held == |x.parents| && !x.boundary)
         && (!x.optimistic ==>
               && Covered(t, x)
               && IsChild(x.parents[|x.parents| - 1], x.nodeRef)
               && (x.freeSlot <==> |x.parents[|x.parents| - 1].node.keys| < t.cap))
  }

  /** Parent `i` is write-held on the way up, and its image is what will be written. */
  ghost predicate HeldUp(t: Tree, x: Ctx, i: nat)
    requires x.held <= i < |x.parents|
  {
    var p := x.parents[i];
    && i - x.held < |x.tokens| && x.tokens[i - x.held] == Token(p.addr, true)
    && Image(t, p, x.req.key)
    && (if p.modified then x.req.key == t.least else !Lagging(t, p.addr))
    && (i + 1 < |x.parents| ==>
          && IsChild(p, x.parents[i + 1].addr) && IsInner(t, x.parents[i + 1].addr)
          && (p.modified ==> t.store[x.parents[i + 1].addr].keys[0] == t.store[p.addr].keys[0]))
  }

  /** Node `a`, the `j`-th token, is in the middle of a change only if this context is about to complete it. */
  ghost predicate Settling(t: Tree, x: Ctx, j: nat)
    requires j < |x.tokens|
  {
    var a := x.tokens[j].addr;
    && (a in t.pend ==> x.childSplit && x.held + j + 1 == |x.parents|)
    && (Lagging(t, a) ==> x.held + j < |x.parents|)
    && (a == t.root ==> t.rootSplit == None)
  }

  /** The leaf is written; what is left of the path is changed on the way up. */
  ghost predicate Rising(t: Tree, x: Ctx) {
    && (forall i {:trigger HeldUp(t, x, i)} :: x.held <= i < |x.parents| ==> HeldUp(t, x, i))
    && (forall j {:trigger Settling(t, x, j)} :: 0 <= j < |x.tokens| ==> Settling(t, x, j))
    && (x.childSplit ==>
          && x.held < |x.parents| && x.parents[x.held].node.Inner?
          && (x.parents[x.held].addr == t.root || |x.parents[x.held].node.keys| < t.cap)
          && var p := x.parents[|x.parents| - 1];
          && p.addr in t.pend && t.pend[p.addr] == Pending(p.pos, x.split.right, x.split.key)
          && IsChild(p, x.split.left))
  }

  /** Both halves of the root are written, the new root is not. */
  ghost predicate RootSplit(t: Tree, x: Ctx) {
    && t.rootSplit.Some? && t.rootSplit.value.right == x.split.right && t.rootSplit.value.key == x.split.key
    && x.split.left == t.root
    && NonEmpty(x.split.leftNode) && NonEmpty(x.split.rightNode)
    && Leftmost(x.split.leftNode) == t.least && Leftmost(x.split.rightNode) == x.split.key
    && |x.tokens| > 0 && x.tokens[0] == Token(t.root, true)
    && x.held >= |x.parents|
    && (forall j {:trigger x.tokens[j]} :: 0 <= j < |x.tokens| ==>
          x.tokens[j].addr !in t.pend && !Lagging(t, x.tokens[j].addr))
  }

  /** State 0: about to ask for the barrier of the next node. */
  ghost predicate Asking(t: Tree, x: Ctx) {
    if x.nodeRef == -1 then
      x.tokens == [] && x.held == |x.parents| && !x.freeSlot && (t.depth == 1 ==> x.nextLeaf)
    else
      Going(t, x, 0) && AllAbove(t, x, x.nodeRef)
  }

  /** State 10001, before or after the barrier is granted. */
  ghost predicate Entering(t: Tree, x: Ctx) {
    && (if x.waiting then AllAbove(t, x, x.nodeRef) else Holds(x, x.WantsWrite()))
    && var extra := if x.waiting then 0 else 1;
       if x.referToRoot then FromRoot(t, x, extra) else Going(t, x, extra)
  }

  ghost predicate Phase(t: Tree, x: Ctx, pc: int) {
    if pc == 0 then Asking(t, x)
    else if pc == 10001 then Entering(t, x)
    else if pc == 1 then Settled(t, x)
    else if pc == 2 then Settled(t, x) && x.buffer == t.store[x.nodeRef]
    else if pc == 9 || pc == 10 then Rising(t, x)
    else if pc == 12 then RootSplit(t, x)
    else if pc == 13 then x.held == |x.parents|
    else pc == 11
  }

  /** The states in which the context may hold nodes in the middle of a change. */
  predicate Unsettled(pc: int) {
    pc == 9 || pc == 10 || pc == 12
  }

  ghost predicate InsertInv(t: Tree, x: Ctx) {
    && Ladder(t, x) && Unheld(x)
    && (!Unsettled(x.Pc()) ==> Clean(t, x))
    && Phase(t, x, x.Pc())
  }

  /** A search at node `n` has its key within the node exactly when it was within the node it started from. */
  ghost predicate Tracks(t: Tree, x: Ctx, n: int) {
    && Live(t, n) && Above(t.fence[n].lo, x.req.key)
    && (x.covered <==> Below(x.req.key, t.fence[n].hi))
    && (x.atRoot ==> x.covered)
  }

  ghost predicate Reading(x: Ctx) {
    forall i {:trigger x.tokens[i]} :: 0 <= i < |x.tokens| ==> !x.tokens[i].write
  }

  /** On its way to a node, a search holds nothing or the parent of the node. */
  ghost predicate Heading(t: Tree, x: Ctx) {
    && AllAbove(t, x, x.nodeRef)
    && if x.tokens == [] then t.fence[x.nodeRef].lo.NegInf?
       else
         && |x.tokens| == 1 && Tracks(t, x, x.nodeRef)
         && IsInner(t, x.tokens[0].addr) && x.nodeRef in t.store[x.tokens[0].addr].kids
  }

  ghost predicate SearchInv(t: Tree, x: Ctx) {
    var pc := x.Pc();
    && Ladder(t, x) && Clean(t, x) && Reading(x)
    && 0 <= pc <= 2
    && (pc == 0 || (pc == 1 && x.waiting) ==> Heading(t, x))
    && (pc == 1 && !x.waiting ==>
          |x.tokens| <= 2 && Holds(x, false) && Tracks(t, x, x.nodeRef))
    && (pc == 2 ==>
          && |x.tokens| == 1 && Holds(x, false) && Tracks(t, x, x.nodeRef)
          && x.buffer == t.store[x.nodeRef])
  }

  /** How the I/O and ready counts fit the state. */
  ghost predicate Flow(x: Ctx) {
    if !x.busy then x.io == 0 && x.ready == 0 && !x.waiting && x.tokens == []
    else if x.waiting then x.io == 0 && x.ready == 0 && x.Pc() == (if x.req.insert then 10001 else 1) && x.nodeRef >= 0
    else if x.req.insert && (x.Pc() == 10 || x.Pc() == 12) then
      && x.io + x.ready + x.wbCount == x.wbTarget && 1 <= x.io + x.ready <= 2
      && (x.ready > 0 ==> x.next == x.state)
    else x.io + x.ready == 1 && (x.io == 1 ==> x.Pc() == 2 || x.Pc() == 11)
  }

  ghost predicate CtxInv(t: Tree, x: Ctx) {
    x.busy ==> if x.req.insert then InsertInv(t, x) else SearchInv(t, x)
  }
}
