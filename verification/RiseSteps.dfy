/** The way up: linking, splitting and rewriting parents, growing the root and finishing keep the invariant. */
module RiseSteps {
  import opened Nodes
  import opened TreeState
  import opened TreeWrites
  import opened TreeSplits
  import opened TreeLinks
  import opened Contexts
  import opened Steps
  import opened Invariants
  import opened Frames
  import opened Exclusion
  import opened Releases
  import opened LocalSteps
  import opened DescentSteps
  import opened RiseFrames
  import opened LeafSteps

  /** A context on its way up, about to run in state 9. */
  ghost predicate Up(t: Tree, x: Ctx) {
    Sound(t) && Rising(t, x) && Ladder(t, x) && Unheld(x)
  }

  lemma UpOpened(s: Sys, c: Cid, state: int)
    requires Runs(s, c, state) && (state == 9 || state == 10)
    ensures Up(s.t, s.ctxs[c])
  {
    Opened(s, c, state);
  }

  /** The first key of the image of a held parent is the least key or the lower fence of the node. */
  lemma ImageFirst(t: Tree, x: Ctx, i: nat)
    requires Up(t, x) && x.held <= i < |x.parents|
    ensures var p := x.parents[i];
            && HeldUp(t, x, i) && IsInner(t, p.addr) && p.addr in WriteHeld(x)
            && p.node.Inner? && |p.node.keys| == |p.node.kids| == |t.store[p.addr].keys| <= t.cap
            && FirstKeyOk(t, p.addr, p.node.keys[0]) && t.least <= p.node.keys[0]
            && p.node == Inner(t.store[p.addr].keys[0 := p.node.keys[0]], t.store[p.addr].kids)
            && (t.fence[p.addr].lo.NegInf? ==> p.node.keys[0] == t.least)
  {
    var p := x.parents[i];
    assert HeldUp(t, x, i);
    assert InnerOk(t, p.addr) && FenceOk(t, p.addr);
    TokenIn(x, i - x.held);
  }

  /** Tokens are distinct nodes. */
  lemma TokensDiffer(t: Tree, x: Ctx, i: nat, j: nat)
    requires Ladder(t, x) && i < |x.tokens| && j < |x.tokens| && i != j
    ensures x.tokens[i].addr != x.tokens[j].addr
  {
  }

  /** The tree changes only at node `n`, apart from upper fences and new nodes. */
  ghost predicate Rewrites(t: Tree, t': Tree, n: Addr) {
    && |t.store| <= |t'.store| && |t.fence| <= |t'.fence| && t'.least == t.least
    && (forall a {:trigger t'.store[a]} :: 0 <= a < |t.store| && a != n ==> t'.store[a] == t.store[a])
    && (forall a {:trigger t'.fence[a]} :: 0 <= a < |t.fence| ==> t'.fence[a].lo == t.fence[a].lo)
  }

  ghost predicate Popped(x: Ctx, y: Ctx, m: nat) {
    && m <= |x.parents| && y.parents == x.parents[..m]
    && y.held == x.held && y.tokens == x.tokens && y.req == x.req
  }

  ghost predicate Spares(t: Tree, t': Tree, a: Addr) {
    && a < |t.store| <= |t'.store| && a < |t.fence| <= |t'.fence| && t'.least == t.least
    && t'.store[a] == t.store[a] && t'.fence[a].lo == t.fence[a].lo
  }

  lemma SparedUp(t: Tree, x: Ctx, t': Tree, y: Ctx, m: nat, i: nat)
    requires x.held <= i < m <= |x.parents| && Popped(x, y, m) && HeldUp(t, x, i) && Spares(t, t', x.parents[i].addr)
    requires i + 1 < m ==> Spares(t, t', x.parents[i + 1].addr)
    ensures HeldUp(t', y, i)
  {
    assert y.parents[i] == x.parents[i] && (i + 1 < m ==> y.parents[i + 1] == x.parents[i + 1]);
  }

  /** Rewriting the held parent `m` leaves the parents above it as they were. */
  lemma OtherParents(t: Tree, x: Ctx, t': Tree, y: Ctx, m: nat, i: nat)
    requires Up(t, x) && x.held <= i < m < |x.parents| && Popped(x, y, m)
    requires Rewrites(t, t', x.parents[m].addr)
    ensures HeldUp(t', y, i)
  {
    assert HeldUp(t, x, i) && HeldUp(t, x, m);
    TokensDiffer(t, x, i - x.held, m - x.held);
    if i + 1 < m {
      assert HeldUp(t, x, i + 1);
      TokensDiffer(t, x, i + 1 - x.held, m - x.held);
    }
    SparedUp(t, x, t', y, m, i);
  }

  // ---------- state 9: link the new child into a parent with room ----------

  ghost predicate CanLinkUp(t: Tree, x: Ctx) {
    && Up(t, x) && x.childSplit
    && |x.parents| > 0 && x.parents[|x.parents| - 1].node.Inner?
    && |x.parents[|x.parents| - 1].node.keys| < t.cap
  }

  ghost function LinkNode(x: Ctx): Node
    requires x.childSplit && |x.parents| > 0 && x.parents[|x.parents| - 1].node.Inner?
    requires var p := x.parents[|x.parents| - 1]; p.pos < |p.node.keys| == |p.node.kids|
  {
    var p := x.parents[|x.parents| - 1];
    Inner(InsertAt(p.node.keys, p.pos + 1, x.split.key), InsertAt(p.node.kids, p.pos + 1, x.split.right))
  }

  lemma LinkIsLinked(t: Tree, x: Ctx)
    requires Up(t, x) && x.childSplit
    ensures |x.parents| > x.held
    ensures var p := x.parents[|x.parents| - 1];
            && p.addr in t.pend && PendOk(t, p.addr) && p.node.Inner? && p.pos < |p.node.keys| == |p.node.kids|
            && LinkNode(x) == Linked(t, p.addr, p.node.keys[0])
  {
    var i := |x.parents| - 1;
    var p := x.parents[i];
    ImageFirst(t, x, i);
    assert PendOk(t, p.addr);
  }

  ghost function LinkTree(t: Tree, x: Ctx): Tree
    requires CanLinkUp(t, x) && Live(t, x.parents[|x.parents| - 1].addr)
    requires var p := x.parents[|x.parents| - 1]; p.pos < |p.node.keys| == |p.node.kids|
  {
    Absorb(t, x.parents[|x.parents| - 1].addr, LinkNode(x))
  }

  /** Node `n`, the last parent, is done with. */
  ghost predicate Finished(t: Tree, t': Tree, n: Addr) {
    && Rewrites(t, t', n) && t'.fence == t.fence && |t'.store| == |t.store|
    && t'.pend == t.pend - {n} && !Lagging(t', n)
    && t'.root == t.root && t'.rootSplit == t.rootSplit
  }

  lemma FinishedSettles(t: Tree, x: Ctx, t': Tree, y: Ctx, m: nat, j: nat)
    requires Up(t, x) && x.held <= m < |x.parents| && j < |x.tokens| && Popped(x, y, m) && !y.childSplit
    requires forall i {:trigger x.parents[i]} :: m < i < |x.parents| ==> !x.parents[i].modified
    requires x.childSplit ==> m == |x.parents| - 1
    requires Finished(t, t', x.parents[m].addr)
    ensures Settling(t', y, j)
  {
    assert HeldUp(t, x, m) && Settling(t, x, j);
    if j != m - x.held {
      TokensDiffer(t, x, j, m - x.held);
      if m - x.held < j && x.held + j < |x.parents| { assert HeldUp(t, x, x.held + j); }
    }
  }

  /** After the held parent `m` has been written, with everything below it done, the rest keeps rising. */
  lemma FinishedRises(t: Tree, x: Ctx, t': Tree, y: Ctx, m: nat)
    requires Up(t, x) && x.held <= m < |x.parents| && Popped(x, y, m) && !y.childSplit
    requires forall i {:trigger x.parents[i]} :: m < i < |x.parents| ==> !x.parents[i].modified
    requires x.childSplit ==> m == |x.parents| - 1
    requires Finished(t, t', x.parents[m].addr)
    ensures Rising(t', y) && Ladder(t', y) && Unheld(y)
  {
    forall i | y.held <= i < |y.parents| ensures HeldUp(t', y, i) { OtherParents(t, x, t', y, m, i); }
    forall j | 0 <= j < |y.tokens| ensures Settling(t', y, j) { FinishedSettles(t, x, t', y, m, j); }
    forall j | 0 <= j < |y.tokens| ensures Live(t', y.tokens[j].addr) {
      assert x.tokens[j] == y.tokens[j];
    }
    forall i | 0 <= i < |y.parents| && i < y.held ensures !y.parents[i].modified {
      assert y.parents[i] == x.parents[i];
    }
  }

  lemma RisingInv(t: Tree, y: Ctx)
    requires Rising(t, y) && Ladder(t, y) && Unheld(y) && y.busy && y.req.insert && !y.waiting
    requires y.ready == 0 && y.next == 10 && y.wbCount == 0 && y.io == y.wbTarget && 1 <= y.io <= 2
    ensures CtxInv(t, y) && Flow(y)
  {
  }

  lemma LinkFinishes(t: Tree, x: Ctx)
    requires CanLinkUp(t, x)
    ensures |x.parents| > x.held
    ensures var p := x.parents[|x.parents| - 1];
            && Live(t, p.addr) && p.pos < |p.node.keys| == |p.node.kids|
            && Finished(t, LinkTree(t, x), p.addr)
            && Sound(LinkTree(t, x))
  {
    var p := x.parents[|x.parents| - 1];
    LinkIsLinked(t, x);
    ImageFirst(t, x, |x.parents| - 1);
    LinkSound(t, p.addr, p.node.keys[0]);
  }

  lemma LinkChildCore(s: Sys, c: Cid, s': Sys)
    requires Runs(s, c, 9) && CanLinkUp(s.t, s.ctxs[c])
    requires var x := s.ctxs[c]; var p := x.parents[|x.parents| - 1];
             && Live(s.t, p.addr) && p.pos < |p.node.keys| == |p.node.kids|
             && s' == SetCtx(s, c, Flushing(x.(parents := x.parents[..|x.parents| - 1], nodeRef := p.addr,
                                               childSplit := false), 10, 1))
                      .(t := LinkTree(s.t, x))
    ensures Core(s')
  {
    var x := s.ctxs[c];
    var last := |x.parents| - 1;
    var n := x.parents[last].addr;
    Opened(s, c, 9);
    LinkFinishes(s.t, x);
    ImageFirst(s.t, x, last);
    FinishedRises(s.t, x, s'.t, s'.ctxs[c], last);
    RisingInv(s'.t, s'.ctxs[c]);
    AbsorbCore(s, c, s', n, LinkNode(x));
  }

  /** A step that rewrites one held inner node. */
  lemma AbsorbCore(s: Sys, c: Cid, s': Sys, n: Addr, node: Node)
    requires Core(s) && c < |s.ctxs| && n in WriteHeld(s.ctxs[c]) && IsInner(s.t, n) && node.Inner?
    requires s'.t == Absorb(s.t, n, node) && s'.log == s.log && Replaces(s, s', c)
    requires SameClaims(s.ctxs[c], s'.ctxs[c]) && Sound(s'.t) && CtxOk(s', c)
    ensures Core(s')
  {
    TreeOf(s);
    InnerKeepsMap(s.t, n, node, Apply(s.log));
    AbsorbStep(s.t, n, node, WriteHeld(s.ctxs[c]));
    AbsorbFresh(s.t, n, node);
    LocalCore(s, s', c);
  }

  // ---------- state 9: write a changed parent back, or finish ----------

  /** A changed parent is held. */
  lemma ModifiedHeld(x: Ctx, m: nat)
    requires Unheld(x) && m < |x.parents| && x.parents[m].modified
    ensures x.held <= m
  {
  }

  lemma FlushFinishes(t: Tree, x: Ctx, m: nat)
    requires Up(t, x) && !x.childSplit && m < |x.parents| && x.parents[m].modified
    ensures x.held <= m
    ensures var p := x.parents[m];
            && IsInner(t, p.addr) && p.node.Inner? && p.addr in WriteHeld(x)
            && Finished(t, Absorb(t, p.addr, p.node), p.addr)
            && Sound(Absorb(t, p.addr, p.node))
  {
    var p := x.parents[m];
    ModifiedHeld(x, m);
    ImageFirst(t, x, m);
    assert Settling(t, x, m - x.held);
    LowerSound(t, p.addr, x.req.key);
  }

  lemma FlushParentBusy(s: Sys, c: Cid, s': Sys, m: nat)
    requires Runs(s, c, 9) && Up(s.t, s.ctxs[c]) && !s.ctxs[c].childSplit
    requires m < |s.ctxs[c].parents| && s.ctxs[c].parents[m].modified && Live(s.t, s.ctxs[c].parents[m].addr)
    requires forall i {:trigger s.ctxs[c].parents[i]} :: m < i < |s.ctxs[c].parents| ==> !s.ctxs[c].parents[i].modified
    requires var x := s.ctxs[c];
             s' == SetCtx(s, c, Flushing(x.(parents := x.parents[..m]), 10, 1))
                   .(t := Absorb(s.t, x.parents[m].addr, x.parents[m].node))
    ensures Core(s')
  {
    var x := s.ctxs[c];
    Opened(s, c, 9);
    FlushFinishes(s.t, x, m);
    FinishedRises(s.t, x, s'.t, s'.ctxs[c], m);
    RisingInv(s'.t, s'.ctxs[c]);
    AbsorbCore(s, c, s', x.parents[m].addr, x.parents[m].node);
  }

  lemma AllClean(t: Tree, x: Ctx, y: Ctx)
    requires Up(t, x) && !x.childSplit && y.tokens == x.tokens
    requires forall i {:trigger x.parents[i]} :: 0 <= i < |x.parents| ==> !x.parents[i].modified
    ensures Clean(t, y)
  {
    forall j | 0 <= j < |y.tokens| ensures Quiet(t, y.tokens[j].addr) {
      assert Settling(t, x, j);
      if x.held + j < |x.parents| { assert HeldUp(t, x, x.held + j); }
    }
  }

  lemma FlushParentDone(s: Sys, c: Cid)
    requires Runs(s, c, 9) && Up(s.t, s.ctxs[c]) && !s.ctxs[c].childSplit
    requires forall i {:trigger s.ctxs[c].parents[i]} :: 0 <= i < |s.ctxs[c].parents| ==> !s.ctxs[c].parents[i].modified
    ensures Core(SetCtx(s, c, s.ctxs[c].(parents := [], state := 11, next := 11)))
  {
    var x := s.ctxs[c];
    var y := x.(parents := [], state := 11, next := 11);
    Opened(s, c, 9);
    AllClean(s.t, x, y);
    assert CtxInv(s.t, y) && Flow(y);
    var s' := OwnStep(s, c, y);
  }

  lemma FlushParentCore(s: Sys, c: Cid)
    requires Runs(s, c, 9) && Safe(s, c) && Up(s.t, s.ctxs[c]) && !s.ctxs[c].childSplit
    ensures Core(FlushParent(s, c))
  {
    var x := s.ctxs[c];
    var ps := DropClean(x.parents);
    if ps == [] {
      FlushParentDone(s, c);
    } else {
      var m := |ps| - 1;
      assert ps[..m] == x.parents[..m] && ps[m] == x.parents[m];
      FlushParentBusy(s, c, FlushParent(s, c), m);
    }
  }

  // ---------- state 9: split a full parent ----------

  ghost predicate CanSplitUp(t: Tree, x: Ctx) {
    && Up(t, x) && x.childSplit && |x.parents| > 0 && x.parents[|x.parents| - 1].node.Inner?
    && |x.parents[|x.parents| - 1].node.keys| == t.cap
  }

  ghost function UpOfParent(t: Tree, x: Ctx): Option<(Addr, nat)>
    requires |x.parents| > 0
  {
    var n := |x.parents| - 1;
    if x.parents[n].addr == t.root || n == 0 then None else Some((x.parents[n - 1].addr, x.parents[n - 1].pos))
  }

  ghost function CutPoint(x: Ctx, cap: nat): nat
    requires |x.parents| > 0
  {
    if x.parents[|x.parents| - 1].pos < cap / 2 then cap / 2 + 1 else cap / 2
  }

  lemma HalvesAreSplit(p: Parent, key: Key, right: Addr, cap: nat) returns (l: Node, r: Node)
    requires p.node.Inner? && p.pos < |p.node.keys| == |p.node.kids| == cap && 2 <= cap
    requires Sorted(p.node.keys) && p.node.keys[p.pos] < key && (p.pos + 1 < cap ==> key < p.node.keys[p.pos + 1])
    ensures (l, r) == ParentHalves(p, key, right, cap) && l.Inner? && r.Inner?
    ensures (l.keys, r.keys) == SplitInsert(p.node.keys, p.pos, key, cap / 2)
    ensures (l.kids, r.kids) == SplitInsert(p.node.kids, p.pos, right, cap / 2)
  {
    LocateInHalf(p.node.keys, p.pos, key, cap / 2);
    l, r := ParentHalves(p, key, right, cap).0, ParentHalves(p, key, right, cap).1;
  }

  lemma SplitAt<T>(s: seq<T>, pos: nat, v: T, h: nat, l: seq<T>, r: seq<T>, x: nat)
    requires pos < |s| && h <= |s| && (l, r) == SplitInsert(s, pos, v, h)
    requires x == if pos < h then h + 1 else h
    ensures l == InsertAt(s, pos + 1, v)[..x] && r == InsertAt(s, pos + 1, v)[x..]
  {
    SplitInsertIsCut(s, pos, v, h);
  }

  lemma PartsOf(p: Parent, key: Key, right: Addr, l: Node, r: Node, h: nat, node: Node, x: nat)
    requires p.node.Inner? && p.pos < |p.node.keys| == |p.node.kids| && h <= |p.node.keys| && l.Inner? && r.Inner?
    requires (l.keys, r.keys) == SplitInsert(p.node.keys, p.pos, key, h)
    requires (l.kids, r.kids) == SplitInsert(p.node.kids, p.pos, right, h)
    requires x == if p.pos < h then h + 1 else h
    requires node == Inner(InsertAt(p.node.keys, p.pos + 1, key), InsertAt(p.node.kids, p.pos + 1, right))
    ensures l == LeftPart(node, x) && r == RightPart(node, x)
  {
    SplitAt(p.node.keys, p.pos, key, h, l.keys, r.keys, x);
    SplitAt(p.node.kids, p.pos, right, h, l.kids, r.kids, x);
  }

  /** The two halves are the node with its new child, cut in two. */
  lemma HalvesAreCut(p: Parent, key: Key, right: Addr, cap: nat, node: Node, x: nat) returns (l: Node, r: Node)
    requires p.node.Inner? && p.pos < |p.node.keys| == |p.node.kids| == cap && 2 <= cap
    requires Sorted(p.node.keys) && p.node.keys[p.pos] < key && (p.pos + 1 < cap ==> key < p.node.keys[p.pos + 1])
    requires x == if p.pos < cap / 2 then cap / 2 + 1 else cap / 2
    requires node == Inner(InsertAt(p.node.keys, p.pos + 1, key), InsertAt(p.node.kids, p.pos + 1, right))
    ensures (l, r) == ParentHalves(p, key, right, cap) && l == LeftPart(node, x) && r == RightPart(node, x)
  {
    l, r := HalvesAreSplit(p, key, right, cap);
    PartsOf(p, key, right, l, r, cap / 2, node, x);
  }

  /** The image of the last parent orders its keys around the boundary of the pending child. */
  lemma TopOrder(t: Tree, x: Ctx)
    requires CanSplitUp(t, x)
    ensures |x.parents| > x.held
    ensures var p := x.parents[|x.parents| - 1];
            && p.pos < |p.node.keys| == |p.node.kids| == t.cap && p.addr in t.pend && PendOk(t, p.addr)
            && LinkNode(x) == Linked(t, p.addr, p.node.keys[0])
            && Sorted(p.node.keys) && p.node.keys[p.pos] < x.split.key
            && (p.pos + 1 < |p.node.keys| ==> x.split.key < p.node.keys[p.pos + 1])
  {
    LinkIsLinked(t, x);
    ImageFirst(t, x, |x.parents| - 1);
    assert InnerOk(t, x.parents[|x.parents| - 1].addr);
  }

  lemma TopHalves(t: Tree, x: Ctx)
    requires CanSplitUp(t, x)
    ensures |x.parents| > x.held
    ensures var p := x.parents[|x.parents| - 1];
            && p.pos < |p.node.keys| == |p.node.kids| == t.cap && p.addr in t.pend && PendOk(t, p.addr)
            && LinkNode(x) == Linked(t, p.addr, p.node.keys[0])
            && ParentHalves(p, x.split.key, x.split.right, t.cap).0 == LeftPart(LinkNode(x), CutPoint(x, t.cap))
            && ParentHalves(p, x.split.key, x.split.right, t.cap).1 == RightPart(LinkNode(x), CutPoint(x, t.cap))
  {
    TopOrder(t, x);
    var l, r := HalvesAreCut(x.parents[|x.parents| - 1], x.split.key, x.split.right, t.cap, LinkNode(x),
        CutPoint(x, t.cap));
  }

  /** The parent of the node being split is held, and does not already have a pending child. */
  lemma GrandParent(t: Tree, x: Ctx)
    requires CanSplitUp(t, x)
    ensures var p := x.parents[|x.parents| - 1]; var up := UpOfParent(t, x);
            && UpOk(t, p.addr, up) && (up.Some? ==> up.value.0 in WriteHeld(x) && |x.parents| - 1 > x.held)
            && (up.Some? <==> p.addr != t.root)
  {
    var n := |x.parents| - 1;
    var p := x.parents[n];
    ImageFirst(t, x, n);
    assert Settling(t, x, n - x.held);
    if p.addr != t.root {
      assert n > x.held;
      ImageFirst(t, x, n - 1);
      assert Settling(t, x, n - 1 - x.held);
    }
  }

  /** The boundary of the split goes after the node in its parent. */
  lemma GrandParentBelow(t: Tree, x: Ctx, b: Key)
    requires CanSplitUp(t, x) && |x.parents| > x.held
    requires var p := x.parents[|x.parents| - 1];
             && IsInner(t, p.addr) && t.store[p.addr].keys[0] < b && t.least < b
             && (t.fence[p.addr].lo.At? ==> t.fence[p.addr].lo.k < b)
    ensures UpBelow(t, UpOfParent(t, x), b)
  {
    var n := |x.parents| - 1;
    var p := x.parents[n];
    GrandParent(t, x);
    if UpOfParent(t, x).Some? {
      var g := x.parents[n - 1];
      ImageFirst(t, x, n - 1);
      assert KidOk(t, g.addr, g.pos) && InnerOk(t, g.addr) && FenceOk(t, g.addr);
    }
  }

  ghost predicate SplitsUp(t: Tree, x: Ctx) {
    && CanSplitUp(t, x) && x.parents[|x.parents| - 1].node.keys != []
    && var p := x.parents[|x.parents| - 1];
       CanCutLinked(t, p.addr, p.node.keys[0], CutPoint(x, t.cap), UpOfParent(t, x))
  }

  ghost function SplitUpTree(t: Tree, x: Ctx): Tree
    requires SplitsUp(t, x)
  {
    var p := x.parents[|x.parents| - 1];
    CutLinked(t, p.addr, p.node.keys[0], CutPoint(x, t.cap), UpOfParent(t, x))
  }

  /** A key of the linked node other than the first lies above the stored first key. */
  lemma LinkedAbove(t: Tree, n: Addr, k0: Key, x: nat)
    requires Sound(t) && n in t.pend && PendOk(t, n) && IsInner(t, n) && 1 <= x <= |t.store[n].keys|
    ensures t.store[n].keys[0] < Linked(t, n, k0).keys[x]
  {
    assert InnerOk(t, n);
  }

  /** The key a split cuts at belongs after the node in its parent. */
  lemma SplitUpBelow(t: Tree, x: Ctx, p: Parent, i: nat)
    requires CanSplitUp(t, x) && p == x.parents[|x.parents| - 1] && |x.parents| > x.held
    requires p.addr in t.pend && PendOk(t, p.addr) && IsInner(t, p.addr)
    requires 1 <= i <= |t.store[p.addr].keys| && p.node.keys != []
    ensures UpBelow(t, UpOfParent(t, x), Linked(t, p.addr, p.node.keys[0]).keys[i])
  {
    ImageFirst(t, x, |x.parents| - 1);
    LinkedAbove(t, p.addr, p.node.keys[0], i);
    assert InnerOk(t, p.addr) && FenceOk(t, p.addr);
    GrandParentBelow(t, x, Linked(t, p.addr, p.node.keys[0]).keys[i]);
  }

  lemma SplitUpReady(t: Tree, x: Ctx)
    requires CanSplitUp(t, x)
    ensures SplitsUp(t, x)
  {
    var p := x.parents[|x.parents| - 1];
    TopHalves(t, x);
    GrandParent(t, x);
    ImageFirst(t, x, |x.parents| - 1);
    assert FenceOk(t, p.addr);
    SplitUpBelow(t, x, p, CutPoint(x, t.cap));
  }

  lemma SplitUpStep(t: Tree, x: Ctx)
    requires SplitsUp(t, x)
    ensures TreeStep(t, SplitUpTree(t, x), WriteHeld(x)) && FreshQuiet(t, SplitUpTree(t, x))
    ensures var p := x.parents[|x.parents| - 1]; Rewrites(t, SplitUpTree(t, x), p.addr)
  {
    var p := x.parents[|x.parents| - 1];
    var node := Linked(t, p.addr, p.node.keys[0]);
    var y := CutPoint(x, t.cap);
    ImageFirst(t, x, |x.parents| - 1);
    GrandParent(t, x);
    CutStep(t, p.addr, LeftPart(node, y), RightPart(node, y), node.keys[y], UpOfParent(t, x), WriteHeld(x));
    CutFresh(t, p.addr, LeftPart(node, y), RightPart(node, y), node.keys[y], UpOfParent(t, x));
  }

  /** The node that was split does not lag any more. */
  lemma SplitUpQuiet(t: Tree, x: Ctx)
    requires SplitsUp(t, x)
    ensures var p := x.parents[|x.parents| - 1]; var t' := SplitUpTree(t, x);
            && !Lagging(t', p.addr) && p.addr !in t'.pend
            && (t.fence[p.addr].lo.NegInf? ==>
                   t'.store[p.addr].Inner? && t'.store[p.addr].keys != [] && t'.store[p.addr].keys[0] == t.least)
  {
    var p := x.parents[|x.parents| - 1];
    ImageFirst(t, x, |x.parents| - 1);
    GrandParent(t, x);
    if UpOfParent(t, x).Some? {
      assert KidOk(t, UpOfParent(t, x).value.0, UpOfParent(t, x).value.1);
    }
  }

  /** The nodes above the parent of the split node stay as they are. */
  lemma SplitUpAbove(t: Tree, x: Ctx, y: Ctx, j: nat)
    requires SplitsUp(t, x) && j < |x.tokens| && Popped(x, y, |x.parents| - 1)
    requires x.parents[|x.parents| - 1].addr != t.root && UpOfParent(t, x).Some?
    requires x.tokens[j].addr != x.parents[|x.parents| - 1].addr && x.tokens[j].addr != UpOfParent(t, x).value.0
    requires TreeStep(t, SplitUpTree(t, x), WriteHeld(x)) && Live(t, x.tokens[j].addr)
    requires Settling(t, x, j) && x.held + j + 1 != |x.parents|
    ensures Settling(SplitUpTree(t, x), y, j)
  {
  }

  lemma SplitUpParent(t: Tree, x: Ctx, y: Ctx, j: nat)
    requires SplitsUp(t, x) && j < |x.tokens| && Popped(x, y, |x.parents| - 1) && y.childSplit
    requires x.parents[|x.parents| - 1].addr != t.root && UpOfParent(t, x).Some?
    requires x.held + j + 2 == |x.parents| && Live(t, x.tokens[j].addr)
    requires x.tokens[j].addr != x.parents[|x.parents| - 1].addr && Settling(t, x, j)
    ensures Settling(SplitUpTree(t, x), y, j)
  {
  }

  lemma SplitUpSelf(t: Tree, x: Ctx, y: Ctx, j: nat)
    requires SplitsUp(t, x) && j < |x.tokens| && Popped(x, y, |x.parents| - 1)
    requires x.parents[|x.parents| - 1].addr != t.root && x.tokens[j].addr == x.parents[|x.parents| - 1].addr
    ensures Settling(SplitUpTree(t, x), y, j)
  {
    SplitUpQuiet(t, x);
  }

  /** The tokens of the node being split and of its parent. */
  lemma SplitUpTokens(t: Tree, x: Ctx, j: nat) returns (m: nat)
    requires SplitsUp(t, x) && x.parents[|x.parents| - 1].addr != t.root && j < |x.tokens|
    ensures UpOfParent(t, x).Some? && m == |x.parents| - 1 > x.held && m - x.held < |x.tokens|
    ensures x.tokens[m - x.held].addr == x.parents[m].addr
    ensures x.tokens[m - 1 - x.held].addr == UpOfParent(t, x).value.0
    ensures Settling(t, x, j) && Live(t, x.tokens[j].addr) && Ladder(t, x)
  {
    m := |x.parents| - 1;
    GrandParent(t, x);
    HeldToken(t, x, m);
    HeldToken(t, x, m - 1);
    assert Settling(t, x, j);
  }

  lemma HeldToken(t: Tree, x: Ctx, i: nat)
    requires Up(t, x) && x.held <= i < |x.parents|
    ensures i - x.held < |x.tokens| && x.tokens[i - x.held].addr == x.parents[i].addr
  {
    assert HeldUp(t, x, i);
  }

  lemma SplitUpSettles(t: Tree, x: Ctx, y: Ctx, j: nat)
    requires SplitsUp(t, x) && j < |x.tokens| && Popped(x, y, |x.parents| - 1) && y.childSplit
    requires x.parents[|x.parents| - 1].addr != t.root
    ensures Settling(SplitUpTree(t, x), y, j)
  {
    var m := SplitUpTokens(t, x, j);
    if j == m - x.held {
      SplitUpSelf(t, x, y, j);
    } else {
      TokensDiffer(t, x, j, m - x.held);
      if j == m - 1 - x.held {
        SplitUpParent(t, x, y, j);
      } else {
        TokensDiffer(t, x, j, m - 1 - x.held);
        SplitUpStep(t, x);
        SplitUpAbove(t, x, y, j);
      }
    }
  }

  lemma SplitUpRises(t: Tree, x: Ctx, y: Ctx)
    requires SplitsUp(t, x) && Popped(x, y, |x.parents| - 1) && y.childSplit
    requires x.parents[|x.parents| - 1].addr != t.root
    requires var p := x.parents[|x.parents| - 1];
             y.split.left == p.addr && y.split.right == |t.store|
             && y.split.key == Linked(t, p.addr, p.node.keys[0]).keys[CutPoint(x, t.cap)]
    ensures Rising(SplitUpTree(t, x), y) && Unheld(y)
  {
    var t' := SplitUpTree(t, x);
    var m := |x.parents| - 1;
    SplitUpStep(t, x);
    GrandParent(t, x);
    forall i | y.held <= i < |y.parents| ensures HeldUp(t', y, i) { OtherParents(t, x, t', y, m, i); }
    forall j | 0 <= j < |y.tokens| ensures Settling(t', y, j) { SplitUpSettles(t, x, y, j); }
    assert HeldUp(t, x, m - 1) && y.parents[m - 1] == x.parents[m - 1] && y.parents[y.held] == x.parents[x.held];
    forall i | 0 <= i < |y.parents| && i < y.held ensures !y.parents[i].modified {
      assert y.parents[i] == x.parents[i];
    }
  }

  /** The root is the highest token. */
  lemma RootFirst(t: Tree, x: Ctx, i: nat)
    requires Sound(t) && Ladder(t, x) && i < |x.tokens| && x.tokens[i].addr == t.root
    ensures i == 0
  {
    assert FenceOk(t, x.tokens[0].addr);
  }

  lemma SplitUpRoot(t: Tree, x: Ctx, y: Ctx)
    requires SplitsUp(t, x) && Popped(x, y, |x.parents| - 1)
    requires x.parents[|x.parents| - 1].addr == t.root
    requires var p := x.parents[|x.parents| - 1]; var c := CutPoint(x, t.cap);
             var node := Linked(t, p.addr, p.node.keys[0]);
             y.split == Split(p.addr, LeftPart(node, c), |t.store|, RightPart(node, c), node.keys[c])
    ensures RootSplit(SplitUpTree(t, x), y) && Unheld(y)
  {
    var t' := SplitUpTree(t, x);
    var m := |x.parents| - 1;
    SplitUpStep(t, x);
    SplitUpQuiet(t, x);
    GrandParent(t, x);
    assert HeldUp(t, x, m);
    RootFirst(t, x, m - x.held);
    forall j | 0 <= j < |y.tokens| ensures y.tokens[j].addr !in t'.pend && !Lagging(t', y.tokens[j].addr) {
      assert Settling(t, x, j);
      if j != 0 { TokensDiffer(t, x, j, 0); }
    }
    forall i | 0 <= i < |y.parents| && i < y.held ensures !y.parents[i].modified {
      assert y.parents[i] == x.parents[i];
    }
  }

  ghost function SplitUpCtx(t: Tree, x: Ctx): Ctx
    requires SplitsUp(t, x) && x.ready > 0
  {
    var n := |x.parents| - 1;
    var p, c := x.parents[n], CutPoint(x, t.cap);
    var node := Linked(t, p.addr, p.node.keys[0]);
    Flushing(x.(parents := x.parents[..n], nodeRef := p.addr,
                split := Split(p.addr, LeftPart(node, c), |t.store|, RightPart(node, c), node.keys[c])),
             if p.addr == t.root then 12 else 10, 2)
  }

  lemma SplitUpInv(t: Tree, x: Ctx)
    requires SplitsUp(t, x) && x.busy && x.req.insert && x.ready == 1 && x.io == 0 && !x.waiting
    ensures CtxInv(SplitUpTree(t, x), SplitUpCtx(t, x)) && Flow(SplitUpCtx(t, x))
  {
    var t', y := SplitUpTree(t, x), SplitUpCtx(t, x);
    SplitUpStep(t, x);
    LadderKept(t, t', x, y, WriteHeld(x));
    if x.parents[|x.parents| - 1].addr == t.root {
      SplitUpRoot(t, x, y);
    } else {
      SplitUpRises(t, x, y);
      RisingInv(t', y);
    }
  }

  lemma SplitUpCore(s: Sys, c: Cid, s': Sys)
    requires Runs(s, c, 9) && SplitsUp(s.t, s.ctxs[c])
    requires s' == SetCtx(s, c, SplitUpCtx(s.t, s.ctxs[c])).(t := SplitUpTree(s.t, s.ctxs[c]))
    ensures Core(s')
  {
    var x := s.ctxs[c];
    var p := x.parents[|x.parents| - 1];
    Opened(s, c, 9);
    TreeOf(s);
    SplitUpStep(s.t, x);
    SplitUpInv(s.t, x);
    CutLinkedSound(s.t, p.addr, p.node.keys[0], CutPoint(x, s.t.cap), UpOfParent(s.t, x));
    CutLinkedKeepsMap(s.t, p.addr, p.node.keys[0], CutPoint(x, s.t.cap), UpOfParent(s.t, x), Apply(s.log));
    LocalCore(s, s', c);
  }

  /** The step of the code is the step described. */
  lemma SplitParentIs(s: Sys, c: Cid)
    requires Safe(s, c) && s.ctxs[c].req.insert && s.ctxs[c].state == 9 && SplitsUp(s.t, s.ctxs[c])
    ensures SplitParent(s, c) == SetCtx(s, c, SplitUpCtx(s.t, s.ctxs[c])).(t := SplitUpTree(s.t, s.ctxs[c]))
  {
    TopHalves(s.t, s.ctxs[c]);
  }

  lemma UpSafe(s: Sys, c: Cid)
    requires Runs(s, c, 9)
    ensures Safe(s, c) && Up(s.t, s.ctxs[c])
  {
    UpOpened(s, c, 9);
    var x := s.ctxs[c];
    if x.childSplit {
      ImageFirst(s.t, x, |x.parents| - 1);
    } else {
      forall i | 0 <= i < |x.parents| && x.parents[i].modified ensures ParentOk(s.t, x.parents[i]) {
        ModifiedHeld(x, i);
        ImageFirst(s.t, x, i);
      }
    }
  }

  lemma RiseCore(s: Sys, c: Cid)
    requires Runs(s, c, 9)
    ensures Safe(s, c) && Core(RunInsert(s, c))
  {
    UpSafe(s, c);
    var x := s.ctxs[c];
    if !x.childSplit {
      FlushParentCore(s, c);
    } else if |x.parents[|x.parents| - 1].node.keys| < s.t.cap {
      LinkChildCore(s, c, LinkChild(s, c));
    } else {
      SplitUpReady(s.t, x);
      SplitParentIs(s, c);
      SplitUpCore(s, c, SplitParent(s, c));
    }
  }

  // ---------- state 10 ----------

  lemma RisingSame(t: Tree, x: Ctx, y: Ctx)
    requires Rising(t, x) && Unheld(x) && y.tokens == x.tokens && y.parents == x.parents
    requires y.held == x.held && y.req == x.req
    requires y.childSplit == x.childSplit && y.split == x.split
    ensures Rising(t, y) && Unheld(y)
  {
    forall i | y.held <= i < |y.parents| ensures HeldUp(t, y, i) { assert HeldUp(t, x, i); }
    forall j | 0 <= j < |y.tokens| ensures Settling(t, y, j) { assert Settling(t, x, j); }
  }

  lemma AllWritten(t: Tree, x: Ctx, y: Ctx)
    requires InsertInv(t, x) && Flow(x) && x.busy && x.req.insert && x.ready > 0 && x.state == 10 && !x.waiting
    requires x.wbCount + 1 == x.wbTarget && y == x.(wbCount := x.wbCount + 1, state := 9, next := 9)
    ensures CtxInv(t, y) && Flow(y)
  {
    RisingSame(t, x, y);
  }

  lemma StillWriting(t: Tree, x: Ctx, y: Ctx)
    requires InsertInv(t, x) && Flow(x) && x.busy && x.req.insert && x.ready > 0 && x.state == 10 && !x.waiting
    requires x.wbCount + 1 != x.wbTarget && y == OneWritten(x)
    ensures CtxInv(t, y) && Flow(y)
  {
    RisingSame(t, x, y);
  }

  /** State 10 is left for state 9 exactly when no write is outstanding or unreported. */
  lemma WriteDoneCore(s: Sys, c: Cid)
    requires Runs(s, c, 10)
    ensures Safe(s, c) && Core(WriteDone(s, c))
    ensures WriteDone(s, c).ctxs[c].Pc() == if s.ctxs[c].io == 0 && s.ctxs[c].ready == 1 then 9 else 10
  {
    Opened(s, c, 10);
    var x := s.ctxs[c];
    if x.wbCount + 1 == x.wbTarget {
      var y := x.(wbCount := x.wbCount + 1, state := 9, next := 9);
      AllWritten(s.t, x, y);
      var s' := OwnStep(s, c, y);
    } else {
      var y := OneWritten(x);
      StillWriting(s.t, x, y);
      var s' := OwnStep(s, c, y);
    }
  }

  // ---------- state 12 ----------

  ghost function GrownNode(x: Ctx): Node
    requires NonEmpty(x.split.leftNode) && NonEmpty(x.split.rightNode)
  {
    Inner([Leftmost(x.split.leftNode), Leftmost(x.split.rightNode)], [x.split.left, x.split.right])
  }

  lemma GrowReady(t: Tree, x: Ctx)
    requires Sound(t) && RootSplit(t, x)
    ensures CanRaise(t, t.least) && NewRoot(t, t.least) == GrownNode(x) && t.root in WriteHeld(x)
  {
    TokenIn(x, 0);
    assert FenceOk(t, t.rootSplit.value.right);
  }

  lemma GrowInv(t: Tree, x: Ctx, y: Ctx)
    requires Sound(t) && RootSplit(t, x) && Ladder(t, x) && Unheld(x)
    requires x.busy && x.req.insert && x.ready == 1 && x.io == 0 && !x.waiting
    requires y == Flushing(x.(childSplit := false), 11, 1)
    ensures CtxInv(Raise(t, GrownNode(x)), y) && Flow(y)
  {
    var t' := Raise(t, GrownNode(x));
    GrowReady(t, x);
    RaiseStep(t, GrownNode(x), WriteHeld(x));
    LadderKept(t, t', x, y, WriteHeld(x));
    forall j | 0 <= j < |y.tokens| ensures Quiet(t', y.tokens[j].addr) {
      assert x.tokens[j] == y.tokens[j] && Live(t, x.tokens[j].addr);
    }
    assert Clean(t', y);
  }

  lemma GrowFinal(s: Sys, c: Cid, s': Sys)
    requires Runs(s, c, 12) && Sound(s.t) && RootSplit(s.t, s.ctxs[c]) && s.ctxs[c].ready == 1 && s.ctxs[c].io == 0
    requires s' == SetCtx(s, c, Flushing(s.ctxs[c].(childSplit := false), 11, 1))
                   .(t := Raise(s.t, GrownNode(s.ctxs[c])))
    ensures Core(s')
  {
    var x := s.ctxs[c];
    Opened(s, c, 12);
    GrowReady(s.t, x);
    TreeOf(s);
    GrowInv(s.t, x, s'.ctxs[c]);
    RaiseSound(s.t, s.t.least);
    RaiseKeepsMap(s.t, s.t.least, Apply(s.log));
    RaiseStep(s.t, GrownNode(x), WriteHeld(x));
    RaiseFresh(s.t, GrownNode(x));
    LocalCore(s, s', c);
  }

  lemma GrowWaits(s: Sys, c: Cid, y: Ctx)
    requires Runs(s, c, 12) && s.ctxs[c].wbCount + 1 != s.ctxs[c].wbTarget
    requires y == s.ctxs[c].(wbCount := s.ctxs[c].wbCount + 1, ready := s.ctxs[c].ready - 1)
    ensures Core(SetCtx(s, c, y))
  {
    Opened(s, c, 12);
    assert RootSplit(s.t, y);
    assert CtxInv(s.t, y) && Flow(y);
    var s' := OwnStep(s, c, y);
  }

  /** State 12 is left for state 11 exactly when no write is outstanding or unreported. */
  lemma GrowRootCore(s: Sys, c: Cid)
    requires Runs(s, c, 12)
    ensures Safe(s, c) && Core(GrowRoot(s, c))
    ensures GrowRoot(s, c).ctxs[c].Pc() == if s.ctxs[c].io == 0 && s.ctxs[c].ready == 1 then 11 else 12
  {
    Opened(s, c, 12);
    var x := s.ctxs[c];
    if x.wbCount + 1 == x.wbTarget {
      GrowFinal(s, c, GrowRoot(s, c));
    } else {
      GrowWaits(s, c, x.(wbCount := x.wbCount + 1, ready := x.ready - 1));
    }
  }

  // ---------- state 11 ----------

  /** Returning a context to its pool gives all its barriers back. */
  lemma FinishCore(s: Sys, c: Cid, out: seq<Report>)
    requires Core(s) && c < |s.ctxs| && s.ctxs[c].busy && s.ctxs[c].ready == 1
    requires s.ctxs[c].io == 0 && !s.ctxs[c].waiting
    requires Ladder(s.t, s.ctxs[c]) && Clean(s.t, s.ctxs[c])
    ensures Core(Finish(s, c, out))
  {
    var s1 := Retire(s, c, out);
    OwnCore(s, s1, c);
    var s2 := FinishGives(s1, c, |s.ctxs[c].tokens|);
  }

  lemma FinishGives(s: Sys, c: Cid, n: nat) returns (s': Sys)
    requires Rest(s, c) && AllBlocked(s) && Letting(s, c) && n == |s.ctxs[c].tokens|
    requires !s.ctxs[c].busy && s.ctxs[c].ready == 0 && s.ctxs[c].io == 0
    ensures s' == Release(s, c, n) && Core(s')
  {
    s' := ReleaseRest(s, c, n);
    assert s'.ctxs[c].tokens == [];
    assert CtxOk(s', c);
    Whole(s', c);
  }

  lemma FinishInsertCore(s: Sys, c: Cid)
    requires Runs(s, c, 11)
    ensures Safe(s, c) && Core(Finish(s, c, []))
  {
    Opened(s, c, 11);
    FinishCore(s, c, []);
  }
}
