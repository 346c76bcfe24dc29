/** What every run of the pull-based tree guarantees. */
module Guarantees {
  import opened Nodes
  import opened TreeState
  import opened TreeSplits
  import opened Contexts
  import opened Steps
  import opened Invariants
  import opened Exclusion
  import opened Releases
  import opened DescentSteps
  import opened LeafSteps
  import opened RiseSteps
  import opened SearchSteps
  import opened Scheduler
  import opened Ledger
  import opened Occupancy

  // ---------- no deadlock ----------

  ghost predicate Moves(s: Sys, c: Cid) {
    c < |s.ctxs| && s.ctxs[c].busy && (s.ctxs[c].ready > 0 || s.ctxs[c].io > 0)
  }

  lemma BusyHolder(s: Sys, a: Addr) returns (h: Cid)
    requires Core(s) && Bar(s, a).queue != []
    ensures h < |s.ctxs| && s.ctxs[h].busy
    ensures exists i :: 0 <= i < |s.ctxs[h].tokens| && s.ctxs[h].tokens[i].addr == a
  {
    assert Look(s, 0);
    assert Blocked(s, a) && BarOk(s, a);
    var w := Bar(s, a).writers > 0;
    assert Holders(s, a, w) != {};
    h :| h in Holders(s, a, w);
    assert CtxOk(s, h);
  }

  lemma WaitsBelow(s: Sys, h: Cid, a: Addr)
    requires Core(s) && h < |s.ctxs| && s.ctxs[h].busy && s.ctxs[h].waiting
    requires exists i :: 0 <= i < |s.ctxs[h].tokens| && s.ctxs[h].tokens[i].addr == a
    ensures Live(s.t, s.ctxs[h].nodeRef) && Live(s.t, a)
    ensures s.t.fence[s.ctxs[h].nodeRef].level < s.t.fence[a].level
  {
    assert Look(s, 0);
    assert CtxOk(s, h);
    assert AllAbove(s.t, s.ctxs[h], s.ctxs[h].nodeRef);
  }

  /** Follow a waiting context to the holder of its barrier, ever lower in the tree, to one that can move. */
  lemma {:induction false} FindMover(s: Sys, c: Cid) returns (d: Cid)
    requires Core(s) && c < |s.ctxs| && s.ctxs[c].busy
    requires s.ctxs[c].waiting ==> Live(s.t, s.ctxs[c].nodeRef)
    ensures Moves(s, d)
    decreases s.ctxs[c].waiting, if s.ctxs[c].waiting then s.t.fence[s.ctxs[c].nodeRef].level else 0
  {
    assert Look(s, 0);
    assert CtxOk(s, c) && Queued(s, c);
    if !s.ctxs[c].waiting {
      d := c;
    } else {
      var a := s.ctxs[c].nodeRef;
      var h := BusyHolder(s, a);
      if s.ctxs[h].waiting { WaitsBelow(s, h, a); }
      d := FindMover(s, h);
    }
  }

  /** While a request is in flight, some context can run or has an I/O outstanding. */
  lemma NoDeadlock(s: Sys, c: Cid)
    requires Core(s) && c < |s.ctxs| && s.ctxs[c].busy
    ensures exists d :: Moves(s, d)
  {
    assert Look(s, 0);
    assert CtxOk(s, c);
    if s.ctxs[c].waiting { assert AllAbove(s.t, s.ctxs[c], s.ctxs[c].nodeRef); }
    var d := FindMover(s, c);
  }

  // ---------- the tree between requests ----------

  /** A B+ tree of the given height at block `a`, with its keys in [lo, hi), at least `min` entries or children at the
      top, and every block below at least half full. */
  ghost predicate BTree(store: seq<Node>, cap: nat, a: Addr, level: nat, lo: Bound, hi: Bound, min: nat)
    decreases level
  {
    && 1 <= level && a < |store| && min <= Weight(store[a]) <= cap
    && if level == 1 then
         && store[a].Leaf? && EntriesSorted(store[a].entries)
         && (forall i :: 0 <= i < |store[a].entries| ==>
               Above(lo, store[a].entries[i].key) && Below(store[a].entries[i].key, hi))
       else
         && store[a].Inner? && 1 <= |store[a].keys| == |store[a].kids| && Sorted(store[a].keys)
         && (lo.At? ==> store[a].keys[0] == lo.k)
         && (forall i :: 0 <= i < |store[a].kids| ==>
               BTree(store, cap, store[a].kids[i], level - 1,
                     if i == 0 then lo else At(store[a].keys[i]),
                     if i + 1 < |store[a].keys| then At(store[a].keys[i + 1]) else hi, cap / 2))
  }

  /** The leaves below block `a`, from left to right. */
  function Leaves(store: seq<Node>, a: Addr, level: nat): seq<Addr>
    decreases level, 1, 0
  {
    if a >= |store| || level == 0 then []
    else if store[a].Leaf? then [a] else LeavesAll(store, store[a].kids, level - 1)
  }

  function LeavesAll(store: seq<Node>, cs: seq<Addr>, level: nat): seq<Addr>
    decreases level, 2, |cs|
  {
    if cs == [] then [] else LeavesAll(store, cs[..|cs| - 1], level) + Leaves(store, cs[|cs| - 1], level)
  }

  /** Every leaf of the list has the next one as its sibling, and the last has none. */
  ghost predicate Siblings(store: seq<Node>, ls: seq<Addr>) {
    forall i {:trigger ls[i]} :: 0 <= i < |ls| ==>
      ls[i] < |store| && store[ls[i]].Leaf? && store[ls[i]].next == if i + 1 < |ls| then ls[i + 1] else -1
  }

  /** The sequential search of the tree. */
  function Find(store: seq<Node>, a: Addr, level: nat, k: Key): Option<Val>
    decreases level
  {
    if a >= |store| || level == 0 then None
    else match store[a]
      case Leaf(es, _) => Lookup(es, k)
      case Inner(ks, cs) =>
        var i := Locate(ks, k);
        if i < 0 || i >= |cs| then None else Find(store, cs[i], level - 1, k)
  }

  /** Nothing is half done. */
  ghost predicate Tidy(t: Tree) {
    t.pend == map[] && t.rootSplit == None && forall a {:trigger Lagging(t, a)} :: !Lagging(t, a)
  }

  lemma {:induction false} SubtreeOk(t: Tree, a: Addr)
    requires Sound(t) && Tidy(t) && Stocks(t) && Live(t, a)
    ensures BTree(t.store, t.cap, a, t.fence[a].level, t.fence[a].lo, t.fence[a].hi,
                  if a != t.root then t.cap / 2 else if t.store[a].Inner? then 2 else 0)
    decreases t.fence[a].level
  {
    assert FenceOk(t, a) && Stocked(t, a);
    if t.store[a].Leaf? {
      assert LeafOk(t, a);
    } else {
      assert InnerOk(t, a);
      forall i | 0 <= i < |t.store[a].kids|
        ensures BTree(t.store, t.cap, t.store[a].kids[i], t.fence[a].level - 1, LowOf(t, a, i), UpTo(t, a, i),
                  t.cap / 2)
      {
        assert KidOk(t, a, i);
        SubtreeOk(t, t.store[a].kids[i]);
      }
    }
  }

  lemma {:induction false} FindOk(t: Tree, m: map<Key, Val>, a: Addr, k: Key)
    requires Sound(t) && Tidy(t) && Represents(t, m) && Live(t, a) && InFence(t, a, k)
    ensures Find(t.store, a, t.fence[a].level, k) == Get(m, k)
    decreases t.fence[a].level
  {
    assert FenceOk(t, a);
    if t.store[a].Inner? {
      assert InnerOk(t, a) && !Lagging(t, a);
      var i := Locate(t.store[a].keys, k);
      if i < 0 {
        NoKeyBelowLeast(t, m, k);
      } else {
        assert KidOk(t, a, i);
        FindOk(t, m, t.store[a].kids[i], k);
      }
    }
  }

  ghost predicate Idle(s: Sys) {
    forall c {:trigger s.ctxs[c]} :: 0 <= c < |s.ctxs| ==> !s.ctxs[c].busy
  }

  lemma IdleComplete(s: Sys)
    requires Core(s) && Idle(s)
    ensures Tidy(s.t)
  {
    assert Look(s, 0);
    forall a: Addr ensures Quiet(s.t, a) {
      assert BarOk(s, a) && Owned(s, a);
      forall c | 0 <= c < |s.ctxs| ensures s.ctxs[c].tokens == [] { assert CtxOk(s, c); }
      assert Holders(s, a, true) == {};
    }
    forall a ensures a !in s.t.pend { assert Quiet(s.t, a); }
    assert s.t.pend == map[];
    assert Quiet(s.t, s.t.root);
    forall a: Addr ensures !Lagging(s.t, a) { assert Quiet(s.t, a); }
  }

  // ---------- the leaf chain ----------

  /** The key ranges of the leaves follow one another from `lo` to `hi`. */
  ghost predicate Tiled(t: Tree, ls: seq<Addr>, lo: Bound, hi: Bound) {
    && ls != [] && (forall i {:trigger ls[i]} :: 0 <= i < |ls| ==> IsLeaf(t, ls[i]))
    && t.fence[ls[0]].lo == lo && t.fence[ls[|ls| - 1]].hi == hi
    && (forall i {:trigger Meet(t, ls, i)} :: 0 <= i < |ls| - 1 ==> Meet(t, ls, i))
  }

  predicate Meet(t: Tree, ls: seq<Addr>, i: nat)
    requires i + 1 < |ls|
  {
    IsLeaf(t, ls[i]) && IsLeaf(t, ls[i + 1]) && t.fence[ls[i]].hi == t.fence[ls[i + 1]].lo
  }

  lemma TiledCat(t: Tree, l: seq<Addr>, r: seq<Addr>, lo: Bound, mid: Bound, hi: Bound)
    requires Tiled(t, l, lo, mid) && Tiled(t, r, mid, hi)
    ensures Tiled(t, l + r, lo, hi)
  {
    var ls := l + r;
    forall i | 0 <= i < |ls| - 1 ensures Meet(t, ls, i) {
      if i + 1 < |l| { assert Meet(t, l, i); } else if i >= |l| { assert Meet(t, r, i - |l|); }
    }
  }

  lemma {:induction false} LeavesTile(t: Tree, a: Addr)
    requires Sound(t) && Tidy(t) && Live(t, a)
    ensures Tiled(t, Leaves(t.store, a, t.fence[a].level), t.fence[a].lo, t.fence[a].hi)
    decreases t.fence[a].level, 1, 0
  {
    assert FenceOk(t, a);
    if t.store[a].Inner? {
      assert InnerOk(t, a);
      KidsTile(t, a, |t.store[a].kids|);
      assert t.store[a].kids[..|t.store[a].kids|] == t.store[a].kids;
    }
  }

  lemma {:induction false} KidsTile(t: Tree, a: Addr, n: nat)
    requires Sound(t) && Tidy(t) && IsInner(t, a) && 1 <= n <= |t.store[a].kids| && t.fence[a].level >= 2
    ensures Tiled(t, LeavesAll(t.store, t.store[a].kids[..n], t.fence[a].level - 1), t.fence[a].lo, UpTo(t, a, n - 1))
    decreases t.fence[a].level, 0, n
  {
    var cs, h := t.store[a].kids, t.fence[a].level - 1;
    assert KidOk(t, a, n - 1);
    LeavesTile(t, cs[n - 1]);
    assert cs[..n][..n - 1] == cs[..n - 1];
    if n > 1 {
      KidsTile(t, a, n - 1);
      TiledCat(t, LeavesAll(t.store, cs[..n - 1], h), Leaves(t.store, cs[n - 1], h), t.fence[a].lo, LowOf(t, a, n - 1),
          UpTo(t, a, n - 1));
    } else {
      assert cs[..1][..0] == [] && LeavesAll(t.store, cs[..1], h) == [] + Leaves(t.store, cs[0], h)
          == Leaves(t.store, cs[0], h);
    }
  }

  /** Leaves whose ranges follow one another are each other's siblings: no two leaves start at the same key. */
  lemma TiledSiblings(t: Tree, ls: seq<Addr>)
    requires Sound(t) && Tiled(t, ls, NegInf, PosInf)
    ensures Siblings(t.store, ls)
  {
    forall i | 0 <= i < |ls| ensures t.store[ls[i]].next == if i + 1 < |ls| then ls[i + 1] else -1 {
      var a := ls[i];
      assert ChainOk(t, a) && FenceOk(t, a);
      if i + 1 < |ls| {
        assert Meet(t, ls, i);
        var b, n := ls[i + 1], t.store[a].next;
        assert FenceOk(t, b) && FenceOk(t, n);
        assert n == b || Apart(t, n, b);
      }
    }
  }

  /** With no request in flight the blocks at the root form a B+ tree of height `depth_`, half full below the root,
      whose contents are the leaf writes applied in order, and the siblings of the leaves chain them from left to right.
      */
  lemma IdleTree(s: Sys)
    requires Core(s) && Idle(s) && Stocks(s.t)
    ensures BTree(s.t.store, s.t.cap, s.t.root, s.t.depth, NegInf, PosInf, if s.t.depth >= 2 then 2 else 0)
    ensures forall k :: Find(s.t.store, s.t.root, s.t.depth, k) == Get(Apply(s.log), k)
    ensures Siblings(s.t.store, Leaves(s.t.store, s.t.root, s.t.depth))
  {
    assert Look(s, 0);
    IdleComplete(s);
    assert FenceOk(s.t, s.t.root);
    SubtreeOk(s.t, s.t.root);
    forall k ensures Find(s.t.store, s.t.root, s.t.depth, k) == Get(Apply(s.log), k) {
      FindOk(s.t, Apply(s.log), s.t.root, k);
    }
    LeavesTile(s.t, s.t.root);
    TiledSiblings(s.t, Leaves(s.t.store, s.t.root, s.t.depth));
  }

  // ---------- searches ----------

  /** What a search about to report in a state of a run says: the answer of the map at that moment, unless its key had
      already moved out of the node it started from; so it is right exactly when the key had not moved or is absent. */
  lemma SearchAnswer(s: Sys, c: Cid)
    requires Core(s) && c < |s.ctxs| && s.ctxs[c].ready > 0 && !s.ctxs[c].req.insert && s.ctxs[c].state == 2
    ensures Safe(s, c)
    ensures var x := s.ctxs[c]; var truth := Get(Apply(s.log), x.req.key);
            Answer(x).Some? ==>
              && (Answer(x).value == truth <==> x.covered || truth == None)
              && (x.atRoot ==> Answer(x).value == truth)
  {
    assert Look(s, 0);
    assert CtxOk(s, c);
    SeekSafe(s, c);
    AnswerIs(s.t, Apply(s.log), s.ctxs[c]);
  }

  /** From the read of the leaf on, the answer a search will give is the answer of the map at every moment. */
  lemma SearchAnswerStable(s: Sys, c: Cid)
    requires Core(s) && c < |s.ctxs| && s.ctxs[c].busy && !s.ctxs[c].req.insert && s.ctxs[c].Pc() == 2
    requires s.ctxs[c].buffer.Leaf? && s.ctxs[c].atRoot
    ensures Lookup(s.ctxs[c].buffer.entries, s.ctxs[c].req.key) == Get(Apply(s.log), s.ctxs[c].req.key)
  {
    assert Look(s, 0);
    assert CtxOk(s, c);
    AnswerIs(s.t, Apply(s.log), s.ctxs[c]);
  }

  lemma SearchHoldsTwo(s: Sys, c: Cid)
    requires Core(s) && c < |s.ctxs| && s.ctxs[c].busy && !s.ctxs[c].req.insert
    ensures |s.ctxs[c].tokens| <= 2 && forall i :: 0 <= i < |s.ctxs[c].tokens| ==> !s.ctxs[c].tokens[i].write
  {
    assert Look(s, 0);
    assert CtxOk(s, c);
  }

  // ---------- isolation ----------

  /** The blocks a step submits for writing. */
  ghost function Targets(s: Sys, c: Cid): set<Addr>
    requires Safe(s, c)
  {
    var x := s.ctxs[c];
    if !x.req.insert then {}
    else if x.state == 2 && x.buffer.Leaf? && !(x.optimistic && |x.buffer.entries| == s.t.cap) then
      {x.nodeRef as Addr}
      + (if Found(x.buffer.entries, x.req.key) || |x.buffer.entries| < s.t.cap then {} else {|s.t.store|})
    else if x.state == 9 && x.childSplit then
      var p := x.parents[|x.parents| - 1];
      {p.addr} + (if |p.node.keys| < s.t.cap then {} else {|s.t.store|})
    else if x.state == 9 && DropClean(x.parents) != [] then
      {DropClean(x.parents)[|DropClean(x.parents)| - 1].addr}
    else if x.state == 12 && x.wbCount + 1 == x.wbTarget then {|s.t.store|}
    else {}
  }

  lemma LeafUntouched(s: Sys, c: Cid, a: Addr)
    requires Safe(s, c) && a < |s.t.store| && a !in Targets(s, c) && s.ctxs[c].req.insert && s.ctxs[c].state == 2
    ensures a < |Run(s, c).t.store| && Run(s, c).t.store[a] == s.t.store[a]
  {
  }

  lemma RiseUntouched(s: Sys, c: Cid, a: Addr)
    requires Safe(s, c) && a < |s.t.store| && a !in Targets(s, c) && s.ctxs[c].req.insert && s.ctxs[c].state == 9
    ensures a < |Run(s, c).t.store| && Run(s, c).t.store[a] == s.t.store[a]
  {
  }

  /** Targets covers every block a step changes. */
  lemma UntouchedBlocks(s: Sys, c: Cid, a: Addr)
    requires Safe(s, c) && a < |s.t.store| && a !in Targets(s, c)
    ensures a < |Run(s, c).t.store| && Run(s, c).t.store[a] == s.t.store[a]
  {
    var x := s.ctxs[c];
    if !x.req.insert || Mute(x.state) { SilentTree(s, c); }
    else if x.state == 2 { LeafUntouched(s, c, a); }
    else if x.state == 9 { RiseUntouched(s, c, a); }
  }

  lemma LeafTargets(s: Sys, c: Cid, a: Addr)
    requires Runs(s, c, 2) && s.ctxs[c].buffer.Leaf? && Safe(s, c) && a in Targets(s, c)
    ensures a >= |s.t.store| || Token(a, true) in s.ctxs[c].tokens
  {
    LeafOpened(s, c);
  }

  lemma RiseTargets(s: Sys, c: Cid, a: Addr)
    requires Runs(s, c, 9) && Safe(s, c) && a in Targets(s, c)
    ensures a >= |s.t.store| || Token(a, true) in s.ctxs[c].tokens
  {
    UpSafe(s, c);
    var x := s.ctxs[c];
    if x.childSplit {
      assert HeldUp(s.t, x, |x.parents| - 1);
    } else {
      var m := |DropClean(x.parents)| - 1;
      assert DropClean(x.parents)[m] == x.parents[m];
      ModifiedHeld(x, m);
      assert HeldUp(s.t, x, m);
    }
  }

  /** A context writes only blocks that it holds for writing, and that nobody else holds, or that it allocates in the
      same step; every other block stays as it is. */
  lemma Isolation(s: Sys, c: Cid, a: Addr)
    requires Core(s) && c < |s.ctxs| && s.ctxs[c].ready > 0 && a < |s.t.store|
    ensures Safe(s, c)
    ensures a in Targets(s, c) || a >= |Run(s, c).t.store| || Run(s, c).t.store[a] != s.t.store[a] ==>
              && Token(a, true) in s.ctxs[c].tokens
              && forall d, write :: 0 <= d < |s.ctxs| && d != c ==> Token(a, write) !in s.ctxs[d].tokens
  {
    assert Look(s, 0);
    RunCore(s, c);
    assert CtxOk(s, c);
    if a in Targets(s, c) {
      if s.ctxs[c].state == 2 { LeafTargets(s, c, a); } else if s.ctxs[c].state == 9 { RiseTargets(s, c, a); }
      assert BarOk(s, a);
      forall d, write | 0 <= d < |s.ctxs| && d != c ensures Token(a, write) !in s.ctxs[d].tokens {
        if Token(a, write) in s.ctxs[d].tokens { Exclusive(s, a, c, d, write); }
      }
    } else {
      UntouchedBlocks(s, c, a);
    }
  }

  // ---------- the way up ----------

  /** When a split goes up, the parent taken from the stack is the true parent of the split node, it is write-held, and
      its image is the stored block but for the first key this insertion lowers. */
  lemma TrueParent(s: Sys, c: Cid)
    requires Runs(s, c, 9) && s.ctxs[c].childSplit
    ensures |s.ctxs[c].parents| > 0
    ensures var x := s.ctxs[c]; var p := x.parents[|x.parents| - 1];
            && IsInner(s.t, p.addr) && p.pos < |s.t.store[p.addr].kids|
            && s.t.store[p.addr].kids[p.pos] == x.split.left
            && (forall b, j :: IsInner(s.t, b) && 0 <= j < |s.t.store[b].kids| ==>
                  s.t.store[b].kids[j] == x.split.left ==> b == p.addr && j == p.pos)
            && Token(p.addr, true) in x.tokens
            && p.node.Inner? && p.node.kids == s.t.store[p.addr].kids && p.node.keys != []
            && p.node.keys == s.t.store[p.addr].keys[0 := p.node.keys[0]]
  {
    UpSafe(s, c);
    var x := s.ctxs[c];
    var p := x.parents[|x.parents| - 1];
    ImageFirst(s.t, x, |x.parents| - 1);
    assert HeldUp(s.t, x, |x.parents| - 1);
    forall b, j | IsInner(s.t, b) && 0 <= j < |s.t.store[b].kids| && s.t.store[b].kids[j] == x.split.left
      ensures b == p.addr && j == p.pos
    {
      OneParent(s.t, b, j, p.addr, p.pos);
    }
  }

  /** Parents that are not held, such as those of a failed optimistic attempt, are unchanged and absorb no split. */
  lemma ForgottenParents(s: Sys, c: Cid, i: nat)
    requires Runs(s, c, 9) && i < |s.ctxs[c].parents| && i < s.ctxs[c].held
    ensures !s.ctxs[c].parents[i].modified
    ensures s.ctxs[c].childSplit ==> i < |s.ctxs[c].parents| - 1
  {
    UpOpened(s, c, 9);
  }

  // ---------- whole runs ----------

  /** In every state of every run in which no request is in flight: a B+ tree of height `depth_`, half full below the
      root and with its leaves chained in order, whose contents are the leaf writes in their order; and these are, once
      each, the writes of the completed insertions. */
  lemma IdleRun(tr: seq<Sys>, cap: nat, slots: nat, i: nat)
    requires IsRun(tr, cap, slots) && i < |tr| && Idle(tr[i])
    ensures var s := tr[i];
            && BTree(s.t.store, s.t.cap, s.t.root, s.t.depth, NegInf, PosInf, if s.t.depth >= 2 then 2 else 0)
            && Siblings(s.t.store, Leaves(s.t.store, s.t.root, s.t.depth))
            && (forall k {:trigger Get(Apply(s.log), k)} ::
                   Find(s.t.store, s.t.root, s.t.depth, k) == Get(Apply(s.log), k))
            && (forall w {:trigger multiset(s.log)[w]} :: multiset(s.log)[w] == multiset(s.done)[InsertionOf(w)])
  {
    var s := tr[i];
    RunsKeepCore(tr, cap, slots, i);
    RunsKeepBooks(tr, cap, slots, i);
    RunsKeepStocks(tr, cap, slots, i);
    IdleTree(s);
    forall c | 0 <= c < |s.ctxs| ensures LoggedOf(s.ctxs[c]) == multiset{} { assert !s.ctxs[c].busy; }
    IdleEmpty(s.ctxs, LoggedOf);
    forall w ensures multiset(s.log)[w] == multiset(s.done)[InsertionOf(w)] { DoneWrites(s.done, w); }
  }

  /** In every run, a search that reports is right exactly if its key had not moved out of the node it started from, or
      is absent; and it is right if it started from what was still the root. */
  lemma SearchInRun(tr: seq<Sys>, cap: nat, slots: nat, i: nat, c: Cid)
    requires IsRun(tr, cap, slots) && i < |tr| && c < |tr[i].ctxs|
    requires tr[i].ctxs[c].ready > 0 && !tr[i].ctxs[c].req.insert && tr[i].ctxs[c].state == 2
    ensures Safe(tr[i], c) && |tr[i].ctxs[c].tokens| <= 2
    ensures var x := tr[i].ctxs[c]; var truth := Get(Apply(tr[i].log), x.req.key);
            Answer(x).Some? ==>
              && (Answer(x).value == truth <==> x.covered || truth == None)
              && (x.atRoot ==> Answer(x).value == truth)
  {
    RunsKeepCore(tr, cap, slots, i);
    var s := tr[i];
    assert Look(s, 0);
    SearchAnswer(s, c);
    SearchHoldsTwo(s, c);
  }

  /** In every run, a step of a context changes only blocks it alone holds, for writing, or allocates in that step. */
  lemma IsolationInRun(tr: seq<Sys>, cap: nat, slots: nat, i: nat, c: Cid, a: Addr)
    requires IsRun(tr, cap, slots) && i < |tr| && c < |tr[i].ctxs| && tr[i].ctxs[c].ready > 0 && a < |tr[i].t.store|
    ensures Safe(tr[i], c)
    ensures a >= |Run(tr[i], c).t.store| || Run(tr[i], c).t.store[a] != tr[i].t.store[a] ==>
              && Token(a, true) in tr[i].ctxs[c].tokens
              && forall d, write :: 0 <= d < |tr[i].ctxs| && d != c ==> Token(a, write) !in tr[i].ctxs[d].tokens
  {
    RunsKeepCore(tr, cap, slots, i);
    Isolation(tr[i], c, a);
  }

  /** In every run, the counters of every barrier are the numbers of contexts that hold a token on it, a writer is
      alone, the front of its queue is truly blocked, and whoever waits stands in the queue of the node it wants. */
  lemma BarriersInRun(tr: seq<Sys>, cap: nat, slots: nat, i: nat, a: Addr, c: Cid)
    requires IsRun(tr, cap, slots) && i < |tr| && c < |tr[i].ctxs|
    ensures var s := tr[i]; var b := Bar(s, a);
            && b.readers == |Holders(s, a, false)| && b.writers == |Holders(s, a, true)|
            && b.writers <= 1 && (b.writers == 1 ==> b.readers == 0)
            && (b.queue != [] ==> !Grantable(b, b.queue[0].write))
            && (s.ctxs[c].waiting ==> s.ctxs[c].nodeRef >= 0 && InQueue(Bar(s, s.ctxs[c].nodeRef).queue, c))
  {
    RunsKeepCore(tr, cap, slots, i);
    var s := tr[i];
    assert Look(s, 0);
    assert BarOk(s, a) && Blocked(s, a) && Queued(s, c);
  }

  /** How often a context is in the pool, waiting, in I/O or ready. */
  function Places(x: Ctx): nat {
    (if x.busy then 0 else 1) + (if x.waiting then 1 else 0) + x.io + x.ready
  }

  /** In every run each context is in exactly one of these, and in two only with the two writes of a split in states 10
      and 12; these states go on only with the last write reported and none outstanding. A waiting context is in one
      queue, once. */
  lemma PlaceInRun(tr: seq<Sys>, cap: nat, slots: nat, i: nat, c: Cid, a: Addr)
    requires IsRun(tr, cap, slots) && i < |tr| && c < |tr[i].ctxs|
    ensures var x := tr[i].ctxs[c];
            && 1 <= Places(x) <= 2
            && (Places(x) == 2 ==> x.busy && x.req.insert && x.Pc() in {10, 12} && x.wbTarget == x.wbCount + 2)
            && (x.busy && x.req.insert && x.Pc() in {10, 12} ==> (x.wbCount + 1 == x.wbTarget <==> x.io + x.ready == 1))
    ensures InQueue(Bar(tr[i], a).queue, c) ==> tr[i].ctxs[c].waiting && tr[i].ctxs[c].nodeRef == a
    ensures forall j, k {:trigger Bar(tr[i], a).queue[j], Bar(tr[i], a).queue[k]} ::
              0 <= j < k < |Bar(tr[i], a).queue| ==> Bar(tr[i], a).queue[j].cid != Bar(tr[i], a).queue[k].cid
  {
    RunsKeepCore(tr, cap, slots, i);
    var s := tr[i];
    assert Look(s, 0);
    assert CtxOk(s, c) && QueueOk(s, a);
  }

  /** In every run, every request issued is in exactly one place, and when none is pending all have completed, each
      insertion with one leaf write. */
  lemma OnceInRun(tr: seq<Sys>, cap: nat, slots: nat, i: nat, r: Request, w: Write)
    requires IsRun(tr, cap, slots) && i < |tr|
    ensures var s := tr[i];
            && multiset(s.submitting)[r] + multiset(s.queue)[r] + InFlight(s.ctxs)[r] + multiset(s.done)[r]
                   == (if r in s.issued then 1 else 0)
            && multiset(s.log)[w] <= 1 && (InsertionOf(w) in s.done ==> multiset(s.log)[w] == 1)
            && (s.pending == 0 ==>
                  multiset(s.done) == multiset(s.issued) && multiset(s.log)[w] == multiset(s.issued)[InsertionOf(w)])
  {
    RunsKeepBooks(tr, cap, slots, i);
    OnePlace(tr[i], slots, r);
    OneWrite(tr[i], slots, w);
    AllDone(tr[i], slots);
  }

  /** No state of a run is stuck: while a request is unfinished, a client can push, a context can be admitted or run, or
      an I/O is outstanding. */
  lemma NeverStuck(tr: seq<Sys>, cap: nat, slots: nat, i: nat)
    requires IsRun(tr, cap, slots) && i < |tr| && tr[i].pending > 0 && slots > 0
    ensures exists e: Event :: (e.Pushed? || e.Admitted? || e.Completed? || e.Ran?) && Enabled(tr[i], e)
  {
    RunsKeepCore(tr, cap, slots, i);
    RunsKeepBooks(tr, cap, slots, i);
    var e := SomeEvent(tr[i], slots);
  }

  lemma SomeEvent(s: Sys, slots: nat) returns (e: Event)
    requires Core(s) && Books(s, slots) && s.pending > 0 && slots > 0
    ensures (e.Pushed? || e.Admitted? || e.Completed? || e.Ran?) && Enabled(s, e)
  {
    if s.submitting != [] {
      e := Pushed(0);
    } else if InFlight(s.ctxs) == multiset{} {
      PoolHasOne(s, slots);
      var c :| CanAdmit(s, c);
      e := Admitted(c);
    } else {
      var c := SomeBusy(s.ctxs);
      NoDeadlock(s, c);
      var d: Cid :| Moves(s, d);
      if s.ctxs[d].ready > 0 {
        RunCore(s, d);
        e := Ran(d);
      } else {
        e := Completed(d);
      }
    }
  }

  lemma {:induction false} SomeBusy(cs: seq<Ctx>) returns (c: Cid)
    requires InFlight(cs) != multiset{}
    ensures c < |cs| && cs[c].busy
  {
    if cs[|cs| - 1].busy { c := |cs| - 1; } else { c := SomeBusy(cs[..|cs| - 1]); }
  }
}
