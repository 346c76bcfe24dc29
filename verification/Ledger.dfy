/** Exactly once: every request is, at every moment of every run, in exactly one place, and every insertion writes its
    leaf exactly once before it completes. */
module Ledger {
  import opened Nodes
  import opened TreeState
  import opened TreeWrites
  import opened Contexts
  import opened Steps
  import opened Invariants
  import opened Releases
  import opened Scheduler

  // ---------- what granting barriers leaves alone ----------

  /** `y` may have been granted a barrier in place of `x`. */
  ghost predicate Nudged(x: Ctx, y: Ctx) {
    && y.busy == x.busy && y.req == x.req && y.next == x.next
    && ((y.state == x.state && y.ready <= x.ready) || y.state == x.next)
  }

  ghost predicate OnlyGrants(s: Sys, s': Sys) {
    && s' == s.(bars := s'.bars, ctxs := s'.ctxs) && |s'.ctxs| == |s.ctxs|
    && forall c {:trigger s'.ctxs[c]} :: 0 <= c < |s.ctxs| ==> Nudged(s.ctxs[c], s'.ctxs[c])
  }

  lemma GrantsChain(s: Sys, s1: Sys, s2: Sys)
    requires OnlyGrants(s, s1) && OnlyGrants(s1, s2)
    ensures OnlyGrants(s, s2)
  {
    forall c | 0 <= c < |s.ctxs| ensures Nudged(s.ctxs[c], s2.ctxs[c]) {
      assert Nudged(s.ctxs[c], s1.ctxs[c]) && Nudged(s1.ctxs[c], s2.ctxs[c]);
    }
  }

  lemma {:induction false} OfferGrants(s: Sys, a: Addr)
    ensures OnlyGrants(s, Offer(s, a))
    decreases |Bar(s, a).queue|
  {
    if Offerable(s, a) {
      var s1 := Fire(s, a);
      OfferGrants(s1, a);
      GrantsChain(s, s1, Offer(s1, a));
    }
  }

  lemma {:induction false} ReleaseGrants(s: Sys, c: Cid, n: nat)
    ensures OnlyGrants(s, Release(s, c, n))
    decreases n
  {
    if n > 0 && c < |s.ctxs| && n <= |s.ctxs[c].tokens| {
      var a := s.ctxs[c].tokens[n - 1].addr;
      var s1 := Drop(s, c, n - 1);
      var s2 := Offer(s1, a);
      OfferGrants(s1, a);
      GrantsChain(s, s1, s2);
      ReleaseGrants(s2, c, n - 1);
      GrantsChain(s, s2, Release(s2, c, n - 1));
    }
  }

  lemma NudgeOne(s: Sys, s': Sys, c: Cid, y: Ctx)
    requires c < |s.ctxs| && s' == s.(bars := s'.bars, ctxs := s.ctxs[c := y]) && Nudged(s.ctxs[c], y)
    ensures OnlyGrants(s, s')
  {
  }

  lemma AcquireGrants(s: Sys, c: Cid, x: Ctx, a: Addr, write: bool)
    requires c < |s.ctxs| && x.ready > 0
    ensures OnlyGrants(SetCtx(s, c, x), Acquire(s, c, x, a, write))
  {
    if Grantable(Bar(s, a), write) { GrantedNudge(s, c, x, Granted(s.t, x, a, write), a, Take(Bar(s, a), write)); }
    else {
      GrantedNudge(s, c, x, x.(waiting := true, ready := x.ready - 1), a,
                   Bar(s, a).(queue := Bar(s, a).queue + [Wait(c, write)]));
    }
  }

  lemma GrantedNudge(s: Sys, c: Cid, x: Ctx, y: Ctx, a: Addr, b: Barrier)
    requires c < |s.ctxs| && Nudged(x, y)
    ensures OnlyGrants(SetCtx(s, c, x), SetCtx(SetBar(s, a, b), c, y))
  {
    var m, m' := SetCtx(s, c, x), SetCtx(SetBar(s, a, b), c, y);
    assert m.ctxs[c := y] == m'.ctxs;
    NudgeOne(m, m', c, y);
  }

  // ---------- the books ----------

  /** The sum of `f` over a sequence. */
  ghost function Collect<A(!new), T>(xs: seq<A>, f: A -> multiset<T>): multiset<T> {
    if xs == [] then multiset{} else Collect(xs[..|xs| - 1], f) + f(xs[|xs| - 1])
  }

  lemma {:induction false} CollectUpdate<A(!new), T>(xs: seq<A>, f: A -> multiset<T>, i: nat, y: A)
    requires i < |xs|
    ensures Collect(xs[i := y], f) + f(xs[i]) == Collect(xs, f) + f(y)
  {
    var n := |xs| - 1;
    if i < n {
      CollectUpdate(xs[..n], f, i, y);
      assert xs[i := y][..n] == xs[..n][i := y];
      var was, now, rest := f(xs[i]), f(y), f(xs[n]);
      calc {
        Collect(xs[i := y], f) + was;
        (Collect(xs[..n][i := y], f) + was) + rest;
        (Collect(xs[..n], f) + now) + rest;
        Collect(xs, f) + now;
      }
    } else {
      assert xs[i := y][..n] == xs[..n];
    }
  }

  lemma {:induction false} CollectSame<A(!new), T>(xs: seq<A>, ys: seq<A>, f: A -> multiset<T>)
    requires |xs| == |ys| && forall i {:trigger ys[i]} :: 0 <= i < |xs| ==> f(xs[i]) == f(ys[i])
    ensures Collect(xs, f) == Collect(ys, f)
  {
    if xs != [] {
      var n := |xs| - 1;
      assert f(xs[n]) == f(ys[n]);
      CollectSame(xs[..n], ys[..n], f);
    }
  }

  /** Replacing an element whose share is the same, or was nothing, or becomes nothing. */
  lemma CollectMove<A(!new), T>(xs: seq<A>, f: A -> multiset<T>, i: nat, y: A)
    requires i < |xs|
    ensures f(xs[i]) == f(y) ==> Collect(xs[i := y], f) == Collect(xs, f)
    ensures f(xs[i]) == multiset{} ==> Collect(xs[i := y], f) == Collect(xs, f) + f(y)
    ensures f(y) == multiset{} ==> Collect(xs, f) == Collect(xs[i := y], f) + f(xs[i])
  {
    CollectUpdate(xs, f, i, y);
    var a, b := Collect(xs[i := y], f), Collect(xs, f);
    if f(xs[i]) == f(y) { assert a == (a + f(y)) - f(y) && b == (b + f(y)) - f(y); }
  }

  lemma CollectAppend<A(!new), T>(xs: seq<A>, f: A -> multiset<T>, y: A)
    ensures Collect(xs + [y], f) == Collect(xs, f) + f(y)
  {
    assert (xs + [y])[..|xs|] == xs;
  }

  function RequestOf(x: Ctx): multiset<Request> {
    if x.busy then multiset{x.req} else multiset{}
  }

  /** The requests the contexts are working on. */
  ghost function InFlight(cs: seq<Ctx>): multiset<Request> {
    Collect(cs, RequestOf)
  }

  /** The states from the write of the leaf on. */
  predicate Past(state: int) {
    9 <= state <= 12
  }

  /** An insertion that has written its leaf and not yet completed. */
  predicate Logged(x: Ctx) {
    x.busy && x.req.insert && Past(x.next)
  }

  function WriteOf(r: Request): Write {
    Write(r.id, r.key, r.val)
  }

  function LoggedOf(x: Ctx): multiset<Write> {
    if Logged(x) then multiset{WriteOf(x.req)} else multiset{}
  }

  function InsertOf(r: Request): multiset<Write> {
    if r.insert then multiset{WriteOf(r)} else multiset{}
  }

  /** The requests on each side of the books: all that were issued, and where they are. */
  ghost predicate Conserved(s: Sys) {
    multiset(s.issued) == multiset(s.submitting) + multiset(s.queue) + InFlight(s.ctxs) + multiset(s.done)
  }

  /** The leaf writes are those of the completed insertions and of the insertions past their leaf. */
  ghost predicate WritesMatch(s: Sys) {
    multiset(s.log) == Collect(s.ctxs, LoggedOf) + Collect(s.done, InsertOf)
  }

  /** Contexts work on requests of their own kind, and the two state fields agree on whether the leaf is written. */
  ghost predicate InStep(s: Sys, c: Cid)
    requires c < |s.ctxs|
  {
    var x := s.ctxs[c];
    && (x.busy ==> (x.req.insert <==> c < |s.ctxs| / 2))
    && Synced(x)
  }

  predicate Synced(x: Ctx) {
    x.req.insert && x.ready > 0 ==> (Past(x.state) <==> Past(x.next))
  }

  ghost predicate Books(s: Sys, slots: nat) {
    && |s.ctxs| == 2 * slots
    && (forall i {:trigger s.issued[i]} :: 0 <= i < |s.issued| ==> s.issued[i].id == i)
    && Conserved(s) && WritesMatch(s)
    && s.pending == |s.submitting| + |s.queue| + |InFlight(s.ctxs)|
    && 0 <= s.free == slots - |InFlight(s.ctxs)|
    && (forall c {:trigger InStep(s, c)} :: 0 <= c < |s.ctxs| ==> InStep(s, c))
  }

  // ---------- the effect of a step ----------

  /** A step of context `c` sets its own fields and the books, and then grants barriers. */
  ghost predicate Mid(s: Sys, c: Cid, y: Ctx, m: Sys)
    requires c < |s.ctxs|
  {
    && m.ctxs == s.ctxs[c := y]
    && m.submitting == s.submitting && m.queue == s.queue && m.issued == s.issued && m.stop == s.stop
    && Synced(y) && Entry(s, s.ctxs[c], y, m)
  }

  /** What a search reports as it ends: the answer of the node it has read. */
  predicate Tells(x: Ctx, out: seq<Report>) {
    && !x.req.insert && x.state == 2 && (x.buffer.Inner? ==> 0 < |x.buffer.keys| == |x.buffer.kids|)
    && Answer(x).Some? && out == [Report(x.req, Answer(x).value)]
  }

  /** It changes nothing in the books, logs its leaf write, or reports its request. */
  ghost predicate Entry(s: Sys, x: Ctx, y: Ctx, m: Sys) {
    && y.req == x.req
    && if y.busy then
         && m.done == s.done && m.reports == s.reports && m.pending == s.pending && m.free == s.free
         && if Logged(x) == Logged(y) then m.log == s.log
            else Logged(y) && m.log == s.log + [WriteOf(x.req)]
       else
         && m.done == s.done + [x.req] && m.pending == s.pending - 1 && m.free == s.free + 1
         && m.log == s.log && s.reports <= m.reports
         && if x.req.insert then Logged(x) && m.reports == s.reports else Tells(x, m.reports[|s.reports|..])
  }

  ghost predicate Effect(s: Sys, c: Cid, s': Sys)
    requires c < |s.ctxs|
  {
    exists y, m :: Mid(s, c, y, m) && OnlyGrants(m, s')
  }

  lemma OwnEffect(s: Sys, c: Cid, y: Ctx, m: Sys)
    requires c < |s.ctxs| && Mid(s, c, y, m)
    ensures Effect(s, c, m)
  {
    assert OnlyGrants(m, m);
  }

  ghost predicate Poised(s: Sys, c: Cid, state: int) {
    Safe(s, c) && Flow(s.ctxs[c]) && Synced(s.ctxs[c]) && s.ctxs[c].state == state
  }

  lemma AskEffect(s: Sys, c: Cid, y: Ctx, a: Addr, write: bool)
    requires c < |s.ctxs| && y.busy && y.req == s.ctxs[c].req && Synced(y)
    requires Logged(y) == Logged(s.ctxs[c]) && y.ready > 0
    ensures Effect(s, c, Acquire(s, c, y, a, write))
  {
    AcquireGrants(s, c, y, a, write);
    assert Mid(s, c, y, SetCtx(s, c, y));
  }

  lemma VisitEffect(s: Sys, c: Cid)
    requires c < |s.ctxs| && s.ctxs[c].ready > 0 && s.ctxs[c].nodeRef >= -1 && s.ctxs[c].busy
    requires Synced(s.ctxs[c]) && s.ctxs[c].state == 0 && s.ctxs[c].req.insert
    ensures Effect(s, c, Visit(s, c))
  {
    var y := Visiting(s.t, s.ctxs[c]);
    assert y.busy && y.req == s.ctxs[c].req && y.next == 10001 && y.state == 0 && y.ready > 0;
    AskEffect(s, c, y, y.nodeRef, y.WantsWrite());
  }

  lemma EnterEffect(s: Sys, c: Cid)
    requires Poised(s, c, 10001) && s.ctxs[c].req.insert
    ensures Effect(s, c, Enter(s, c))
  {
    var x := s.ctxs[c];
    var n := |x.tokens|;
    if x.referToRoot && x.tokens[n - 1].addr != s.t.root {
      LetEffect(s, c, x.(nodeRef := -1, next := 0, state := 0), n);
    } else {
      EnteredEffect(s, c);
    }
  }

  lemma EnteredEffect(s: Sys, c: Cid)
    requires Poised(s, c, 10001) && s.ctxs[c].req.insert
    requires !(s.ctxs[c].referToRoot && s.ctxs[c].tokens[|s.ctxs[c].tokens| - 1].addr != s.t.root)
    ensures Effect(s, c, Enter(s, c))
  {
    var x := s.ctxs[c];
    var n := |x.tokens|;
    var x1 := x.(referToRoot := false, next := 1, state := 1);
    if x.optimistic {
      LetEffect(s, c, x1.(held := |x.parents|), n - 1);
    } else if x.freeSlot && !x.boundary {
      LetEffect(s, c, x1.(held := if |x.parents| > 0 then |x.parents| - 1 else 0), n - 2);
    } else {
      OwnEffect(s, c, x1, SetCtx(s, c, x1));
    }
  }

  lemma LetEffect(s: Sys, c: Cid, y: Ctx, n: nat)
    requires c < |s.ctxs| && y.busy && y.req == s.ctxs[c].req && Synced(y) && Logged(y) == Logged(s.ctxs[c])
    ensures Effect(s, c, Release(SetCtx(s, c, y), c, n))
  {
    ReleaseGrants(SetCtx(s, c, y), c, n);
    assert Mid(s, c, y, SetCtx(s, c, y));
  }

  lemma FinishEffect(s: Sys, c: Cid, out: seq<Report>)
    requires c < |s.ctxs| && s.ctxs[c].ready > 0 && Synced(s.ctxs[c]) && s.ctxs[c].busy
    requires if s.ctxs[c].req.insert then s.ctxs[c].state == 11 && out == [] else Tells(s.ctxs[c], out)
    ensures Effect(s, c, Finish(s, c, out))
  {
    var x := s.ctxs[c];
    var m := Retire(s, c, out);
    ReleaseGrants(m, c, |x.tokens|);
    assert Mid(s, c, x.(busy := false, ready := x.ready - 1), m);
  }

  /** The leaf write. */
  lemma LoggedStep(s: Sys, c: Cid, y: Ctx, t: Tree)
    requires Poised(s, c, 2) && s.ctxs[c].req.insert && y.ready == 0 && y.busy && y.req == s.ctxs[c].req && Past(y.next)
    ensures Effect(s, c, SetCtx(s, c, y).(t := t, log := s.log + [WriteOf(y.req)]))
  {
    OwnEffect(s, c, y, SetCtx(s, c, y).(t := t, log := s.log + [WriteOf(y.req)]));
  }

  /** A step that keeps to its side of the leaf write. */
  lemma PlainStep(s: Sys, c: Cid, y: Ctx, t: Tree)
    requires c < |s.ctxs| && s.ctxs[c].busy && s.ctxs[c].ready > 0 && Synced(s.ctxs[c]) && s.ctxs[c].req.insert
    requires y.busy && y.req == s.ctxs[c].req && Past(y.next) == Past(s.ctxs[c].state) && Synced(y)
    ensures Effect(s, c, SetCtx(s, c, y).(t := t))
  {
    OwnEffect(s, c, y, SetCtx(s, c, y).(t := t));
  }

  lemma PutEffect(s: Sys, c: Cid, x: Ctx)
    requires Poised(s, c, 2) && x == s.ctxs[c] && x.req.insert && x.buffer.Leaf?
    ensures Effect(s, c, PutInLeaf(s, c, x))
  {
    var node := Leaf(Put(x.buffer.entries, x.req.key, x.req.val), x.buffer.next);
    LoggedStep(s, c, Flushing(x.(childSplit := false), 10, 1), PutLeaf(s.t, x.nodeRef, node));
  }

  lemma CutEffect(s: Sys, c: Cid, x: Ctx)
    requires Poised(s, c, 2) && x == s.ctxs[c] && x.req.insert && x.buffer.Leaf? && |x.buffer.entries| == s.t.cap
    ensures Effect(s, c, SplitLeaf(s, c, x))
  {
    LoggedStep(s, c, SplitLeaf(s, c, x).ctxs[c], SplitLeaf(s, c, x).t);
  }

  lemma LeafEffect(s: Sys, c: Cid)
    requires Poised(s, c, 2) && s.ctxs[c].req.insert && s.ctxs[c].buffer.Leaf?
    ensures Effect(s, c, InsertLeaf(s, c))
  {
    var x := s.ctxs[c];
    if x.optimistic && |x.buffer.entries| == s.t.cap { GiveUpEffect(s, c); }
    else if Found(x.buffer.entries, x.req.key) || |x.buffer.entries| < s.t.cap { PutEffect(s, c, x); }
    else { CutEffect(s, c, x); }
  }

  lemma GiveUpEffect(s: Sys, c: Cid)
    requires Poised(s, c, 2) && s.ctxs[c].req.insert
    ensures Effect(s, c, GiveUp(s, c))
  {
    OwnEffect(s, c, s.ctxs[c].(state := 13, next := 13), GiveUp(s, c));
  }

  lemma DescendEffect(s: Sys, c: Cid)
    requires Poised(s, c, 2) && s.ctxs[c].req.insert && s.ctxs[c].buffer.Inner?
    ensures Effect(s, c, Descend(s, c))
  {
    var x := s.ctxs[c];
    if Locate(x.buffer.keys, x.req.key) < 0 && x.optimistic { GiveUpEffect(s, c); }
    else { PlainStep(s, c, Descend(s, c).ctxs[c], s.t); }
  }

  lemma FetchEffect(s: Sys, c: Cid)
    requires Poised(s, c, 1) && s.ctxs[c].req.insert
    ensures Effect(s, c, Fetch(s, c))
  {
    PlainStep(s, c, Fetch(s, c).ctxs[c], s.t);
  }

  lemma OneWrittenEffect(s: Sys, c: Cid)
    requires c < |s.ctxs| && s.ctxs[c].busy && s.ctxs[c].ready > 0 && Synced(s.ctxs[c]) && s.ctxs[c].req.insert
    requires Flow(s.ctxs[c]) && (s.ctxs[c].state == 10 || s.ctxs[c].state == 12)
    ensures Effect(s, c, SetCtx(s, c, OneWritten(s.ctxs[c])))
  {
    PlainStep(s, c, OneWritten(s.ctxs[c]), s.t);
  }

  lemma WaitEffect(s: Sys, c: Cid)
    requires Poised(s, c, 10) && s.ctxs[c].req.insert
    ensures Effect(s, c, WriteDone(s, c))
  {
    var x := s.ctxs[c];
    if x.wbCount + 1 == x.wbTarget { PlainStep(s, c, x.(wbCount := x.wbCount + 1, state := 9, next := 9), s.t); }
    else { OneWrittenEffect(s, c); }
  }

  lemma PublishEffect(s: Sys, c: Cid)
    requires Poised(s, c, 12) && s.ctxs[c].req.insert && s.ctxs[c].ready == 1
    ensures Effect(s, c, PublishRoot(s, c))
  {
    PlainStep(s, c, Flushing(s.ctxs[c].(childSplit := false), 11, 1), PublishRoot(s, c).t);
  }

  lemma GrowEffect(s: Sys, c: Cid)
    requires Poised(s, c, 12) && s.ctxs[c].req.insert
    ensures Effect(s, c, GrowRoot(s, c))
  {
    var x := s.ctxs[c];
    if x.wbCount + 1 == x.wbTarget { PublishEffect(s, c); } else { OneWrittenEffect(s, c); }
  }

  lemma FlushEffect(s: Sys, c: Cid)
    requires Poised(s, c, 9) && s.ctxs[c].req.insert && !s.ctxs[c].childSplit
    ensures Effect(s, c, FlushParent(s, c))
  {
    var ps := DropClean(s.ctxs[c].parents);
    if ps == [] { PlainStep(s, c, s.ctxs[c].(parents := [], state := 11, next := 11), s.t); }
    else { WriteParentEffect(s, c, ps); }
  }

  lemma WriteParentEffect(s: Sys, c: Cid, ps: seq<Parent>)
    requires Poised(s, c, 9) && s.ctxs[c].req.insert && !s.ctxs[c].childSplit
    requires ps == DropClean(s.ctxs[c].parents) && ps != []
    ensures Effect(s, c, FlushParent(s, c))
  {
    var x := s.ctxs[c];
    var p := ps[|ps| - 1];
    assert p == x.parents[|ps| - 1];
    var y := Flushing(x.(parents := ps[..|ps| - 1]), 10, 1);
    var m := SetCtx(s, c, y).(t := Absorb(s.t, p.addr, p.node));
    assert FlushParent(s, c) == m;
    PlainStep(s, c, y, m.t);
  }

  lemma LinkEffect(s: Sys, c: Cid)
    requires Poised(s, c, 9) && s.ctxs[c].req.insert && s.ctxs[c].childSplit
    requires |s.ctxs[c].parents[|s.ctxs[c].parents| - 1].node.keys| < s.t.cap
    ensures Effect(s, c, LinkChild(s, c))
  {
    PlainStep(s, c, LinkChild(s, c).ctxs[c], LinkChild(s, c).t);
  }

  lemma SplitEffect(s: Sys, c: Cid, n: nat, left: Node, right: Node)
    requires Poised(s, c, 9) && s.ctxs[c].req.insert && n < |s.ctxs[c].parents|
    requires Live(s.t, s.ctxs[c].parents[n].addr) && left.Inner? && right.Inner? && |right.keys| > 0
    ensures Effect(s, c, SplitAtParent(s, c, s.ctxs[c], n, left, right))
  {
    var m := SplitAtParent(s, c, s.ctxs[c], n, left, right);
    PlainStep(s, c, m.ctxs[c], m.t);
  }

  lemma RiseEffect(s: Sys, c: Cid)
    requires Poised(s, c, 9) && s.ctxs[c].req.insert && s.ctxs[c].childSplit
    ensures Effect(s, c, RunInsert(s, c))
  {
    var x := s.ctxs[c];
    var n := |x.parents| - 1;
    if |x.parents[n].node.keys| < s.t.cap { LinkEffect(s, c); }
    else {
      var h := ParentHalves(x.parents[n], x.split.key, x.split.right, s.t.cap);
      SplitEffect(s, c, n, h.0, h.1);
    }
  }

  lemma SearchFetchEffect(s: Sys, c: Cid)
    requires Poised(s, c, 1) && !s.ctxs[c].req.insert
    ensures Effect(s, c, SearchFetch(s, c))
  {
    var x := s.ctxs[c];
    LetEffect(s, c, x.(next := 2, buffer := s.t.store[x.nodeRef], io := x.io + 1, ready := x.ready - 1), Surplus(x));
  }

  lemma SearchReadEffect(s: Sys, c: Cid)
    requires Poised(s, c, 2) && !s.ctxs[c].req.insert
    ensures Effect(s, c, SearchRead(s, c))
  {
    var x := s.ctxs[c];
    if Answer(x).Some? { FinishEffect(s, c, [Report(x.req, Answer(x).value)]); }
    else {
      var y := x.(nodeRef := x.buffer.kids[Locate(x.buffer.keys, x.req.key)], next := 0, state := 0);
      OwnEffect(s, c, y, SetCtx(s, c, y));
    }
  }

  lemma SearchEffect(s: Sys, c: Cid)
    requires c < |s.ctxs| && Poised(s, c, s.ctxs[c].state) && !s.ctxs[c].req.insert
    ensures Effect(s, c, RunSearch(s, c))
  {
    var x := s.ctxs[c];
    if x.state == 0 { AskEffect(s, c, x.(next := 1), x.nodeRef, false); }
    else if x.state == 1 { SearchFetchEffect(s, c); }
    else { SearchReadEffect(s, c); }
  }

  lemma RetryEffect(s: Sys, c: Cid)
    requires Poised(s, c, 13) && s.ctxs[c].req.insert
    ensures Effect(s, c, Retry(s, c))
  {
    var x := s.ctxs[c];
    LetEffect(s, c, x.(optimistic := false, freeSlot := false, referToRoot := false, nextLeaf := s.t.depth == 1,
                       level := s.t.depth, nodeRef := -1, next := 0, state := 0, held := |x.parents|), |x.tokens|);
  }

  lemma RunEffect(s: Sys, c: Cid)
    requires Safe(s, c) && Flow(s.ctxs[c]) && Synced(s.ctxs[c])
    ensures Effect(s, c, Run(s, c))
  {
    var x := s.ctxs[c];
    if !x.req.insert { SearchEffect(s, c); }
    else if x.state == 0 { VisitEffect(s, c); }
    else if x.state == 10001 { EnterEffect(s, c); }
    else if x.state == 1 { FetchEffect(s, c); }
    else if x.state == 2 { if x.buffer.Leaf? { LeafEffect(s, c); } else { DescendEffect(s, c); } }
    else if x.state == 9 { if x.childSplit { RiseEffect(s, c); } else { FlushEffect(s, c); } }
    else if x.state == 11 { FinishEffect(s, c, []); }
    else if x.state == 13 { RetryEffect(s, c); }
    else if x.state == 10 { WaitEffect(s, c); }
    else { GrowEffect(s, c); }
  }

  // ---------- every event keeps the books ----------

  lemma SyncedNudge(x: Ctx, y: Ctx)
    requires Synced(x) && Nudged(x, y)
    ensures Synced(y)
  {
  }

  lemma GrantsKeep(s: Sys, s': Sys, slots: nat)
    requires Books(s, slots) && OnlyGrants(s, s')
    ensures Books(s', slots)
  {
    forall i | 0 <= i < |s.ctxs|
      ensures RequestOf(s.ctxs[i]) == RequestOf(s'.ctxs[i]) && LoggedOf(s.ctxs[i]) == LoggedOf(s'.ctxs[i])
    {
      assert Nudged(s.ctxs[i], s'.ctxs[i]);
    }
    CollectSame(s.ctxs, s'.ctxs, RequestOf);
    CollectSame(s.ctxs, s'.ctxs, LoggedOf);
    forall c | 0 <= c < |s'.ctxs| ensures InStep(s', c) {
      assert InStep(s, c);
      SyncedNudge(s.ctxs[c], s'.ctxs[c]);
    }
  }

  lemma MidConserved(s: Sys, c: Cid, y: Ctx, m: Sys, slots: nat)
    requires Books(s, slots) && c < |s.ctxs| && s.ctxs[c].busy && Mid(s, c, y, m)
    ensures Conserved(m)
    ensures m.pending == |m.submitting| + |m.queue| + |InFlight(m.ctxs)| && m.free == slots - |InFlight(m.ctxs)|
  {
    var x := s.ctxs[c];
    CollectMove(s.ctxs, RequestOf, c, y);
    if y.busy {
      assert InFlight(m.ctxs) == InFlight(s.ctxs);
    } else {
      assert InFlight(s.ctxs) == InFlight(m.ctxs) + multiset{x.req};
      assert multiset(m.done) == multiset(s.done) + multiset{x.req};
    }
  }

  lemma MidWrites(s: Sys, c: Cid, y: Ctx, m: Sys)
    requires WritesMatch(s) && c < |s.ctxs| && s.ctxs[c].busy && Mid(s, c, y, m)
    ensures WritesMatch(m)
  {
    var x := s.ctxs[c];
    CollectMove(s.ctxs, LoggedOf, c, y);
    if !y.busy { MidFinishes(s, c, y, m); }
    else if Logged(x) == Logged(y) { assert LoggedOf(x) == LoggedOf(y); }
    else { assert multiset(m.log) == multiset(s.log) + multiset{WriteOf(x.req)}; }
  }

  lemma MidFinishes(s: Sys, c: Cid, y: Ctx, m: Sys)
    requires WritesMatch(s) && c < |s.ctxs| && s.ctxs[c].busy && Mid(s, c, y, m) && !y.busy
    requires Collect(s.ctxs, LoggedOf) == Collect(m.ctxs, LoggedOf) + LoggedOf(s.ctxs[c])
    ensures WritesMatch(m)
  {
    CollectAppend(s.done, InsertOf, s.ctxs[c].req);
    assert InsertOf(s.ctxs[c].req) == LoggedOf(s.ctxs[c]);
  }

  lemma MidKeeps(s: Sys, c: Cid, y: Ctx, m: Sys, slots: nat)
    requires Books(s, slots) && c < |s.ctxs| && s.ctxs[c].busy && Mid(s, c, y, m)
    ensures Books(m, slots)
  {
    MidConserved(s, c, y, m, slots);
    MidWrites(s, c, y, m);
    forall d | 0 <= d < |m.ctxs| ensures InStep(m, d) { assert InStep(s, d) && InStep(s, c); }
  }

  lemma RunBooks(s: Sys, c: Cid, slots: nat)
    requires Core(s) && Books(s, slots) && c < |s.ctxs| && s.ctxs[c].ready > 0 && Safe(s, c)
    ensures Books(Run(s, c), slots)
  {
    assert Look(s, 0);
    assert CtxOk(s, c) && InStep(s, c);
    RunEffect(s, c);
    var y, m :| Mid(s, c, y, m) && OnlyGrants(m, Run(s, c));
    MidKeeps(s, c, y, m, slots);
    GrantsKeep(m, Run(s, c), slots);
  }

  lemma AnnounceBooks(s: Sys, insert: bool, key: Key, val: Val, slots: nat)
    requires Books(s, slots)
    ensures Books(Announce(s, insert, key, val), slots)
  {
    var s' := Announce(s, insert, key, val);
    forall c | 0 <= c < |s'.ctxs| ensures InStep(s', c) { assert InStep(s, c); }
  }

  lemma RemoveAt<T>(xs: seq<T>, i: nat)
    requires i < |xs|
    ensures multiset(xs) == multiset(xs[..i] + xs[i + 1..]) + multiset{xs[i]}
  {
    assert xs == xs[..i] + [xs[i]] + xs[i + 1..];
  }

  lemma PushBooks(s: Sys, i: nat, slots: nat)
    requires Books(s, slots) && i < |s.submitting|
    ensures Books(Push(s, i), slots)
  {
    var s' := Push(s, i);
    RemoveAt(s.submitting, i);
    forall c | 0 <= c < |s'.ctxs| ensures InStep(s', c) { assert InStep(s, c); }
  }

  lemma PopFront<T>(q: seq<T>)
    requires q != []
    ensures multiset(q) == multiset(q[1..]) + multiset{q[0]}
  {
    assert q == [q[0]] + q[1..];
  }

  lemma BusyAdds(cs: seq<Ctx>, c: Cid, y: Ctx)
    requires c < |cs| && !cs[c].busy && y.busy
    ensures InFlight(cs[c := y]) == InFlight(cs) + multiset{y.req}
  {
    CollectMove(cs, RequestOf, c, y);
  }

  lemma AdmitConserved(sub: seq<Request>, q: seq<Request>, cs: seq<Ctx>, done: seq<Request>, c: Cid, y: Ctx)
    requires c < |cs| && !cs[c].busy && q != [] && y.busy && y.req == q[0]
    ensures multiset(sub) + multiset(q) + InFlight(cs) + multiset(done)
         == multiset(sub) + multiset(q[1..]) + InFlight(cs[c := y]) + multiset(done)
    ensures |InFlight(cs[c := y])| == |InFlight(cs)| + 1
  {
    PopFront(q);
    BusyAdds(cs, c, y);
    Shift(multiset(sub), multiset(q), InFlight(cs), multiset(done), multiset(q[1..]), InFlight(cs[c := y]), q[0]);
  }

  lemma Shift<T>(a: multiset<T>, q: multiset<T>, f: multiset<T>, d: multiset<T>, q': multiset<T>, f': multiset<T>, r: T)
    requires q == q' + multiset{r} && f' == f + multiset{r}
    ensures a + q + f + d == a + q' + f' + d && |q| == |q'| + 1 && |f'| == |f| + 1
  {
  }

  lemma AdmitBooks(s: Sys, c: Cid, slots: nat)
    requires Books(s, slots) && CanAdmit(s, c)
    ensures Books(Admit(s, c), slots)
  {
    var s' := Admit(s, c);
    var y := Fresh(s, s.ctxs[c], s.queue[0]);
    AdmitConserved(s.submitting, s.queue, s.ctxs, s.done, c, y);
    CollectMove(s.ctxs, LoggedOf, c, y);
    forall d | 0 <= d < |s'.ctxs| ensures InStep(s', d) { assert InStep(s, d); }
  }

  lemma CompleteBooks(s: Sys, c: Cid, slots: nat)
    requires Books(s, slots) && c < |s.ctxs| && s.ctxs[c].io > 0
    ensures Books(Complete(s, c), slots)
  {
    NudgeOne(s, Complete(s, c), c, Complete(s, c).ctxs[c]);
    GrantsKeep(s, Complete(s, c), slots);
  }

  lemma NextBooks(s: Sys, e: Event, slots: nat)
    requires Core(s) && Books(s, slots) && Enabled(s, e)
    ensures Books(After(s, e), slots)
  {
    match e
    case Announced(insert, key, val) => AnnounceBooks(s, insert, key, val, slots);
    case Pushed(i) => PushBooks(s, i, slots);
    case Admitted(c) => AdmitBooks(s, c, slots);
    case Completed(c) => CompleteBooks(s, c, slots);
    case Ran(c) => RunBooks(s, c, slots);
    case Stopped =>
      forall c | 0 <= c < |s.ctxs| ensures InStep(s.(stop := true), c) { assert InStep(s, c); }
  }

  lemma StepBooks(s: Sys, s': Sys, slots: nat)
    requires Core(s) && Books(s, slots) && Next(s, s')
    ensures Books(s', slots)
  {
    var e :| Enabled(s, e) && s' == After(s, e);
    NextBooks(s, e, slots);
  }

  lemma {:induction false} IdleEmpty<T>(cs: seq<Ctx>, f: Ctx -> multiset<T>)
    requires forall c {:trigger cs[c]} :: 0 <= c < |cs| ==> f(cs[c]) == multiset{}
    ensures Collect(cs, f) == multiset{}
  {
    if cs != [] { IdleEmpty(cs[..|cs| - 1], f); }
  }

  lemma InitBooks(s: Sys, cap: nat, slots: nat)
    requires Init(s, cap, slots)
    ensures Books(s, slots)
  {
    forall c | 0 <= c < |s.ctxs|
      ensures RequestOf(s.ctxs[c]) == multiset{} && LoggedOf(s.ctxs[c]) == multiset{} && InStep(s, c)
    {
      assert IdleCtx(s.ctxs[c]);
    }
    IdleEmpty(s.ctxs, RequestOf);
    IdleEmpty(s.ctxs, LoggedOf);
  }

  /** The books balance in every state of every run. */
  lemma {:induction false} RunsKeepBooks(tr: seq<Sys>, cap: nat, slots: nat, i: nat)
    requires IsRun(tr, cap, slots) && i < |tr|
    ensures Books(tr[i], slots)
    decreases i
  {
    if i == 0 {
      InitBooks(tr[0], cap, slots);
    } else {
      var j := i - 1;
      RunsKeepBooks(tr, cap, slots, j);
      RunsKeepCore(tr, cap, slots, j);
      StepBooks(tr[j], tr[j + 1], slots);
    }
  }

  // ---------- what the books say ----------

  lemma {:induction false} InFlightHas(cs: seq<Ctx>, c: Cid)
    requires c < |cs| && cs[c].busy
    ensures cs[c].req in InFlight(cs)
  {
    var n := |cs| - 1;
    if c < n {
      assert cs[..n][c] == cs[c];
      InFlightHas(cs[..n], c);
    }
  }

  /** The insertion whose leaf write is `w`. */
  function InsertionOf(w: Write): Request {
    Request(w.id, true, w.key, w.val)
  }

  lemma {:induction false} DoneWrites(rs: seq<Request>, w: Write)
    ensures Collect(rs, InsertOf)[w] == multiset(rs)[InsertionOf(w)]
  {
    if rs != [] {
      DoneWrites(rs[..|rs| - 1], w);
      assert rs == rs[..|rs| - 1] + [rs[|rs| - 1]];
    }
  }

  lemma {:induction false} FlightWrites(cs: seq<Ctx>, w: Write)
    ensures Collect(cs, LoggedOf)[w] <= InFlight(cs)[InsertionOf(w)]
  {
    if cs != [] { FlightWrites(cs[..|cs| - 1], w); }
  }

  lemma {:induction false} IssuedOnce(rs: seq<Request>, r: Request)
    requires forall i {:trigger rs[i]} :: 0 <= i < |rs| ==> rs[i].id == i
    ensures multiset(rs)[r] == if r in rs then 1 else 0
  {
    if rs != [] {
      var n := |rs| - 1;
      IssuedOnce(rs[..n], r);
      assert rs == rs[..n] + [rs[n]];
      assert r == rs[n] ==> r !in rs[..n];
    }
  }

  /** Every request that was issued is in exactly one place, once, and no other request is anywhere. */
  lemma OnePlace(s: Sys, slots: nat, r: Request)
    requires Books(s, slots)
    ensures multiset(s.submitting)[r] + multiset(s.queue)[r] + InFlight(s.ctxs)[r] + multiset(s.done)[r]
         == if r in s.issued then 1 else 0
  {
    IssuedOnce(s.issued, r);
  }

  /** No leaf write happens twice, and a completed insertion has made its own. */
  lemma OneWrite(s: Sys, slots: nat, w: Write)
    requires Books(s, slots)
    ensures multiset(s.log)[w] <= 1
    ensures InsertionOf(w) in s.done ==> multiset(s.log)[w] == 1
    ensures InsertionOf(w) !in s.issued ==> w !in s.log
  {
    DoneWrites(s.done, w);
    FlightWrites(s.ctxs, w);
    OnePlace(s, slots, InsertionOf(w));
  }

  /** `pending` never goes negative, and it is 0 only when every request ever issued has completed: then nothing is in
      flight, and the leaf writes are exactly the issued insertions. So the scheduler stops with nothing outstanding. */
  lemma AllDone(s: Sys, slots: nat)
    requires Books(s, slots)
    ensures s.pending >= 0
    ensures s.pending == 0 ==>
              && (forall c {:trigger s.ctxs[c]} :: 0 <= c < |s.ctxs| ==> !s.ctxs[c].busy)
              && multiset(s.done) == multiset(s.issued)
              && forall w {:trigger multiset(s.log)[w]} :: multiset(s.log)[w] == multiset(s.issued)[InsertionOf(w)]
  {
    if s.pending == 0 {
      assert s.submitting == [] && s.queue == [] && InFlight(s.ctxs) == multiset{};
      forall c | 0 <= c < |s.ctxs| ensures !s.ctxs[c].busy {
        if s.ctxs[c].busy { InFlightHas(s.ctxs, c); }
      }
      forall w ensures multiset(s.log)[w] == multiset(s.issued)[InsertionOf(w)] {
        DoneWrites(s.done, w);
        FlightWrites(s.ctxs, w);
      }
    }
  }

  lemma {:induction false} AllBusy(cs: seq<Ctx>, lo: nat, hi: nat)
    requires lo <= hi <= |cs| && forall c {:trigger cs[c]} :: lo <= c < hi ==> cs[c].busy
    ensures |InFlight(cs)| >= hi - lo
  {
    if lo < hi {
      var n := |cs| - 1;
      if hi <= n { AllBusy(cs[..n], lo, hi); } else { AllBusy(cs[..n], lo, n); }
    }
  }

  /** The pools never run dry: when a slot is counted free, a context of the right kind is free. */
  lemma PoolHasOne(s: Sys, slots: nat)
    requires Books(s, slots) && s.queue != [] && s.free > 0
    ensures exists c :: CanAdmit(s, c)
  {
    var lo, hi := if s.queue[0].insert then 0 else slots, if s.queue[0].insert then slots else 2 * slots;
    if forall c {:trigger s.ctxs[c]} :: lo <= c < hi ==> s.ctxs[c].busy {
      AllBusy(s.ctxs, lo, hi);
    } else {
      var c :| lo <= c < hi && !s.ctxs[c].busy;
      assert CanAdmit(s, c);
    }
  }
}
