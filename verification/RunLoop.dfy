/** The loops of the scheduler: running a context until it has to wait, admitting requests, processing a batch. */
module RunLoop {
  import opened Nodes
  import opened TreeState
  import opened Contexts
  import opened Steps
  import opened Invariants
  import opened Exclusion
  import opened Releases
  import opened Scheduler
  import opened DescentSteps
  import opened Ledger
  import opened Paths

  // ---------- what releasing barriers leaves alone ----------

  ghost predicate Unqueued(s: Sys, c: Cid) {
    c < |s.ctxs| && forall a {:trigger Bar(s, a)} :: !InQueue(Bar(s, a).queue, c)
  }

  ghost predicate ReadyGrows(s: Sys, s': Sys) {
    |s'.ctxs| == |s.ctxs| && forall d {:trigger s'.ctxs[d]} :: 0 <= d < |s.ctxs| ==> s'.ctxs[d].ready >= s.ctxs[d].ready
  }

  lemma FireSelf(s: Sys, a: Addr, c: Cid)
    requires Unqueued(s, c) && Offerable(s, a)
    ensures ReadyGrows(s, Fire(s, a)) && Fire(s, a).ctxs[c] == s.ctxs[c] && Unqueued(Fire(s, a), c)
  {
    var s' := Fire(s, a);
    var q := Bar(s, a).queue;
    assert !InQueue(q, c) && q[0].cid != c;
    forall b ensures !InQueue(Bar(s', b).queue, c) {
      assert !InQueue(Bar(s, b).queue, c);
      if b == a {
        forall i | 0 <= i < |q[1..]| ensures q[1..][i].cid != c { assert q[1..][i] == q[i + 1]; }
      }
    }
  }

  lemma {:induction false} OfferSelf(s: Sys, a: Addr, c: Cid)
    requires Unqueued(s, c)
    ensures ReadyGrows(s, Offer(s, a)) && Offer(s, a).ctxs[c] == s.ctxs[c] && Unqueued(Offer(s, a), c)
    decreases |Bar(s, a).queue|
  {
    if Offerable(s, a) {
      FireSelf(s, a, c);
      OfferSelf(Fire(s, a), a, c);
    }
  }

  lemma {:induction false} ReleaseSelf(s: Sys, c: Cid, n: nat)
    requires Unqueued(s, c) && n <= |s.ctxs[c].tokens|
    ensures ReadyGrows(s, Release(s, c, n)) && Release(s, c, n).ctxs[c] == s.ctxs[c].(tokens := s.ctxs[c].tokens[n..])
    decreases n
  {
    if n > 0 {
      var s1 := Drop(s, c, n - 1);
      var a := s.ctxs[c].tokens[n - 1].addr;
      assert Unqueued(s1, c) by {
        forall b ensures !InQueue(Bar(s1, b).queue, c) { assert !InQueue(Bar(s, b).queue, c); }
      }
      OfferSelf(s1, a, c);
      ReleaseSelf(Offer(s1, a), c, n - 1);
      assert s1.ctxs[c].tokens[n - 1..] == s.ctxs[c].tokens[n..];
    } else {
      assert s.ctxs[c].tokens[0..] == s.ctxs[c].tokens;
    }
  }

  lemma ReadyUnqueued(s: Sys, c: Cid)
    requires Core(s) && c < |s.ctxs| && s.ctxs[c].ready > 0
    ensures Unqueued(s, c) && !s.ctxs[c].waiting && s.ctxs[c].busy
  {
    assert Look(s, 0);
    assert CtxOk(s, c);
    forall a ensures !InQueue(Bar(s, a).queue, c) {
      var q := Bar(s, a).queue;
      assert QueueOk(s, a);
      forall i | 0 <= i < |q| ensures q[i].cid != c { assert WaitOk(s, a, q[i]); }
    }
  }

  // ---------- every step gets closer to a wait ----------

  /** How far a context is from having to wait. */
  function Rank(t: Tree, x: Ctx): nat {
    if !x.req.insert then (if x.state == 2 then 3 else if x.state == 0 then 2 else 1)
    else if x.state == 2 then 6
    else if x.state == 13 || x.state == 10 then 5
    else if x.state == 9 || (x.state == 10001 && Moved(t, x)) then 4
    else if x.state == 0 then 3
    else if x.state == 10001 then 2
    else 1
  }

  predicate Moved(t: Tree, x: Ctx) {
    x.referToRoot && |x.tokens| > 0 && x.tokens[|x.tokens| - 1].addr != t.root
  }

  /** A step from `x` to `y` ends with the context waiting for something, or it is closer to that. */
  predicate Nearer(t: Tree, x: Ctx, t': Tree, y: Ctx) {
    y.ready == x.ready - 1 || (y.ready == x.ready && Rank(t', y) < Rank(t, x))
  }

  ghost predicate Closer(s: Sys, c: Cid, s': Sys)
    requires c < |s.ctxs|
  {
    && |s'.ctxs| == |s.ctxs| && Nearer(s.t, s.ctxs[c], s'.t, s'.ctxs[c])
    && forall d {:trigger s'.ctxs[d]} :: 0 <= d < |s.ctxs| && d != c ==> s'.ctxs[d].ready >= s.ctxs[d].ready
  }

  lemma OwnCloser(s: Sys, c: Cid, y: Ctx, s': Sys)
    requires c < |s.ctxs| && s'.ctxs == s.ctxs[c := y] && Nearer(s.t, s.ctxs[c], s'.t, y)
    ensures Closer(s, c, s')
  {
  }

  lemma LetCloser(s: Sys, c: Cid, y: Ctx, y': Ctx, m: Sys, n: nat)
    requires Unqueued(s, c) && m.bars == s.bars && m.ctxs == s.ctxs[c := y] && n <= |y.tokens|
    requires y' == y.(tokens := y.tokens[n..]) && Nearer(s.t, s.ctxs[c], m.t, y')
    ensures Closer(s, c, Release(m, c, n))
  {
    assert Unqueued(m, c) by {
      forall b ensures !InQueue(Bar(m, b).queue, c) { assert !InQueue(Bar(s, b).queue, c); }
    }
    ReleaseSelf(m, c, n);
    ReleaseGrants(m, c, n);
  }

  lemma AskCloser(s: Sys, c: Cid, x: Ctx, g: Ctx, a: Addr, write: bool)
    requires c < |s.ctxs| && x.ready > 0 && x.ready == s.ctxs[c].ready
    requires g == Granted(s.t, x, a, write) && Rank(s.t, g) < Rank(s.t, s.ctxs[c])
    ensures Closer(s, c, Acquire(s, c, x, a, write))
  {
    if Grantable(Bar(s, a), write) { OwnCloser(s, c, g, Grant(s, c, x, a, write)); }
    else { OwnCloser(s, c, x.(waiting := true, ready := x.ready - 1), Enqueue(s, c, x, a, write)); }
  }

  lemma VisitRank(t: Tree, x: Ctx, y: Ctx, g: Ctx)
    requires x.req.insert && x.state == 0 && Asking(t, x) && y == Visiting(t, x)
    requires g == Granted(t, y, y.nodeRef, y.WantsWrite())
    ensures Rank(t, g) < Rank(t, x)
  {
  }

  lemma VisitCloser(s: Sys, c: Cid)
    requires Runs(s, c, 0)
    ensures Safe(s, c) && Closer(s, c, Visit(s, c))
  {
    Opened(s, c, 0);
    var y := Visiting(s.t, s.ctxs[c]);
    var g := Granted(s.t, y, y.nodeRef, y.WantsWrite());
    VisitRank(s.t, s.ctxs[c], y, g);
    AskCloser(s, c, y, g, y.nodeRef, y.WantsWrite());
  }

  lemma EnterCloser(s: Sys, c: Cid)
    requires Unqueued(s, c) && Safe(s, c) && s.ctxs[c].req.insert && s.ctxs[c].state == 10001
    ensures Closer(s, c, Enter(s, c))
  {
    var x := s.ctxs[c];
    var n := |x.tokens|;
    if x.referToRoot && x.tokens[n - 1].addr != s.t.root {
      var y := x.(nodeRef := -1, next := 0, state := 0);
      LetCloser(s, c, y, y.(tokens := y.tokens[n..]), SetCtx(s, c, y), n);
    } else {
      EnteredCloser(s, c);
    }
  }

  lemma EnteredCloser(s: Sys, c: Cid)
    requires Unqueued(s, c) && Safe(s, c) && s.ctxs[c].req.insert && s.ctxs[c].state == 10001
    requires !(s.ctxs[c].referToRoot && s.ctxs[c].tokens[|s.ctxs[c].tokens| - 1].addr != s.t.root)
    ensures Closer(s, c, Enter(s, c))
  {
    var x := s.ctxs[c];
    var x1 := x.(referToRoot := false, next := 1, state := 1);
    if x.optimistic {
      KeepCloser(s, c, x, x1.(held := |x.parents|), 1);
    } else {
      PessimistCloser(s, c, x, x1);
    }
  }

  lemma PessimistCloser(s: Sys, c: Cid, x: Ctx, x1: Ctx)
    requires Unqueued(s, c) && Safe(s, c) && x == s.ctxs[c] && x.req.insert && x.state == 10001 && !x.optimistic
    requires !(x.referToRoot && x.tokens[|x.tokens| - 1].addr != s.t.root)
    requires x1 == x.(referToRoot := false, next := 1, state := 1)
    ensures Closer(s, c, Enter(s, c))
  {
    if x.freeSlot && !x.boundary {
      KeepCloser(s, c, x, x1.(held := if |x.parents| > 0 then |x.parents| - 1 else 0), 2);
    } else {
      OwnCloser(s, c, x1, SetCtx(s, c, x1));
    }
  }

  /** Entering a node, all tokens but the last `k` are given back. */
  lemma KeepCloser(s: Sys, c: Cid, x: Ctx, y: Ctx, k: nat)
    requires Unqueued(s, c) && Safe(s, c) && x == s.ctxs[c] && x.req.insert && x.state == 10001 && k <= |x.tokens|
    requires y == x.(referToRoot := false, next := 1, state := 1, held := y.held) && (k == 1 || k == 2)
    ensures Closer(s, c, Release(SetCtx(s, c, y), c, |x.tokens| - k))
  {
    LetCloser(s, c, y, y.(tokens := y.tokens[|x.tokens| - k..]), SetCtx(s, c, y), |x.tokens| - k);
  }

  lemma FinishCloser(s: Sys, c: Cid, out: seq<Report>)
    requires Unqueued(s, c) && s.ctxs[c].ready > 0
    ensures Closer(s, c, Finish(s, c, out))
  {
    var x := s.ctxs[c];
    var y := x.(busy := false, ready := x.ready - 1);
    LetCloser(s, c, y, y.(tokens := y.tokens[|x.tokens|..]), Retire(s, c, out), |x.tokens|);
  }

  lemma RetryCloser(s: Sys, c: Cid)
    requires Unqueued(s, c) && s.ctxs[c].req.insert && s.ctxs[c].state == 13
    ensures Closer(s, c, Retry(s, c))
  {
    var x := s.ctxs[c];
    var y := x.(optimistic := false, freeSlot := false, referToRoot := false, nextLeaf := s.t.depth == 1,
                level := s.t.depth, nodeRef := -1, next := 0, state := 0, held := |x.parents|);
    LetCloser(s, c, y, y.(tokens := y.tokens[|x.tokens|..]), SetCtx(s, c, y), |x.tokens|);
  }

  lemma SearchFetchCloser(s: Sys, c: Cid)
    requires Unqueued(s, c) && s.ctxs[c].ready > 0 && Live(s.t, s.ctxs[c].nodeRef)
    ensures Closer(s, c, SearchFetch(s, c))
  {
    var x := s.ctxs[c];
    var y := x.(next := 2, buffer := s.t.store[x.nodeRef], io := x.io + 1, ready := x.ready - 1);
    LetCloser(s, c, y, y.(tokens := y.tokens[Surplus(x)..]), SetCtx(s, c, y), Surplus(x));
  }

  lemma SearchReadCloser(s: Sys, c: Cid)
    requires Unqueued(s, c) && Safe(s, c) && !s.ctxs[c].req.insert && s.ctxs[c].state == 2
    ensures Closer(s, c, SearchRead(s, c))
  {
    var x := s.ctxs[c];
    if Answer(x).Some? { FinishCloser(s, c, [Report(x.req, Answer(x).value)]); }
    else {
      var y := x.(nodeRef := x.buffer.kids[Locate(x.buffer.keys, x.req.key)], next := 0, state := 0);
      OwnCloser(s, c, y, SetCtx(s, c, y));
    }
  }

  lemma SearchCloser(s: Sys, c: Cid)
    requires Unqueued(s, c) && Safe(s, c) && !s.ctxs[c].req.insert
    ensures Closer(s, c, RunSearch(s, c))
  {
    var x := s.ctxs[c];
    if x.state == 0 { AskCloser(s, c, x.(next := 1), Granted(s.t, x.(next := 1), x.nodeRef, false), x.nodeRef, false); }
    else if x.state == 1 { SearchFetchCloser(s, c); }
    else { SearchReadCloser(s, c); }
  }

  lemma PutCloser(s: Sys, c: Cid, x: Ctx)
    requires c < |s.ctxs| && x == s.ctxs[c] && x.ready > 0 && Live(s.t, x.nodeRef) && x.buffer.Leaf?
    ensures Closer(s, c, PutInLeaf(s, c, x))
  {
    OwnCloser(s, c, Flushing(x.(childSplit := false), 10, 1), PutInLeaf(s, c, x));
  }

  lemma CutCloser(s: Sys, c: Cid, x: Ctx)
    requires c < |s.ctxs| && x == s.ctxs[c] && x.ready > 0 && Live(s.t, x.nodeRef) && |s.t.fence| == |s.t.store|
    requires x.buffer.Leaf? && 2 <= s.t.cap == |x.buffer.entries|
    ensures Closer(s, c, SplitLeaf(s, c, x))
  {
    OwnCloser(s, c, SplitLeaf(s, c, x).ctxs[c], SplitLeaf(s, c, x));
  }

  lemma LeafCloser(s: Sys, c: Cid)
    requires Safe(s, c) && s.ctxs[c].req.insert && s.ctxs[c].state == 2 && s.ctxs[c].buffer.Leaf?
    ensures Closer(s, c, InsertLeaf(s, c))
  {
    var x := s.ctxs[c];
    if x.optimistic && |x.buffer.entries| == s.t.cap { OwnCloser(s, c, x.(state := 13, next := 13), GiveUp(s, c)); }
    else if Found(x.buffer.entries, x.req.key) || |x.buffer.entries| < s.t.cap { PutCloser(s, c, x); }
    else { CutCloser(s, c, x); }
  }

  lemma DescendCloser(s: Sys, c: Cid)
    requires Safe(s, c) && s.ctxs[c].req.insert && s.ctxs[c].state == 2 && s.ctxs[c].buffer.Inner?
    ensures Closer(s, c, Descend(s, c))
  {
    var x := s.ctxs[c];
    if Locate(x.buffer.keys, x.req.key) < 0 && x.optimistic {
      OwnCloser(s, c, x.(state := 13, next := 13), GiveUp(s, c));
    }
    else { OwnCloser(s, c, Descend(s, c).ctxs[c], Descend(s, c)); }
  }

  lemma FlushCloser(s: Sys, c: Cid)
    requires Safe(s, c) && s.ctxs[c].req.insert && s.ctxs[c].state == 9 && !s.ctxs[c].childSplit
    ensures Closer(s, c, FlushParent(s, c))
  {
    var x := s.ctxs[c];
    var ps := DropClean(x.parents);
    if ps == [] { OwnCloser(s, c, x.(parents := [], state := 11, next := 11), FlushParent(s, c)); }
    else { OwnCloser(s, c, Flushing(x.(parents := ps[..|ps| - 1]), 10, 1), FlushParent(s, c)); }
  }

  lemma LinkCloser(s: Sys, c: Cid)
    requires Safe(s, c) && s.ctxs[c].req.insert && s.ctxs[c].state == 9 && s.ctxs[c].childSplit
    ensures Closer(s, c, RunInsert(s, c))
  {
    var x := s.ctxs[c];
    var n := |x.parents| - 1;
    if |x.parents[n].node.keys| < s.t.cap { OwnCloser(s, c, LinkChild(s, c).ctxs[c], LinkChild(s, c)); }
    else {
      var h := ParentHalves(x.parents[n], x.split.key, x.split.right, s.t.cap);
      var s' := SplitAtParent(s, c, x, n, h.0, h.1);
      OwnCloser(s, c, s'.ctxs[c], s');
    }
  }

  lemma WriteCloser(s: Sys, c: Cid)
    requires c < |s.ctxs| && s.ctxs[c].ready > 0 && s.ctxs[c].req.insert && s.ctxs[c].state == 10
    ensures Closer(s, c, WriteDone(s, c))
  {
    var x := s.ctxs[c];
    if x.wbCount + 1 == x.wbTarget {
      OwnCloser(s, c, x.(wbCount := x.wbCount + 1, state := 9, next := 9), WriteDone(s, c));
    }
    else { OwnCloser(s, c, OneWritten(x), WriteDone(s, c)); }
  }

  lemma PublishCloser(s: Sys, c: Cid)
    requires Safe(s, c) && s.ctxs[c].req.insert && s.ctxs[c].state == 12
    ensures Closer(s, c, PublishRoot(s, c))
  {
    OwnCloser(s, c, Flushing(s.ctxs[c].(childSplit := false), 11, 1), PublishRoot(s, c));
  }

  lemma OneWrittenCloser(s: Sys, c: Cid)
    requires c < |s.ctxs| && s.ctxs[c].ready > 0
    ensures Closer(s, c, SetCtx(s, c, OneWritten(s.ctxs[c])))
  {
    OwnCloser(s, c, OneWritten(s.ctxs[c]), SetCtx(s, c, OneWritten(s.ctxs[c])));
  }

  lemma GrowCloser(s: Sys, c: Cid)
    requires Safe(s, c) && s.ctxs[c].req.insert && s.ctxs[c].state == 12
    ensures Closer(s, c, GrowRoot(s, c))
  {
    var x := s.ctxs[c];
    if x.wbCount + 1 == x.wbTarget { PublishCloser(s, c); } else { OneWrittenCloser(s, c); }
  }

  lemma InsertCloser(s: Sys, c: Cid)
    requires Core(s) && Unqueued(s, c) && Safe(s, c) && s.ctxs[c].req.insert
    ensures Closer(s, c, RunInsert(s, c))
  {
    var x := s.ctxs[c];
    if x.state == 0 { VisitCloser(s, c); }
    else if x.state == 10001 { EnterCloser(s, c); }
    else if x.state == 1 { OwnCloser(s, c, Fetch(s, c).ctxs[c], Fetch(s, c)); }
    else if x.state == 2 { if x.buffer.Leaf? { LeafCloser(s, c); } else { DescendCloser(s, c); } }
    else if x.state == 9 { if x.childSplit { LinkCloser(s, c); } else { FlushCloser(s, c); } }
    else if x.state == 10 { WriteCloser(s, c); }
    else if x.state == 11 { FinishCloser(s, c, []); }
    else if x.state == 12 { GrowCloser(s, c); }
    else { RetryCloser(s, c); }
  }

  /** Within one call of `run`, every step brings the context closer to a wait. */
  lemma RunCloser(s: Sys, c: Cid)
    requires Core(s) && c < |s.ctxs| && s.ctxs[c].ready > 0
    ensures Safe(s, c) && Closer(s, c, Run(s, c))
  {
    RunCore(s, c);
    ReadyUnqueued(s, c);
    if s.ctxs[c].req.insert { InsertCloser(s, c); } else { SearchCloser(s, c); }
  }

  // ---------- the loops ----------

  /** Every context of the batch is ready as often as it occurs there. */
  ghost predicate Due(s: Sys, batch: seq<Cid>) {
    forall c: Cid {:trigger multiset(batch)[c]} ::
        multiset(batch)[c] > 0 ==> c < |s.ctxs| && multiset(batch)[c] <= s.ctxs[c].ready
  }

  lemma DueFirst(s: Sys, batch: seq<Cid>, i: nat)
    requires i < |batch| && Due(s, batch[i..])
    ensures batch[i] < |s.ctxs| && s.ctxs[batch[i]].ready > 0
  {
    assert batch[i..][0] == batch[i];
    assert multiset(batch[i..])[batch[i]] > 0;
  }

  lemma DueNext(s: Sys, s': Sys, batch: seq<Cid>, i: nat)
    requires i < |batch| && Due(s, batch[i..]) && |s'.ctxs| == |s.ctxs| && batch[i] < |s.ctxs|
    requires s'.ctxs[batch[i]].ready == s.ctxs[batch[i]].ready - 1
    requires forall d {:trigger s'.ctxs[d]} ::
               0 <= d < |s.ctxs| && d != batch[i] ==> s'.ctxs[d].ready >= s.ctxs[d].ready
    ensures Due(s', batch[i + 1..])
  {
    assert batch[i..] == [batch[i]] + batch[i + 1..];
    assert multiset(batch[i..]) == multiset{batch[i]} + multiset(batch[i + 1..]);
    var now, later := multiset(batch[i..]), multiset(batch[i + 1..]);
    forall c: Cid | later[c] > 0 ensures c < |s'.ctxs| && later[c] <= s'.ctxs[c].ready {
      assert now[c] == later[c] + if c == batch[i] then 1 else 0;
    }
  }

  /** State `i` of a call of `run` on context `c`, which is as ready as it was at first, and the state after it. */
  ghost predicate CallStep(tr: seq<Sys>, c: Cid, i: nat)
    requires i + 1 < |tr|
  {
    && Safe(tr[i], c) && c < |tr[0].ctxs| && tr[i].ctxs[c].ready == tr[0].ctxs[c].ready
    && tr[i + 1] == Run(tr[i], c)
  }

  ghost predicate Calling(tr: seq<Sys>, c: Cid) {
    |tr| > 0 && forall i {:trigger CallStep(tr, c, i)} :: 0 <= i < |tr| - 1 ==> CallStep(tr, c, i)
  }

  lemma CallGoesOn(tr: seq<Sys>, c: Cid)
    requires Calling(tr, c) && c < |tr[0].ctxs| && Safe(tr[|tr| - 1], c)
    requires tr[|tr| - 1].ctxs[c].ready == tr[0].ctxs[c].ready
    ensures Calling(tr + [Run(tr[|tr| - 1], c)], c)
  {
    var tr' := tr + [Run(tr[|tr| - 1], c)];
    forall i | 0 <= i < |tr'| - 1 ensures CallStep(tr', c, i) { if i < |tr| - 1 { assert CallStep(tr, c, i); } }
  }

  /** One call of `run` on context `c`: its steps, up to the first that leaves it less often ready. No other context is
      ready less often than before. */
  ghost predicate Turn(s: Sys, c: Cid, s': Sys) {
    && (exists tr :: Calling(tr, c) && tr[0] == s && tr[|tr| - 1] == s')
    && c < |s.ctxs| == |s'.ctxs| && s'.ctxs[c].ready == s.ctxs[c].ready - 1
    && forall d {:trigger s'.ctxs[d]} :: 0 <= d < |s.ctxs| && d != c ==> s'.ctxs[d].ready >= s.ctxs[d].ready
  }

  /** The states before and after each call of a batch: every context of the batch gets its turn, in order. */
  ghost predicate Turns(ss: seq<Sys>, batch: seq<Cid>) {
    |ss| == |batch| + 1 && forall i {:trigger batch[i]} :: 0 <= i < |batch| ==> Turn(ss[i], batch[i], ss[i + 1])
  }

  lemma TurnsNext(ss: seq<Sys>, batch: seq<Cid>, i: nat, s': Sys)
    requires i < |batch| && Turns(ss, batch[..i]) && Turn(ss[i], batch[i], s')
    ensures Turns(ss + [s'], batch[..i + 1])
  {
    forall j | 0 <= j < i + 1 ensures Turn((ss + [s'])[j], batch[..i + 1][j], (ss + [s'])[j + 1]) {
      if j < i { assert batch[..i][j] == batch[j]; }
    }
  }

  /** The first requests of the queue are admitted to these contexts, in order. */
  ghost predicate Admits(ss: seq<Sys>, cs: seq<Cid>) {
    && |ss| == |cs| + 1
    && forall i {:trigger cs[i]} :: 0 <= i < |cs| ==> CanAdmit(ss[i], cs[i]) && ss[i + 1] == Admit(ss[i], cs[i])
  }

  lemma AdmitsNext(ss: seq<Sys>, cs: seq<Cid>, c: Cid, s': Sys)
    requires Admits(ss, cs) && CanAdmit(ss[|cs|], c) && s' == Admit(ss[|cs|], c)
    ensures Admits(ss + [s'], cs + [c])
  {
  }

  class Engine {
    var s: Sys

    constructor (s: Sys)
      ensures this.s == s
    {
      this.s := s;
    }

    /** Run a ready context until it waits for a barrier or an I/O, or is done. The call ends. */
    method RunContext(c: Cid)
      requires Core(s) && c < |s.ctxs| && s.ctxs[c].ready > 0
      modifies this
      ensures Core(s) && Leads(old(s), s) && Turn(old(s), c, s)
    {
      var n := s.ctxs[c].ready;
      ghost var tr := [s];
      Stay(s);
      while s.ctxs[c].ready == n
        invariant Core(s) && Leads(old(s), s) && |s.ctxs| == |old(s).ctxs|
        invariant Calling(tr, c) && tr[0] == old(s) && tr[|tr| - 1] == s
        invariant s.ctxs[c].ready == n || s.ctxs[c].ready == n - 1
        invariant forall d {:trigger s.ctxs[d]} ::
                    0 <= d < |s.ctxs| && d != c ==> s.ctxs[d].ready >= old(s).ctxs[d].ready
        decreases s.ctxs[c].ready, Rank(s.t, s.ctxs[c])
      {
        RunCloser(s, c);
        ghost var s1 := Go(old(s), s, Ran(c));
        CallGoesOn(tr, c);
        s := Run(s, c);
        tr := tr + [s];
      }
    }

    /** Run a batch of ready contexts, in order: all of them, each as it comes. */
    method ProcessReady(batch: seq<Cid>) returns (processed: nat, ghost ss: seq<Sys>)
      requires Core(s) && Due(s, batch)
      modifies this
      ensures Core(s) && Leads(old(s), s)
      ensures processed == |batch| && Turns(ss, batch) && ss[0] == old(s) && ss[|batch|] == s
    {
      Stay(s);
      processed, ss := 0, [s];
      assert batch[0..] == batch;
      while processed < |batch|
        invariant processed <= |batch| && Core(s) && Leads(old(s), s) && Due(s, batch[processed..])
        invariant Turns(ss, batch[..processed]) && ss[0] == old(s) && ss[processed] == s
      {
        DueFirst(s, batch, processed);
        ghost var s1 := s;
        RunContext(batch[processed]);
        Chain(old(s), s1, s);
        DueNext(s1, s, batch, processed);
        TurnsNext(ss, batch, processed, s);
        processed, ss := processed + 1, ss + [s];
      }
      assert batch[..|batch|] == batch;
    }

    /** Admit the first waiting request to any free context of its kind: there is one. */
    method AdmitOne(ghost slots: nat) returns (c: Cid)
      requires Core(s) && Books(s, slots) && s.free > 0 && s.queue != []
      modifies this
      ensures Core(s) && Books(s, slots) && CanAdmit(old(s), c) && s == Admit(old(s), c)
    {
      PoolHasOne(s, slots);
      c :| 0 <= c < |s.ctxs| && CanAdmit(s, c);
      AdmitBooks(s, c, slots);
      AdmitCore(s, c);
      assert Enabled(s, Admitted(c));
      s := Admit(s, c);
    }

    /** Admit waiting requests: as many as the limit, the free slots and the queue allow, in the order they came in. */
    method Admission(max: nat, ghost slots: nat) returns (processed: nat, admitted: seq<Cid>, ghost ss: seq<Sys>)
      requires Core(s) && Books(s, slots)
      modifies this
      ensures Core(s) && Books(s, slots) && Leads(old(s), s)
      ensures processed == |admitted| && Admits(ss, admitted) && ss[0] == old(s) && ss[processed] == s
      ensures processed <= max && processed <= |old(s).queue| && s.queue == old(s).queue[processed..]
      ensures s.free == old(s).free - processed && (processed == max || s.free == 0 || s.queue == [])
    {
      Stay(s);
      processed, admitted, ss := 0, [], [s];
      while processed < max && s.free > 0 && s.queue != []
        invariant Core(s) && Books(s, slots) && Leads(old(s), s)
        invariant processed == |admitted| && Admits(ss, admitted) && ss[0] == old(s) && ss[processed] == s
        invariant processed <= max && processed <= |old(s).queue| && s.queue == old(s).queue[processed..]
        invariant s.free == old(s).free - processed && s.free >= 0
        decreases |s.queue|
      {
        ghost var s1 := s;
        var c := AdmitOne(slots);
        Then(old(s), s1, Admitted(c));
        AdmitsNext(ss, admitted, c, s);
        processed, admitted, ss := processed + 1, admitted + [c], ss + [s];
      }
    }
  }
}
