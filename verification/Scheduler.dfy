/** The scheduler: requests arrive, are admitted to free contexts, I/Os complete in any order, and ready
    contexts run in any order. Every state of every run satisfies the invariant. */
module Scheduler {
  import opened Nodes
  import opened TreeState
  import opened Contexts
  import opened Steps
  import opened Invariants
  import opened Exclusion
  import opened Releases
  import opened LocalSteps
  import opened DescentSteps
  import opened LeafSteps
  import opened RiseSteps
  import opened SearchSteps

  /** An empty tree of node capacity `cap`: one leaf, which is the root. */
  function EmptyTree(cap: nat): Tree {
    Tree(cap, [Leaf([], -1)], 0, 1, [Fence(1, NegInf, PosInf)], 0, map[], None)
  }

  predicate IdleCtx(x: Ctx) {
    !x.busy && x.tokens == [] && !x.waiting && x.io == 0 && x.ready == 0
  }

  /** The state after `init`: an empty tree, and `slots` free contexts of each kind. */
  ghost predicate Init(s: Sys, cap: nat, slots: nat) {
    && 2 <= cap && s.t == EmptyTree(cap) && s.bars == map[] && s.log == []
    && |s.ctxs| == 2 * slots && (forall c {:trigger s.ctxs[c]} :: 0 <= c < |s.ctxs| ==> IdleCtx(s.ctxs[c]))
    && s.submitting == [] && s.queue == [] && s.pending == 0 && s.free == slots
    && s.done == [] && s.reports == [] && s.issued == [] && !s.stop
  }

  // ---------- events ----------

  /** A client counts its request as pending ... */
  function Announce(s: Sys, insert: bool, key: Key, val: Val): Sys {
    var r := Request(|s.issued|, insert, key, val);
    s.(pending := s.pending + 1, issued := s.issued + [r],
       submitting := s.submitting + [r])
  }

  /** ... and then puts it into the request queue. */
  function Push(s: Sys, i: nat): Sys
    requires i < |s.submitting|
  {
    s.(submitting := s.submitting[..i] + s.submitting[i + 1..], queue := s.queue + [s.submitting[i]])
  }

  /** `insert_context::init` and `search_context::init`. */
  function Fresh(s: Sys, x: Ctx, r: Request): Ctx {
    x.(busy := true, req := r, state := 0, next := -1, nodeRef := if r.insert then -1 else s.t.root,
       freeSlot := false, referToRoot := false, optimistic := true, parents := [],
       nextLeaf := s.t.depth == 1, level := s.t.depth, ready := 1, held := 0, covered := false, atRoot := false)
  }

  /** A free context of the right kind; the contexts of the first half are for insertions. */
  predicate CanAdmit(s: Sys, c: Cid) {
    && |s.queue| > 0 && s.free > 0 && c < |s.ctxs| && !s.ctxs[c].busy
    && (s.queue[0].insert <==> c < |s.ctxs| / 2)
  }

  function Admit(s: Sys, c: Cid): Sys
    requires CanAdmit(s, c)
  {
    SetCtx(s, c, Fresh(s, s.ctxs[c], s.queue[0])).(queue := s.queue[1..], free := s.free - 1)
  }

  /** An I/O of context `c` completes. */
  function Complete(s: Sys, c: Cid): Sys
    requires c < |s.ctxs| && s.ctxs[c].io > 0
  {
    var x := s.ctxs[c];
    SetCtx(s, c, x.(io := x.io - 1, ready := x.ready + 1, state := x.next))
  }

  datatype Event =
    | Announced(insert: bool, key: Key, val: Val)
    | Pushed(i: nat)
    | Admitted(c: Cid)
    | Completed(c: Cid)
    | Ran(c: Cid)
    | Stopped

  ghost predicate Enabled(s: Sys, e: Event) {
    match e
    case Announced(_, _, _) => true
    case Pushed(i) => i < |s.submitting|
    case Admitted(c) => CanAdmit(s, c)
    case Completed(c) => c < |s.ctxs| && s.ctxs[c].io > 0
    case Ran(c) => c < |s.ctxs| && s.ctxs[c].ready > 0 && Safe(s, c)
    case Stopped => true
  }

  function After(s: Sys, e: Event): Sys
    requires Enabled(s, e)
  {
    match e
    case Announced(insert, key, val) => Announce(s, insert, key, val)
    case Pushed(i) => Push(s, i)
    case Admitted(c) => Admit(s, c)
    case Completed(c) => Complete(s, c)
    case Ran(c) => Run(s, c)
    case Stopped => s.(stop := true)
  }

  ghost predicate Next(s: Sys, s': Sys) {
    exists e :: Enabled(s, e) && s' == After(s, e)
  }

  /** A run of the system: a first state and one state after each event. */
  ghost predicate IsRun(tr: seq<Sys>, cap: nat, slots: nat) {
    && |tr| > 0 && Init(tr[0], cap, slots)
    && forall i {:trigger Next(tr[i], tr[i + 1])} :: 0 <= i < |tr| - 1 ==> Next(tr[i], tr[i + 1])
  }

  // ---------- each event keeps the invariant ----------

  lemma EmptySound(cap: nat)
    requires 2 <= cap
    ensures Sound(EmptyTree(cap)) && Represents(EmptyTree(cap), map[])
    ensures forall a: Addr {:trigger Quiet(EmptyTree(cap), a)} :: Quiet(EmptyTree(cap), a)
  {
  }

  lemma InitCore(s: Sys, cap: nat, slots: nat)
    requires Init(s, cap, slots)
    ensures Core(s)
  {
    EmptySound(cap);
    forall c | 0 <= c < |s.ctxs| ensures CtxOk(s, c) && Queued(s, c) { assert IdleCtx(s.ctxs[c]); }
    forall a ensures BarOk(s, a) && QueueOk(s, a) && Blocked(s, a) && Owned(s, a) {
      forall c | 0 <= c < |s.ctxs| ensures s.ctxs[c].tokens == [] { assert IdleCtx(s.ctxs[c]); }
      assert Holders(s, a, true) == {} && Holders(s, a, false) == {};
      assert Quiet(s.t, a);
    }
  }

  lemma QueuesOnly(s: Sys, s': Sys)
    requires Core(s) && s'.t == s.t && s'.bars == s.bars && s'.ctxs == s.ctxs && s'.log == s.log
    ensures Core(s')
  {
    assert Look(s, 0);
    forall c | 0 <= c < |s'.ctxs| ensures CtxOk(s', c) && Queued(s', c) { assert CtxOk(s, c) && Queued(s, c); }
    forall a ensures BarOk(s', a) && QueueOk(s', a) && Blocked(s', a) && Owned(s', a) {
      assert BarOk(s, a) && QueueOk(s, a) && Blocked(s, a) && Owned(s, a);
      assert Holders(s', a, true) == Holders(s, a, true) && Holders(s', a, false) == Holders(s, a, false);
      var q := Bar(s, a).queue;
      forall i | 0 <= i < |q| ensures WaitOk(s', a, q[i]) { assert WaitOk(s, a, q[i]); }
    }
  }

  lemma FreshInv(s: Sys, x: Ctx, r: Request)
    requires Sound(s.t) && IdleCtx(x)
    ensures CtxInv(s.t, Fresh(s, x, r)) && Flow(Fresh(s, x, r))
  {
  }

  lemma AdmitCore(s: Sys, c: Cid)
    requires Core(s) && CanAdmit(s, c)
    ensures Core(Admit(s, c))
  {
    assert Look(s, 0);
    assert CtxOk(s, c);
    FreshInv(s, s.ctxs[c], s.queue[0]);
    assert CtxOk(Admit(s, c), c);
    OwnCore(s, Admit(s, c), c);
  }

  lemma SettledSame(t: Tree, x: Ctx, y: Ctx)
    requires Settled(t, x) && SameBody(x, y) && y.referToRoot == x.referToRoot
    ensures Settled(t, y)
  {
    BodyPath(t, x, y, 1);
  }

  lemma CompleteInsert(t: Tree, x: Ctx, y: Ctx)
    requires InsertInv(t, x) && Flow(x) && x.busy && x.req.insert && x.io > 0
    requires y == x.(io := x.io - 1, ready := x.ready + 1, state := x.next)
    ensures InsertInv(t, y) && Flow(y)
  {
    var pc := x.Pc();
    assert Phase(t, x, pc) && y.Pc() == pc;
    if pc == 2 { SettledSame(t, x, y); }
    else if pc == 10 { RisingSame(t, x, y); }
    assert Phase(t, y, pc);
  }

  lemma CompleteCore(s: Sys, c: Cid)
    requires Core(s) && c < |s.ctxs| && s.ctxs[c].io > 0
    ensures Core(Complete(s, c))
  {
    assert Look(s, 0);
    assert CtxOk(s, c);
    var x, y := s.ctxs[c], Complete(s, c).ctxs[c];
    if x.req.insert { CompleteInsert(s.t, x, y); } else { assert SearchInv(s.t, y); }
    assert CtxOk(Complete(s, c), c);
    OwnCore(s, Complete(s, c), c);
  }

  lemma RunInsertCore(s: Sys, c: Cid)
    requires c < |s.ctxs| && Runs(s, c, s.ctxs[c].state)
    ensures Safe(s, c) && Core(RunInsert(s, c))
  {
    var state := s.ctxs[c].state;
    if state == 0 { VisitCore(s, c); }
    else if state == 10001 { EnterCore(s, c); }
    else if state == 1 { FetchCore(s, c); }
    else if state == 2 {
      if s.ctxs[c].buffer.Leaf? { InsertLeafCore(s, c); } else { DescendCore(s, c); }
    }
    else if state == 9 { RiseCore(s, c); }
    else if state == 10 { WriteDoneCore(s, c); }
    else if state == 11 { FinishInsertCore(s, c); }
    else if state == 12 { GrowRootCore(s, c); }
    else {
      Opened(s, c, state);
      RetryCore(s, c);
    }
  }

  /** A ready context never fails an assertion, and its step keeps the invariant. */
  lemma RunCore(s: Sys, c: Cid)
    requires Core(s) && c < |s.ctxs| && s.ctxs[c].ready > 0
    ensures Safe(s, c) && Core(Run(s, c))
  {
    assert Look(s, 0);
    assert CtxOk(s, c);
    if s.ctxs[c].req.insert { RunInsertCore(s, c); } else { RunSearchCore(s, c); }
  }

  lemma NextCore(s: Sys, e: Event)
    requires Core(s) && Enabled(s, e)
    ensures Core(After(s, e))
  {
    match e
    case Announced(_, _, _) => QueuesOnly(s, After(s, e));
    case Pushed(_) => QueuesOnly(s, After(s, e));
    case Admitted(c) => AdmitCore(s, c);
    case Completed(c) => CompleteCore(s, c);
    case Ran(c) => RunCore(s, c);
    case Stopped => QueuesOnly(s, After(s, e));
  }

  /** Every state of every run satisfies the invariant. */
  lemma {:induction false} RunsKeepCore(tr: seq<Sys>, cap: nat, slots: nat, i: nat)
    requires IsRun(tr, cap, slots) && i < |tr|
    ensures Core(tr[i])
    decreases i
  {
    if i == 0 {
      InitCore(tr[0], cap, slots);
    } else {
      var j := i - 1;
      RunsKeepCore(tr, cap, slots, j);
      assert Next(tr[j], tr[j + 1]);
      var e :| Enabled(tr[j], e) && tr[j + 1] == After(tr[j], e);
      NextCore(tr[j], e);
    }
  }
}
