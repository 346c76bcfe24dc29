/** An insertion completes only after every block it has submitted for writing is written. */
module Flushes {
  import opened Nodes
  import opened TreeState
  import opened Contexts
  import opened Steps
  import opened Invariants
  import opened Releases
  import opened DescentSteps
  import opened LeafSteps
  import opened RiseSteps
  import opened Scheduler
  import opened Ledger
  import opened Guarantees
  import opened Completion
  import opened Clients
  import opened Reports

  // ---------- what a step submits is outstanding after it ----------

  lemma PutSubmits(s: Sys, c: Cid, x: Ctx)
    requires c < |s.ctxs| && x.ready > 0 && x.io == 0 && x.buffer.Leaf? && Live(s.t, x.nodeRef)
    ensures PutInLeaf(s, c, x).ctxs[c].io == 1 && PutInLeaf(s, c, x).ctxs[c].busy == x.busy
  {
  }

  lemma SplitSubmits(s: Sys, c: Cid, x: Ctx)
    requires c < |s.ctxs| && x.ready > 0 && x.io == 0 && Live(s.t, x.nodeRef) && |s.t.fence| == |s.t.store|
    requires x.buffer.Leaf? && 2 <= s.t.cap == |x.buffer.entries|
    ensures SplitLeaf(s, c, x).ctxs[c].io == 2 && SplitLeaf(s, c, x).ctxs[c].busy == x.busy
  {
  }

  lemma TwoBlocks(a: Addr, b: Addr)
    requires a != b
    ensures |{a} + {b}| == 2
  {
    assert {a} + {b} == {a, b};
  }

  lemma LeafSubmits(s: Sys, c: Cid, x: Ctx)
    requires Runs(s, c, 2) && x == s.ctxs[c] && x.buffer.Leaf? && Safe(s, c) && Targets(s, c) != {} && x.io == 0
    ensures InsertLeaf(s, c).ctxs[c].io == |Targets(s, c)| && InsertLeaf(s, c).ctxs[c].busy
  {
    if Found(x.buffer.entries, x.req.key) || |x.buffer.entries| < s.t.cap {
      PutSubmits(s, c, x);
      assert Targets(s, c) == {x.nodeRef as Addr};
    } else {
      SplitSubmits(s, c, x);
      TwoBlocks(x.nodeRef, |s.t.store|);
    }
  }

  lemma RiseSubmits(s: Sys, c: Cid, x: Ctx)
    requires Runs(s, c, 9) && x == s.ctxs[c] && Safe(s, c) && Targets(s, c) != {} && x.io == 0
    ensures RunInsert(s, c).ctxs[c].io == |Targets(s, c)| && RunInsert(s, c).ctxs[c].busy
  {
    if !x.childSplit { FlushSubmits(s, c, x); }
    else {
      var p := x.parents[|x.parents| - 1];
      if |p.node.keys| < s.t.cap {
        LinkSubmits(s, c, x);
        assert Targets(s, c) == {p.addr};
      } else {
        SplitUpSubmits(s, c, x);
        TwoBlocks(p.addr, |s.t.store|);
      }
    }
  }

  lemma FlushSubmits(s: Sys, c: Cid, x: Ctx)
    requires Safe(s, c) && x == s.ctxs[c] && x.req.insert && x.state == 9 && !x.childSplit && x.io == 0
    ensures DropClean(x.parents) != [] ==> FlushParent(s, c).ctxs[c].io == 1 && FlushParent(s, c).ctxs[c].busy
  {
  }

  lemma LinkSubmits(s: Sys, c: Cid, x: Ctx)
    requires Safe(s, c) && x == s.ctxs[c] && x.req.insert && x.state == 9 && x.childSplit && x.io == 0
    requires |x.parents[|x.parents| - 1].node.keys| < s.t.cap
    ensures LinkChild(s, c).ctxs[c].io == 1 && LinkChild(s, c).ctxs[c].busy
  {
  }

  lemma SplitUpSubmits(s: Sys, c: Cid, x: Ctx)
    requires Safe(s, c) && x == s.ctxs[c] && x.req.insert && x.state == 9 && x.childSplit && x.io == 0
    requires |x.parents[|x.parents| - 1].node.keys| == s.t.cap
    ensures SplitParent(s, c).ctxs[c].io == 2 && SplitParent(s, c).ctxs[c].busy
  {
  }

  /** Every block a step submits for writing is outstanding after it, and nothing else is. */
  lemma Submits(s: Sys, c: Cid)
    requires Core(s) && c < |s.ctxs| && s.ctxs[c].ready > 0
    ensures Safe(s, c) && |Run(s, c).ctxs| == |s.ctxs|
    ensures Targets(s, c) != {} ==> Run(s, c).ctxs[c].busy && Run(s, c).ctxs[c].io == |Targets(s, c)|
  {
    RunSpends(s, c);
    var x := s.ctxs[c];
    if Targets(s, c) != {} {
      ReadyBusy(s, c);
      Opened(s, c, x.state);
      if x.state == 2 { LeafSubmits(s, c, x); }
      else if x.state == 9 { RiseSubmits(s, c, x); }
    }
  }

  lemma ReadyBusy(s: Sys, c: Cid)
    requires Core(s) && c < |s.ctxs| && s.ctxs[c].ready > 0
    ensures s.ctxs[c].busy && Flow(s.ctxs[c])
  {
    assert Look(s, 0);
    assert CtxOk(s, c);
  }

  // ---------- only completions make it fewer ----------

  predicate SameWork(x: Ctx, y: Ctx) {
    x.busy && y.busy && y.req == x.req
  }

  /** With an I/O outstanding, a step of a context only counts a completed write. */
  lemma OutstandingRun(s: Sys, c: Cid, x: Ctx)
    requires Core(s) && c < |s.ctxs| && x == s.ctxs[c] && x.ready > 0 && x.io > 0 && Safe(s, c)
    ensures Run(s, c) == SetCtx(s, c, OneWritten(x))
  {
    ReadyBusy(s, c);
  }

  /** The outstanding I/Os of a context fall by one with a completion and do not fall otherwise, while it works on one
      request; and it is done with that only when there are none. */
  lemma IoStep(s: Sys, e: Event, c: Cid, s': Sys)
    requires Core(s) && Enabled(s, e) && s' == After(s, e) && c < |s.ctxs| && s.ctxs[c].busy
    ensures |s'.ctxs| == |s.ctxs|
    ensures SameWork(s.ctxs[c], s'.ctxs[c]) || s.ctxs[c].io == 0
    ensures s'.ctxs[c].io >= s.ctxs[c].io - if e == Completed(c) then 1 else 0
  {
    if e.Ran? { RunIo(s, e.c, c, s'); } else { QuietIo(s, e, c, s'); }
  }

  lemma QuietIo(s: Sys, e: Event, c: Cid, s': Sys)
    requires Enabled(s, e) && !e.Ran? && s' == After(s, e) && c < |s.ctxs| && s.ctxs[c].busy
    ensures |s'.ctxs| == |s.ctxs| && SameWork(s.ctxs[c], s'.ctxs[c])
    ensures s'.ctxs[c].io >= s.ctxs[c].io - if e == Completed(c) then 1 else 0
  {
  }

  lemma RunIo(s: Sys, d: Cid, c: Cid, s': Sys)
    requires Core(s) && d < |s.ctxs| && s.ctxs[d].ready > 0 && Safe(s, d) && s' == Run(s, d)
    requires c < |s.ctxs| && s.ctxs[c].busy
    ensures |s'.ctxs| == |s.ctxs| && (SameWork(s.ctxs[c], s'.ctxs[c]) || s.ctxs[c].io == 0)
    ensures s'.ctxs[c].io >= s.ctxs[c].io
  {
    RunSpends(s, d);
    if d == c && s.ctxs[c].io > 0 { OutstandingRun(s, c, s.ctxs[c]); }
    else if d != c { assert SamePlace(s.ctxs[c], s'.ctxs[c]); }
  }

  /** The completions of I/Os of context `c` among events `i` to `j`. */
  function Completions(es: seq<Event>, c: Cid, i: nat, j: nat): nat
    requires i <= j <= |es|
  {
    if i == j then 0 else Completions(es, c, i, j - 1) + if es[j - 1] == Completed(c) then 1 else 0
  }

  ghost predicate WorksOn(tr: seq<Sys>, c: Cid, r: Request, k: nat) {
    k < |tr| && c < |tr[k].ctxs| && tr[k].ctxs[c].busy && tr[k].ctxs[c].req == r
  }

  lemma {:induction false} OutstandingFalls(tr: seq<Sys>, es: seq<Event>, cap: nat, slots: nat, c: Cid, r: Request,
        i: nat, j: nat)
    requires IsTrace(tr, es, cap, slots) && i <= j <= |es|
    requires forall k {:trigger WorksOn(tr, c, r, k)} :: i <= k <= j ==> WorksOn(tr, c, r, k)
    ensures c < |tr[i].ctxs| && c < |tr[j].ctxs|
    ensures tr[i].ctxs[c].io <= tr[j].ctxs[c].io + Completions(es, c, i, j)
    decreases j
  {
    assert WorksOn(tr, c, r, i) && WorksOn(tr, c, r, j);
    if i < j {
      var m := j - 1;
      assert WorksOn(tr, c, r, m);
      OutstandingFalls(tr, es, cap, slots, c, r, i, m);
      StateFacts(tr, es, cap, slots, m);
      assert Took(tr, es, m);
      IoStep(tr[m], es[m], c, tr[j]);
    }
  }

  /** The first moment after `i` at which context `c` does not work on `r`. */
  lemma {:induction false} FindStop(tr: seq<Sys>, c: Cid, r: Request, i: nat, n: nat) returns (k: nat)
    requires i <= n < |tr| && !WorksOn(tr, c, r, n)
    ensures i <= k <= n && !WorksOn(tr, c, r, k)
    ensures forall m {:trigger WorksOn(tr, c, r, m)} :: i <= m < k ==> WorksOn(tr, c, r, m)
    decreases n - i
  {
    if WorksOn(tr, c, r, i) { k := FindStop(tr, c, r, i + 1, n); } else { k := i; }
  }

  lemma DoneIsNotWorked(tr: seq<Sys>, es: seq<Event>, cap: nat, slots: nat, n: nat, c: Cid, r: Request)
    requires IsTrace(tr, es, cap, slots) && n <= |es| && r in tr[n].done
    ensures !WorksOn(tr, c, r, n)
  {
    if WorksOn(tr, c, r, n) {
      StateFacts(tr, es, cap, slots, n);
      InFlightHas(tr[n].ctxs, c);
      OnePlace(tr[n], slots, r);
    }
  }

  /** In every run: between a step in which a context submits blocks for writing and the end of its request, as many of
      its I/Os complete as it submitted blocks. So a request that is done has nothing left to be written. */
  lemma WrittenBeforeDone(tr: seq<Sys>, es: seq<Event>, cap: nat, slots: nat, i: nat, n: nat, c: Cid, r: Request)
      returns (j: nat)
    requires IsTrace(tr, es, cap, slots) && i < n <= |es| && es[i] == Ran(c)
    requires c < |tr[i].ctxs| && tr[i].ctxs[c].req == r && Safe(tr[i], c) && Targets(tr[i], c) != {}
    requires r in tr[n].done
    ensures i < j < n && WorksOn(tr, c, r, j) && !WorksOn(tr, c, r, j + 1)
    ensures |Targets(tr[i], c)| <= Completions(es, c, i + 1, j)
  {
    Outstanding(tr, es, cap, slots, i, c, r);
    DoneIsNotWorked(tr, es, cap, slots, n, c, r);
    var k := FindStop(tr, c, r, i + 1, n);
    assert WorksOn(tr, c, r, i + 1);
    j := k - 1;
    assert WorksOn(tr, c, r, j);
    OutstandingFalls(tr, es, cap, slots, c, r, i + 1, j);
    EndsWithNone(tr, es, cap, slots, j, c, r);
  }

  lemma Outstanding(tr: seq<Sys>, es: seq<Event>, cap: nat, slots: nat, i: nat, c: Cid, r: Request)
    requires IsTrace(tr, es, cap, slots) && i < |es| && es[i] == Ran(c)
    requires c < |tr[i].ctxs| && tr[i].ctxs[c].req == r && Safe(tr[i], c) && Targets(tr[i], c) != {}
    ensures WorksOn(tr, c, r, i + 1) && tr[i + 1].ctxs[c].io == |Targets(tr[i], c)|
  {
    StateFacts(tr, es, cap, slots, i);
    assert Took(tr, es, i);
    Submits(tr[i], c);
    RunKeepsRequest(tr[i], c, slots);
  }

  lemma EndsWithNone(tr: seq<Sys>, es: seq<Event>, cap: nat, slots: nat, j: nat, c: Cid, r: Request)
    requires IsTrace(tr, es, cap, slots) && j < |es| && WorksOn(tr, c, r, j) && !WorksOn(tr, c, r, j + 1)
    ensures tr[j].ctxs[c].io == 0
  {
    StateFacts(tr, es, cap, slots, j);
    assert Took(tr, es, j);
    IoStep(tr[j], es[j], c, tr[j + 1]);
  }
}
