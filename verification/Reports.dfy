/** What searches report: every completed search has reported once, while it was in flight, and what. */
module Reports {
  import opened Nodes
  import opened TreeState
  import opened Contexts
  import opened Steps
  import opened Invariants
  import opened Exclusion
  import opened Releases
  import opened SearchSteps
  import opened Scheduler
  import opened Ledger
  import opened Guarantees
  import opened Completion
  import opened RunLoop

  // ---------- one report for each completed search ----------

  /** The searches among some requests, in order. */
  function Searches(rs: seq<Request>): seq<Request> {
    if rs == [] then []
    else Searches(rs[..|rs| - 1]) + if rs[|rs| - 1].insert then [] else [rs[|rs| - 1]]
  }

  /** The requests of some reports, in order. */
  function Reporters(out: seq<Report>): (rs: seq<Request>)
    ensures |rs| == |out|
  {
    seq(|out|, i requires 0 <= i < |out| => out[i].req)
  }

  lemma SearchesAppend(rs: seq<Request>, r: Request)
    ensures Searches(rs + [r]) == Searches(rs) + if r.insert then [] else [r]
  {
    assert (rs + [r])[..|rs|] == rs;
  }

  /** The reports are those of the completed searches, in the order they completed. */
  ghost predicate Told(s: Sys) {
    Reporters(s.reports) == Searches(s.done)
  }

  /** The histories of two successive states. */
  ghost predicate Grows(s: Sys, s': Sys) {
    s.issued <= s'.issued && s.log <= s'.log && s.done <= s'.done && s.reports <= s'.reports
  }

  /** A step of context `c` reports nothing and completes no search, or its search ends with its answer. */
  ghost predicate Speaks(s: Sys, c: Cid, s': Sys)
    requires c < |s.ctxs|
  {
    var x := s.ctxs[c];
    || (s'.reports == s.reports && (s'.done == s.done || (x.req.insert && s'.done == s.done + [x.req])))
    || (s.reports <= s'.reports && Tells(x, s'.reports[|s.reports|..]) && s'.done == s.done + [x.req])
  }

  lemma MidSpeaks(s: Sys, c: Cid, y: Ctx, m: Sys)
    requires c < |s.ctxs| && Mid(s, c, y, m)
    ensures Speaks(s, c, m) && Grows(s, m) && m.issued == s.issued
  {
  }

  lemma RunSpeaks(s: Sys, c: Cid, slots: nat)
    requires Core(s) && Books(s, slots) && c < |s.ctxs| && s.ctxs[c].ready > 0 && Safe(s, c)
    ensures Speaks(s, c, Run(s, c)) && Grows(s, Run(s, c)) && Run(s, c).issued == s.issued
  {
    assert Look(s, 0);
    assert CtxOk(s, c) && InStep(s, c);
    RunEffect(s, c);
    var y, m :| Mid(s, c, y, m) && OnlyGrants(m, Run(s, c));
    MidSpeaks(s, c, y, m);
  }

  lemma SpeaksTold(s: Sys, c: Cid, s': Sys)
    requires Told(s) && c < |s.ctxs| && Speaks(s, c, s')
    ensures Told(s')
  {
    SearchesAppend(s.done, s.ctxs[c].req);
    if s'.reports != s.reports {
      var rep := s'.reports[|s.reports|..][0];
      assert s'.reports == s.reports + [rep];
      assert Reporters(s'.reports) == Reporters(s.reports) + [rep.req];
    }
  }

  lemma NextGrows(s: Sys, e: Event, slots: nat)
    requires Core(s) && Books(s, slots) && Enabled(s, e) && Told(s)
    ensures Grows(s, After(s, e)) && Told(After(s, e))
    ensures !e.Announced? ==> After(s, e).issued == s.issued
    ensures !e.Ran? ==> After(s, e).reports == s.reports && After(s, e).log == s.log && After(s, e).done == s.done
  {
    if e.Ran? {
      RunSpeaks(s, e.c, slots);
      SpeaksTold(s, e.c, Run(s, e.c));
    }
  }

  lemma {:induction false} RunsKeepTold(tr: seq<Sys>, cap: nat, slots: nat, i: nat)
    requires IsRun(tr, cap, slots) && i < |tr|
    ensures Told(tr[i])
    decreases i
  {
    if i > 0 {
      var j := i - 1;
      RunsKeepTold(tr, cap, slots, j);
      RunsKeepCore(tr, cap, slots, j);
      RunsKeepBooks(tr, cap, slots, j);
      assert Next(tr[j], tr[j + 1]);
      var e :| Enabled(tr[j], e) && tr[j + 1] == After(tr[j], e);
      NextGrows(tr[j], e, slots);
    }
  }

  // ---------- when a report is made ----------

  /** The step in which the search of context `c` reports: it is in flight, and has read the node it answers from. */
  ghost predicate Reporting(s: Sys, s': Sys, c: Cid, rep: Report) {
    && c < |s.ctxs| && s.ctxs[c].busy && s.ctxs[c].ready > 0 && s.ctxs[c].req == rep.req
    && Tells(s.ctxs[c], [rep]) && s'.reports == s.reports + [rep] && s'.done == s.done + [rep.req]
  }

  lemma ReportStep(s: Sys, s': Sys, slots: nat) returns (c: Cid)
    requires Core(s) && Books(s, slots) && Told(s) && Next(s, s')
    ensures s.reports <= s'.reports
    ensures s'.reports != s.reports ==> |s'.reports| == |s.reports| + 1 && Reporting(s, s', c, s'.reports[|s.reports|])
  {
    var e :| Enabled(s, e) && s' == After(s, e);
    NextGrows(s, e, slots);
    c := 0;
    if e.Ran? {
      c := e.c;
      RunSpeaks(s, c, slots);
      assert s'.reports == s.reports + s'.reports[|s.reports|..];
    }
  }

  lemma {:induction false} FindReport(tr: seq<Sys>, cap: nat, slots: nat, n: nat, j: nat) returns (i: nat, c: Cid)
    requires IsRun(tr, cap, slots) && n < |tr| && j < |tr[n].reports|
    ensures i < n && Reporting(tr[i], tr[i + 1], c, tr[n].reports[j])
    decreases n
  {
    var m := n - 1;
    RunsKeepCore(tr, cap, slots, m);
    RunsKeepBooks(tr, cap, slots, m);
    RunsKeepTold(tr, cap, slots, m);
    assert Next(tr[m], tr[m + 1]);
    c := ReportStep(tr[m], tr[n], slots);
    if j < |tr[m].reports| { i, c := FindReport(tr, cap, slots, m, j); } else { i := m; }
  }

  // ---------- where a search started ----------

  /** The step in which context `c`, working on search `r`, gets its first barrier, that of node `a`. */
  ghost predicate Begins(s: Sys, s': Sys, c: Cid, r: Request, a: Addr) {
    && c < |s.ctxs| == |s'.ctxs| && a < |s.t.fence|
    && s.ctxs[c].busy && s.ctxs[c].req == r && s.ctxs[c].tokens == []
    && s'.ctxs[c].busy && s'.ctxs[c].req == r && s'.ctxs[c].tokens == [Token(a, false)]
  }

  /** What a context remembers of that step. */
  ghost predicate Recalls(t: Tree, x: Ctx, a: Addr)
    requires a < |t.fence|
  {
    (x.covered <==> Below(x.req.key, t.fence[a].hi)) && (x.atRoot <==> a == t.root)
  }

  ghost predicate SameMemory(x: Ctx, y: Ctx) {
    y.busy && x.busy && y.req == x.req && y.covered == x.covered && y.atRoot == x.atRoot
  }

  /** From `x` to `y`: a search with a barrier had one before and remembers the same, or has just got its first one. */
  ghost predicate Remembers(t: Tree, x: Ctx, y: Ctx, a: Addr) {
    || (x.tokens != [] && SameMemory(x, y))
    || (x.busy && y.busy && y.req == x.req && x.tokens == [] && y.tokens == [Token(a, false)]
        && a < |t.fence| && Recalls(t, y, a))
  }

  predicate Holding(x: Ctx) {
    x.busy && !x.req.insert && x.tokens != []
  }

  lemma FirstBarrier(t: Tree, x: Ctx, y: Ctx, g: Ctx)
    requires !x.req.insert && x.busy && x.tokens == [] && Live(t, x.nodeRef) && |t.fence| == |t.store|
    requires g == Granted(t, y, x.nodeRef, false) && y.req == x.req && y.tokens == [] && y.busy
    ensures Remembers(t, x, g, x.nodeRef)
  {
  }

  lemma WokenRemembers(t: Tree, x: Ctx, y: Ctx) returns (a: Addr)
    requires Sound(t) && CtxInv(t, x) && Flow(x) && Woken(t, x, y) && Holding(y)
    ensures Remembers(t, x, y, a)
  {
    a := 0;
    if x.waiting && x.tokens == [] {
      a := x.nodeRef;
      FirstBarrier(t, x, x, Granted(t, x, x.nodeRef, false));
    }
  }

  lemma OtherRemembers(s: Sys, c: Cid, y: Ctx) returns (a: Addr)
    requires Core(s) && c < |s.ctxs| && Woken(s.t, s.ctxs[c], y) && Holding(y)
    ensures Remembers(s.t, s.ctxs[c], y, a)
  {
    assert Look(s, 0);
    assert CtxOk(s, c);
    a := WokenRemembers(s.t, s.ctxs[c], y);
  }

  /** A barrier is granted at once, or the context waits with what it has. */
  lemma AskedIs(s: Sys, c: Cid, x: Ctx, a: Addr, s': Sys)
    requires c < |s.ctxs| && x.ready > 0 && s' == Acquire(s, c, x, a, false)
    ensures |s'.ctxs| == |s.ctxs|
    ensures s'.ctxs[c] == Granted(s.t, x, a, false) || s'.ctxs[c] == x.(waiting := true, ready := x.ready - 1)
  {
  }

  lemma AskedRemembers(t: Tree, x: Ctx, m: Ctx, y: Ctx)
    requires x.busy && !x.req.insert && Live(t, x.nodeRef) && |t.fence| == |t.store| && Holding(y)
    requires SameMemory(x, m) && m.tokens == x.tokens && m.ready > 0
    requires y == Granted(t, m, x.nodeRef, false) || y == m.(waiting := true, ready := m.ready - 1)
    ensures Remembers(t, x, y, x.nodeRef)
  {
    if x.tokens == [] { FirstBarrier(t, x, m, y); }
  }

  /** A context that gives tokens back keeps the rest of its fields. */
  lemma LetSame(s: Sys, c: Cid, y: Ctx, y': Ctx, m: Sys, n: nat) returns (s': Sys)
    requires Unqueued(s, c) && m.bars == s.bars && m.ctxs == s.ctxs[c := y] && n <= |y.tokens|
    requires y' == y.(tokens := y.tokens[n..])
    ensures s' == Release(m, c, n) && c < |s'.ctxs| && s'.ctxs[c] == y'
  {
    assert Unqueued(m, c) by {
      forall b ensures !InQueue(Bar(m, b).queue, c) { assert !InQueue(Bar(s, b).queue, c); }
    }
    ReleaseSelf(m, c, n);
    s' := Release(m, c, n);
  }

  lemma FetchIs(s: Sys, c: Cid, x: Ctx) returns (s': Sys)
    requires Unqueued(s, c) && x == s.ctxs[c] && x.busy && x.ready > 0 && Live(s.t, x.nodeRef)
    ensures s' == SearchFetch(s, c) && c < |s'.ctxs| && SameMemory(x, s'.ctxs[c])
  {
    var m := x.(next := 2, buffer := s.t.store[x.nodeRef], io := x.io + 1, ready := x.ready - 1);
    s' := LetSame(s, c, m, m.(tokens := m.tokens[Surplus(x)..]), SetCtx(s, c, m), Surplus(x));
  }

  lemma FinishIs(s: Sys, c: Cid, x: Ctx, out: seq<Report>) returns (s': Sys)
    requires Unqueued(s, c) && x == s.ctxs[c] && x.busy && x.ready > 0
    ensures s' == Finish(s, c, out) && c < |s'.ctxs| && !s'.ctxs[c].busy
  {
    var y := x.(busy := false, ready := x.ready - 1);
    s' := LetSame(s, c, y, y.(tokens := y.tokens[|x.tokens|..]), Retire(s, c, out), |x.tokens|);
  }

  lemma ReadIs(s: Sys, c: Cid, x: Ctx) returns (s': Sys)
    requires Safe(s, c) && x == s.ctxs[c] && !x.req.insert && x.state == 2 && Unqueued(s, c)
    ensures s' == SearchRead(s, c) && c < |s'.ctxs| && (s'.ctxs[c].busy ==> SameMemory(x, s'.ctxs[c]))
  {
    if Answer(x).Some? { s' := FinishIs(s, c, x, [Report(x.req, Answer(x).value)]); }
    else { s' := SearchRead(s, c); }
  }

  lemma ReaderHolds(s: Sys, c: Cid)
    requires Core(s) && c < |s.ctxs| && s.ctxs[c].busy && s.ctxs[c].ready > 0
    requires !s.ctxs[c].req.insert && s.ctxs[c].state == 2
    ensures Holding(s.ctxs[c])
  {
    SeekOpened(s, c, 2);
  }

  lemma OwnRemembers(s: Sys, c: Cid, x: Ctx, y: Ctx) returns (a: Addr)
    requires Core(s) && c < |s.ctxs| && x == s.ctxs[c] && x.ready > 0 && Safe(s, c) && !x.req.insert
    requires |Run(s, c).ctxs| == |s.ctxs| && y == Run(s, c).ctxs[c] && Holding(y)
    ensures Remembers(s.t, x, y, a)
  {
    ReadyUnqueued(s, c);
    a := 0;
    if x.state == 0 {
      a := x.nodeRef;
      AskedIs(s, c, x.(next := 1), x.nodeRef, Run(s, c));
      AskedRemembers(s.t, x, x.(next := 1), y);
    }
    else if x.state == 1 { var s' := FetchIs(s, c, x); }
    else {
      ReaderHolds(s, c);
      var s' := ReadIs(s, c, x);
    }
  }

  lemma RanRemembers(s: Sys, d: Cid, slots: nat, c: Cid, s': Sys) returns (a: Addr)
    requires Core(s) && Books(s, slots) && d < |s.ctxs| && s.ctxs[d].ready > 0 && Safe(s, d)
    requires s' == Run(s, d) && c < |s'.ctxs| && Holding(s'.ctxs[c])
    ensures |s'.ctxs| == |s.ctxs| && Remembers(s.t, s.ctxs[c], s'.ctxs[c], a)
  {
    RunSpends(s, d);
    if d != c { a := OtherRemembers(s, c, s'.ctxs[c]); }
    else {
      RunKeepsRequest(s, c, slots);
      a := OwnRemembers(s, c, s.ctxs[c], s'.ctxs[c]);
    }
  }

  lemma RunKeepsRequest(s: Sys, c: Cid, slots: nat)
    requires Core(s) && Books(s, slots) && c < |s.ctxs| && s.ctxs[c].ready > 0 && Safe(s, c)
    ensures c < |Run(s, c).ctxs| && Run(s, c).ctxs[c].req == s.ctxs[c].req
  {
    assert Look(s, 0);
    assert CtxOk(s, c) && InStep(s, c);
    RunEffect(s, c);
    var y, m :| Mid(s, c, y, m) && OnlyGrants(m, Run(s, c));
    assert Nudged(m.ctxs[c], Run(s, c).ctxs[c]);
  }

  /** No other event gives a barrier to anybody. */
  lemma OthersRemember(s: Sys, e: Event, c: Cid, s': Sys)
    requires Core(s) && Enabled(s, e) && !e.Ran? && s' == After(s, e) && c < |s'.ctxs| && Holding(s'.ctxs[c])
    ensures |s'.ctxs| == |s.ctxs| && Remembers(s.t, s.ctxs[c], s'.ctxs[c], 0)
  {
    assert Look(s, 0);
    assert CtxOk(s, c);
  }

  lemma NextRemembers(s: Sys, s': Sys, slots: nat, c: Cid) returns (a: Addr)
    requires Core(s) && Books(s, slots) && Next(s, s') && c < |s'.ctxs| && Holding(s'.ctxs[c])
    ensures |s'.ctxs| == |s.ctxs| && Remembers(s.t, s.ctxs[c], s'.ctxs[c], a)
  {
    var e :| Enabled(s, e) && s' == After(s, e);
    if e.Ran? { a := RanRemembers(s, e.c, slots, c, s'); }
    else {
      a := 0;
      OthersRemember(s, e, c, s');
    }
  }

  lemma NobodyHolds(s: Sys, cap: nat, slots: nat, c: Cid)
    requires Init(s, cap, slots) && c < |s.ctxs|
    ensures !Holding(s.ctxs[c])
  {
    assert IdleCtx(s.ctxs[c]);
  }

  lemma {:induction false} FindStart(tr: seq<Sys>, cap: nat, slots: nat, i: nat, c: Cid) returns (g: nat, a: Addr)
    requires IsRun(tr, cap, slots) && i < |tr| && c < |tr[i].ctxs| && Holding(tr[i].ctxs[c])
    ensures g < i && Begins(tr[g], tr[g + 1], c, tr[i].ctxs[c].req, a) && Recalls(tr[g].t, tr[i].ctxs[c], a)
    decreases i
  {
    if c < |tr[0].ctxs| { NobodyHolds(tr[0], cap, slots, c); }
    var m := i - 1;
    RunsKeepCore(tr, cap, slots, m);
    RunsKeepBooks(tr, cap, slots, m);
    assert Next(tr[m], tr[m + 1]);
    a := NextRemembers(tr[m], tr[i], slots, c);
    if tr[m].ctxs[c].tokens == [] { g := m; } else { g, a := FindStart(tr, cap, slots, m, c); }
  }

  // ---------- every completed search ----------

  /** In every run, a completed search has reported exactly once. It did so in flight, and its report was the answer of
      the map at that moment if and only if, when it got its first barrier, its key was below the upper bound of that
      node, or the key is absent; and always if that node was then the root. */
  lemma SearchReported(tr: seq<Sys>, cap: nat, slots: nat, n: nat, r: Request)
      returns (g: nat, i: nat, c: Cid, a: Addr, v: Option<Val>)
    requires IsRun(tr, cap, slots) && n < |tr| && r in tr[n].done && !r.insert
    ensures multiset(Reporters(tr[n].reports))[r] == 1 && Report(r, v) in tr[n].reports
    ensures g < i < n && Begins(tr[g], tr[g + 1], c, r, a) && Reporting(tr[i], tr[i + 1], c, Report(r, v))
    ensures var truth := Get(Apply(tr[i].log), r.key);
            && (v == truth <==> Below(r.key, tr[g].t.fence[a].hi) || truth == None)
            && (a == tr[g].t.root ==> v == truth)
  {
    RunsKeepBooks(tr, cap, slots, n);
    RunsKeepTold(tr, cap, slots, n);
    var j := DoneSearch(tr[n], slots, r);
    v := tr[n].reports[j].answer;
    i, c := FindReport(tr, cap, slots, n, j);
    RunsKeepCore(tr, cap, slots, i);
    SearchAnswer(tr[i], c);
    ReaderHolds(tr[i], c);
    g, a := FindStart(tr, cap, slots, i, c);
  }

  lemma {:induction false} SearchesCount(rs: seq<Request>, r: Request)
    ensures multiset(Searches(rs))[r] == if r.insert then 0 else multiset(rs)[r]
  {
    if rs != [] {
      var k := |rs| - 1;
      SearchesCount(rs[..k], r);
      assert rs == rs[..k] + [rs[k]];
    }
  }

  lemma DoneSearch(s: Sys, slots: nat, r: Request) returns (j: nat)
    requires Books(s, slots) && Told(s) && r in s.done && !r.insert
    ensures multiset(Reporters(s.reports))[r] == 1 && j < |s.reports| && s.reports[j].req == r
  {
    OnePlace(s, slots, r);
    SearchesCount(s.done, r);
    assert r in multiset(Reporters(s.reports));
    j :| 0 <= j < |s.reports| && Reporters(s.reports)[j] == r;
  }
}
