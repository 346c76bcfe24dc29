/** What clients asked for and what became of it: runs together with their events. */
module Clients {
  import opened Nodes
  import opened TreeState
  import opened Contexts
  import opened Releases
  import opened Scheduler
  import opened Ledger
  import opened Guarantees
  import opened Completion
  import opened Reports

  // ---------- runs with their events ----------

  /** Event `i` leads from state `i` to the next one. */
  ghost predicate Took(tr: seq<Sys>, es: seq<Event>, i: nat) {
    i < |es| && |tr| == |es| + 1 && Enabled(tr[i], es[i]) && tr[i + 1] == After(tr[i], es[i])
  }

  ghost predicate IsTrace(tr: seq<Sys>, es: seq<Event>, cap: nat, slots: nat) {
    && |tr| == |es| + 1 && Init(tr[0], cap, slots)
    && forall i {:trigger Took(tr, es, i)} :: 0 <= i < |es| ==> Took(tr, es, i)
  }

  /** Every run has events, and events make a run. */
  lemma TraceIsRun(tr: seq<Sys>, es: seq<Event>, cap: nat, slots: nat)
    requires IsTrace(tr, es, cap, slots)
    ensures IsRun(tr, cap, slots)
  {
    forall i | 0 <= i < |tr| - 1 ensures Next(tr[i], tr[i + 1]) { assert Took(tr, es, i); }
  }

  lemma {:induction false} RunHasEvents(tr: seq<Sys>, cap: nat, slots: nat) returns (es: seq<Event>)
    requires IsRun(tr, cap, slots)
    ensures IsTrace(tr, es, cap, slots)
    decreases |tr|
  {
    if |tr| == 1 { es := []; }
    else {
      var k := |tr| - 2;
      var front := tr[..k + 1];
      forall i | 0 <= i < |front| - 1 ensures Next(front[i], front[i + 1]) { assert Next(tr[i], tr[i + 1]); }
      var before := RunHasEvents(front, cap, slots);
      assert Next(tr[k], tr[k + 1]);
      var e :| Enabled(tr[k], e) && tr[k + 1] == After(tr[k], e);
      es := before + [e];
      forall i | 0 <= i < |es| ensures Took(tr, es, i) { if i < k { assert Took(front, before, i); } }
    }
  }

  // ---------- what was asked is what was issued ----------

  /** The requests of the clients, in the order they came in. */
  function Asked(es: seq<Event>): (calls: seq<Event>)
    ensures forall j {:trigger calls[j]} :: 0 <= j < |calls| ==> calls[j].Announced?
  {
    if es == [] then []
    else Asked(es[..|es| - 1]) + if es[|es| - 1].Announced? then [es[|es| - 1]] else []
  }

  /** Request `j` is what client call `a` asked for. */
  predicate Matches(r: Request, j: nat, a: Event)
    requires a.Announced?
  {
    r.id == j && r.insert == a.insert && r.key == a.key && r.val == a.val
  }

  ghost predicate Faithful(issued: seq<Request>, calls: seq<Event>)
    requires forall j {:trigger calls[j]} :: 0 <= j < |calls| ==> calls[j].Announced?
  {
    |issued| == |calls| && forall j {:trigger issued[j]} :: 0 <= j < |calls| ==> Matches(issued[j], j, calls[j])
  }

  /** In every run, the requests issued are those the clients asked for, in order, with their kinds, keys and values. */
  lemma {:induction false} IssuedAsAsked(tr: seq<Sys>, es: seq<Event>, cap: nat, slots: nat, i: nat)
    requires IsTrace(tr, es, cap, slots) && i <= |es|
    ensures Faithful(tr[i].issued, Asked(es[..i]))
    decreases i
  {
    if i > 0 {
      var m := i - 1;
      IssuedAsAsked(tr, es, cap, slots, m);
      IssueStep(tr, es, cap, slots, m);
      assert es[..i][..m] == es[..m] && es[..i][m] == es[m];
    }
  }

  lemma IssueStep(tr: seq<Sys>, es: seq<Event>, cap: nat, slots: nat, m: nat)
    requires IsTrace(tr, es, cap, slots) && m < |es|
    ensures if es[m].Announced? then
              tr[m + 1].issued == tr[m].issued + [Request(|tr[m].issued|, es[m].insert, es[m].key, es[m].val)]
            else tr[m + 1].issued == tr[m].issued
    ensures Grows(tr[m], tr[m + 1])
  {
    StateFacts(tr, es, cap, slots, m);
    assert Took(tr, es, m);
    NextGrows(tr[m], es[m], slots);
  }

  lemma StateFacts(tr: seq<Sys>, es: seq<Event>, cap: nat, slots: nat, i: nat)
    requires IsTrace(tr, es, cap, slots) && i <= |es|
    ensures Core(tr[i]) && Books(tr[i], slots) && Told(tr[i])
  {
    TraceIsRun(tr, es, cap, slots);
    RunsKeepCore(tr, cap, slots, i);
    RunsKeepBooks(tr, cap, slots, i);
    RunsKeepTold(tr, cap, slots, i);
  }

  // ---------- requests are admitted in the order they were pushed ----------

  /** The requests clients put into the queue in the first `i` events, and those that contexts took on. */
  ghost function Pushes(tr: seq<Sys>, es: seq<Event>, i: nat): seq<Request>
    requires i <= |es| && |tr| == |es| + 1
  {
    if i == 0 then []
    else
      var e, s := es[i - 1], tr[i - 1];
      Pushes(tr, es, i - 1) + if e.Pushed? && e.i < |s.submitting| then [s.submitting[e.i]] else []
  }

  ghost function Admissions(tr: seq<Sys>, es: seq<Event>, i: nat): seq<Request>
    requires i <= |es| && |tr| == |es| + 1
  {
    if i == 0 then []
    else
      var e, s' := es[i - 1], tr[i];
      Admissions(tr, es, i - 1) + if e.Admitted? && e.c < |s'.ctxs| then [s'.ctxs[e.c].req] else []
  }

  /** In every run contexts take on the requests in the order in which they were put into the queue, and what is left of
      them is the queue. */
  lemma {:induction false} AdmittedInOrder(tr: seq<Sys>, es: seq<Event>, cap: nat, slots: nat, i: nat)
    requires IsTrace(tr, es, cap, slots) && i <= |es|
    ensures Pushes(tr, es, i) == Admissions(tr, es, i) + tr[i].queue
    decreases i
  {
    if i > 0 {
      var m := i - 1;
      AdmittedInOrder(tr, es, cap, slots, m);
      QueueInTrace(tr, es, cap, slots, m);
      QueueKeeps(tr, es, m);
    }
  }

  lemma QueueInTrace(tr: seq<Sys>, es: seq<Event>, cap: nat, slots: nat, m: nat)
    requires IsTrace(tr, es, cap, slots) && m < |es|
    ensures QueueMoves(tr[m], es[m], tr[m + 1])
  {
    StateFacts(tr, es, cap, slots, m);
    assert Took(tr, es, m);
    QueueStep(tr[m], es[m], tr[m + 1]);
  }

  lemma QueueKeeps(tr: seq<Sys>, es: seq<Event>, m: nat)
    requires m < |es| && |tr| == |es| + 1 && QueueMoves(tr[m], es[m], tr[m + 1])
    requires Pushes(tr, es, m) == Admissions(tr, es, m) + tr[m].queue
    ensures Pushes(tr, es, m + 1) == Admissions(tr, es, m + 1) + tr[m + 1].queue
  {
    var before, e, s, s' := Admissions(tr, es, m), es[m], tr[m], tr[m + 1];
    if e.Admitted? { Regroup(before, [s'.ctxs[e.c].req], s'.queue); }
    else if e.Pushed? { Regroup(before, s.queue, [s.submitting[e.i]]); }
    else { Regroup(before, [], s.queue); }
  }

  lemma Regroup<T>(a: seq<T>, b: seq<T>, c: seq<T>)
    ensures a + (b + c) == (a + b) + c
  {
  }

  /** A push lengthens the queue at its end, an admission shortens it at its front. */
  ghost predicate QueueMoves(s: Sys, e: Event, s': Sys) {
    match e
    case Pushed(i) => i < |s.submitting| && s'.queue == s.queue + [s.submitting[i]]
    case Admitted(c) => c < |s'.ctxs| && s.queue != [] && s.queue == [s'.ctxs[c].req] + s'.queue
    case _ => s'.queue == s.queue
  }

  lemma QueueStep(s: Sys, e: Event, s': Sys)
    requires Core(s) && Enabled(s, e) && s' == After(s, e)
    ensures QueueMoves(s, e, s')
  {
    if e.Ran? { RunSpends(s, e.c); }
    else if e.Admitted? { assert s.queue == [s.queue[0]] + s.queue[1..]; }
  }

  // ---------- the order of the leaf writes ----------

  lemma {:induction false} HistoryGrows(tr: seq<Sys>, es: seq<Event>, cap: nat, slots: nat, m: nat, n: nat)
    requires IsTrace(tr, es, cap, slots) && m <= n <= |es|
    ensures Grows(tr[m], tr[n])
    decreases n
  {
    if m < n {
      HistoryGrows(tr, es, cap, slots, m, n - 1);
      IssueStep(tr, es, cap, slots, n - 1);
      GrowsOn(tr[m], tr[n - 1], tr[n]);
    }
  }

  lemma GrowsOn(s: Sys, s1: Sys, s2: Sys)
    requires Grows(s, s1) && Grows(s1, s2)
    ensures Grows(s, s2)
  {
  }

  /** The leaf write a client asked for with its call `j`. */
  function Wanted(calls: seq<Event>, j: nat): Write
    requires j < |calls| && calls[j].Announced?
  {
    Write(j, calls[j].key, calls[j].val)
  }

  /** Every leaf write was asked for. */
  lemma WriteWasAsked(tr: seq<Sys>, es: seq<Event>, cap: nat, slots: nat, i: nat, p: nat)
    requires IsTrace(tr, es, cap, slots) && i <= |es| && p < |tr[i].log|
    ensures var calls, j := Asked(es[..i]), tr[i].log[p].id;
            j < |calls| && calls[j].insert && tr[i].log[p] == Wanted(calls, j)
  {
    var s, w := tr[i], tr[i].log[p];
    StateFacts(tr, es, cap, slots, i);
    IssuedAsAsked(tr, es, cap, slots, i);
    OneWrite(s, slots, w);
    assert w in s.log;
    var j :| 0 <= j < |s.issued| && s.issued[j] == InsertionOf(w);
    assert Matches(s.issued[j], j, Asked(es[..i])[j]);
  }

  /** A completed insertion has written what its client asked for, at one place. */
  lemma DoneIsWritten(tr: seq<Sys>, es: seq<Event>, cap: nat, slots: nat, i: nat, j: nat) returns (p: nat)
    requires IsTrace(tr, es, cap, slots) && i <= |es| && j < |Asked(es[..i])| && Asked(es[..i])[j].insert
    requires j < |tr[i].issued| && tr[i].issued[j] in tr[i].done
    ensures p < |tr[i].log| && tr[i].log[p] == Wanted(Asked(es[..i]), j)
    ensures forall q :: 0 <= q < |tr[i].log| && q != p ==> tr[i].log[q].id != j
  {
    var s, w := tr[i], Wanted(Asked(es[..i]), j);
    StateFacts(tr, es, cap, slots, i);
    IssuedAsAsked(tr, es, cap, slots, i);
    assert Matches(s.issued[j], j, Asked(es[..i])[j]);
    assert s.issued[j] == InsertionOf(w);
    OneWrite(s, slots, w);
    assert w in s.log;
    p :| 0 <= p < |s.log| && s.log[p] == w;
    forall q | 0 <= q < |s.log| && q != p ensures s.log[q].id != j {
      WriteWasAsked(tr, es, cap, slots, i, q);
      if s.log[q].id == j { Twice(s.log, p, q); }
    }
  }

  lemma Twice<T>(xs: seq<T>, p: nat, q: nat)
    requires p < |xs| && q < |xs| && p != q && xs[p] == xs[q]
    ensures multiset(xs)[xs[p]] >= 2
  {
    var i, j := if p < q then p else q, if p < q then q else p;
    assert xs == xs[..i] + [xs[i]] + xs[i + 1..j] + [xs[j]] + xs[j + 1..];
  }

  /** Leaf writes keep the clients' order in time: an insertion that completed before another was asked for comes
      first. */
  lemma WritesInOrder(tr: seq<Sys>, es: seq<Event>, cap: nat, slots: nat, m: nat, n: nat, p: nat, q: nat)
    requires IsTrace(tr, es, cap, slots) && m <= n <= |es| && p < |tr[n].log| && q < |tr[n].log|
    requires InsertionOf(tr[n].log[p]) in tr[m].done && |Asked(es[..m])| <= tr[n].log[q].id
    ensures p < q
  {
    StateFacts(tr, es, cap, slots, m);
    StateFacts(tr, es, cap, slots, n);
    HistoryGrows(tr, es, cap, slots, m, n);
    var w := tr[n].log[p];
    OneWrite(tr[m], slots, w);
    OneWrite(tr[n], slots, w);
    assert w in tr[m].log;
    var k :| 0 <= k < |tr[m].log| && tr[m].log[k] == w;
    assert tr[n].log[k] == w;
    if k != p { Twice(tr[n].log, k, p); }
    assert q < |tr[m].log| ==> tr[m].log[q] == tr[n].log[q];
    if q < |tr[m].log| { WriteWasAsked(tr, es, cap, slots, m, q); }
  }

  // ---------- the contents ----------

  /** The last leaf write of key `k` is at `p`. */
  ghost predicate Latest(log: seq<Write>, k: Key, p: nat) {
    p < |log| && log[p].key == k && forall q {:trigger log[q]} :: p < q < |log| ==> log[q].key != k
  }

  lemma {:induction false} ApplyIsLatest(log: seq<Write>, k: Key) returns (p: nat)
    ensures if Get(Apply(log), k) == None then forall q {:trigger log[q]} :: 0 <= q < |log| ==> log[q].key != k
            else Latest(log, k, p) && Get(Apply(log), k) == Some(log[p].val)
  {
    p := 0;
    if log != [] {
      var n := |log| - 1;
      var front := log[..n];
      p := ApplyIsLatest(front, k);
      if log[n].key == k { p := n; }
      else {
        forall q | 0 <= q < n && Get(Apply(log), k) == None ensures log[q].key != k { assert front[q] == log[q]; }
      }
    }
  }

  /** In every run, whenever no request is pending, looking up a key in the tree gives the value of the last leaf write
      among the insertions of that key the clients asked for, and nothing if no client inserted it. */
  lemma ClientsGet(tr: seq<Sys>, es: seq<Event>, cap: nat, slots: nat, k: Key) returns (p: nat)
    requires IsTrace(tr, es, cap, slots) && tr[|es|].pending == 0
    ensures var s, calls := tr[|es|], Asked(es);
            match Find(s.t.store, s.t.root, s.t.depth, k)
            case None => forall j :: 0 <= j < |calls| && calls[j].insert ==> calls[j].key != k
            case Some(v) =>
              && Latest(s.log, k, p) && s.log[p].id < |calls|
              && calls[s.log[p].id] == Announced(true, k, v)
  {
    var n, s, calls := |es|, tr[|es|], Asked(es);
    assert es[..n] == es;
    StateFacts(tr, es, cap, slots, n);
    TraceIsRun(tr, es, cap, slots);
    AllDone(s, slots);
    IdleRun(tr, cap, slots, n);
    assert Find(s.t.store, s.t.root, s.t.depth, k) == Get(Apply(s.log), k);
    p := ApplyIsLatest(s.log, k);
    if Get(Apply(s.log), k) == None {
      forall j | 0 <= j < |calls| && calls[j].insert ensures calls[j].key != k {
        AskedIsWritten(tr, es, cap, slots, j, k);
      }
    } else {
      WriteWasAsked(tr, es, cap, slots, n, p);
    }
  }

  lemma AskedIsWritten(tr: seq<Sys>, es: seq<Event>, cap: nat, slots: nat, j: nat, k: Key)
    requires IsTrace(tr, es, cap, slots) && tr[|es|].pending == 0 && j < |Asked(es)| && Asked(es)[j].insert
    requires forall q {:trigger tr[|es|].log[q]} :: 0 <= q < |tr[|es|].log| ==> tr[|es|].log[q].key != k
    ensures Asked(es)[j].key != k
  {
    var n, s := |es|, tr[|es|];
    assert es[..n] == es;
    StateFacts(tr, es, cap, slots, n);
    IssuedAsAsked(tr, es, cap, slots, n);
    AllDone(s, slots);
    assert s.issued[j] in multiset(s.issued);
    var p := DoneIsWritten(tr, es, cap, slots, n, j);
  }

  // ---------- searches ----------

  /** A search that starts at the root sees every insertion of its key completed before it was asked for: it reports the
      value of that one or of a later leaf write. */
  lemma SearchSees(tr: seq<Sys>, es: seq<Event>, cap: nat, slots: nat, m: nat, n: nat, j: nat, r: Request)
      returns (g: nat, i: nat, c: Cid, a: Addr, v: Option<Val>, p: nat, q: nat)
    requires IsTrace(tr, es, cap, slots) && m <= n <= |es| && r in tr[n].done && !r.insert
    requires j < |Asked(es[..m])| && Asked(es[..m])[j].insert && Asked(es[..m])[j].key == r.key
    requires j < |tr[m].issued| && tr[m].issued[j] in tr[m].done && |Asked(es[..m])| <= r.id
    ensures g < i < n && Begins(tr[g], tr[g + 1], c, r, a) && Reporting(tr[i], tr[i + 1], c, Report(r, v))
    ensures m <= i && p < |tr[i].log| && tr[i].log[p] == Wanted(Asked(es[..m]), j)
    ensures a == tr[g].t.root ==> p <= q && Latest(tr[i].log, r.key, q) && v == Some(tr[i].log[q].val)
  {
    TraceIsRun(tr, es, cap, slots);
    g, i, c, a, v := SearchReported(tr, cap, slots, n, r);
    AskedBefore(tr, es, cap, slots, m, i, c, r);
    p := DoneIsWritten(tr, es, cap, slots, m, j);
    HistoryGrows(tr, es, cap, slots, m, i);
    assert tr[i].log[p] == tr[m].log[p];
    q := ApplyIsLatest(tr[i].log, r.key);
  }

  /** A request is in flight only after it was asked for. */
  lemma AskedBefore(tr: seq<Sys>, es: seq<Event>, cap: nat, slots: nat, m: nat, i: nat, c: Cid, r: Request)
    requires IsTrace(tr, es, cap, slots) && m <= |es| && i <= |es| && |Asked(es[..m])| <= r.id
    requires c < |tr[i].ctxs| && tr[i].ctxs[c].busy && tr[i].ctxs[c].req == r
    ensures m <= i
  {
    StateFacts(tr, es, cap, slots, i);
    InFlightHas(tr[i].ctxs, c);
    OnePlace(tr[i], slots, r);
    IssuedAsAsked(tr, es, cap, slots, m);
    var k :| 0 <= k < |tr[i].issued| && tr[i].issued[k] == r;
    if i < m { HistoryGrows(tr, es, cap, slots, i, m); }
  }
}
