/** A run in which a search answers "not found" for a key that is in the tree: it starts from the root, waits for its
    barrier while an insertion splits the root, and then reads only the left half. */
module StaleSearch {
  import opened Nodes
  import opened TreeState
  import opened Contexts
  import opened Steps
  import opened Releases
  import opened Scheduler
  import opened Ledger
  import opened Paths

  // ---------- a tree of one leaf ----------

  /** The tree is the single leaf `es`. */
  ghost predicate OneLeaf(t: Tree, es: seq<Entry>) {
    && t.cap == 2 && t.store == [Leaf(es, -1)] && t.root == 0 && t.depth == 1 && t.fence == [Fence(1, NegInf, PosInf)]
  }

  /** Between requests. */
  ghost predicate AtRest(s: Sys, es: seq<Entry>) {
    && Core(s) && OneLeaf(s.t, es) && Bar(s, 0) == Barrier(0, 0, []) && |s.ctxs| == 4
    && !s.ctxs[0].busy && !s.ctxs[2].busy && s.submitting == [] && s.queue == [] && s.free == 2
  }

  /** Context 2 waits for the root, to search for `key`. */
  ghost predicate Waits(s: Sys, key: Key) {
    && |s.ctxs| == 4 && Bar(s, 0).queue == [Wait(2, false)]
    && var x := s.ctxs[2];
    && x.busy && !x.req.insert && x.req.key == key && x.waiting && x.tokens == [] && x.nodeRef == 0
    && x.ready == 0 && x.next == 1 && x.io == 0
  }

  /** Context 0 works on the insertion of (k, v) in the given state, holding the root if `held`; if `late`, a search for
      `k - 1` waits for the root, otherwise the system does nothing else. */
  ghost predicate Working(s: Sys, es: seq<Entry>, k: Key, v: Val, state: int, held: bool, late: bool) {
    && Core(s) && OneLeaf(s.t, es) && |s.ctxs| == 4 && s.submitting == [] && s.queue == []
    && Bar(s, 0).readers == 0 && Bar(s, 0).writers == (if held then 1 else 0)
    && (if late then Waits(s, k - 1) else Bar(s, 0).queue == [] && !s.ctxs[2].busy && s.free == 1)
    && Inserting(s.ctxs[0], k, v, state, held)
  }

  ghost predicate Inserting(x: Ctx, k: Key, v: Val, state: int, held: bool) {
    && x.busy && x.req.insert && x.req.key == k && x.req.val == v && x.ready == 1 && x.io == 0 && x.state == state
    && x.tokens == (if held then [Token(0, true)] else []) && x.parents == []
    && (state == 0 ==> x.nodeRef == -1) && (held ==> x.nodeRef == 0)
    && (state == 10001 ==> x.referToRoot)
  }

  lemma Arrives(s0: Sys, s: Sys, es: seq<Entry>, k: Key, v: Val) returns (s': Sys)
    requires Leads(s0, s) && AtRest(s, es)
    ensures Leads(s0, s') && Working(s', es, k, v, 0, false, false) && s'.ctxs[0].optimistic && s'.ctxs[0].nextLeaf
    ensures s'.log == s.log
  {
    var s1 := Go(s0, s, Announced(true, k, v));
    var s2 := Go(s0, s1, Pushed(0));
    assert s2.queue == [s1.submitting[0]];
    s' := Go(s0, s2, Admitted(0));
    assert Look(s2, 0);
    assert CtxOk(s2, 0);
  }

  /** From state 0, with the root free, to state 10001 with the root held for writing. */
  lemma Visits(s0: Sys, s: Sys, es: seq<Entry>, k: Key, v: Val) returns (s': Sys)
    requires Leads(s0, s) && Working(s, es, k, v, 0, false, false) && s.ctxs[0].nextLeaf
    ensures Leads(s0, s') && Working(s', es, k, v, 10001, true, false) && s'.ctxs[0].optimistic == s.ctxs[0].optimistic
    ensures s'.ctxs[0].freeSlot == s.ctxs[0].freeSlot && s'.log == s.log
  {
    s' := Go(s0, s, Ran(0));
  }

  /** The root has not moved: on to state 1. */
  lemma Enters(s0: Sys, s: Sys, es: seq<Entry>, k: Key, v: Val, late: bool) returns (s': Sys)
    requires Leads(s0, s) && Working(s, es, k, v, 10001, true, late) && (s.ctxs[0].optimistic || !s.ctxs[0].freeSlot)
    ensures Leads(s0, s') && Working(s', es, k, v, 1, true, late) && s'.ctxs[0].optimistic == s.ctxs[0].optimistic
    ensures s'.log == s.log
  {
    s' := Go(s0, s, Ran(0));
    var x1 := s.ctxs[0].(referToRoot := false, next := 1, state := 1, held := 0);
    assert Release(SetCtx(s, 0, x1), 0, 0) == SetCtx(s, 0, x1);
  }

  /** The leaf is read: on to state 2. */
  lemma Reads(s0: Sys, s: Sys, es: seq<Entry>, k: Key, v: Val, late: bool) returns (s': Sys)
    requires Leads(s0, s) && Working(s, es, k, v, 1, true, late)
    ensures Leads(s0, s') && Working(s', es, k, v, 2, true, late) && s'.ctxs[0].optimistic == s.ctxs[0].optimistic
    ensures s'.ctxs[0].buffer == Leaf(es, -1) && s'.log == s.log
  {
    var s1 := Go(s0, s, Ran(0));
    s' := Go(s0, s1, Completed(0));
  }

  /** The entry goes into the leaf, and the write completes: on to state 10. */
  lemma Puts(s0: Sys, s: Sys, es: seq<Entry>, k: Key, v: Val) returns (s': Sys)
    requires Leads(s0, s) && Working(s, es, k, v, 2, true, false) && s.ctxs[0].buffer == Leaf(es, -1) && |es| < 2
    ensures Leads(s0, s') && Working(s', Put(es, k, v), k, v, 10, true, false)
    ensures s'.ctxs[0].wbCount == 0 && s'.ctxs[0].wbTarget == 1 && !s'.ctxs[0].childSplit
    ensures s'.log == s.log + [Write(s.ctxs[0].req.id, k, v)]
  {
    var s1 := Go(s0, s, Ran(0));
    s' := Go(s0, s1, Completed(0));
  }

  lemma Settles(s0: Sys, s: Sys, es: seq<Entry>, k: Key, v: Val) returns (s': Sys)
    requires Leads(s0, s) && Working(s, es, k, v, 10, true, false)
    requires s.ctxs[0].wbCount == 0 && s.ctxs[0].wbTarget == 1 && !s.ctxs[0].childSplit
    ensures Leads(s0, s') && Working(s', es, k, v, 11, true, false) && s'.log == s.log
  {
    var s1 := Go(s0, s, Ran(0));
    s' := Go(s0, s1, Ran(0));
  }

  /** Releasing the only token of a barrier nobody waits for. */
  lemma LastToken(m: Sys, c: Cid)
    requires c < |m.ctxs| && m.ctxs[c].tokens == [Token(0, true)] && Bar(m, 0) == Barrier(0, 1, [])
    ensures Release(m, c, 1) == m.(bars := m.bars[0 := Barrier(0, 0, [])],
              ctxs := m.ctxs[c := m.ctxs[c].(tokens := [])])
  {
    var d := Drop(m, c, 0);
    assert m.ctxs[c].tokens[..0] + m.ctxs[c].tokens[1..] == [];
    assert Bar(d, 0).queue == [];
    assert Offer(d, 0) == d && Release(d, c, 0) == d;
  }

  lemma Ends(s0: Sys, s: Sys, es: seq<Entry>, k: Key, v: Val) returns (s': Sys)
    requires Leads(s0, s) && Working(s, es, k, v, 11, true, false)
    ensures Leads(s0, s') && AtRest(s', es) && s'.log == s.log
  {
    s' := Go(s0, s, Ran(0));
    LastToken(Retire(s, 0, []), 0);
  }

  /** A whole insertion into a leaf with room. */
  lemma Inserts(s0: Sys, s: Sys, es: seq<Entry>, k: Key, v: Val) returns (s': Sys)
    requires Leads(s0, s) && AtRest(s, es) && |es| < 2
    ensures Leads(s0, s') && AtRest(s', Put(es, k, v)) && exists id :: s'.log == s.log + [Write(id, k, v)]
  {
    var s1 := Arrives(s0, s, es, k, v);
    var s2 := Visits(s0, s1, es, k, v);
    var s3 := Enters(s0, s2, es, k, v, false);
    var s4 := Reads(s0, s3, es, k, v, false);
    var s5 := Puts(s0, s4, es, k, v);
    var s6 := Settles(s0, s5, Put(es, k, v), k, v);
    s' := Ends(s0, s6, Put(es, k, v), k, v);
  }

  // ---------- the insertion that splits the root, and the search that comes too early ----------

  lemma GivesUp(s0: Sys, s: Sys, es: seq<Entry>, k: Key, v: Val) returns (s': Sys)
    requires Leads(s0, s) && Working(s, es, k, v, 2, true, false) && s.ctxs[0].buffer == Leaf(es, -1)
    requires |es| == 2 && s.ctxs[0].optimistic
    ensures Leads(s0, s') && Working(s', es, k, v, 0, false, false) && !s'.ctxs[0].optimistic
    ensures !s'.ctxs[0].freeSlot && s'.ctxs[0].nextLeaf && s'.log == s.log
  {
    var s1 := Go(s0, s, Ran(0));
    s' := Go(s0, s1, Ran(0));
    var x := s1.ctxs[0];
    var m := SetCtx(s1, 0, x.(optimistic := false, freeSlot := false, referToRoot := false, nextLeaf := s1.t.depth == 1,
                              level := s1.t.depth, nodeRef := -1, next := 0, state := 0, held := |x.parents|));
    LastToken(m, 0);
  }

  /** A search for `k - 1` arrives while the root is held for writing ... */
  lemma SearchArrives(s0: Sys, s: Sys, es: seq<Entry>, k: Key, v: Val) returns (s': Sys)
    requires Leads(s0, s) && Working(s, es, k, v, 10001, true, false)
    ensures Leads(s0, s') && Core(s') && |s'.ctxs| == 4 && s'.ctxs[0] == s.ctxs[0] && s'.t == s.t && s'.bars == s.bars
    ensures s'.submitting == [] && s'.queue == [] && s'.log == s.log
    ensures var x := s'.ctxs[2];
            && x.busy && !x.req.insert && x.req.key == k - 1 && x.ready == 1 && x.io == 0 && x.state == 0
            && x.tokens == [] && x.nodeRef == 0
  {
    var s1 := Go(s0, s, Announced(false, k - 1, 0));
    var s2 := Go(s0, s1, Pushed(0));
    assert s2.queue == [s1.submitting[0]];
    assert Look(s2, 0);
    assert CtxOk(s2, 2);
    s' := Go(s0, s2, Admitted(2));
  }

  /** ... and waits for it. */
  lemma SearchComes(s0: Sys, s: Sys, es: seq<Entry>, k: Key, v: Val) returns (s': Sys)
    requires Leads(s0, s) && Working(s, es, k, v, 10001, true, false)
    ensures Leads(s0, s') && Working(s', es, k, v, 10001, true, true) && s'.ctxs[0] == s.ctxs[0] && s'.log == s.log
  {
    var s1 := SearchArrives(s0, s, es, k, v);
    s' := Go(s0, s1, Ran(2));
  }

  /** The root is split, and context 0 waits for `io` writes and has `ready` completions to handle. */
  ghost predicate Halved(s: Sys, e: Entry, key: Key, next: int, ready: nat, io: nat) {
    && Core(s) && |s.t.store| >= 2 && s.t.store[0] == Leaf([e], 1) && Waits(s, key)
    && Bar(s, 0) == Barrier(0, 1, [Wait(2, false)])
    && var x := s.ctxs[0];
    && x.busy && x.req.insert && x.tokens == [Token(0, true)] && x.next == next && x.ready == ready && x.io == io
    && (ready > 0 ==> x.state == next)
  }

  lemma Splits(s0: Sys, s: Sys, es: seq<Entry>, k: Key, v: Val) returns (s': Sys)
    requires Leads(s0, s) && Working(s, es, k, v, 2, true, true) && s.ctxs[0].buffer == Leaf(es, -1)
    requires |es| == 2 && es[0].key < es[1].key < k && !s.ctxs[0].optimistic
    ensures Leads(s0, s') && Halved(s', es[0], k - 1, 12, 0, 2) && s'.ctxs[0].wbCount == 0 && s'.ctxs[0].wbTarget == 2
    ensures s'.log == s.log + [Write(s.ctxs[0].req.id, k, v)]
  {
    s' := Go(s0, s, Ran(0));
    SlotUnique(es, k, 2);
    assert SplitPut(es, k, v, 2).0 == [es[0]];
  }

  lemma FirstHalfWritten(s0: Sys, s: Sys, e: Entry, key: Key) returns (s': Sys)
    requires Leads(s0, s) && Halved(s, e, key, 12, 0, 2) && s.ctxs[0].wbCount == 0 && s.ctxs[0].wbTarget == 2
    ensures Leads(s0, s') && Halved(s', e, key, 12, 0, 1) && s'.ctxs[0].wbCount == 1 && s'.ctxs[0].wbTarget == 2
    ensures s'.log == s.log
  {
    var s1 := Go(s0, s, Completed(0));
    s' := Go(s0, s1, Ran(0));
  }

  lemma SecondHalfWritten(s0: Sys, s: Sys, e: Entry, key: Key) returns (s': Sys)
    requires Leads(s0, s) && Halved(s, e, key, 12, 0, 1) && s.ctxs[0].wbCount == 1 && s.ctxs[0].wbTarget == 2
    ensures Leads(s0, s') && Halved(s', e, key, 12, 1, 0) && s'.ctxs[0].wbCount == 1 && s'.ctxs[0].wbTarget == 2
    ensures s'.log == s.log
  {
    s' := Go(s0, s, Completed(0));
  }

  lemma RootPublished(s0: Sys, s: Sys, e: Entry, key: Key) returns (s': Sys)
    requires Leads(s0, s) && Halved(s, e, key, 12, 1, 0) && s.ctxs[0].wbCount == 1 && s.ctxs[0].wbTarget == 2
    ensures Leads(s0, s') && Halved(s', e, key, 11, 1, 0) && s'.log == s.log
  {
    var s1 := Go(s0, s, Ran(0));
    s' := Go(s0, s1, Completed(0));
  }

  /** Giving back the root grants it to the waiting search. */
  lemma Granting(m: Sys)
    requires |m.ctxs| == 4 && m.ctxs[0].tokens == [Token(0, true)] && Bar(m, 0) == Barrier(0, 1, [Wait(2, false)])
    requires m.ctxs[2].tokens == [] && m.ctxs[2].ready == 0
    ensures var s' := Release(m, 0, 1);
            && s'.t == m.t && s'.log == m.log && |s'.ctxs| == 4
            && s'.ctxs[2] == Granted(m.t, m.ctxs[2], 0, false).(waiting := false, ready := 1)
  {
    var d := Drop(m, 0, 0);
    assert Bar(d, 0) == Barrier(0, 0, [Wait(2, false)]);
    var f := Fire(d, 0);
    assert Bar(f, 0).queue == [];
    assert Offer(d, 0) == f && Release(f, 0, 0) == f;
  }

  /** The search has the left half of the old root. */
  ghost predicate Misled(s: Sys, e: Entry, key: Key) {
    && Core(s) && |s.t.store| >= 2 && s.t.store[0] == Leaf([e], 1) && |s.ctxs| == 4
    && var x := s.ctxs[2];
    && x.busy && !x.req.insert && x.req.key == key && x.ready == 1 && x.state == 1 && x.tokens == [Token(0, false)]
    && x.nodeRef == 0
  }

  lemma RootReleased(s0: Sys, s: Sys, e: Entry, key: Key) returns (s': Sys)
    requires Leads(s0, s) && Halved(s, e, key, 11, 1, 0)
    ensures Leads(s0, s') && Misled(s', e, key) && s'.log == s.log
  {
    s' := Go(s0, s, Ran(0));
    Granting(Retire(s, 0, []));
  }

  lemma SearchReads(s0: Sys, s: Sys, e: Entry, key: Key) returns (s': Sys)
    requires Leads(s0, s) && Misled(s, e, key)
    ensures Leads(s0, s') && Core(s') && |s'.ctxs| == 4 && s'.log == s.log
    ensures var x := s'.ctxs[2];
            x.busy && !x.req.insert && x.req.key == key && x.ready == 1 && x.state == 2 && x.buffer == Leaf([e], 1)
  {
    var s1 := Go(s0, s, Ran(2));
    var x := s.ctxs[2];
    assert Surplus(x) == 0;
    var m := SetCtx(s, 2, x.(next := 2, buffer := s.t.store[x.nodeRef], io := x.io + 1, ready := x.ready - 1));
    assert Release(m, 2, 0) == m;
    s' := Go(s0, s1, Completed(2));
  }

  // ---------- the whole run ----------

  ghost function FreshCtx(): Ctx {
    Ctx(false, Request(0, false, 0, 0), 0, 0, 0, Leaf([], -1), [], false, false, false, 0, false, false, [], false,
        Split(0, Leaf([], -1), 0, Leaf([], -1), 0), 0, 0, false, 0, 0, 0, false, false)
  }

  lemma Starts() returns (s: Sys)
    ensures Init(s, 2, 2) && AtRest(s, []) && Leads(s, s) && s.log == []
  {
    var x := FreshCtx();
    s := Sys(EmptyTree(2), map[], [x, x, x, x], [], [], [], 0, 2, [], [], [], false);
    InitCore(s, 2, 2);
    Stay(s);
  }

  /** The root is about to be split while a search for key 2 waits for it. */
  lemma Meets(s0: Sys, s: Sys, es: seq<Entry>, k: Key, v: Val) returns (s': Sys)
    requires Leads(s0, s) && AtRest(s, es) && |es| == 2
    ensures Leads(s0, s') && Working(s', es, k, v, 10001, true, true) && !s'.ctxs[0].optimistic && !s'.ctxs[0].freeSlot
    ensures s'.log == s.log
  {
    var s1 := Arrives(s0, s, es, k, v);
    var s2 := Visits(s0, s1, es, k, v);
    var s3 := Enters(s0, s2, es, k, v, false);
    var s4 := Reads(s0, s3, es, k, v, false);
    var s5 := GivesUp(s0, s4, es, k, v);
    var s6 := Visits(s0, s5, es, k, v);
    s' := SearchComes(s0, s6, es, k, v);
  }

  lemma Misleads(s0: Sys, s: Sys, es: seq<Entry>, k: Key, v: Val) returns (s': Sys)
    requires Leads(s0, s) && Working(s, es, k, v, 10001, true, true) && !s.ctxs[0].optimistic && !s.ctxs[0].freeSlot
    requires |es| == 2 && es[0].key < es[1].key < k
    ensures Leads(s0, s') && Misled(s', es[0], k - 1) && exists id :: s'.log == s.log + [Write(id, k, v)]
  {
    var s1 := Enters(s0, s, es, k, v, true);
    var s2 := Reads(s0, s1, es, k, v, true);
    var s3 := Splits(s0, s2, es, k, v);
    var s4 := FirstHalfWritten(s0, s3, es[0], k - 1);
    var s5 := SecondHalfWritten(s0, s4, es[0], k - 1);
    var s6 := RootPublished(s0, s5, es[0], k - 1);
    s' := RootReleased(s0, s6, es[0], k - 1);
  }

  lemma ThreeWrites(log: seq<Write>, a: nat, b: nat, c: nat)
    requires log == [] + [Write(a, 1, 10)] + [Write(b, 2, 20)] + [Write(c, 3, 30)]
    ensures Get(Apply(log), 2) == Some(20)
  {
    ApplyAppend([], Write(a, 1, 10));
    ApplyAppend([] + [Write(a, 1, 10)], Write(b, 2, 20));
    ApplyAppend([] + [Write(a, 1, 10)] + [Write(b, 2, 20)], Write(c, 3, 30));
  }

  /** The search reports what it has read. */
  lemma Reports(s0: Sys, s: Sys, e: Entry, key: Key) returns (s': Sys, rep: Report)
    requires Leads(s0, s) && Core(s) && |s.ctxs| == 4 && e.key != key
    requires var x := s.ctxs[2];
             x.busy && !x.req.insert && x.req.key == key && x.ready == 1 && x.state == 2 && x.buffer == Leaf([e], 1)
    ensures Leads(s0, s') && s'.log == s.log && s'.reports == s.reports + [rep] && s'.done == s.done + [rep.req]
    ensures !rep.req.insert && rep.req.key == key && rep.answer == None
  {
    s' := Go(s0, s, Ran(2));
    var x := s.ctxs[2];
    LookupMiss([e], key);
    rep := Report(x.req, None);
    ReleaseGrants(Retire(s, 2, [rep]), 2, |x.tokens|);
  }

  /** There is a run in whose last step a search reports that its key is missing, although the key is in the map. */
  lemma StaleAnswer() returns (tr: seq<Sys>, rep: Report)
    ensures IsRun(tr, 2, 2)
    ensures var s := tr[|tr| - 1];
            && rep in s.reports && rep.req in s.done && !rep.req.insert && rep.answer == None
            && Get(Apply(s.log), rep.req.key) == Some(20)
  {
    var s0 := Starts();
    var s1 := Inserts(s0, s0, [], 1, 10);
    assert Put([], 1, 10) == [Entry(1, 10)];
    var s2 := Inserts(s0, s1, [Entry(1, 10)], 2, 20);
    assert Put([Entry(1, 10)], 2, 20) == [Entry(1, 10), Entry(2, 20)];
    var es := [Entry(1, 10), Entry(2, 20)];
    var s3 := Meets(s0, s2, es, 3, 30);
    var s4 := Misleads(s0, s3, es, 3, 30);
    var s5 := SearchReads(s0, s4, Entry(1, 10), 2);
    var a, b, c :| s1.log == [] + [Write(a, 1, 10)] && s2.log == s1.log + [Write(b, 2, 20)]
        && s4.log == s3.log + [Write(c, 3, 30)];
    ThreeWrites(s5.log, a, b, c);
    var s6;
    s6, rep := Reports(s0, s5, Entry(1, 10), 2);
    tr :| IsPath(tr, s0, s6);
  }
}
