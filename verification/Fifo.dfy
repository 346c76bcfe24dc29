/** Waiting requests are served in the order they came in. */
module Fifo {
  import opened Nodes
  import opened TreeState
  import opened Contexts
  import opened Steps

  /** Between two states, what contexts other than `c` hold of node `a` changes only by serving the first `k` requests
      of its queue, and what is left of the queue is followed by `tail`. */
  ghost predicate Served(s: Sys, s': Sys, c: Cid, a: Addr, k: nat, tail: seq<Wait>) {
    var q := Bar(s, a).queue;
    && |s'.ctxs| == |s.ctxs| && k <= |q| && Bar(s', a).queue == q[k..] + tail
    && (forall j {:trigger q[j]} :: 0 <= j < k ==>
          q[j].cid < |s.ctxs| && (q[j].cid == c || Has(s', q[j].cid, Token(a, q[j].write))))
    && (forall d: Cid, w {:trigger Has(s', d, Token(a, w))} :: d < |s.ctxs| && d != c && Has(s', d, Token(a, w)) ==>
          Has(s, d, Token(a, w)) || Wait(d, w) in q[..k])
    && (forall d: Cid, w {:trigger Has(s, d, Token(a, w))} :: d < |s.ctxs| && d != c && Has(s, d, Token(a, w)) ==>
          Has(s', d, Token(a, w)))
  }

  ghost predicate Has(s: Sys, d: Cid, k: Token) {
    d < |s.ctxs| && k in s.ctxs[d].tokens
  }

  lemma ServedOn(s: Sys, s1: Sys, s2: Sys, c: Cid, a: Addr, k1: nat, k2: nat)
    requires Served(s, s1, c, a, k1, []) && Served(s1, s2, c, a, k2, [])
    ensures Served(s, s2, c, a, k1 + k2, [])
  {
    var q, q1 := Bar(s, a).queue, Bar(s1, a).queue;
    assert q1 == q[k1..];
    assert q1[k2..] == q[k1 + k2..];
    forall j | 0 <= j < k1 + k2
      ensures q[j].cid < |s.ctxs| && (q[j].cid == c || Has(s2, q[j].cid, Token(a, q[j].write)))
    {
      if j < k1 {
        assert q[j].cid == c || Has(s1, q[j].cid, Token(a, q[j].write));
      } else {
        assert q[j] == q1[j - k1];
      }
    }
    forall d: Cid, w | d < |s.ctxs| && d != c && Has(s2, d, Token(a, w))
      ensures Has(s, d, Token(a, w)) || Wait(d, w) in q[..k1 + k2]
    {
      if !Has(s1, d, Token(a, w)) { Further(q, k1, k2, Wait(d, w)); }
      else if !Has(s, d, Token(a, w)) { Sooner(q, k1, k2, Wait(d, w)); }
    }
  }

  lemma Further(q: seq<Wait>, k1: nat, k2: nat, w: Wait)
    requires k1 + k2 <= |q| && w in q[k1..][..k2]
    ensures w in q[..k1 + k2]
  {
    var j :| 0 <= j < k2 && q[k1..][..k2][j] == w;
    assert q[..k1 + k2][k1 + j] == w;
  }

  lemma Sooner(q: seq<Wait>, k1: nat, k2: nat, w: Wait)
    requires k1 + k2 <= |q| && w in q[..k1]
    ensures w in q[..k1 + k2]
  {
    var j :| 0 <= j < k1 && q[..k1][j] == w;
    assert q[..k1 + k2][j] == w;
  }

  lemma FireServes(s: Sys, b: Addr, c: Cid, a: Addr)
    requires Offerable(s, b)
    ensures Served(s, Fire(s, b), c, a, if a == b then 1 else 0, [])
  {
    var s' := Fire(s, b);
    var q := Bar(s, b).queue;
    forall d: Cid, w | d < |s.ctxs| && d != c && Has(s', d, Token(a, w))
      ensures Has(s, d, Token(a, w)) || (a == b && Wait(d, w) in q[..1])
    {
      if !Has(s, d, Token(a, w)) { assert q[..1][0] == Wait(d, w); }
    }
    forall d: Cid, w | d < |s.ctxs| && Has(s, d, Token(a, w)) ensures Has(s', d, Token(a, w)) {
      assert s.ctxs[d].tokens <= s'.ctxs[d].tokens;
    }
  }

  lemma {:induction false} OfferServes(s: Sys, b: Addr, c: Cid, a: Addr) returns (k: nat)
    ensures Served(s, Offer(s, b), c, a, k, [])
    decreases |Bar(s, b).queue|
  {
    if Offerable(s, b) {
      var s1 := Fire(s, b);
      FireServes(s, b, c, a);
      var k1 := OfferServes(s1, b, c, a);
      ServedOn(s, s1, Offer(s1, b), c, a, if a == b then 1 else 0, k1);
      k := (if a == b then 1 else 0) + k1;
    } else {
      k := 0;
      SameServed(s, s, c, a);
    }
  }

  /** Nothing is served when only context `c` changes and the queues stay. */
  lemma SameServed(s: Sys, s': Sys, c: Cid, a: Addr)
    requires |s'.ctxs| == |s.ctxs| && Bar(s', a).queue == Bar(s, a).queue
    requires forall d {:trigger s'.ctxs[d]} :: 0 <= d < |s.ctxs| && d != c ==> s'.ctxs[d] == s.ctxs[d]
    ensures Served(s, s', c, a, 0, [])
  {
  }

  lemma DropServes(s: Sys, c: Cid, n: nat, a: Addr) returns (k: nat, s2: Sys)
    requires 0 < n && c < |s.ctxs| && n <= |s.ctxs[c].tokens|
    ensures s2 == Offer(Drop(s, c, n - 1), s.ctxs[c].tokens[n - 1].addr) && Served(s, s2, c, a, k, [])
  {
    var b, s1 := s.ctxs[c].tokens[n - 1].addr, Drop(s, c, n - 1);
    SameServed(s, s1, c, a);
    k := OfferServes(s1, b, c, a);
    s2 := Offer(s1, b);
    ServedOn(s, s1, s2, c, a, 0, k);
  }

  lemma {:induction false} ReleaseServes(s: Sys, c: Cid, n: nat, a: Addr) returns (k: nat)
    ensures Served(s, Release(s, c, n), c, a, k, [])
    decreases n
  {
    if n > 0 && c < |s.ctxs| && n <= |s.ctxs[c].tokens| {
      var k1, s2 := DropServes(s, c, n, a);
      var k2 := ReleaseServes(s2, c, n - 1, a);
      ServedOn(s, s2, Release(s2, c, n - 1), c, a, k1, k2);
      k := k1 + k2;
    } else {
      k := 0;
      SameServed(s, s, c, a);
    }
  }

  /** A step that sets the fields of its context and then lets go of tokens. */
  lemma LetServes(s: Sys, c: Cid, m: Sys, n: nat, a: Addr) returns (k: nat)
    requires c < |s.ctxs| == |m.ctxs| && m.bars == s.bars
    requires forall d {:trigger m.ctxs[d]} :: 0 <= d < |s.ctxs| && d != c ==> m.ctxs[d] == s.ctxs[d]
    ensures Served(s, Release(m, c, n), c, a, k, [])
  {
    SameServed(s, m, c, a);
    k := ReleaseServes(m, c, n, a);
    ServedOn(s, m, Release(m, c, n), c, a, 0, k);
  }

  lemma AskServes(s: Sys, c: Cid, x: Ctx, b: Addr, write: bool, a: Addr) returns (tail: seq<Wait>)
    requires c < |s.ctxs| && x.ready > 0
    ensures Served(s, Acquire(s, c, x, b, write), c, a, 0, tail) && (tail == [] || tail == [Wait(c, write)])
  {
    tail := if Grantable(Bar(s, b), write) || a != b then [] else [Wait(c, write)];
    assert Bar(s, a).queue[0..] == Bar(s, a).queue;
  }

  lemma EnterServes(s: Sys, c: Cid, a: Addr) returns (k: nat)
    requires Safe(s, c) && s.ctxs[c].req.insert && s.ctxs[c].state == 10001
    ensures Served(s, Enter(s, c), c, a, k, [])
  {
    var x := s.ctxs[c];
    var n := |x.tokens|;
    var x1 := x.(referToRoot := false, next := 1, state := 1);
    if x.referToRoot && x.tokens[n - 1].addr != s.t.root {
      k := LetServes(s, c, SetCtx(s, c, x.(nodeRef := -1, next := 0, state := 0)), n, a);
    } else if x.optimistic {
      k := LetServes(s, c, SetCtx(s, c, x1.(held := |x.parents|)), n - 1, a);
    } else if x.freeSlot && !x.boundary {
      k := LetServes(s, c, SetCtx(s, c, x1.(held := if |x.parents| > 0 then |x.parents| - 1 else 0)), n - 2, a);
    } else {
      k := 0;
      SameServed(s, SetCtx(s, c, x1), c, a);
    }
  }

  lemma RetryServes(s: Sys, c: Cid, a: Addr) returns (k: nat)
    requires c < |s.ctxs|
    ensures Served(s, Retry(s, c), c, a, k, [])
  {
    var x := s.ctxs[c];
    k := LetServes(s, c, SetCtx(s, c, x.(optimistic := false, freeSlot := false, referToRoot := false,
                            nextLeaf := s.t.depth == 1, level := s.t.depth, nodeRef := -1, next := 0, state := 0,
                            held := |x.parents|)), |x.tokens|, a);
  }

  lemma FinishServes(s: Sys, c: Cid, out: seq<Report>, a: Addr) returns (k: nat)
    requires c < |s.ctxs| && s.ctxs[c].ready > 0
    ensures Served(s, Finish(s, c, out), c, a, k, [])
  {
    k := LetServes(s, c, Retire(s, c, out), |s.ctxs[c].tokens|, a);
  }

  lemma SearchFetchServes(s: Sys, c: Cid, a: Addr) returns (k: nat)
    requires c < |s.ctxs| && s.ctxs[c].ready > 0 && Live(s.t, s.ctxs[c].nodeRef)
    ensures Served(s, SearchFetch(s, c), c, a, k, [])
  {
    var x := s.ctxs[c];
    k := LetServes(s, c,
                   SetCtx(s, c, x.(next := 2, buffer := s.t.store[x.nodeRef], io := x.io + 1, ready := x.ready - 1)),
                   Surplus(x), a);
  }

  lemma SearchReadServes(s: Sys, c: Cid, a: Addr) returns (k: nat)
    requires Safe(s, c) && !s.ctxs[c].req.insert && s.ctxs[c].state == 2
    ensures Served(s, SearchRead(s, c), c, a, k, [])
  {
    var x := s.ctxs[c];
    if Answer(x).Some? { k := FinishServes(s, c, [Report(x.req, Answer(x).value)], a); }
    else {
      k := 0;
      SameServed(s, SearchRead(s, c), c, a);
    }
  }

  lemma SearchServes(s: Sys, c: Cid, a: Addr) returns (k: nat, tail: seq<Wait>)
    requires Safe(s, c) && !s.ctxs[c].req.insert
    ensures Served(s, RunSearch(s, c), c, a, k, tail) && (tail == [] || exists w :: tail == [Wait(c, w)])
  {
    var x := s.ctxs[c];
    k, tail := 0, [];
    if x.state == 0 { tail := AskServes(s, c, x.(next := 1), x.nodeRef, false, a); }
    else if x.state == 1 { k := SearchFetchServes(s, c, a); }
    else { k := SearchReadServes(s, c, a); }
  }

  lemma LeafServes(s: Sys, c: Cid, a: Addr)
    requires Safe(s, c) && s.ctxs[c].req.insert && s.ctxs[c].state == 2
    ensures Served(s, RunInsert(s, c), c, a, 0, [])
  {
    SameServed(s, RunInsert(s, c), c, a);
  }

  lemma RiseServes(s: Sys, c: Cid, a: Addr)
    requires Safe(s, c) && s.ctxs[c].req.insert && s.ctxs[c].state == 9
    ensures Served(s, RunInsert(s, c), c, a, 0, [])
  {
    SameServed(s, RunInsert(s, c), c, a);
  }

  lemma VisitServes(s: Sys, c: Cid, a: Addr) returns (tail: seq<Wait>)
    requires Safe(s, c) && s.ctxs[c].req.insert && s.ctxs[c].state == 0
    ensures Served(s, Visit(s, c), c, a, 0, tail) && (tail == [] || exists w :: tail == [Wait(c, w)])
  {
    var y := Visiting(s.t, s.ctxs[c]);
    tail := AskServes(s, c, y, y.nodeRef, y.WantsWrite(), a);
  }

  /** A step of context `c` serves a prefix of every queue, nobody else gets a token out of turn, and only `c` itself
      can join a queue, at its end. */
  lemma InOrder(s: Sys, c: Cid, a: Addr) returns (k: nat, tail: seq<Wait>)
    requires Safe(s, c)
    ensures Served(s, Run(s, c), c, a, k, tail) && (tail == [] || exists w :: tail == [Wait(c, w)])
  {
    var x := s.ctxs[c];
    k, tail := 0, [];
    if !x.req.insert { k, tail := SearchServes(s, c, a); }
    else if x.state == 0 { tail := VisitServes(s, c, a); }
    else if x.state == 10001 { k := EnterServes(s, c, a); }
    else if x.state == 11 { k := FinishServes(s, c, [], a); }
    else if x.state == 13 { k := RetryServes(s, c, a); }
    else if x.state == 2 { LeafServes(s, c, a); }
    else if x.state == 9 { RiseServes(s, c, a); }
    else { SameServed(s, RunInsert(s, c), c, a); }
  }
}
