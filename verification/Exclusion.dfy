/** Barriers: the counters are the tokens, a writer excludes everybody, and no request waits for nothing. */
module Exclusion {
  import opened Nodes
  import opened TreeState
  import opened Contexts
  import opened Invariants

  /** The contexts holding a token of the given kind on node `a`. */
  ghost function Holders(s: Sys, a: Addr, write: bool): set<Cid> {
    set c | 0 <= c < |s.ctxs| && Token(a, write) in s.ctxs[c].tokens
  }

  /** The counters of a barrier count the tokens held on it, and a writer is alone. */
  ghost predicate BarOk(s: Sys, a: Addr) {
    var b := Bar(s, a);
    && b.readers == |Holders(s, a, false)| && b.writers == |Holders(s, a, true)|
    && b.writers <= 1 && (b.writers == 1 ==> b.readers == 0)
  }

  ghost predicate WaitOk(s: Sys, a: Addr, w: Wait) {
    && w.cid < |s.ctxs|
    && var x := s.ctxs[w.cid];
    && x.busy && x.waiting && x.nodeRef == a && w.write == x.WantsWrite()
  }

  /** The queue of a barrier holds, once each, contexts that wait for that node. */
  ghost predicate QueueOk(s: Sys, a: Addr) {
    var q := Bar(s, a).queue;
    && (forall i {:trigger q[i]} :: 0 <= i < |q| ==> WaitOk(s, a, q[i]))
    && (forall i, j :: 0 <= i < j < |q| ==> q[i].cid != q[j].cid)
  }

  /** The front of a queue is truly blocked. */
  ghost predicate Blocked(s: Sys, a: Addr) {
    var b := Bar(s, a);
    b.queue != [] ==> !Grantable(b, b.queue[0].write)
  }

  ghost predicate InQueue(q: seq<Wait>, c: Cid) {
    exists i :: 0 <= i < |q| && q[i].cid == c
  }

  /** A waiting context stands in the queue of the node it wants. */
  ghost predicate Queued(s: Sys, c: Cid)
    requires c < |s.ctxs|
  {
    s.ctxs[c].waiting ==> s.ctxs[c].nodeRef >= 0 && InQueue(Bar(s, s.ctxs[c].nodeRef).queue, c)
  }

  /** A node in the middle of a change is write-held. */
  ghost predicate Owned(s: Sys, a: Addr) {
    !Quiet(s.t, a) ==> Bar(s, a).writers >= 1
  }

  ghost predicate BarriersOk(s: Sys) {
    && (forall a {:trigger BarOk(s, a)} :: BarOk(s, a))
    && (forall a {:trigger QueueOk(s, a)} :: QueueOk(s, a))
    && (forall c {:trigger Queued(s, c)} :: 0 <= c < |s.ctxs| ==> Queued(s, c))
  }

  ghost predicate AllBlocked(s: Sys) {
    forall a {:trigger Blocked(s, a)} :: Blocked(s, a)
  }

  ghost predicate BlockedBut(s: Sys, a0: Addr) {
    forall a {:trigger Blocked(s, a)} :: a != a0 ==> Blocked(s, a)
  }

  lemma TwoMembers<T>(s: set<T>, x: T, y: T)
    requires x in s && y in s && x != y
    ensures |s| >= 2
  {
    assert {x, y} <= s;
    var r := s - {x};
    assert y in r && |r| == |s| - 1;
    assert r != {};
  }

  /** A context that holds a node for writing is the only one that holds it. */
  lemma Exclusive(s: Sys, a: Addr, c: Cid, d: Cid, write: bool)
    requires BarOk(s, a) && c < |s.ctxs| && d < |s.ctxs|
    requires Token(a, true) in s.ctxs[c].tokens && Token(a, write) in s.ctxs[d].tokens
    ensures c == d && write
  {
    var ws := Holders(s, a, true);
    assert c in ws && ws != {};
    assert |ws| == 1 && Holders(s, a, false) == {};
    assert d in Holders(s, a, write);
    if c != d { TwoMembers(ws, c, d); }
  }

  lemma HolderCount(s: Sys, a: Addr, c: Cid, write: bool)
    requires BarOk(s, a) && c < |s.ctxs| && Token(a, write) in s.ctxs[c].tokens
    ensures if write then Bar(s, a).writers >= 1 else Bar(s, a).readers >= 1
  {
    assert c in Holders(s, a, write);
  }

  // ---------- changing a context without touching its tokens ----------

  /** `x'` may replace `x` as far as the barriers are concerned. */
  ghost predicate SameClaims(x: Ctx, x': Ctx) {
    x'.tokens == x.tokens && !x.waiting && !x'.waiting
  }

  lemma UpdateKeeps(s: Sys, s': Sys, c: Cid)
    requires BarriersOk(s) && c < |s.ctxs| == |s'.ctxs| && s'.bars == s.bars
    requires SameClaims(s.ctxs[c], s'.ctxs[c])
    requires forall d :: 0 <= d < |s.ctxs| && d != c ==> s'.ctxs[d] == s.ctxs[d]
    ensures BarriersOk(s')
    ensures forall a {:trigger Blocked(s', a)} :: Blocked(s, a) ==> Blocked(s', a)
  {
    forall a ensures BarOk(s', a) {
      assert BarOk(s, a);
      assert Holders(s', a, true) == Holders(s, a, true);
      assert Holders(s', a, false) == Holders(s, a, false);
    }
    forall a ensures QueueOk(s', a) {
      assert QueueOk(s, a);
      var q := Bar(s, a).queue;
      forall i | 0 <= i < |q| ensures WaitOk(s', a, q[i]) { assert WaitOk(s, a, q[i]); }
    }
    forall d | 0 <= d < |s'.ctxs| ensures Queued(s', d) { assert Queued(s, d); }
  }

  // ---------- giving a token back ----------

  lemma WithoutToken(t: Tree, x: Ctx, i: nat, q: Token)
    requires Ladder(t, x) && i < |x.tokens|
    ensures q in x.tokens[..i] + x.tokens[i + 1..] <==> q in x.tokens && q != x.tokens[i]
  {
    var ts := x.tokens;
    var ts' := ts[..i] + ts[i + 1..];
    if q in ts' {
      var j :| 0 <= j < |ts'| && ts'[j] == q;
      assert q == ts[if j < i then j else j + 1];
    }
    if q in ts && q != ts[i] {
      var j :| 0 <= j < |ts| && ts[j] == q;
      assert q == ts'[if j < i then j else j - 1];
    }
  }

  lemma DropHolders(s: Sys, c: Cid, i: nat, t: Tree, a: Addr, write: bool)
    requires c < |s.ctxs| && i < |s.ctxs[c].tokens| && Ladder(t, s.ctxs[c])
    ensures var k := s.ctxs[c].tokens[i];
            Holders(Drop(s, c, i), a, write) ==
              if k == Token(a, write) then Holders(s, a, write) - {c} else Holders(s, a, write)
  {
    WithoutToken(t, s.ctxs[c], i, Token(a, write));
  }

  lemma DropKeeps(s: Sys, c: Cid, i: nat, t: Tree)
    requires BarriersOk(s) && c < |s.ctxs| && i < |s.ctxs[c].tokens| && Ladder(t, s.ctxs[c])
    requires !s.ctxs[c].waiting
    ensures BarriersOk(Drop(s, c, i))
    ensures AllBlocked(s) ==> BlockedBut(Drop(s, c, i), s.ctxs[c].tokens[i].addr)
  {
    var s' := Drop(s, c, i);
    var k := s.ctxs[c].tokens[i];
    forall a ensures BarOk(s', a) {
      assert BarOk(s, a);
      DropHolders(s, c, i, t, a, true);
      DropHolders(s, c, i, t, a, false);
      if k.addr == a { assert c in Holders(s, a, k.write); }
    }
    forall a ensures QueueOk(s', a) {
      assert QueueOk(s, a);
      var q := Bar(s, a).queue;
      forall j | 0 <= j < |q| ensures WaitOk(s', a, q[j]) { assert WaitOk(s, a, q[j]); }
    }
    forall d | 0 <= d < |s'.ctxs| ensures Queued(s', d) { assert Queued(s, d); }
    if AllBlocked(s) {
      forall a | a != k.addr ensures Blocked(s', a) { assert Blocked(s, a); }
    }
  }

  // ---------- granting ----------

  lemma GrantHolders(s: Sys, s': Sys, c: Cid, k: Token, a: Addr, write: bool)
    requires c < |s.ctxs| == |s'.ctxs| && s'.ctxs[c].tokens == s.ctxs[c].tokens + [k]
    requires forall d :: 0 <= d < |s.ctxs| && d != c ==> s'.ctxs[d] == s.ctxs[d]
    ensures Holders(s', a, write) == if k == Token(a, write) then Holders(s, a, write) + {c} else Holders(s, a, write)
  {
  }

  lemma GrantBar(s: Sys, s': Sys, c: Cid, k: Token, a: Addr)
    requires c < |s.ctxs| == |s'.ctxs| && s'.ctxs[c].tokens == s.ctxs[c].tokens + [k]
    requires forall d :: 0 <= d < |s.ctxs| && d != c ==> s'.ctxs[d] == s.ctxs[d]
    requires BarOk(s, a) && k !in s.ctxs[c].tokens
    requires if a == k.addr
             then Grantable(Bar(s, a), k.write)
                  && Bar(s', a).readers == Take(Bar(s, a), k.write).readers
                  && Bar(s', a).writers == Take(Bar(s, a), k.write).writers
             else Bar(s', a) == Bar(s, a)
    ensures BarOk(s', a)
  {
    GrantHolders(s, s', c, k, a, true);
    GrantHolders(s, s', c, k, a, false);
    assert c !in Holders(s, k.addr, k.write);
  }

  /** Granting the front request keeps the accounts, and the rest of the queue in order. */
  lemma FireKeeps(s: Sys, a: Addr)
    requires BarriersOk(s) && Offerable(s, a)
    requires Token(a, Bar(s, a).queue[0].write) !in s.ctxs[Bar(s, a).queue[0].cid].tokens
    ensures BarriersOk(Fire(s, a))
    ensures BlockedBut(s, a) ==> BlockedBut(Fire(s, a), a)
  {
    var s' := Fire(s, a);
    var q := Bar(s, a).queue;
    var d := q[0].cid;
    assert QueueOk(s, a) && WaitOk(s, a, q[0]);
    forall b ensures BarOk(s', b) {
      assert BarOk(s, b);
      GrantBar(s, s', d, Token(a, q[0].write), b);
    }
    forall b ensures QueueOk(s', b) { FireQueue(s, a, b); }
    forall e | 0 <= e < |s'.ctxs| ensures Queued(s', e) { FireQueued(s, a, e); }
    if BlockedBut(s, a) {
      forall b | b != a ensures Blocked(s', b) { assert Blocked(s, b); }
    }
  }

  lemma FireQueue(s: Sys, a: Addr, b: Addr)
    requires BarriersOk(s) && Offerable(s, a)
    ensures QueueOk(Fire(s, a), b)
  {
    var s' := Fire(s, a);
    var q, q' := Bar(s, b).queue, Bar(s', b).queue;
    var d := Bar(s, a).queue[0].cid;
    assert QueueOk(s, a) && QueueOk(s, b) && WaitOk(s, a, Bar(s, a).queue[0]);
    forall i | 0 <= i < |q'| ensures WaitOk(s', b, q'[i]) {
      var j := if a == b then i + 1 else i;
      assert q'[i] == q[j] && WaitOk(s, b, q[j]);
      assert q[j].cid != d;
    }
  }

  lemma FireQueued(s: Sys, a: Addr, e: Cid)
    requires BarriersOk(s) && Offerable(s, a) && e < |s.ctxs|
    ensures Queued(Fire(s, a), e)
  {
    var s' := Fire(s, a);
    assert Queued(s, e);
    if e != Bar(s, a).queue[0].cid && s.ctxs[e].waiting {
      var b := s.ctxs[e].nodeRef;
      var q, q' := Bar(s, b).queue, Bar(s', b).queue;
      var i :| 0 <= i < |q| && q[i].cid == e;
      assert q[i] == q'[if a == b then i - 1 else i];
    }
  }

  // ---------- asking ----------

  lemma AcquireGrantKeeps(s: Sys, c: Cid, x: Ctx, a: Addr, write: bool)
    requires BarriersOk(s) && c < |s.ctxs| && x.ready > 0 && Grantable(Bar(s, a), write)
    requires SameClaims(s.ctxs[c], x) && Token(a, write) !in x.tokens
    ensures BarriersOk(Acquire(s, c, x, a, write))
    ensures AllBlocked(s) ==> AllBlocked(Acquire(s, c, x, a, write))
  {
    var s' := Acquire(s, c, x, a, write);
    forall b ensures BarOk(s', b) {
      assert BarOk(s, b);
      GrantBar(s, s', c, Token(a, write), b);
    }
    forall b ensures QueueOk(s', b) {
      assert QueueOk(s, b);
      var q := Bar(s, b).queue;
      forall i | 0 <= i < |q| ensures WaitOk(s', b, q[i]) { assert WaitOk(s, b, q[i]); }
    }
    forall e | 0 <= e < |s'.ctxs| ensures Queued(s', e) { assert Queued(s, e); }
    if AllBlocked(s) {
      forall b ensures Blocked(s', b) {
        assert Blocked(s, b);
        if b == a && Bar(s, a).queue != [] { assert QueueOk(s, a); assert BarOk(s, a); }
      }
    }
  }

  lemma AcquireWaitKeeps(s: Sys, c: Cid, x: Ctx, a: Addr, write: bool)
    requires BarriersOk(s) && c < |s.ctxs| && x.ready > 0 && !Grantable(Bar(s, a), write)
    requires SameClaims(s.ctxs[c], x) && x.busy && x.nodeRef == a && write == x.WantsWrite()
    ensures BarriersOk(Acquire(s, c, x, a, write))
    ensures AllBlocked(s) ==> AllBlocked(Acquire(s, c, x, a, write))
  {
    var s' := Acquire(s, c, x, a, write);
    forall b ensures BarOk(s', b) {
      assert BarOk(s, b);
      assert Holders(s', b, true) == Holders(s, b, true);
      assert Holders(s', b, false) == Holders(s, b, false);
    }
    forall b ensures QueueOk(s', b) {
      assert QueueOk(s, b);
      var q, q' := Bar(s, b).queue, Bar(s', b).queue;
      forall i | 0 <= i < |q'| ensures WaitOk(s', b, q'[i]) {
        if i < |q| { assert q'[i] == q[i] && WaitOk(s, b, q[i]); }
      }
      forall i, j | 0 <= i < j < |q'| ensures q'[i].cid != q'[j].cid {
        assert q'[i] == q[i] && WaitOk(s, b, q[i]);
      }
    }
    forall e | 0 <= e < |s'.ctxs| ensures Queued(s', e) {
      assert Queued(s, e);
      var b := s'.ctxs[e].nodeRef;
      if e == c {
        assert Bar(s', a).queue[|Bar(s, a).queue|].cid == c;
      } else if s.ctxs[e].waiting {
        var i :| 0 <= i < |Bar(s, b).queue| && Bar(s, b).queue[i].cid == e;
        assert Bar(s', b).queue[i].cid == e;
      }
    }
    if AllBlocked(s) {
      forall b ensures Blocked(s', b) { assert Blocked(s, b); }
    }
  }
}
