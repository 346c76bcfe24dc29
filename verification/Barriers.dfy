/** The barrier objects: counters, a queue and a list of ready contexts, changed in place. */
module Barriers {
  import opened Nodes
  import opened TreeState
  import opened Contexts

  // ---------- what offering does to a barrier, as a value ----------

  predicate FrontGrantable(b: Barrier) {
    b.queue != [] && Grantable(b, b.queue[0].write)
  }

  function ServeOne(b: Barrier): Barrier
    requires FrontGrantable(b)
  {
    Take(b, b.queue[0].write).(queue := b.queue[1..])
  }

  /** How many waiting requests can be granted, front first. */
  function Grants(b: Barrier): nat
    decreases |b.queue|
  {
    if FrontGrantable(b) then 1 + Grants(ServeOne(b)) else 0
  }

  /** The barrier once they have been granted. */
  function Serve(b: Barrier): Barrier
    decreases |b.queue|
  {
    if FrontGrantable(b) then Serve(ServeOne(b)) else b
  }

  function Reads(q: seq<Wait>): nat {
    if q == [] then 0 else Reads(q[1..]) + (if q[0].write then 0 else 1)
  }

  function Writes(q: seq<Wait>): nat {
    if q == [] then 0 else Writes(q[1..]) + (if q[0].write then 1 else 0)
  }

  /** A prefix of the queue is served and counted, and the front of what is left is truly blocked. */
  lemma {:induction false} ServeIs(b: Barrier)
    ensures Grants(b) <= |b.queue| && Serve(b).queue == b.queue[Grants(b)..] && !FrontGrantable(Serve(b))
    ensures Serve(b).readers == b.readers + Reads(b.queue[..Grants(b)])
    ensures Serve(b).writers == b.writers + Writes(b.queue[..Grants(b)])
    decreases |b.queue|
  {
    if FrontGrantable(b) {
      var k := Grants(ServeOne(b));
      ServeIs(ServeOne(b));
      assert b.queue[1..][k..] == b.queue[1 + k..];
      assert b.queue[..1 + k][1..] == b.queue[1..][..k];
    }
  }

  /** At most one writer, and then no reader. */
  predicate Exclusive(b: Barrier) {
    b.readers >= 0 && 0 <= b.writers <= 1 && (b.writers == 1 ==> b.readers == 0)
  }

  lemma {:induction false} ServeExclusive(b: Barrier)
    requires Exclusive(b)
    ensures Exclusive(Serve(b))
    decreases |b.queue|
  {
    if FrontGrantable(b) { ServeExclusive(ServeOne(b)); }
  }

  /** Requests served together are all reads, unless a single write is served. */
  lemma {:induction false} ServedTogether(b: Barrier, i: nat)
    requires Exclusive(b) && i < Grants(b) && Grants(b) <= |b.queue| && b.queue[i].write
    ensures Grants(b) == 1
    decreases |b.queue|
  {
    ServeIs(ServeOne(b));
    if i > 0 {
      ReadsFirst(b, i);
    }
  }

  lemma {:induction false} ReadsFirst(b: Barrier, i: nat)
    requires Exclusive(b) && 0 < i < Grants(b) && Grants(b) <= |b.queue|
    ensures !b.queue[i].write
    decreases i
  {
    var b1 := ServeOne(b);
    ServeIs(b1);
    assert b.queue[i] == b1.queue[i - 1];
    if i > 1 { ReadsFirst(b1, i - 1); }
  }

  /** Offering the barrier of a node in the step system does just this to it. */
  lemma {:induction false} OfferIsServe(s: Sys, a: Addr)
    requires forall i {:trigger Bar(s, a).queue[i]} :: 0 <= i < |Bar(s, a).queue| ==> Bar(s, a).queue[i].cid < |s.ctxs|
    ensures Bar(Offer(s, a), a) == Serve(Bar(s, a))
    decreases |Bar(s, a).queue|
  {
    if Offerable(s, a) {
      var s1 := Fire(s, a);
      assert Bar(s1, a) == ServeOne(Bar(s, a));
      OfferIsServe(s1, a);
    }
  }

  // ---------- the objects ----------

  /** The part of a context that barriers change. */
  datatype Snap = Snap(state: int, next: int, tokens: seq<Token>)

  /** ... once its barrier is granted: the token is added, and it moves to its next state. */
  function Resumed(o: Snap, k: Token): Snap {
    Snap(o.next, o.next, o.tokens + [k])
  }

  class Context {
    const cid: Cid
    var state: int
    var next: int
    var tokens: seq<Token>

    function Now(): Snap
      reads this
    {
      Snap(state, next, tokens)
    }

    constructor (cid: Cid)
      ensures this.cid == cid && state == 0 && next == -1 && tokens == []
    {
      this.cid := cid;
      state, next, tokens := 0, -1, [];
    }

    method AddToken(k: Token)
      modifies this`tokens
      ensures tokens == old(tokens) + [k]
    {
      tokens := tokens + [k];
    }

    method Advance()
      requires next >= 0
      modifies this`state
      ensures state == next
    {
      state := next;
    }
  }

  class ReadyList {
    var items: seq<Context>

    constructor ()
      ensures items == []
    {
      items := [];
    }
  }

  datatype Ask = Ask(ctx: Context, write: bool)

  function Waits(q: seq<Ask>): seq<Wait> {
    seq(|q|, i requires 0 <= i < |q| => Wait(q[i].ctx.cid, q[i].write))
  }

  function Callers(q: seq<Ask>): seq<Context> {
    seq(|q|, i requires 0 <= i < |q| => q[i].ctx)
  }

  lemma CallersNext(q: seq<Ask>, k: nat, items: seq<Context>)
    requires k < |q|
    ensures items + Callers(q[..k]) + [q[k].ctx] == items + Callers(q[..k + 1])
  {
  }

  function Snaps(q: seq<Ask>): seq<Snap>
    reads set i | 0 <= i < |q| :: q[i].ctx
  {
    seq(|q|, i requires 0 <= i < |q| reads set i | 0 <= i < |q| :: q[i].ctx => q[i].ctx.Now())
  }

  predicate Distinct(q: seq<Ask>) {
    forall i {:trigger Alone(q, i)} :: 0 <= i < |q| ==> Alone(q, i)
  }

  predicate Alone(q: seq<Ask>, i: nat)
    requires i < |q|
  {
    forall j {:trigger q[j]} :: 0 <= j < |q| && j != i ==> q[j].ctx != q[i].ctx
  }

  lemma DistinctSuffix(q: seq<Ask>, k: nat)
    requires Distinct(q) && k <= |q|
    ensures Distinct(q[k..])
  {
    forall i | 0 <= i < |q[k..]| ensures Alone(q[k..], i) { assert Alone(q, k + i); }
  }

  /** Of the contexts of `q`, as they were, the first `k` have resumed with the token of node `id`. */
  ghost predicate Resumes(id: Addr, q: seq<Ask>, was: seq<Snap>, k: nat)
    reads set i | 0 <= i < |q| :: q[i].ctx
  {
    |was| == |q| && forall i {:trigger ResumesAt(id, q, was, k, i)} :: 0 <= i < |q| ==> ResumesAt(id, q, was, k, i)
  }

  ghost predicate ResumesAt(id: Addr, q: seq<Ask>, was: seq<Snap>, k: nat, i: nat)
    requires i < |q| == |was|
    reads q[i].ctx
  {
    q[i].ctx.Now() == if i < k then Resumed(was[i], Token(id, q[i].write)) else was[i]
  }

  class ContextBarrier {
    const id: Addr
    const ready: ReadyList
    var readers: int
    var writers: int
    var queue: seq<Ask>

    constructor (id: Addr, ready: ReadyList)
      ensures this.id == id && this.ready == ready && View() == Barrier(0, 0, [])
    {
      this.id, this.ready := id, ready;
      readers, writers, queue := 0, 0, [];
    }

    function View(): Barrier
      reads this
    {
      Barrier(readers, writers, Waits(queue))
    }

    /** Everybody in the queue waits once, and knows where to go on. */
    ghost predicate Patient()
      reads this, set i | 0 <= i < |queue| :: queue[i].ctx
    {
      && (forall i {:trigger queue[i]} :: 0 <= i < |queue| ==> queue[i].ctx.next >= 0)
      && Distinct(queue)
    }

    /** Ask for a read barrier: granted unless there is a writer, otherwise queued. */
    method SetRead(c: Context) returns (granted: bool)
      modifies this`readers, this`queue, c`tokens
      ensures granted <==> Grantable(old(View()), false)
      ensures granted ==>
                && View() == Take(old(View()), false) && queue == old(queue)
                && c.tokens == old(c.tokens) + [Token(id, false)]
      ensures !granted ==> queue == old(queue) + [Ask(c, false)] && c.tokens == old(c.tokens)
                           && View() == old(View()).(queue := old(View()).queue + [Wait(c.cid, false)])
    {
      granted := writers == 0;
      if granted {
        readers := readers + 1;
        c.AddToken(Token(id, false));
      } else {
        queue := queue + [Ask(c, false)];
      }
    }

    /** Ask for a write barrier: granted if nobody holds the node, otherwise queued. */
    method SetWrite(c: Context) returns (granted: bool)
      modifies this`writers, this`queue, c`tokens
      ensures granted <==> Grantable(old(View()), true)
      ensures granted ==>
                && View() == Take(old(View()), true) && queue == old(queue)
                && c.tokens == old(c.tokens) + [Token(id, true)]
      ensures !granted ==> queue == old(queue) + [Ask(c, true)] && c.tokens == old(c.tokens)
                           && View() == old(View()).(queue := old(View()).queue + [Wait(c.cid, true)])
    {
      granted := writers == 0 && readers == 0;
      if granted {
        writers := writers + 1;
        c.AddToken(Token(id, true));
      } else {
        queue := queue + [Ask(c, true)];
      }
    }

    /** Grant the front request, if it can be granted. */
    method ServeFront() returns (granted: bool)
      requires queue != [] && queue[0].ctx.next >= 0
      modifies this`readers, this`writers, this`queue, ready, queue[0].ctx
      ensures granted <==> FrontGrantable(old(View()))
      ensures granted ==>
                && View() == ServeOne(old(View())) && queue == old(queue)[1..]
                && ready.items == old(ready.items) + [old(queue)[0].ctx]
                && old(queue)[0].ctx.Now() == Resumed(old(queue[0].ctx.Now()), Token(id, old(queue)[0].write))
      ensures !granted ==> View() == old(View()) && queue == old(queue) && ready.items == old(ready.items)
                           && queue[0].ctx.Now() == old(queue[0].ctx.Now())
    {
      var front := queue[0];
      granted := if front.write then readers == 0 && writers == 0 else writers == 0;
      if granted {
        if front.write { writers := writers + 1; } else { readers := readers + 1; }
        queue := queue[1..];
        Fire(front.ctx, front.write);
      }
    }

    method ServeNext(ghost q: seq<Ask>, ghost was: seq<Snap>, ghost k: nat) returns (granted: bool)
      requires k < |q| && queue == q[k..] && Distinct(q) && Resumes(id, q, was, k) && was[k].next >= 0
      modifies this`readers, this`writers, this`queue, ready, set i | 0 <= i < |q| :: q[i].ctx
      ensures granted <==> FrontGrantable(old(View()))
      ensures granted ==>
                && View() == ServeOne(old(View())) && queue == q[k + 1..] && Resumes(id, q, was, k + 1)
                && ready.items == old(ready.items) + [q[k].ctx]
      ensures !granted ==> View() == old(View()) && queue == old(queue)
      ensures !granted ==> ready.items == old(ready.items) && Resumes(id, q, was, k)
    {
      assert queue[0] == q[k] && Alone(q, k) && ResumesAt(id, q, was, k, k);
      granted := ServeFront();
      ghost var n := if granted then k + 1 else k;
      forall i | 0 <= i < |q| ensures ResumesAt(id, q, was, n, i) {
        assert old(ResumesAt(id, q, was, k, i));
      }
    }

    /** Grant from the front of the queue as long as possible. Each context served gets its token, moves to its next
        state and becomes ready, in the order of the queue; nobody else is touched. */
    method Offer()
      requires Patient()
      modifies this`readers, this`writers, this`queue, ready, set i | 0 <= i < |queue| :: queue[i].ctx
      ensures View() == Serve(old(View()))
      ensures var k := Grants(old(View()));
              && k <= |old(queue)| && queue == old(queue)[k..]
              && ready.items == old(ready.items) + Callers(old(queue)[..k])
              && Resumes(id, old(queue), old(Snaps(queue)), k)
      ensures Patient()
    {
      ghost var q, b, was := queue, View(), Snaps(queue);
      ghost var k, v := 0, b;
      var more := true;
      while more && queue != []
        invariant k <= |q| && queue == q[k..] && Resumes(id, q, was, k)
        invariant View() == v && Serve(v) == Serve(b) && k + Grants(v) == Grants(b)
        invariant ready.items == old(ready.items) + Callers(q[..k])
        invariant more || !FrontGrantable(v)
        decreases more, |queue|
      {
        more := ServeNext(q, was, k);
        if more {
          CallersNext(q, k, old(ready.items));
          k, v := k + 1, ServeOne(v);
        }
      }
      DistinctSuffix(q, k);
      forall i | 0 <= i < |queue| ensures queue[i].ctx.next >= 0 {
        assert queue[i] == q[k + i] && ResumesAt(id, q, was, k, k + i);
      }
    }

    /** A reader gives the barrier back. */
    method RemoveRead()
      requires Patient()
      modifies this`readers, this`writers, this`queue, ready, set i | 0 <= i < |queue| :: queue[i].ctx
      ensures View() == Serve(Give(old(View()), false)) && Patient()
      ensures var k := Grants(Give(old(View()), false));
              && k <= |old(queue)| && queue == old(queue)[k..]
              && ready.items == old(ready.items) + Callers(old(queue)[..k])
              && Resumes(id, old(queue), old(Snaps(queue)), k)
    {
      readers := readers - 1;
      Offer();
    }

    /** A writer gives the barrier back. */
    method RemoveWrite()
      requires Patient()
      modifies this`readers, this`writers, this`queue, ready, set i | 0 <= i < |queue| :: queue[i].ctx
      ensures View() == Serve(Give(old(View()), true)) && Patient()
      ensures var k := Grants(Give(old(View()), true));
              && k <= |old(queue)| && queue == old(queue)[k..]
              && ready.items == old(ready.items) + Callers(old(queue)[..k])
              && Resumes(id, old(queue), old(Snaps(queue)), k)
    {
      writers := writers - 1;
      Offer();
    }

    method Fire(c: Context, write: bool)
      requires c.next >= 0
      modifies c`tokens, c`state, ready
      ensures c.Now() == Resumed(old(c.Now()), Token(id, write))
      ensures ready.items == old(ready.items) + [c]
    {
      c.AddToken(Token(id, write));
      c.Advance();
      ready.items := ready.items + [c];
    }
  }

  /** The barriers of all nodes, in a table that grows on demand. */
  class BarrierManager {
    const ready: ReadyList
    var table: seq<ContextBarrier?>

    constructor ()
      ensures Valid() && table == [] && fresh(ready) && ready.items == []
    {
      ready := new ReadyList();
      table := [];
    }

    ghost predicate Valid()
      reads this
    {
      forall i {:trigger table[i]} ::
          0 <= i < |table| && table[i] != null ==> table[i].id == i && table[i].ready == ready
    }

    /** The barrier of node `a`; one that does not exist yet is a free one. */
    ghost function At(a: Addr): Barrier
      reads this, if a < |table| then {table[a]} else {}
    {
      if a < |table| && table[a] != null then table[a].View() else Barrier(0, 0, [])
    }

    /** Who waits for node `a`, in order. */
    ghost function Asks(a: Addr): seq<Ask>
      reads this, if a < |table| then {table[a]} else {}
    {
      if a < |table| && table[a] != null then table[a].queue else []
    }

    /** Growing the table and creating barriers cannot be observed. */
    method GetOrCreate(a: Addr) returns (b: ContextBarrier)
      requires Valid()
      modifies this`table
      ensures Valid() && a < |table| && table[a] == b && b.id == a && b.ready == ready
      ensures |table| == if a < |old(table)| then |old(table)| else a + 1
      ensures forall x: Addr {:trigger At(x)} :: At(x) == old(At(x))
      ensures forall x: Addr {:trigger Asks(x)} :: Asks(x) == old(Asks(x))
      ensures if old(a < |table| && table[a] != null) then b == old(table)[a] else fresh(b)
      ensures forall i {:trigger table[i]} ::
                0 <= i < |table| && i != a ==> table[i] == if i < |old(table)| then old(table)[i] else null
    {
      while |table| <= a
        invariant Valid() && |old(table)| <= |table| && |table| <= (if a < |old(table)| then |old(table)| else a + 1)
        invariant forall i {:trigger table[i]} ::
                    0 <= i < |table| ==> table[i] == if i < |old(table)| then old(table)[i] else null
      {
        table := table + [null];
      }
      if table[a] == null {
        b := new ContextBarrier(a, ready);
        table := table[a := b];
      } else {
        b := table[a];
      }
    }

    method RequestRead(a: Addr, c: Context) returns (granted: bool)
      requires Valid()
      modifies this`table, if a < |table| then {table[a]} else {}, c`tokens
      ensures Valid() && (granted <==> Grantable(old(At(a)), false))
      ensures At(a) == if granted then Take(old(At(a)), false)
                else old(At(a)).(queue := old(At(a)).queue + [Wait(c.cid, false)])
      ensures c.tokens == old(c.tokens) + if granted then [Token(a, false)] else []
      ensures Asks(a) == old(Asks(a)) + if granted then [] else [Ask(c, false)]
      ensures forall x: Addr {:trigger At(x)} :: x != a ==> At(x) == old(At(x))
      ensures forall x: Addr {:trigger Asks(x)} :: x != a ==> Asks(x) == old(Asks(x))
    {
      var b := GetOrCreate(a);
      assert b.View() == At(a) == old(At(a));
      assert forall x: Addr {:trigger At(x)} :: x != a && x < |table| ==> table[x] != b;
      granted := b.SetRead(c);
    }

    method RequestWrite(a: Addr, c: Context) returns (granted: bool)
      requires Valid()
      modifies this`table, if a < |table| then {table[a]} else {}, c`tokens
      ensures Valid() && (granted <==> Grantable(old(At(a)), true))
      ensures At(a) == if granted then Take(old(At(a)), true)
                else old(At(a)).(queue := old(At(a)).queue + [Wait(c.cid, true)])
      ensures c.tokens == old(c.tokens) + if granted then [Token(a, true)] else []
      ensures Asks(a) == old(Asks(a)) + if granted then [] else [Ask(c, true)]
      ensures forall x: Addr {:trigger At(x)} :: x != a ==> At(x) == old(At(x))
      ensures forall x: Addr {:trigger Asks(x)} :: x != a ==> Asks(x) == old(Asks(x))
    {
      var b := GetOrCreate(a);
      assert b.View() == At(a) == old(At(a));
      assert forall x: Addr {:trigger At(x)} :: x != a && x < |table| ==> table[x] != b;
      granted := b.SetWrite(c);
    }

    /** The contexts waiting for node `a`. */
    ghost function Waiting(a: Addr): set<object>
      reads this, if a < |table| then {table[a]} else {}
    {
      if a < |table| && table[a] != null then set i | 0 <= i < |table[a].queue| :: table[a].queue[i].ctx else {}
    }

    ghost predicate PatientAt(a: Addr)
      reads this, (if a < |table| then {table[a]} else {}), Waiting(a)
    {
      a < |table| && table[a] != null ==> table[a].Patient()
    }

    /** A reader of node `a` gives it back: whoever can be served is ready behind those that were, in the order of the
        queue, each with its token and in its next state; nobody else is touched. */
    method RemoveRead(a: Addr)
      requires Valid() && PatientAt(a)
      modifies this`table, if a < |table| then {table[a]} else {}, ready, Waiting(a)
      ensures Valid() && PatientAt(a) && At(a) == Serve(Give(old(At(a)), false))
      ensures var k := Grants(Give(old(At(a)), false));
              && k <= |old(Asks(a))| && Asks(a) == old(Asks(a))[k..]
              && ready.items == old(ready.items) + Callers(old(Asks(a))[..k])
              && Resumes(a, old(Asks(a)), old(Snaps(Asks(a))), k)
      ensures forall x: Addr {:trigger At(x)} :: x != a ==> At(x) == old(At(x))
      ensures forall x: Addr {:trigger Asks(x)} :: x != a ==> Asks(x) == old(Asks(x))
    {
      var b := GetOrCreate(a);
      assert b.View() == At(a) == old(At(a)) && b.queue == Asks(a) == old(Asks(a));
      assert forall x: Addr {:trigger At(x)} :: x != a && x < |table| ==> table[x] != b;
      b.RemoveRead();
    }

    /** A writer of node `a` gives it back: the same. */
    method RemoveWrite(a: Addr)
      requires Valid() && PatientAt(a)
      modifies this`table, if a < |table| then {table[a]} else {}, ready, Waiting(a)
      ensures Valid() && PatientAt(a) && At(a) == Serve(Give(old(At(a)), true))
      ensures var k := Grants(Give(old(At(a)), true));
              && k <= |old(Asks(a))| && Asks(a) == old(Asks(a))[k..]
              && ready.items == old(ready.items) + Callers(old(Asks(a))[..k])
              && Resumes(a, old(Asks(a)), old(Snaps(Asks(a))), k)
      ensures forall x: Addr {:trigger At(x)} :: x != a ==> At(x) == old(At(x))
      ensures forall x: Addr {:trigger Asks(x)} :: x != a ==> Asks(x) == old(Asks(x))
    {
      var b := GetOrCreate(a);
      assert b.View() == At(a) == old(At(a)) && b.queue == Asks(a) == old(Asks(a));
      assert forall x: Addr {:trigger At(x)} :: x != a && x < |table| ==> table[x] != b;
      b.RemoveWrite();
    }
  }
}
