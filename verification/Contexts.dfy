/** Contexts, barriers and the state of the pull-based tree.

    A context is the explicit state machine of one request. `state` and `next` are its two state fields;
    `io` and `ready` count its occurrences among the outstanding I/Os and the ready lists, and `waiting`
    says that it stands in the queue of the barrier of `nodeRef`. */
module Contexts {
  import opened Nodes
  import opened TreeState

  type Cid = nat

  datatype Request = Request(id: nat, insert: bool, key: Key, val: Val)

  datatype Token = Token(addr: Addr, write: bool)

  /** A visited inner node kept for the way back: its image, the child taken, and whether the image was changed. */
  datatype Parent = Parent(addr: Addr, node: Node, pos: nat, modified: bool)

  datatype Split = Split(left: Addr, leftNode: Node, right: Addr, rightNode: Node, key: Key)

  /** `held` (the first parent whose token is still held), `covered` (whether the key was below the upper fence of the
      first node when its barrier was granted) and `atRoot` (whether that node was the root then) are history variables.
      */
  datatype Ctx = Ctx(
    busy: bool, req: Request, state: int, next: int,
    nodeRef: int, buffer: Node, tokens: seq<Token>,
    optimistic: bool, referToRoot: bool, nextLeaf: bool, level: int, freeSlot: bool, boundary: bool,
    parents: seq<Parent>, childSplit: bool, split: Split, wbCount: nat, wbTarget: nat,
    waiting: bool, io: nat, ready: nat, held: nat, covered: bool, atRoot: bool)
  {
    /** The state in which the context will run next. */
    function Pc(): int {
      if ready > 0 then state else next
    }

    /** Whether the context asks for a write barrier on the node it is about to visit. */
    predicate WantsWrite() {
      req.insert && !(optimistic && !nextLeaf)
    }
  }

  datatype Wait = Wait(cid: Cid, write: bool)

  datatype Barrier = Barrier(readers: int, writers: int, queue: seq<Wait>)

  datatype Write = Write(id: nat, key: Key, val: Val)

  /** What a search left in the caller's `found` and `value`. */
  datatype Report = Report(req: Request, answer: Option<Val>)

  /** `submitting`, `queue`, `pending` and `free` belong to the scheduler; `issued`, `log`, `done` and `reports` list
      every request, every leaf write, every completed request and every report of a search, in order. */
  datatype Sys = Sys(t: Tree, bars: map<Addr, Barrier>, ctxs: seq<Ctx>, log: seq<Write>,
                     submitting: seq<Request>, queue: seq<Request>, pending: int, free: int,
                     done: seq<Request>, reports: seq<Report>, issued: seq<Request>, stop: bool)

  function Apply(log: seq<Write>): map<Key, Val> {
    if log == [] then map[]
    else Apply(log[..|log| - 1])[log[|log| - 1].key := log[|log| - 1].val]
  }

  lemma ApplyAppend(log: seq<Write>, w: Write)
    ensures Apply(log + [w]) == Apply(log)[w.key := w.val]
  {
    assert (log + [w])[..|log|] == log;
  }

  // ---------- barriers ----------

  function Bar(s: Sys, a: Addr): Barrier {
    if a in s.bars then s.bars[a] else Barrier(0, 0, [])
  }

  predicate Grantable(b: Barrier, write: bool) {
    b.writers == 0 && (write ==> b.readers == 0)
  }

  function Take(b: Barrier, write: bool): Barrier {
    if write then b.(writers := b.writers + 1) else b.(readers := b.readers + 1)
  }

  function Give(b: Barrier, write: bool): Barrier {
    if write then b.(writers := b.writers - 1) else b.(readers := b.readers - 1)
  }

  function SetBar(s: Sys, a: Addr, b: Barrier): Sys {
    s.(bars := s.bars[a := b])
  }

  function SetCtx(s: Sys, c: Cid, x: Ctx): Sys
    requires c < |s.ctxs|
  {
    s.(ctxs := s.ctxs[c := x])
  }

  /** A context receives the token of node `a` and moves to its next state. */
  function Granted(t: Tree, x: Ctx, a: Addr, write: bool): Ctx {
    x.(tokens := x.tokens + [Token(a, write)], state := x.next,
       covered := if x.tokens == [] then a < |t.fence| && Below(x.req.key, t.fence[a].hi) else x.covered,
       atRoot := if x.tokens == [] then a == t.root else x.atRoot)
  }

  /** Ask for the barrier of node `a`: granted at once, or queued. */
  function Acquire(s: Sys, c: Cid, x: Ctx, a: Addr, write: bool): Sys
    requires c < |s.ctxs| && x.ready > 0
  {
    if Grantable(Bar(s, a), write) then Grant(s, c, x, a, write) else Enqueue(s, c, x, a, write)
  }

  function Grant(s: Sys, c: Cid, x: Ctx, a: Addr, write: bool): Sys
    requires c < |s.ctxs|
  {
    SetCtx(SetBar(s, a, Take(Bar(s, a), write)), c, Granted(s.t, x, a, write))
  }

  function Enqueue(s: Sys, c: Cid, x: Ctx, a: Addr, write: bool): Sys
    requires c < |s.ctxs| && x.ready > 0
  {
    var b := Bar(s, a);
    SetCtx(SetBar(s, a, b.(queue := b.queue + [Wait(c, write)])), c, x.(waiting := true, ready := x.ready - 1))
  }

  predicate Offerable(s: Sys, a: Addr) {
    var b := Bar(s, a);
    |b.queue| > 0 && Grantable(b, b.queue[0].write) && b.queue[0].cid < |s.ctxs|
  }

  /** Grant the front request of a queue: the context becomes ready. */
  function Fire(s: Sys, a: Addr): Sys
    requires Offerable(s, a)
  {
    var b := Bar(s, a);
    var w := b.queue[0];
    var x := s.ctxs[w.cid];
    SetCtx(SetBar(s, a, Take(b, w.write).(queue := b.queue[1..])), w.cid,
           Granted(s.t, x, a, w.write).(waiting := false, ready := x.ready + 1))
  }

  /** Grant queued requests, in order, as long as the front one can be granted. */
  function Offer(s: Sys, a: Addr): Sys
    decreases |Bar(s, a).queue|
  {
    if Offerable(s, a) then Offer(Fire(s, a), a) else s
  }

  /** Give back the `i`-th token of context `c`. */
  function Drop(s: Sys, c: Cid, i: nat): Sys
    requires c < |s.ctxs| && i < |s.ctxs[c].tokens|
  {
    var x := s.ctxs[c];
    var k := x.tokens[i];
    SetCtx(SetBar(s, k.addr, Give(Bar(s, k.addr), k.write)), c, x.(tokens := x.tokens[..i] + x.tokens[i + 1..]))
  }

  /** Release the first `n` tokens of context `c`, the most recent of them first. */
  function Release(s: Sys, c: Cid, n: nat): Sys
    decreases n
  {
    if n == 0 || c >= |s.ctxs| || n > |s.ctxs[c].tokens| then s
    else
      var k := s.ctxs[c].tokens[n - 1];
      Release(Offer(Drop(s, c, n - 1), k.addr), c, n - 1)
  }
}
