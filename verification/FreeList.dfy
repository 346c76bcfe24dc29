/** The lock-free free list: reference counts keep a node from being taken twice.

    Every atomic operation of `add`, `try_get` and `add_knowing_refcount_is_zero` is one step; any number of threads
    take steps in any order. */
module FreeList {
  type Node = nat
  type Tid = nat

  datatype Option<T> = None | Some(value: T)

  /** A reference count and the should-be-on-freelist bit. */
  datatype Refs = Refs(count: int, should: bool)

  /** Where a thread is. The `Link` states are those of `add_knowing_refcount_is_zero`, entered from `add` (`back` is
      None) or from `try_get` (`back` holds the head it goes on with). */
  datatype Thread =
    | Idle
    | LinkLoad(n: Node, back: Option<Option<Node>>)
    | LinkNext(n: Node, h: Option<Node>, back: Option<Option<Node>>)
    | LinkRef(n: Node, h: Option<Node>, back: Option<Option<Node>>)
    | LinkSwap(n: Node, h: Option<Node>, back: Option<Option<Node>>)
    | LinkFail(n: Node, h: Option<Node>, back: Option<Option<Node>>)
    | GetHead
    | GetRefs(n: Node)
    | GetRef(n: Node, r: Refs)
    | GetNext(n: Node)
    | GetSwap(n: Node, h: Option<Node>)
    | GetTwo(n: Node)
    | GetOne(n: Node, h: Option<Node>)

  /** Where a node is: with a client, waiting for its last reference, being linked in by a thread, on the list, or just
      taken off it by a thread. */
  datatype Place = Out | Waiting | Linking(owner: Tid) | Listed | Taken(owner: Tid)

  datatype Event = Gave(n: Node) | Got(n: Node)

  /** `list`, `place` and `log` are history variables: the list from its head, the place of each node, and the nodes
      given by `add` and got by `try_get`, in order. */
  datatype State = State(head: Option<Node>, refs: seq<Refs>, next: seq<Option<Node>>, threads: seq<Thread>,
                         list: seq<Node>, place: seq<Place>, log: seq<Event>)

  // ---------- steps ----------

  function SetThread(s: State, t: Tid, x: Thread): State
    requires t < |s.threads|
  {
    s.(threads := s.threads[t := x])
  }

  function SetRefs(s: State, n: Node, r: Refs): State
    requires n < |s.refs|
  {
    s.(refs := s.refs[n := r])
  }

  function SetPlace(s: State, n: Node, p: Place): State
    requires n < |s.place|
  {
    s.(place := s.place[n := p])
  }

  /** Go on with head `h`: stop if there is none. */
  function Loop(h: Option<Node>): Thread {
    match h
    case None => Idle
    case Some(n) => GetRefs(n)
  }

  function Return(back: Option<Option<Node>>): Thread {
    match back
    case None => Idle
    case Some(h) => Loop(h)
  }

  ghost predicate Sized(s: State) {
    |s.next| == |s.refs| == |s.place|
  }

  /** `add` of a node a client holds: set the bit; whoever finds the count zero links the node in. */
  ghost predicate Add(s: State, s': State, t: Tid, n: Node) {
    && Sized(s) && t < |s.threads| && s.threads[t] == Idle && n < |s.refs| && s.place[n] == Out
    && var r := s.refs[n];
       var s1 := SetRefs(s, n, r.(should := true)).(log := s.log + [Gave(n)]);
       if r == Refs(0, false) then s' == SetPlace(SetThread(s1, t, LinkLoad(n, None)), n, Linking(t))
       else s' == SetPlace(s1, n, Waiting)
  }

  ghost predicate StartGet(s: State, s': State, t: Tid) {
    Sized(s) && t < |s.threads| && s.threads[t] == Idle && s' == SetThread(s, t, GetHead)
  }

  ghost predicate Link(s: State, s': State, t: Tid) {
    && Sized(s) && t < |s.threads|
    && match s.threads[t]
       case LinkLoad(n, back) => s' == SetThread(s, t, LinkNext(n, s.head, back))
       case LinkNext(n, h, back) => n < |s.next| && s' == SetThread(s, t, LinkRef(n, h, back)).(next := s.next[n := h])
       case LinkRef(n, h, back) =>
         && n < |s.refs|
         && s' == SetThread(SetRefs(s, n, Refs(1, false)), t, LinkSwap(n, h, back))
       case LinkSwap(n, h, back) =>
         && n < |s.refs|
         && if s.head == h then
              s' == SetPlace(SetThread(s, t, Return(back)), n, Listed).(head := Some(n), list := [n] + s.list)
            else s' == SetThread(s, t, LinkFail(n, s.head, back))
       case LinkFail(n, h, back) =>
         && n < |s.refs|
         && var r := s.refs[n];
            var s1 := SetRefs(s, n, Refs(r.count - 1, true));
            if r == Refs(1, false) then s' == SetThread(s1, t, LinkNext(n, h, back))
            else s' == SetPlace(SetThread(s1, t, Return(back)), n, Waiting)
       case _ => false
  }

  ghost predicate Get(s: State, s': State, t: Tid) {
    && Sized(s) && t < |s.threads|
    && match s.threads[t]
       case GetHead => s' == SetThread(s, t, Loop(s.head))
       case GetRefs(n) =>
         n < |s.refs| && s' == SetThread(s, t, if s.refs[n].count == 0 then GetHead else GetRef(n, s.refs[n]))
       case GetRef(n, r) =>
         && n < |s.refs|
         && if s.refs[n] == r then s' == SetThread(SetRefs(s, n, r.(count := r.count + 1)), t, GetNext(n))
            else s' == SetThread(s, t, GetHead)
       case GetNext(n) => n < |s.next| && s' == SetThread(s, t, GetSwap(n, s.next[n]))
       case GetSwap(n, h) =>
         && n < |s.refs|
         && if s.head == Some(n) then
              |s.list| > 0 && s' == SetPlace(SetThread(s, t, GetTwo(n)), n, Taken(t)).(head := h, list := s.list[1..])
            else s' == SetThread(s, t, GetOne(n, s.head))
       case GetTwo(n) =>
         && n < |s.refs|
         && s' == SetPlace(SetThread(SetRefs(s, n, s.refs[n].(count := s.refs[n].count - 2)), t, Idle), n, Out)
                  .(log := s.log + [Got(n)])
       case GetOne(n, h) =>
         && n < |s.refs|
         && var r := s.refs[n];
            var s1 := SetRefs(s, n, r.(count := r.count - 1));
            if r == Refs(1, true) then s' == SetPlace(SetThread(s1, t, LinkLoad(n, Some(h))), n, Linking(t))
            else s' == SetThread(s1, t, Loop(h))
       case _ => false
  }

  ghost predicate Step(s: State, s': State, t: Tid) {
    StartGet(s, s', t) || Link(s, s', t) || Get(s, s', t) || exists n: Node :: Add(s, s', t, n)
  }

  ghost predicate Next(s: State, s': State) {
    exists t: Tid :: Step(s, s', t)
  }

  /** Initially every node is with a client and nobody refers to any. */
  ghost predicate Init(s: State) {
    && Sized(s) && s.head == None && s.list == [] && s.log == []
    && (forall n {:trigger s.refs[n]} :: 0 <= n < |s.refs| ==> s.refs[n] == Refs(0, false) && s.place[n] == Out)
    && (forall t {:trigger s.threads[t]} :: 0 <= t < |s.threads| ==> s.threads[t] == Idle)
  }

  // ---------- the invariant ----------

  /** Whether a thread holds a reference to node `n`. */
  predicate Refers(x: Thread, n: Node) {
    match x
    case GetNext(m) => m == n
    case GetSwap(m, _) => m == n
    case GetTwo(m) => m == n
    case GetOne(m, _) => m == n
    case _ => false
  }

  function Referring(ths: seq<Thread>, n: Node): nat {
    if ths == [] then 0 else Referring(ths[..|ths| - 1], n) + (if Refers(ths[|ths| - 1], n) then 1 else 0)
  }

  lemma {:induction false} ReferringUpdate(ths: seq<Thread>, t: Tid, x: Thread, n: Node)
    requires t < |ths|
    ensures Referring(ths[t := x], n)
              == Referring(ths, n) - (if Refers(ths[t], n) then 1 else 0) + (if Refers(x, n) then 1 else 0)
    ensures Refers(ths[t], n) ==> Referring(ths, n) > 0
  {
    var k := |ths| - 1;
    if t < k {
      ReferringUpdate(ths[..k], t, x, n);
      assert ths[t := x][..k] == ths[..k][t := x];
    } else {
      assert ths[t := x][..k] == ths[..k];
    }
  }

  /** Whether a thread is linking node `n` in, and whether it has set the count to 1. */
  predicate Links(x: Thread, n: Node) {
    (x.LinkLoad? || x.LinkNext? || x.LinkRef? || x.LinkSwap? || x.LinkFail?) && x.n == n
  }

  predicate Counted(x: Thread) {
    x.LinkSwap? || x.LinkFail?
  }

  /** The count of a node is its references, plus one for the list; a node between clients and list has the thread that
      moves it. */
  ghost predicate NodeOk(s: State, n: Node)
    requires Sized(s) && n < |s.refs|
  {
    var r, k := s.refs[n], Referring(s.threads, n);
    match s.place[n]
    case Out => r == Refs(k, false)
    case Waiting => r == Refs(k, true) && k > 0
    case Linking(t) =>
      && t < |s.threads| && Links(s.threads[t], n)
      && if Counted(s.threads[t]) then r == Refs(k + 1, false) else r == Refs(0, true) && k == 0
    case Listed => r == Refs(k + 1, false)
    case Taken(t) => t < |s.threads| && s.threads[t] == GetTwo(n) && r == Refs(k + 1, false)
  }

  predicate Bounded(h: Option<Node>, size: nat) {
    h.Some? ==> h.value < size
  }

  /** Every node a thread has read is a node, and it refers only to one whose count it saw above zero. */
  predicate Fits(x: Thread, size: nat) {
    && (x.Idle? || x.GetHead? || x.n < size) && (x.GetRef? ==> x.r.count != 0)
    && (x.LinkNext? || x.LinkRef? || x.LinkSwap? || x.LinkFail? || x.GetOne? ==> Bounded(x.h, size))
    && (x.LinkLoad? || x.LinkNext? || x.LinkRef? || x.LinkSwap? || x.LinkFail? ==>
          x.back.Some? ==> Bounded(x.back.value, size))
  }

  /** A thread that links a node in, or has taken it, is the one that may; a link it relies on is still there. */
  ghost predicate ThreadOk(s: State, t: Tid)
    requires Sized(s) && t < |s.threads|
  {
    var x := s.threads[t];
    && Fits(x, |s.refs|)
    && (!x.Idle? && !x.GetHead? && Links(x, x.n) ==> s.place[x.n] == Linking(t))
    && (x.GetTwo? ==> s.place[x.n] == Taken(t))
    && (x.LinkRef? || x.LinkSwap? || x.GetSwap? ==> s.next[x.n] == x.h)
  }

  /** Node `list[i]` is listed and linked to the one after it. */
  ghost predicate LinkOk(list: seq<Node>, next: seq<Option<Node>>, place: seq<Place>, i: nat)
    requires i < |list|
  {
    && list[i] < |next| && list[i] < |place| && place[list[i]] == Listed
    && next[list[i]] == if i + 1 < |list| then Some(list[i + 1]) else None
  }

  /** The list, from its head along the links, holds exactly the listed nodes, once each. */
  ghost predicate ListOk(head: Option<Node>, list: seq<Node>, next: seq<Option<Node>>, place: seq<Place>) {
    && head == (if list == [] then None else Some(list[0]))
    && (forall i {:trigger LinkOk(list, next, place, i)} :: 0 <= i < |list| ==> LinkOk(list, next, place, i))
    && (forall i, j :: 0 <= i < j < |list| ==> list[i] != list[j])
    && (forall n {:trigger place[n]} :: 0 <= n < |place| && place[n] == Listed ==> n in list)
  }

  ghost predicate Inv(s: State) {
    && Sized(s)
    && (forall n {:trigger NodeOk(s, n)} :: 0 <= n < |s.refs| ==> NodeOk(s, n))
    && (forall t {:trigger ThreadOk(s, t)} :: 0 <= t < |s.threads| ==> ThreadOk(s, t))
    && ListOk(s.head, s.list, s.next, s.place) && Alternates(s.place, s.log)
  }

  // ---------- the log ----------

  /** The last thing that happened to node `n` in the log, if anything. */
  function LastOf(log: seq<Event>, n: Node): Option<Event> {
    if log == [] then None
    else if log[|log| - 1].n == n then Some(log[|log| - 1]) else LastOf(log[..|log| - 1], n)
  }

  /** A node may be got if it was given last, and given otherwise. */
  predicate InTurn(log: seq<Event>, e: Event) {
    e.Got? <==> LastOf(log, e.n) == Some(Gave(e.n))
  }

  ghost predicate Turns(log: seq<Event>) {
    forall i {:trigger log[i]} :: 0 <= i < |log| ==> InTurn(log[..i], log[i])
  }

  ghost predicate WithClient(place: seq<Place>, log: seq<Event>, n: Node)
    requires n < |place|
  {
    place[n] == Out <==> LastOf(log, n) != Some(Gave(n))
  }

  /** A node is with a client exactly if it was got last, or never given; and in the log, giving and getting alternate.
      */
  ghost predicate Alternates(place: seq<Place>, log: seq<Event>) {
    && (forall n {:trigger WithClient(place, log, n)} :: 0 <= n < |place| ==> WithClient(place, log, n))
    && Turns(log)
  }

  lemma LastOfAppend(log: seq<Event>, e: Event, n: Node)
    ensures LastOf(log + [e], n) == if e.n == n then Some(e) else LastOf(log, n)
  {
    assert (log + [e])[..|log|] == log;
  }

  /** A node changes hands and the log says so. */
  lemma Handed(place: seq<Place>, place': seq<Place>, log: seq<Event>, n: Node, p: Place, e: Event)
    requires Alternates(place, log) && n < |place| && place' == place[n := p] && e.n == n
    requires if e.Got? then place[n] != Out && p == Out else place[n] == Out && p != Out
    ensures Alternates(place', log + [e])
  {
    var log' := log + [e];
    assert WithClient(place, log, n);
    forall i | 0 <= i < |log'| ensures InTurn(log'[..i], log'[i]) {
      assert log'[..i] == log[..i];
      if i < |log| { assert log'[i] == log[i]; } else { assert log[..i] == log; }
    }
    forall m | 0 <= m < |place'| ensures WithClient(place', log', m) {
      LastOfAppend(log, e, m);
      assert WithClient(place, log, m);
    }
  }

  lemma Moved(place: seq<Place>, place': seq<Place>, log: seq<Event>, n: Node, p: Place)
    requires Alternates(place, log) && n < |place| && place' == place[n := p] && (place[n] == Out <==> p == Out)
    ensures Alternates(place', log)
  {
    forall m | 0 <= m < |place'| ensures WithClient(place', log, m) { assert WithClient(place, log, m); }
  }

  // ---------- the list ----------

  lemma Unlisted(head: Option<Node>, list: seq<Node>, next: seq<Option<Node>>, place: seq<Place>, n: Node)
    requires ListOk(head, list, next, place) && n < |place| && place[n] != Listed
    ensures n !in list
  {
    forall i | 0 <= i < |list| ensures list[i] != n { assert LinkOk(list, next, place, i); }
  }

  /** Whatever happens to a node off the list leaves the list alone. */
  lemma OffList(head: Option<Node>, list: seq<Node>, next: seq<Option<Node>>, place: seq<Place>,
                next': seq<Option<Node>>, place': seq<Place>, n: Node, h: Option<Node>, p: Place)
    requires ListOk(head, list, next, place) && n < |place| == |next| && place[n] != Listed && p != Listed
    requires next' == next[n := h] && place' == place[n := p]
    ensures ListOk(head, list, next', place')
  {
    Unlisted(head, list, next, place, n);
    forall i | 0 <= i < |list| ensures LinkOk(list, next', place', i) {
      assert LinkOk(list, next, place, i);
    }
  }

  /** A node whose link is the head comes first. */
  lemma LinkedIn(head: Option<Node>, list: seq<Node>, next: seq<Option<Node>>, place: seq<Place>, list': seq<Node>,
        place': seq<Place>, n: Node)
    requires ListOk(head, list, next, place) && n < |place| == |next| && place[n] != Listed && next[n] == head
    requires list' == [n] + list && place' == place[n := Listed]
    ensures ListOk(Some(n), list', next, place')
  {
    Unlisted(head, list, next, place, n);
    forall i | 0 <= i < |list'| ensures LinkOk(list', next, place', i) {
      if i > 0 { assert LinkOk(list, next, place, i - 1); }
    }
  }

  /** The head is taken off: its link is the rest of the list. */
  lemma TakenOff(head: Option<Node>, list: seq<Node>, next: seq<Option<Node>>, place: seq<Place>,
                 list': seq<Node>, place': seq<Place>, n: Node, p: Place)
    requires ListOk(head, list, next, place) && n < |place| == |next| && head == Some(n) && p != Listed
    requires list != [] && list' == list[1..] && place' == place[n := p]
    ensures place[n] == Listed && ListOk(next[n], list', next, place')
  {
    assert LinkOk(list, next, place, 0);
    forall i | 0 <= i < |list'| ensures LinkOk(list', next, place', i) {
      assert LinkOk(list, next, place, i + 1) && list[0] != list[i + 1];
    }
    forall m | 0 <= m < |place'| && place'[m] == Listed ensures m in list' {
      assert place[m] == Listed;
      var i :| 0 <= i < |list| && list[i] == m;
      assert list'[i - 1] == m;
    }
  }

  // ---------- every step keeps the invariant ----------

  /** A thread that holds or links no node but `n`. */
  ghost predicate About(x: Thread, n: Node) {
    forall m {:trigger Refers(x, m)} {:trigger Links(x, m)} :: Refers(x, m) || Links(x, m) ==> m == n
  }

  /** Only thread `t` and node `n` have changed, and what other threads rely on at `n` has not. */
  ghost predicate Local(s: State, s': State, t: Tid, n: Node) {
    && Sized(s) && t < |s.threads| && n < |s.refs| && |s'.threads| == |s.threads| && |s'.refs| == |s.refs|
    && s'.threads == s.threads[t := s'.threads[t]] && About(s.threads[t], n) && About(s'.threads[t], n)
    && Sized(s') && s'.refs == s.refs[n := s'.refs[n]] && s'.place == s.place[n := s'.place[n]]
    && s'.next == s.next[n := s'.next[n]]
    && (s'.place[n] == s.place[n] || !(s.place[n].Linking? || s.place[n].Taken?) || s.place[n].owner == t)
    && (s'.next[n] == s.next[n] || (s.place[n] == Linking(t) && Referring(s.threads, n) == 0))
  }

  lemma OtherNode(s: State, s': State, t: Tid, n: Node, m: Node)
    requires Local(s, s', t, n) && m < |s.refs| && m != n && NodeOk(s, m)
    ensures NodeOk(s', m)
  {
    ReferringUpdate(s.threads, t, s'.threads[t], m);
  }

  lemma OtherThread(s: State, s': State, t: Tid, n: Node, u: Tid)
    requires Local(s, s', t, n) && u < |s.threads| && u != t && ThreadOk(s, u)
    ensures ThreadOk(s', u)
  {
    ReferringUpdate(s.threads, u, Idle, n);
  }

  lemma Keeps(s: State, s': State, t: Tid, n: Node)
    requires Inv(s) && Local(s, s', t, n) && NodeOk(s', n) && ThreadOk(s', t)
    requires ListOk(s'.head, s'.list, s'.next, s'.place) && Alternates(s'.place, s'.log)
    ensures Inv(s')
  {
    forall m | 0 <= m < |s'.refs| ensures NodeOk(s', m) {
      assert NodeOk(s, m);
      if m != n { OtherNode(s, s', t, n, m); }
    }
    forall u | 0 <= u < |s'.threads| ensures ThreadOk(s', u) {
      assert ThreadOk(s, u);
      if u != t { OtherThread(s, s', t, n, u); }
    }
  }

  /** A step that moves only its thread, and holds and links the same node before and after. */
  ghost predicate SameHold(x: Thread, y: Thread) {
    && (forall m {:trigger Refers(y, m)} :: Refers(x, m) == Refers(y, m))
    && (forall m {:trigger Links(y, m)} :: Links(x, m) == Links(y, m))
    && Counted(x) == Counted(y) && !x.GetTwo? && !y.GetTwo?
  }

  lemma ThreadOnly(s: State, s': State, t: Tid, y: Thread)
    requires Inv(s) && t < |s.threads| && s' == SetThread(s, t, y) && SameHold(s.threads[t], y) && ThreadOk(s', t)
    ensures Inv(s')
  {
    forall m | 0 <= m < |s'.refs| ensures NodeOk(s', m) {
      assert NodeOk(s, m);
      ReferringUpdate(s.threads, t, y, m);
    }
    forall u | 0 <= u < |s'.threads| ensures ThreadOk(s', u) {
      if u != t { assert ThreadOk(s, u); }
    }
  }

  lemma HeadKnown(s: State)
    requires Inv(s)
    ensures Bounded(s.head, |s.refs|)
  {
    if s.list != [] { assert LinkOk(s.list, s.next, s.place, 0); }
  }

  lemma ReturnQuiet(back: Option<Option<Node>>, size: nat)
    ensures forall m :: !Refers(Return(back), m) && !Links(Return(back), m)
    ensures !Return(back).GetTwo? && !Return(back).LinkRef? && !Return(back).LinkSwap?
    ensures !Return(back).GetSwap? && !Counted(Return(back))
    ensures (back.Some? ==> Bounded(back.value, size)) ==> Fits(Return(back), size)
  {
  }

  // ----- linking a node in -----

  lemma LinkLoadKeeps(s: State, s': State, t: Tid, x: Thread)
    requires Inv(s) && t < |s.threads| && s.threads[t] == x && x.LinkLoad?
    requires s' == SetThread(s, t, LinkNext(x.n, s.head, x.back))
    ensures Inv(s')
  {
    assert ThreadOk(s, t);
    HeadKnown(s);
    ThreadOnly(s, s', t, LinkNext(x.n, s.head, x.back));
  }

  /** While a node is being linked in nobody refers to it, so its link may change. */
  lemma LinkNextKeeps(s: State, s': State, t: Tid, x: Thread, y: Thread)
    requires Inv(s) && t < |s.threads| && s.threads[t] == x && x.LinkNext?
    requires y == LinkRef(x.n, x.h, x.back) && x.n < |s.next|
    requires s' == SetThread(s, t, y).(next := s.next[x.n := x.h])
    ensures Inv(s')
  {
    assert ThreadOk(s, t) && NodeOk(s, x.n);
    ReferringUpdate(s.threads, t, y, x.n);
    OffList(s.head, s.list, s.next, s.place, s'.next, s'.place, x.n, x.h, s.place[x.n]);
    Keeps(s, s', t, x.n);
  }

  lemma LinkRefKeeps(s: State, s': State, t: Tid, x: Thread, y: Thread)
    requires Inv(s) && t < |s.threads| && s.threads[t] == x && x.LinkRef?
    requires y == LinkSwap(x.n, x.h, x.back) && x.n < |s.refs|
    requires s' == SetThread(SetRefs(s, x.n, Refs(1, false)), t, y)
    ensures Inv(s')
  {
    assert ThreadOk(s, t) && NodeOk(s, x.n);
    ReferringUpdate(s.threads, t, y, x.n);
    Keeps(s, s', t, x.n);
  }

  lemma LinkMissKeeps(s: State, s': State, t: Tid, x: Thread)
    requires Inv(s) && t < |s.threads| && s.threads[t] == x && x.LinkSwap?
    requires s' == SetThread(s, t, LinkFail(x.n, s.head, x.back))
    ensures Inv(s')
  {
    assert ThreadOk(s, t);
    HeadKnown(s);
    ThreadOnly(s, s', t, LinkFail(x.n, s.head, x.back));
  }

  lemma LinkDoneKeeps(s: State, s': State, t: Tid, x: Thread, y: Thread)
    requires Inv(s) && t < |s.threads| && s.threads[t] == x && x.LinkSwap? && s.head == x.h
    requires x.n < |s.refs| && y == Return(x.back)
    requires s' == SetPlace(SetThread(s, t, y), x.n, Listed).(head := Some(x.n), list := [x.n] + s.list)
    ensures Inv(s')
  {
    assert ThreadOk(s, t) && NodeOk(s, x.n);
    ReturnQuiet(x.back, |s.refs|);
    ReferringUpdate(s.threads, t, y, x.n);
    LinkedIn(s.head, s.list, s.next, s.place, s'.list, s'.place, x.n);
    Moved(s.place, s'.place, s.log, x.n, Listed);
    Keeps(s, s', t, x.n);
  }

  lemma LinkRetryKeeps(s: State, s': State, t: Tid, x: Thread, y: Thread)
    requires Inv(s) && t < |s.threads| && s.threads[t] == x && x.LinkFail?
    requires y == LinkNext(x.n, x.h, x.back) && x.n < |s.refs|
    requires s.refs[x.n] == Refs(1, false) && s' == SetThread(SetRefs(s, x.n, Refs(0, true)), t, y)
    ensures Inv(s')
  {
    assert ThreadOk(s, t) && NodeOk(s, x.n);
    ReferringUpdate(s.threads, t, y, x.n);
    Keeps(s, s', t, x.n);
  }

  /** Somebody still refers to the node: whoever lets go last will link it in. */
  lemma LinkWaitKeeps(s: State, s': State, t: Tid, x: Thread, y: Thread)
    requires Inv(s) && t < |s.threads| && s.threads[t] == x && x.LinkFail? && y == Return(x.back) && x.n < |s.refs|
    requires s.refs[x.n] != Refs(1, false)
    requires s' == SetPlace(SetThread(SetRefs(s, x.n, Refs(s.refs[x.n].count - 1, true)), t, y), x.n, Waiting)
    ensures Inv(s')
  {
    assert ThreadOk(s, t) && NodeOk(s, x.n);
    ReturnQuiet(x.back, |s.refs|);
    ReferringUpdate(s.threads, t, y, x.n);
    OffList(s.head, s.list, s.next, s.place, s'.next, s'.place, x.n, s.next[x.n], Waiting);
    Moved(s.place, s'.place, s.log, x.n, Waiting);
    Keeps(s, s', t, x.n);
  }

  lemma LinkKeeps(s: State, s': State, t: Tid)
    requires Inv(s) && Link(s, s', t)
    ensures Inv(s')
  {
    var x := s.threads[t];
    match x
    case LinkLoad(_, _) => LinkLoadKeeps(s, s', t, x);
    case LinkNext(n, h, back) => LinkNextKeeps(s, s', t, x, LinkRef(n, h, back));
    case LinkRef(n, h, back) => LinkRefKeeps(s, s', t, x, LinkSwap(n, h, back));
    case LinkSwap(_, h, back) =>
      if s.head == h { LinkDoneKeeps(s, s', t, x, Return(back)); }
      else { LinkMissKeeps(s, s', t, x); }
    case LinkFail(n, h, back) =>
      if s.refs[n] == Refs(1, false) { LinkRetryKeeps(s, s', t, x, LinkNext(n, h, back)); }
      else { LinkWaitKeeps(s, s', t, x, Return(back)); }
  }

  // ----- taking a node off -----

  /** Any node with a positive count may be referred to. */
  lemma RefKeeps(s: State, s': State, t: Tid, n: Node, r: Refs)
    requires Inv(s) && t < |s.threads| && s.threads[t] == GetRef(n, r) && n < |s.refs| && s.refs[n] == r && r.count != 0
    requires s' == SetThread(SetRefs(s, n, r.(count := r.count + 1)), t, GetNext(n))
    ensures Inv(s')
  {
    assert ThreadOk(s, t) && NodeOk(s, n);
    ReferringUpdate(s.threads, t, GetNext(n), n);
    if s.place[n].Linking? || s.place[n].Taken? { assert s.place[n].owner != t; }
    Keeps(s, s', t, n);
  }

  /** The head is taken off: its link, read while it was referred to, is still the rest of the list. */
  lemma TakeKeeps(s: State, s': State, t: Tid, n: Node, h: Option<Node>)
    requires Inv(s) && t < |s.threads| && s.threads[t] == GetSwap(n, h) && s.head == Some(n)
    requires n < |s.refs| && |s.list| > 0
    requires s' == SetPlace(SetThread(s, t, GetTwo(n)), n, Taken(t)).(head := h, list := s.list[1..])
    ensures Inv(s')
  {
    assert ThreadOk(s, t) && NodeOk(s, n);
    ReferringUpdate(s.threads, t, GetTwo(n), n);
    TakenOff(s.head, s.list, s.next, s.place, s'.list, s'.place, n, Taken(t));
    Moved(s.place, s'.place, s.log, n, Taken(t));
    Keeps(s, s', t, n);
  }

  /** Both references are given back, and the node is the caller's. */
  lemma GetTwoKeeps(s: State, s': State, t: Tid, n: Node)
    requires Inv(s) && t < |s.threads| && s.threads[t] == GetTwo(n) && n < |s.refs|
    requires s' == SetPlace(SetThread(SetRefs(s, n, s.refs[n].(count := s.refs[n].count - 2)), t, Idle), n, Out)
                   .(log := s.log + [Got(n)])
    ensures Inv(s')
  {
    assert ThreadOk(s, t) && NodeOk(s, n);
    ReferringUpdate(s.threads, t, Idle, n);
    OffList(s.head, s.list, s.next, s.place, s'.next, s'.place, n, s.next[n], Out);
    Handed(s.place, s'.place, s.log, n, Out, Got(n));
    Keeps(s, s', t, n);
  }

  lemma LetGoKeeps(s: State, s': State, t: Tid, n: Node, h: Option<Node>, y: Thread)
    requires Inv(s) && t < |s.threads| && s.threads[t] == GetOne(n, h) && n < |s.refs|
    requires s.refs[n] != Refs(1, true) && y == Loop(h)
    requires s' == SetThread(SetRefs(s, n, s.refs[n].(count := s.refs[n].count - 1)), t, y)
    ensures Inv(s')
  {
    assert ThreadOk(s, t) && NodeOk(s, n);
    ReturnQuiet(Some(h), |s.refs|);
    ReferringUpdate(s.threads, t, y, n);
    Keeps(s, s', t, n);
  }

  /** The last reference to a waiting node is given up: this thread links it in. */
  lemma LastOneKeeps(s: State, s': State, t: Tid, n: Node, h: Option<Node>, y: Thread)
    requires Inv(s) && t < |s.threads| && s.threads[t] == GetOne(n, h) && n < |s.refs| && s.refs[n] == Refs(1, true)
    requires y == LinkLoad(n, Some(h)) && s' == SetPlace(SetThread(SetRefs(s, n, Refs(0, true)), t, y), n, Linking(t))
    ensures Inv(s')
  {
    assert ThreadOk(s, t) && NodeOk(s, n);
    ReferringUpdate(s.threads, t, y, n);
    assert s.place[n] == Waiting;
    OffList(s.head, s.list, s.next, s.place, s'.next, s'.place, n, s.next[n], Linking(t));
    Moved(s.place, s'.place, s.log, n, Linking(t));
    Keeps(s, s', t, n);
  }

  lemma ReadKeeps(s: State, s': State, t: Tid, x: Thread)
    requires Inv(s) && Get(s, s', t) && x == s.threads[t] && (x.GetHead? || x.GetRefs? || x.GetNext?)
    ensures Inv(s')
  {
    assert ThreadOk(s, t);
    match x
    case GetHead => HeadKnown(s); ReturnQuiet(Some(s.head), |s.refs|); ThreadOnly(s, s', t, Loop(s.head));
    case GetRefs(n) =>
      if s.refs[n].count == 0 { ThreadOnly(s, s', t, GetHead); }
      else { ThreadOnly(s, s', t, GetRef(n, s.refs[n])); }
    case GetNext(n) => ThreadOnly(s, s', t, GetSwap(n, s.next[n]));
  }

  lemma GetKeeps(s: State, s': State, t: Tid)
    requires Inv(s) && Get(s, s', t)
    ensures Inv(s')
  {
    assert ThreadOk(s, t);
    var x := s.threads[t];
    match x
    case GetHead => ReadKeeps(s, s', t, x);
    case GetRefs(_) => ReadKeeps(s, s', t, x);
    case GetNext(_) => ReadKeeps(s, s', t, x);
    case GetRef(n, r) => if s.refs[n] == r { RefKeeps(s, s', t, n, r); } else { ThreadOnly(s, s', t, GetHead); }
    case GetSwap(n, h) =>
      if s.head == Some(n) { TakeKeeps(s, s', t, n, h); }
      else {
        HeadKnown(s);
        ThreadOnly(s, s', t, GetOne(n, s.head));
      }
    case GetTwo(n) => GetTwoKeeps(s, s', t, n);
    case GetOne(n, h) =>
      if s.refs[n] == Refs(1, true) { LastOneKeeps(s, s', t, n, h, LinkLoad(n, Some(h))); }
      else {
        LetGoKeeps(s, s', t, n, h, Loop(h));
      }
  }

  // ----- adding a node -----

  /** The node goes from its client to the thread that links it in, or to whoever lets go of it last. */
  lemma AddKeeps(s: State, s': State, t: Tid, n: Node, p: Place, y: Thread)
    requires Inv(s) && t < |s.threads| && s.threads[t] == Idle && n < |s.refs| && s.place[n] == Out
    requires if s.refs[n] == Refs(0, false) then p == Linking(t) && y == LinkLoad(n, None)
               else p == Waiting && y == Idle
    requires s' == SetPlace(SetThread(SetRefs(s, n, s.refs[n].(should := true)), t, y), n, p).(log := s.log + [Gave(n)])
    ensures Inv(s')
  {
    assert ThreadOk(s, t) && NodeOk(s, n);
    ReferringUpdate(s.threads, t, y, n);
    OffList(s.head, s.list, s.next, s.place, s'.next, s'.place, n, s.next[n], p);
    Handed(s.place, s'.place, s.log, n, p, Gave(n));
    Keeps(s, s', t, n);
  }

  // ---------- runs ----------

  lemma {:induction false} NobodyRefers(ths: seq<Thread>, n: Node)
    requires forall t {:trigger ths[t]} :: 0 <= t < |ths| ==> ths[t] == Idle
    ensures Referring(ths, n) == 0
  {
    if ths != [] { NobodyRefers(ths[..|ths| - 1], n); }
  }

  lemma InitInv(s: State)
    requires Init(s)
    ensures Inv(s)
  {
    forall n | 0 <= n < |s.refs| ensures NodeOk(s, n) && WithClient(s.place, s.log, n) {
      assert s.refs[n] == Refs(0, false);
      NobodyRefers(s.threads, n);
    }
    forall t | 0 <= t < |s.threads| ensures ThreadOk(s, t) { assert s.threads[t] == Idle; }
    forall n | 0 <= n < |s.place| ensures s.place[n] == Out { assert s.refs[n] == Refs(0, false); }
  }

  /** Every atomic step of every thread keeps the invariant. */
  lemma StepInv(s: State, s': State, t: Tid)
    requires Inv(s) && Step(s, s', t)
    ensures Inv(s')
  {
    if Link(s, s', t) { LinkKeeps(s, s', t); }
    else if Get(s, s', t) { GetKeeps(s, s', t); }
    else if StartGet(s, s', t) { ThreadOnly(s, s', t, GetHead); }
    else {
      var n: Node :| Add(s, s', t, n);
      if s.refs[n] == Refs(0, false) { AddKeeps(s, s', t, n, Linking(t), LinkLoad(n, None)); }
      else {
        assert s.threads[t := Idle] == s.threads;
        AddKeeps(s, s', t, n, Waiting, Idle);
      }
    }
  }

  ghost predicate IsRun(tr: seq<State>) {
    && |tr| > 0 && Init(tr[0])
    && forall i {:trigger Next(tr[i], tr[i + 1])} :: 0 <= i < |tr| - 1 ==> Next(tr[i], tr[i + 1])
  }

  /** The invariant holds in every state of every run. */
  lemma {:induction false} RunInv(tr: seq<State>, i: nat)
    requires IsRun(tr) && i < |tr|
    ensures Inv(tr[i])
    decreases i
  {
    if i == 0 { InitInv(tr[0]); }
    else {
      var j := i - 1;
      RunInv(tr, j);
      assert Next(tr[j], tr[j + 1]);
      var t: Tid :| Step(tr[j], tr[j + 1], t);
      StepInv(tr[j], tr[j + 1], t);
    }
  }

  lemma {:induction false} LastGave(log: seq<Event>, n: Node) returns (k: nat)
    requires LastOf(log, n) == Some(Gave(n))
    ensures k < |log| && log[k] == Gave(n) && forall i :: k < i < |log| ==> log[i] != Got(n)
  {
    if log[|log| - 1].n == n { k := |log| - 1; } else { k := LastGave(log[..|log| - 1], n); }
  }

  /** In every run, between two `try_get` calls that return the same node there is an `add` of that node. */
  lemma NeverTakenTwice(tr: seq<State>, m: nat, n: Node, i: nat, j: nat)
    requires IsRun(tr) && m < |tr| && i < j < |tr[m].log| && tr[m].log[i] == Got(n) && tr[m].log[j] == Got(n)
    ensures exists k :: i < k < j && tr[m].log[k] == Gave(n)
  {
    RunInv(tr, m);
    var log := tr[m].log;
    assert InTurn(log[..j], log[j]);
    var k := LastGave(log[..j], n);
    assert log[..j][i] == Got(n);
    assert log[k] == Gave(n);
  }

  /** The bit checked after a node is taken off the list is never set, and the two references then given back are there.
      */
  lemma TakenIsClear(tr: seq<State>, m: nat, t: Tid, n: Node)
    requires IsRun(tr) && m < |tr| && t < |tr[m].threads| && tr[m].threads[t] == GetTwo(n)
    ensures n < |tr[m].refs| && !tr[m].refs[n].should && tr[m].refs[n].count >= 2
  {
    RunInv(tr, m);
    assert ThreadOk(tr[m], t) && NodeOk(tr[m], n);
    ReferringUpdate(tr[m].threads, t, Idle, n);
  }

  /** Nothing is lost: when no thread is in the middle of a call, every node is with a client or on the list, by whether
      it was given last. */
  lemma NothingLost(tr: seq<State>, m: nat, n: Node, s: State)
    requires IsRun(tr) && m < |tr| && s == tr[m] && n < |s.refs| == |s.place|
    requires forall t {:trigger s.threads[t]} :: 0 <= t < |s.threads| ==> s.threads[t] == Idle
    ensures n in s.list <==> LastOf(s.log, n) == Some(Gave(n))
  {
    RunInv(tr, m);
    NobodyRefers(s.threads, n);
    assert NodeOk(s, n) && WithClient(s.place, s.log, n);
    if s.place[n] == Out { Unlisted(s.head, s.list, s.next, s.place, n); }
  }

  // ---------- calls that nobody interferes with ----------

  /** The states of one call of thread `t` during which no other thread takes a step, from its second state on. */
  ghost predicate Solo(ss: seq<State>, t: Tid) {
    && |ss| >= 2 && (forall i {:trigger SoloStep(ss, t, i)} :: 1 <= i < |ss| - 1 ==> SoloStep(ss, t, i))
    && t < |ss[|ss| - 1].threads| && ss[|ss| - 1].threads[t] == Idle
  }

  ghost predicate SoloStep(ss: seq<State>, t: Tid, i: nat)
    requires i + 1 < |ss|
  {
    Get(ss[i], ss[i + 1], t) || Link(ss[i], ss[i + 1], t)
  }

  lemma SoloNext(ss: seq<State>, t: Tid, i: nat)
    requires Solo(ss, t) && 1 <= i < |ss| && t < |ss[i].threads|
    ensures ss[i].threads[t] != Idle ==> i + 1 < |ss| && (Get(ss[i], ss[i + 1], t) || Link(ss[i], ss[i + 1], t))
    ensures ss[i].threads[t] == Idle ==> i + 1 == |ss|
  {
    if i + 1 < |ss| { assert SoloStep(ss, t, i); }
  }

  /** A listed node has a count above zero. */
  lemma HeadCounted(s: State)
    requires Inv(s) && s.head.Some?
    ensures s.head.value < |s.refs| && s.refs[s.head.value].count > 0 && s.list != [] && s.list[0] == s.head.value
  {
    var n := s.head.value;
    assert LinkOk(s.list, s.next, s.place, 0);
    assert NodeOk(s, n);
  }

  lemma SoloGetMisses(ss: seq<State>, t: Tid, s: State)
    requires Inv(s) && Solo(ss, t) && ss[0] == s && StartGet(s, ss[1], t) && s.head == None
    ensures |ss| == 3 && ss[2] == s
  {
    SoloNext(ss, t, 1);
    SoloNext(ss, t, 2);
    assert s.threads[t := GetHead][t := Idle] == s.threads;
  }

  lemma SoloGetReads(ss: seq<State>, t: Tid, s: State, n: Node)
    requires Inv(s) && Solo(ss, t) && ss[0] == s && StartGet(s, ss[1], t) && s.head == Some(n)
    ensures |ss| > 4 && n < |s.refs| && s.list != [] && s.list[0] == n
    ensures ss[4] == SetThread(SetRefs(s, n, s.refs[n].(count := s.refs[n].count + 1)), t, GetNext(n))
  {
    HeadCounted(s);
    SoloNext(ss, t, 1);
    SoloNext(ss, t, 2);
    SoloNext(ss, t, 3);
  }

  lemma SoloGetTakes(ss: seq<State>, t: Tid, s: State, n: Node)
    requires Inv(s) && Solo(ss, t) && ss[0] == s && StartGet(s, ss[1], t) && s.head == Some(n)
    ensures |ss| == 8 && ss[7].log == s.log + [Got(n)] && s.list != [] && n == s.list[0] && ss[7].list == s.list[1..]
    ensures ss[7].threads == s.threads
  {
    SoloGetReads(ss, t, s, n);
    SoloNext(ss, t, 4);
    SoloNext(ss, t, 5);
    SoloNext(ss, t, 6);
    SoloNext(ss, t, 7);
  }

  /** In every run, whatever other threads are in the middle of, a `try_get` that nobody interferes with returns the
      first node of the list, and nothing if and only if the list is empty. */
  lemma AloneGets(tr: seq<State>, m: nat, ss: seq<State>, t: Tid)
    requires IsRun(tr) && m < |tr| && Solo(ss, t) && ss[0] == tr[m] && StartGet(tr[m], ss[1], t)
    ensures var s, s' := tr[m], ss[|ss| - 1];
            if s.list == [] then s' == s
            else s'.log == s.log + [Got(s.list[0])] && s'.list == s.list[1..] && s'.threads == s.threads
  {
    RunInv(tr, m);
    var s := tr[m];
    if s.head == None { SoloGetMisses(ss, t, s); } else { SoloGetTakes(ss, t, s, s.head.value); }
  }

  /** With no call in progress that is: a node is returned exactly if one was given and not got since. */
  lemma AloneGetsGiven(tr: seq<State>, m: nat, ss: seq<State>, t: Tid, s: State)
    requires IsRun(tr) && m < |tr| && s == tr[m] && Solo(ss, t) && ss[0] == s && StartGet(s, ss[1], t)
    requires forall u {:trigger s.threads[u]} :: 0 <= u < |s.threads| ==> s.threads[u] == Idle
    ensures (exists n: Node :: n < |s.refs| && LastOf(s.log, n) == Some(Gave(n))) <==> ss[|ss| - 1].log != s.log
    ensures ss[|ss| - 1].log != s.log ==>
              exists n: Node :: LastOf(s.log, n) == Some(Gave(n)) && ss[|ss| - 1].log == s.log + [Got(n)]
  {
    AloneGets(tr, m, ss, t);
    RunInv(tr, m);
    if s.list != [] {
      assert LinkOk(s.list, s.next, s.place, 0);
      NothingLost(tr, m, s.list[0], s);
    } else {
      forall n: Node | n < |s.refs| ensures LastOf(s.log, n) != Some(Gave(n)) { NothingLost(tr, m, n, s); }
    }
  }

  /** Such a call ends. */
  lemma AloneGetEnds(tr: seq<State>, m: nat, t: Tid) returns (ss: seq<State>)
    requires IsRun(tr) && m < |tr| && t < |tr[m].threads| && tr[m].threads[t] == Idle
    ensures Solo(ss, t) && ss[0] == tr[m] && StartGet(tr[m], ss[1], t)
  {
    RunInv(tr, m);
    var s := tr[m];
    var s1 := SetThread(s, t, GetHead);
    if s.head == None {
      ss := [s, s1, SetThread(s1, t, Idle)];
      assert SoloStep(ss, t, 1);
    } else {
      var n := s.head.value;
      HeadCounted(s);
      var r := s.refs[n];
      var s2 := SetThread(s1, t, GetRefs(n));
      var s3 := SetThread(s2, t, GetRef(n, r));
      var s4 := SetThread(SetRefs(s3, n, r.(count := r.count + 1)), t, GetNext(n));
      var s5 := SetThread(s4, t, GetSwap(n, s.next[n]));
      var s6 := SetPlace(SetThread(s5, t, GetTwo(n)), n, Taken(t)).(head := s.next[n], list := s.list[1..]);
      var s7 := SetPlace(SetThread(SetRefs(s6, n, r.(count := r.count - 1)), t, Idle), n, Out)
                .(log := s.log + [Got(n)]);
      ss := [s, s1, s2, s3, s4, s5, s6, s7];
      forall i | 1 <= i < 7 ensures SoloStep(ss, t, i) { }
    }
  }

  /** An `add` that nobody interferes with puts the node first; if somebody still refers to it, it leaves it to the last
      of them. */
  lemma AloneAdds(tr: seq<State>, m: nat, ss: seq<State>, t: Tid, n: Node)
    requires IsRun(tr) && m < |tr| && Solo(ss, t) && ss[0] == tr[m] && Add(tr[m], ss[1], t, n)
    ensures var s, s' := tr[m], ss[|ss| - 1];
            && s'.log == s.log + [Gave(n)] && s'.threads == s.threads
            && if s.refs[n].count == 0 then s'.list == [n] + s.list && s'.head == Some(n)
               else s'.list == s.list && |s'.place| == |s.place| && s'.place[n] == Waiting
  {
    RunInv(tr, m);
    var s := tr[m];
    assert NodeOk(s, n);
    if s.refs[n].count == 0 { SoloLinks(ss, t, s, n); } else { SoloNext(ss, t, 1); }
  }

  lemma SoloLinks(ss: seq<State>, t: Tid, s: State, n: Node)
    requires Inv(s) && Solo(ss, t) && ss[0] == s && Add(s, ss[1], t, n) && s.refs[n] == Refs(0, false)
    ensures |ss| == 6 && ss[5].log == s.log + [Gave(n)] && ss[5].threads == s.threads
    ensures ss[5].list == [n] + s.list && ss[5].head == Some(n)
  {
    SoloPrepares(ss, t, s, n);
    SoloNext(ss, t, 4);
    SoloNext(ss, t, 5);
  }

  lemma SoloPrepares(ss: seq<State>, t: Tid, s: State, n: Node)
    requires Inv(s) && Solo(ss, t) && ss[0] == s && Add(s, ss[1], t, n) && s.refs[n] == Refs(0, false)
    ensures |ss| > 4 && Sized(ss[4]) && ss[4].log == s.log + [Gave(n)] && ss[4].list == s.list && ss[4].head == s.head
    ensures ss[4].threads == s.threads[t := LinkSwap(n, s.head, None)]
  {
    SoloNext(ss, t, 1);
    SoloNext(ss, t, 2);
    SoloNext(ss, t, 3);
  }

  // ---------- calls that come back empty-handed ----------

  /** A thread in the middle of a `try_get`. */
  predicate InGet(x: Thread) {
    if x.LinkLoad? || x.LinkNext? || x.LinkRef? || x.LinkSwap? || x.LinkFail? then x.back.Some? else !x.Idle?
  }

  /** It has seen an empty list and will go home with that. */
  predicate Hopeless(x: Thread) {
    if x.LinkLoad? || x.LinkNext? || x.LinkRef? || x.LinkSwap? || x.LinkFail? then x.back == Some(None)
    else x.GetOne? && x.h == None
  }

  lemma GetStep(s: State, s': State, t: Tid)
    requires t < |s.threads| && Step(s, s', t) && InGet(s.threads[t])
    ensures |s'.threads| == |s.threads|
    ensures s'.threads[t] != Idle ==> InGet(s'.threads[t])
    ensures Hopeless(s'.threads[t]) ==> Hopeless(s.threads[t]) || s.head == None
    ensures s'.threads[t] == Idle && s'.log == s.log ==> Hopeless(s.threads[t]) || s.head == None
  {
    if Get(s, s', t) { OnlyGet(s, s', t); } else { OnlyLink(s, s', t); }
  }

  lemma OnlyGet(s: State, s': State, t: Tid)
    requires Get(s, s', t)
    ensures |s'.threads| == |s.threads|
    ensures s'.threads[t] != Idle ==> InGet(s'.threads[t])
    ensures Hopeless(s'.threads[t]) ==> Hopeless(s.threads[t]) || s.head == None
    ensures s'.threads[t] == Idle && s'.log == s.log ==> Hopeless(s.threads[t]) || s.head == None
  {
  }

  lemma OnlyLink(s: State, s': State, t: Tid)
    requires Link(s, s', t) && InGet(s.threads[t])
    ensures |s'.threads| == |s.threads|
    ensures s'.threads[t] != Idle ==> InGet(s'.threads[t])
    ensures Hopeless(s'.threads[t]) ==> Hopeless(s.threads[t])
    ensures s'.threads[t] == Idle && s'.log == s.log ==> Hopeless(s.threads[t])
  {
  }

  lemma OtherStep(s: State, s': State, u: Tid, t: Tid)
    requires t < |s.threads| && u != t && Step(s, s', u)
    ensures |s'.threads| == |s.threads| && s'.threads[t] == s.threads[t]
  {
    if Get(s, s', u) { OtherGet(s, s', u, t); }
    else if Link(s, s', u) { OtherLink(s, s', u, t); }
  }

  lemma OtherGet(s: State, s': State, u: Tid, t: Tid)
    requires t < |s.threads| && u != t && Get(s, s', u)
    ensures |s'.threads| == |s.threads| && s'.threads[t] == s.threads[t]
  {
  }

  lemma OtherLink(s: State, s': State, u: Tid, t: Tid)
    requires t < |s.threads| && u != t && Link(s, s', u)
    ensures |s'.threads| == |s.threads| && s'.threads[t] == s.threads[t]
  {
  }

  lemma NextOfGet(s: State, s': State, t: Tid)
    requires t < |s.threads| && Next(s, s') && InGet(s.threads[t])
    ensures |s'.threads| == |s.threads|
    ensures s'.threads[t] != Idle ==> InGet(s'.threads[t])
    ensures Hopeless(s'.threads[t]) ==> Hopeless(s.threads[t]) || s.head == None
    ensures s'.threads[t] == Idle && s'.log == s.log ==> Hopeless(s.threads[t]) || s.head == None
  {
    var u: Tid :| Step(s, s', u);
    if u == t { GetStep(s, s', t); } else { OtherStep(s, s', u, t); }
  }

  /** Thread `t` starts a `try_get` after state `i` and is in it up to state `j`. */
  ghost predicate During(tr: seq<State>, t: Tid, i: nat, j: nat) {
    && i < j < |tr| && StartGet(tr[i], tr[i + 1], t)
    && forall k {:trigger tr[k]} :: i < k <= j ==> t < |tr[k].threads| && tr[k].threads[t] != Idle
  }

  lemma {:induction false} StillGets(tr: seq<State>, t: Tid, i: nat, j: nat)
    requires IsRun(tr) && During(tr, t, i, j)
    ensures InGet(tr[j].threads[t])
    ensures Hopeless(tr[j].threads[t]) ==> exists k :: i < k < j && tr[k].head == None
    decreases j
  {
    assert tr[j].threads[t] != Idle;
    if j > i + 1 {
      var m := j - 1;
      StillGets(tr, t, i, m);
      assert Next(tr[m], tr[m + 1]);
      NextOfGet(tr[m], tr[j], t);
    }
  }

  /** In every run, under any interference, a `try_get` returns nothing only if the list was empty at some moment of the
      call. */
  lemma EmptyHanded(tr: seq<State>, t: Tid, i: nat, j: nat)
    requires IsRun(tr) && During(tr, t, i, j) && j + 1 < |tr| && t < |tr[j + 1].threads|
    requires tr[j + 1].threads[t] == Idle && tr[j + 1].log == tr[j].log
    ensures exists k :: i < k <= j && tr[k].head == None
  {
    StillGets(tr, t, i, j);
    assert Next(tr[j], tr[j + 1]);
    NextOfGet(tr[j], tr[j + 1], t);
  }
}
