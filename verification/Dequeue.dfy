/** The optimistic dequeue of the concurrent queue: claim first, give back what was not there.

    One producer moves `tail`. Any number of consumers claim from `opt`, each having read `over`, the count of claims
    given back, earlier. Every load and every fetch-and-add is one step; steps of all threads interleave in any order.
    */
module Dequeue {
  type Tid = nat

  /** What became of one claimed ticket: its thread has yet to reload the tail, it stands for an element, its thread
      will give it back, or it was given back. */
  datatype Fate = Undecided(t: Tid) | Granted | Refused(t: Tid) | Returned

  /** Where a consumer is in `dequeue_bulk` (`dequeue` is the case of `max` 1). */
  datatype Thread =
    | Idle
    | ReadOver(max: nat, tail: nat)
    | ReadOpt(max: nat, tail: nat, over: nat)
    | Claim(want: nat, over: nat)
    | Reload(want: nat, over: nat, my: nat)
    | Return(lo: nat, hi: nat, got: nat)
    | Fetch(got: nat)

  /** `fate` is a history variable: one entry for each ticket below `opt`. */
  datatype State = State(tail: nat, opt: nat, over: nat, head: nat, threads: seq<Thread>, fate: seq<Fate>)

  // ---------- steps ----------

  function Min(a: int, b: int): int { if a < b then a else b }

  /** `fate` with tickets `lo` to `hi` set to `f`. */
  function Fill(fate: seq<Fate>, lo: nat, hi: nat, f: Fate): (r: seq<Fate>)
    requires lo <= hi <= |fate|
    ensures |r| == |fate| && forall i :: 0 <= i < |fate| ==> r[i] == if lo <= i < hi then f else fate[i]
  {
    fate[..lo] + seq(hi - lo, i => f) + fate[hi..]
  }

  /** `fate` with the first `got` of the `want` tickets from `my` on granted and the rest refused. */
  function Settle(fate: seq<Fate>, t: Tid, my: nat, got: nat, want: nat): (r: seq<Fate>)
    requires my + want <= |fate| && got <= want
    ensures |r| == |fate|
    ensures forall i {:trigger r[i]} :: 0 <= i < |fate| ==>
              r[i] == if i < my || my + want <= i then fate[i] else if i < my + got then Granted else Refused(t)
  {
    fate[..my] + seq(got, i => Granted) + seq(want - got, i => Refused(t)) + fate[my + want..]
  }

  /** How many of `want` tickets from `my` on are there, given a tail and an earlier count of given-back claims. */
  function Share(want: nat, room: int): nat {
    if room <= 0 then 0 else Min(want, room)
  }

  function Set(s: State, t: Tid, x: Thread): State
    requires t < |s.threads|
  {
    s.(threads := s.threads[t := x])
  }

  predicate CanAct(s: State, t: Tid) {
    && t < |s.threads| && !s.threads[t].Idle?
    && (s.threads[t].Reload? ==> s.threads[t].my + s.threads[t].want <= |s.fate|)
    && (s.threads[t].Return? ==> s.threads[t].lo <= s.threads[t].hi <= |s.fate|)
  }

  function Decide(s: State, t: Tid, want: nat, my: nat, room: int): State
    requires t < |s.threads| && my + want <= |s.fate|
  {
    var got := Share(want, room);
    Set(s, t, if room > 0 && got == want then Fetch(got) else Return(my + got, my + want, got))
    .(fate := Settle(s.fate, t, my, got, want))
  }

  /** The next step of thread `t` in its call. */
  function Act(s: State, t: Tid): State
    requires CanAct(s, t)
  {
    match s.threads[t]
    case ReadOver(max, tail) => Set(s, t, ReadOpt(max, tail, s.over))
    case ReadOpt(max, tail, over) =>
      var room := tail - (s.opt - over);
      Set(s, t, if room > 0 then Claim(Min(room, max), over) else Idle)
    case Claim(want, over) =>
      Set(s, t, Reload(want, over, s.opt)).(opt := s.opt + want, fate := s.fate + seq(want, i => Undecided(t)))
    case Reload(want, over, my) => Decide(s, t, want, my, s.tail - (my - over))
    case Return(lo, hi, got) =>
      Set(s, t, if got > 0 then Fetch(got) else Idle)
      .(over := s.over + (hi - lo), fate := Fill(s.fate, lo, hi, Returned))
    case Fetch(got) => Set(s, t, Idle).(head := s.head + got)
  }

  function Start(s: State, t: Tid, max: nat): State
    requires t < |s.threads|
  {
    Set(s, t, ReadOver(max, s.tail))
  }

  /** The producer stores a larger tail. */
  predicate Enqueue(s: State, s': State, k: nat) {
    s' == s.(tail := s.tail + k)
  }

  predicate Begin(s: State, s': State, t: Tid, max: nat) {
    t < |s.threads| && s.threads[t].Idle? && s' == Start(s, t, max)
  }

  predicate Acts(s: State, s': State, t: Tid) {
    CanAct(s, t) && s' == Act(s, t)
  }

  ghost predicate Next(s: State, s': State) {
    || (exists k: nat :: Enqueue(s, s', k))
    || (exists t: Tid, max: nat :: Begin(s, s', t, max))
    || (exists t: Tid :: Acts(s, s', t))
  }

  ghost predicate Init(s: State) {
    && s.tail == s.opt == s.over == s.head == 0 && s.fate == []
    && forall t {:trigger s.threads[t]} :: 0 <= t < |s.threads| ==> s.threads[t] == Idle
  }

  // ---------- counting ----------

  /** How many of the first `k` tickets have fate `f`. */
  function Count(fate: seq<Fate>, f: Fate, k: nat): (n: nat)
    requires k <= |fate|
    ensures n <= k
  {
    if k == 0 then 0 else Count(fate, f, k - 1) + (if fate[k - 1] == f then 1 else 0)
  }

  lemma {:induction false} CountSame(fate: seq<Fate>, fate': seq<Fate>, f: Fate, k: nat)
    requires k <= |fate| && k <= |fate'|
    requires forall i {:trigger fate'[i]} :: 0 <= i < k ==> (fate[i] == f <==> fate'[i] == f)
    ensures Count(fate', f, k) == Count(fate, f, k)
  {
    if k > 0 { CountSame(fate, fate', f, k - 1); }
  }

  lemma {:induction false} CountNone(fate: seq<Fate>, f: Fate, lo: nat, k: nat)
    requires lo <= k <= |fate| && forall i {:trigger fate[i]} :: lo <= i < k ==> fate[i] != f
    ensures Count(fate, f, k) == Count(fate, f, lo)
  {
    if lo < k { CountNone(fate, f, lo, k - 1); }
  }

  /** Setting a stretch of tickets that were not `f` to `f` adds its length. */
  lemma {:induction false} CountFill(fate: seq<Fate>, lo: nat, hi: nat, f: Fate, k: nat)
    requires lo <= hi <= |fate| && k <= |fate| && forall i {:trigger fate[i]} :: lo <= i < hi ==> fate[i] != f
    ensures Count(Fill(fate, lo, hi, f), f, k)
         == Count(fate, f, k) + if k <= lo then 0 else if k <= hi then k - lo else hi - lo
  {
    if k > 0 { CountFill(fate, lo, hi, f, k - 1); }
  }

  lemma {:induction false} CountBoth(fate: seq<Fate>, k: nat)
    requires k <= |fate|
    ensures Count(fate, Granted, k) + Count(fate, Returned, k) <= k
  {
    if k > 0 { CountBoth(fate, k - 1); }
  }

  lemma {:induction false} CountMono(fate: seq<Fate>, f: Fate, k: nat, m: nat)
    requires k <= m <= |fate|
    ensures Count(fate, f, k) <= Count(fate, f, m)
  {
    if k < m { CountMono(fate, f, k, m - 1); }
  }

  /** Elements a thread has been granted and not fetched. */
  function Due(x: Thread): nat {
    if x.Return? || x.Fetch? then x.got else 0
  }

  function AllDue(ths: seq<Thread>): nat {
    if ths == [] then 0 else AllDue(ths[..|ths| - 1]) + Due(ths[|ths| - 1])
  }

  lemma {:induction false} DueUpdate(ths: seq<Thread>, t: Tid, x: Thread)
    requires t < |ths|
    ensures AllDue(ths[t := x]) == AllDue(ths) - Due(ths[t]) + Due(x)
  {
    var k := |ths| - 1;
    if t < k {
      DueUpdate(ths[..k], t, x);
      assert ths[t := x][..k] == ths[..k][t := x];
    } else {
      assert ths[t := x][..k] == ths[..k];
    }
  }

  // ---------- the invariant ----------

  /** A granted ticket has at most `tail` tickets up to it that were not given back; any other has the thread it waits
      for. */
  ghost predicate TicketOk(s: State, j: nat)
    requires j < |s.fate|
  {
    match s.fate[j]
    case Undecided(t) =>
      && t < |s.threads| && s.threads[t].Reload?
      && s.threads[t].my <= j < s.threads[t].my + s.threads[t].want
    case Refused(t) => t < |s.threads| && s.threads[t].Return? && s.threads[t].lo <= j < s.threads[t].hi
    case Granted => j + 1 - Count(s.fate, Returned, j + 1) <= s.tail
    case Returned => true
  }

  ghost predicate Stretch(fate: seq<Fate>, lo: nat, hi: nat, f: Fate) {
    lo <= hi <= |fate| && forall i {:trigger fate[i]} :: lo <= i < hi ==> fate[i] == f
  }

  /** The count of given-back claims a thread has read is of claims made before its own. */
  ghost predicate ThreadOk(s: State, t: Tid)
    requires t < |s.threads|
  {
    match s.threads[t]
    case Idle => true
    case ReadOver(_, _) => true
    case ReadOpt(_, _, over) => over <= Count(s.fate, Returned, |s.fate|)
    case Claim(_, over) => over <= Count(s.fate, Returned, |s.fate|)
    case Reload(want, over, my) => Stretch(s.fate, my, my + want, Undecided(t)) && over <= Count(s.fate, Returned, my)
    case Return(lo, hi, _) => Stretch(s.fate, lo, hi, Refused(t))
    case Fetch(_) => true
  }

  ghost predicate Inv(s: State) {
    && s.opt == |s.fate| && s.over == Count(s.fate, Returned, |s.fate|)
    && (forall j {:trigger TicketOk(s, j)} :: 0 <= j < |s.fate| ==> TicketOk(s, j))
    && (forall t {:trigger ThreadOk(s, t)} :: 0 <= t < |s.threads| ==> ThreadOk(s, t))
    && s.head + AllDue(s.threads) == Count(s.fate, Granted, |s.fate|)
  }

  // ---------- every step keeps the invariant ----------

  /** Ticket `j` waits for thread `t`. */
  predicate Mine(s: State, t: Tid, j: nat)
    requires j < |s.fate|
  {
    s.fate[j] == Undecided(t) || s.fate[j] == Refused(t)
  }

  /** A thread outside these two steps has no ticket waiting for it. */
  lemma NotMine(s: State, t: Tid)
    requires Inv(s) && t < |s.threads| && !s.threads[t].Reload? && !s.threads[t].Return?
    ensures forall j {:trigger Mine(s, t, j)} :: 0 <= j < |s.fate| ==> !Mine(s, t, j)
  {
    forall j | 0 <= j < |s.fate| ensures !Mine(s, t, j) { assert TicketOk(s, j); }
  }

  /** Thread `t` alone has moved, and no ticket of another thread has changed. */
  ghost predicate Local(s: State, s': State, t: Tid) {
    && t < |s.threads| && |s'.threads| == |s.threads| && s'.threads == s.threads[t := s'.threads[t]]
    && s'.tail == s.tail && |s.fate| <= |s'.fate|
    && (forall j {:trigger s'.fate[j]} :: 0 <= j < |s.fate| ==>
          s'.fate[j] == s.fate[j] || Mine(s, t, j))
    && (forall k {:trigger Count(s'.fate, Returned, k)} ::
           0 <= k <= |s.fate| ==> Count(s.fate, Returned, k) <= Count(s'.fate, Returned, k))
  }

  lemma OtherThread(s: State, s': State, t: Tid, u: Tid)
    requires Local(s, s', t) && u < |s.threads| && u != t && ThreadOk(s, u)
    ensures ThreadOk(s', u)
  {
    var x := s.threads[u];
    assert s'.threads[u] == x;
    if x.ReadOpt? || x.Claim? { CountMono(s'.fate, Returned, |s.fate|, |s'.fate|); }
  }

  lemma OtherTicket(s: State, s': State, t: Tid, j: nat)
    requires Local(s, s', t) && j < |s.fate| && TicketOk(s, j) && s'.fate[j] == s.fate[j]
    requires !Mine(s, t, j)
    ensures TicketOk(s', j)
  {
  }

  lemma Keeps(s: State, s': State, t: Tid)
    requires Inv(s) && Local(s, s', t) && s'.opt == |s'.fate| && s'.over == Count(s'.fate, Returned, |s'.fate|)
    requires s'.head + AllDue(s'.threads) == Count(s'.fate, Granted, |s'.fate|) && ThreadOk(s', t)
    requires forall j {:trigger TicketOk(s', j)} ::
               0 <= j < |s'.fate| && (j < |s.fate| ==> Mine(s, t, j)) ==> TicketOk(s', j)
    ensures Inv(s')
  {
    forall u | 0 <= u < |s'.threads| ensures ThreadOk(s', u) {
      assert ThreadOk(s, u);
      if u != t { OtherThread(s, s', t, u); }
    }
    forall j | 0 <= j < |s'.fate| ensures TicketOk(s', j) {
      if j < |s.fate| && !Mine(s, t, j) {
        assert TicketOk(s, j);
        OtherTicket(s, s', t, j);
      }
    }
  }

  /** A step that reads, or fetches what was granted. */
  lemma QuietKeeps(s: State, s': State, t: Tid, y: Thread, k: nat)
    requires Inv(s) && t < |s.threads| && !s.threads[t].Reload? && !s.threads[t].Return?
    requires s' == Set(s, t, y).(head := s.head + k) && ThreadOk(s', t) && Due(y) + k == Due(s.threads[t])
    ensures Inv(s')
  {
    DueUpdate(s.threads, t, y);
    NotMine(s, t);
    Keeps(s, s', t);
  }

  lemma ClaimKeeps(s: State, s': State, t: Tid, want: nat, over: nat, y: Thread)
    requires Inv(s) && t < |s.threads| && s.threads[t] == Claim(want, over) && y == Reload(want, over, |s.fate|)
    requires s' == Set(s, t, y).(opt := s.opt + want, fate := s.fate + seq(want, i => Undecided(t)))
    ensures Inv(s')
  {
    assert ThreadOk(s, t);
    DueUpdate(s.threads, t, y);
    forall k | 0 <= k <= |s.fate| ensures Count(s'.fate, Returned, k) == Count(s.fate, Returned, k) {
      CountSame(s.fate, s'.fate, Returned, k);
    }
    CountSame(s.fate, s'.fate, Granted, |s.fate|);
    CountNone(s'.fate, Granted, |s.fate|, |s'.fate|);
    CountNone(s'.fate, Returned, |s.fate|, |s'.fate|);
    NotMine(s, t);
    Keeps(s, s', t);
  }

  /** A ticket granted now lies below the tail once those given back before its claim are taken out. */
  lemma GrantedNow(s: State, x: Thread, t: Tid, j: nat)
    requires t < |s.threads| && x == s.threads[t] && x.Reload? && ThreadOk(s, t) && x.my <= j < |s.fate|
    requires j < x.my + Share(x.want, s.tail - (x.my - x.over))
    ensures j + 1 - Count(s.fate, Returned, j + 1) <= s.tail
  {
    CountMono(s.fate, Returned, x.my, j + 1);
  }

  /** The fates after the decision: as before but for this claim, `got` more granted and none given back. */
  ghost predicate Decided(fate: seq<Fate>, fate': seq<Fate>, t: Tid, my: nat, got: nat, want: nat) {
    && |fate'| == |fate| && my + want <= |fate| && got <= want
    && (forall i {:trigger fate'[i]} :: 0 <= i < |fate| ==>
          fate'[i] == if i < my || my + want <= i then fate[i] else if i < my + got then Granted else Refused(t))
    && (forall k {:trigger Count(fate', Returned, k)} ::
           0 <= k <= |fate| ==> Count(fate', Returned, k) == Count(fate, Returned, k))
    && Count(fate', Granted, |fate|) == Count(fate, Granted, |fate|) + got
  }

  lemma DecidedFates(fate: seq<Fate>, fate': seq<Fate>, t: Tid, my: nat, got: nat, want: nat)
    requires Stretch(fate, my, my + want, Undecided(t)) && got <= want
    requires fate' == Settle(fate, t, my, got, want)
    ensures Decided(fate, fate', t, my, got, want)
  {
    var f1 := Fill(fate, my, my + got, Granted);
    forall k | 0 <= k <= |fate| ensures Count(fate', Returned, k) == Count(fate, Returned, k) {
      CountSame(fate, fate', Returned, k);
    }
    CountFill(fate, my, my + got, Granted, |fate|);
    CountSame(f1, fate', Granted, |fate|);
  }

  lemma DecidedTicket(s: State, s': State, t: Tid, x: Thread, y: Thread, got: nat, j: nat)
    requires t < |s.threads| && x == s.threads[t] && x.Reload? && ThreadOk(s, t)
    requires got == Share(x.want, s.tail - (x.my - x.over))
    requires (y == Fetch(got) && got == x.want) || y == Return(x.my + got, x.my + x.want, got)
    requires Decided(s.fate, s'.fate, t, x.my, got, x.want) && s' == Set(s, t, y).(fate := s'.fate)
    requires j < |s.fate| && TicketOk(s, j) && Mine(s, t, j)
    ensures TicketOk(s', j)
  {
    if j < x.my + got { GrantedNow(s, x, t, j); }
  }

  lemma DecideKeeps(s: State, s': State, t: Tid, x: Thread, y: Thread, got: nat)
    requires Inv(s) && t < |s.threads| && x == s.threads[t] && x.Reload?
    requires got == Share(x.want, s.tail - (x.my - x.over))
    requires (y == Fetch(got) && got == x.want) || y == Return(x.my + got, x.my + x.want, got)
    requires Decided(s.fate, s'.fate, t, x.my, got, x.want) && s' == Set(s, t, y).(fate := s'.fate)
    ensures Inv(s')
  {
    assert ThreadOk(s, t);
    DueUpdate(s.threads, t, y);
    forall j | 0 <= j < |s.fate| && Mine(s, t, j) ensures TicketOk(s', j) {
      assert TicketOk(s, j);
      DecidedTicket(s, s', t, x, y, got, j);
    }
    Keeps(s, s', t);
  }

  lemma ReloadKeeps(s: State, s': State, t: Tid, x: Thread, y: Thread, got: nat, fate': seq<Fate>)
    requires Inv(s) && t < |s.threads| && x == s.threads[t] && x.Reload? && x.my + x.want <= |s.fate|
    requires got == Share(x.want, s.tail - (x.my - x.over))
    requires (y == Fetch(got) && got == x.want) || y == Return(x.my + got, x.my + x.want, got)
    requires fate' == Settle(s.fate, t, x.my, got, x.want)
    requires s' == Set(s, t, y).(fate := fate')
    ensures Inv(s')
  {
    assert ThreadOk(s, t);
    DecidedFates(s.fate, fate', t, x.my, got, x.want);
    DecideKeeps(s, s', t, x, y, got);
  }

  lemma ReturnKeeps(s: State, s': State, t: Tid, x: Thread, y: Thread)
    requires Inv(s) && t < |s.threads| && x == s.threads[t] && x.Return? && x.lo <= x.hi <= |s.fate|
    requires y == (if x.got > 0 then Fetch(x.got) else Idle)
    requires s' == Set(s, t, y).(over := s.over + (x.hi - x.lo), fate := Fill(s.fate, x.lo, x.hi, Returned))
    ensures Inv(s')
  {
    assert ThreadOk(s, t);
    forall k | 0 <= k <= |s.fate| ensures Count(s'.fate, Returned, k) >= Count(s.fate, Returned, k) {
      CountFill(s.fate, x.lo, x.hi, Returned, k);
    }
    CountFill(s.fate, x.lo, x.hi, Returned, |s.fate|);
    CountSame(s.fate, s'.fate, Granted, |s.fate|);
    DueUpdate(s.threads, t, y);
    forall j | 0 <= j < |s.fate| && Mine(s, t, j) ensures TicketOk(s', j) { assert TicketOk(s, j); }
    Keeps(s, s', t);
  }

  lemma ActKeeps(s: State, t: Tid)
    requires Inv(s) && CanAct(s, t)
    ensures Inv(Act(s, t))
  {
    var s' := Act(s, t);
    var x := s.threads[t];
    assert ThreadOk(s, t);
    match x
    case ReadOver(_, _) => QuietKeeps(s, s', t, s'.threads[t], 0);
    case ReadOpt(_, _, _) => QuietKeeps(s, s', t, s'.threads[t], 0);
    case Claim(want, over) => ClaimKeeps(s, s', t, want, over, s'.threads[t]);
    case Reload(want, over, my) =>
      ReloadKeeps(s, s', t, x, s'.threads[t], Share(want, s.tail - (my - over)), s'.fate);
    case Return(_, _, _) => ReturnKeeps(s, s', t, x, s'.threads[t]);
    case Fetch(got) => QuietKeeps(s, s', t, Idle, got);
  }

  lemma EnqueueKeeps(s: State, s': State, k: nat)
    requires Inv(s) && Enqueue(s, s', k)
    ensures Inv(s')
  {
    forall j | 0 <= j < |s'.fate| ensures TicketOk(s', j) { assert TicketOk(s, j); }
    forall t | 0 <= t < |s'.threads| ensures ThreadOk(s', t) { assert ThreadOk(s, t); }
  }

  lemma {:induction false} NothingDue(ths: seq<Thread>)
    requires forall t {:trigger ths[t]} :: 0 <= t < |ths| ==> ths[t] == Idle
    ensures AllDue(ths) == 0
  {
    if ths != [] { NothingDue(ths[..|ths| - 1]); }
  }

  lemma NextKeeps(s: State, s': State)
    requires Inv(s) && Next(s, s')
    ensures Inv(s')
  {
    if k: nat :| Enqueue(s, s', k) { EnqueueKeeps(s, s', k); }
    else if t: Tid, max: nat :| Begin(s, s', t, max) { QuietKeeps(s, s', t, ReadOver(max, s.tail), 0); }
    else {
      var t: Tid :| Acts(s, s', t);
      ActKeeps(s, t);
    }
  }

  ghost predicate IsRun(tr: seq<State>) {
    && |tr| > 0 && Init(tr[0])
    && forall i {:trigger Next(tr[i], tr[i + 1])} :: 0 <= i < |tr| - 1 ==> Next(tr[i], tr[i + 1])
  }

  lemma {:induction false} RunInv(tr: seq<State>, i: nat)
    requires IsRun(tr) && i < |tr|
    ensures Inv(tr[i])
    decreases i
  {
    if i == 0 {
      NothingDue(tr[0].threads);
      forall t | 0 <= t < |tr[0].threads| ensures ThreadOk(tr[0], t) { assert tr[0].threads[t] == Idle; }
    } else {
      var j := i - 1;
      RunInv(tr, j);
      assert Next(tr[j], tr[j + 1]);
      NextKeeps(tr[j], tr[j + 1]);
    }
  }

  // ---------- what every run gives ----------

  lemma {:induction false} GrantedFit(s: State, k: nat)
    requires Inv(s) && k <= |s.fate|
    ensures Count(s.fate, Granted, k) <= s.tail
  {
    if k > 0 {
      if s.fate[k - 1] == Granted {
        assert TicketOk(s, k - 1);
        CountBoth(s.fate, k);
      } else { GrantedFit(s, k - 1); }
    }
  }

  /** In every run the head never passes the tail, not even counting what is granted and not yet fetched. */
  lemma HeadNeverPassesTail(tr: seq<State>, i: nat)
    requires IsRun(tr) && i < |tr|
    ensures 0 <= tr[i].head + AllDue(tr[i].threads) <= tr[i].tail
    ensures tr[i].head <= tr[i].tail
  {
    RunInv(tr, i);
    GrantedFit(tr[i], |tr[i].fate|);
  }

  /** The assertion after the claim: the count of given-back claims read before is at most the thread's own ticket. */
  lemma OvercommitBelowClaim(tr: seq<State>, i: nat, t: Tid)
    requires IsRun(tr) && i < |tr| && t < |tr[i].threads| && tr[i].threads[t].Reload?
    ensures tr[i].threads[t].over <= tr[i].threads[t].my
  {
    RunInv(tr, i);
    assert ThreadOk(tr[i], t);
  }

  lemma {:induction false} AllSettled(fate: seq<Fate>, k: nat)
    requires k <= |fate| && forall j {:trigger fate[j]} :: 0 <= j < k ==> fate[j] == Granted || fate[j] == Returned
    ensures Count(fate, Granted, k) + Count(fate, Returned, k) == k
  {
    if k > 0 { AllSettled(fate, k - 1); }
  }

  ghost predicate AllIdle(s: State) {
    forall t {:trigger s.threads[t]} :: 0 <= t < |s.threads| ==> s.threads[t] == Idle
  }

  /** With no call in progress, what was claimed and not given back is exactly what was fetched. */
  lemma Settled(s: State)
    requires Inv(s) && AllIdle(s)
    ensures s.opt - s.over == s.head <= s.tail
  {
    NothingDue(s.threads);
    forall j | 0 <= j < |s.fate| ensures s.fate[j] == Granted || s.fate[j] == Returned { assert TicketOk(s, j); }
    AllSettled(s.fate, |s.fate|);
    GrantedFit(s, |s.fate|);
  }

  /** A call that nobody interferes with, from its first load to its end. */
  function Alone(s: State, t: Tid, max: nat): State
    requires t < |s.threads| && s.opt == |s.fate|
  {
    var s1 := Act(Start(s, t, max), t);
    var s2 := Act(s1, t);
    if s2.threads[t].Idle? then s2
    else Act(Act(Act(s2, t), t), t)
  }

  /** No element is missed: after any run, a call that nobody interferes with takes as many elements as there are, up to
      its maximum, and all counters settle again. */
  lemma AloneTakesAll(tr: seq<State>, i: nat, s: State, t: Tid, max: nat)
    requires IsRun(tr) && i < |tr| && s == tr[i] && AllIdle(s) && t < |s.threads| && s.opt == |s.fate|
    ensures Alone(s, t, max).head == s.head + Min(max, s.tail - s.head)
    ensures AllIdle(Alone(s, t, max)) && Alone(s, t, max).tail == s.tail
  {
    RunInv(tr, i);
    Settled(s);
  }

  /** Under any interference, a claim gets as much as it can: less than it wants only if the tickets up to
      what it gets, but for those it knows were given back, are as many as the elements there are; and never more than
      that. */
  lemma ClaimTakesAll(s: State, t: Tid, x: Thread)
    requires CanAct(s, t) && x == s.threads[t] && x.Reload?
    ensures var got := Due(Act(s, t).threads[t]);
            && got <= x.want && (got < x.want ==> s.tail <= x.my + got - x.over)
            && (got > 0 ==> x.my + got - x.over <= s.tail)
  {
  }
}
