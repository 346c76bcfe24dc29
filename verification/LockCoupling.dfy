/** The locks of the concurrent tree: what one operation takes it gives back, once, whatever it meets on the way.

    What an operation meets is a value: a `Path` holds what each node it locks turns out to be. Other threads may change
    the tree between any two locks, so every path is possible, and every terminating execution of the recursion has one.
    */
module LockCoupling {
  type Addr = int

  datatype Mode = ReadLock | WriteLock
  datatype Lock = Lock(id: Addr, mode: Mode)

  /** The root has moved, to `now` with a tree of that height, and the operation starts again; or the node is a leaf
      (`fits` tells whether the key can be put there without a split); or the key is left of an inner node's first key;
      or it is in `child` (`full` tells whether the node has room for another child, `lowers` whether the pessimistic
      insert comes here with a key left of the first one, and so lowers that). */
  datatype Path =
    | Moved(now: Addr, height: int, again: Path)
    | AtLeaf(found: bool, fits: bool)
    | LeftOf
    | Down(child: Addr, full: bool, lowers: bool, rest: Path)

  /** Only at the root can the root be found to have moved. */
  predicate Possible(p: Path, cur: Addr, isRoot: bool) {
    match p
    case Moved(now, _, again) => isRoot && now != cur && Possible(again, now, true)
    case AtLeaf(_, _) => true
    case LeftOf => true
    case Down(child, _, _, rest) => Possible(rest, child, false)
  }

  /** No node on the path is its own child. */
  predicate Descends(p: Path, cur: Addr) {
    match p
    case Moved(now, _, again) => Descends(again, now)
    case AtLeaf(_, _) => true
    case LeftOf => true
    case Down(child, _, _, rest) => child != cur && Descends(rest, child)
  }

  /** The pessimistic insert goes on to the first child instead of stopping left of a node. */
  predicate ToLeaf(p: Path) {
    match p
    case Moved(_, _, again) => ToLeaf(again)
    case AtLeaf(_, _) => true
    case LeftOf => false
    case Down(_, _, _, rest) => ToLeaf(rest)
  }

  /** The nodes on the path, from the root it ends up with. */
  function Length(p: Path): (n: nat)
    ensures n >= 1
  {
    match p
    case Moved(_, _, again) => Length(again)
    case AtLeaf(_, _) => 1
    case LeftOf => 1
    case Down(_, _, _, rest) => 1 + Length(rest)
  }

  /** Whether the leaf reached holds the key, whether it has room, and whether a split travels all the way up. */
  predicate Found(p: Path) {
    match p
    case Moved(_, _, again) => Found(again)
    case AtLeaf(found, _) => found
    case LeftOf => false
    case Down(_, _, _, rest) => Found(rest)
  }

  predicate Fits(p: Path) {
    match p
    case Moved(_, _, again) => Fits(again)
    case AtLeaf(_, fits) => fits
    case LeftOf => false
    case Down(_, _, _, rest) => Fits(rest)
  }

  predicate Splits(p: Path) {
    match p
    case Moved(_, _, again) => Splits(again)
    case AtLeaf(_, fits) => !fits
    case LeftOf => false
    case Down(_, full, _, rest) => full && Splits(rest)
  }

  function Max(a: nat, b: nat): nat { if a < b then b else a }

  /** A bag of locks without one of them. */
  function Remove(s: seq<Lock>, l: Lock): (r: seq<Lock>)
    requires l in s
    ensures |r| == |s| - 1 && multiset(s) == multiset(r) + multiset{l}
  {
    var k := |s| - 1;
    assert s == s[..k] + [s[k]];
    if s[k] == l then s[..k] else Remove(s[..k], l) + [s[k]]
  }

  lemma RemoveLast(base: seq<Lock>, l: Lock)
    ensures Remove(base + [l], l) == base
  {
    assert (base + [l])[..|base|] == base;
  }

  lemma RemoveParent(base: seq<Lock>, parent: Lock, l: Lock)
    ensures parent in base + [parent] + [l] && Remove(base + [parent] + [l], parent) == base + [l]
  {
    var s := base + [parent];
    assert (s + [l])[..|s|] == s && parent in s;
    RemoveLast(base, parent);
  }

  // ---------- what an operation does, in order ----------

  /** A lock is taken or given back, or the block of a locked node is read or written. Blocks that an operation has just
      allocated are not counted: nobody can reach them. */
  datatype Act = Took(l: Lock) | Gave(l: Lock) | Reads(l: Lock) | Writes(l: Lock)

  datatype Option<T> = None | Some(value: T)

  function Returns(parent: Option<Lock>): seq<Act> {
    if parent.Some? then [Gave(parent.value)] else []
  }

  /** The lock of a node that is not the root any more is taken. */
  function InVain(l: Lock): seq<Act> {
    [Took(l)] + [Gave(l)]
  }

  /** Its lock is taken, the parent's given back, the node read. */
  function Arrival(l: Lock, parent: Option<Lock>): seq<Act> {
    [Took(l)] + Returns(parent) + [Reads(l)]
  }

  /** Leaving a node, with or without a write. */
  function Departure(l: Lock, writes: bool): seq<Act> {
    if writes then [Writes(l), Gave(l)] else [Gave(l)]
  }

  /** A search comes to node `cur` with the lock of its parent. */
  function SearchActs(p: Path, cur: Addr, parent: Option<Lock>): seq<Act> {
    var l := Lock(cur, ReadLock);
    if p.Moved? then InVain(l) + SearchActs(p.again, p.now, parent)
    else
      Arrival(l, parent)
      + if p.Down? then SearchActs(p.rest, p.child, Some(l)) else Departure(l, false)
  }

  /** The optimistic insert asks for a write lock where it takes the leaf to be. */
  function OptimisticLock(cur: Addr, depth: int): Lock {
    Lock(cur, if depth == 1 then WriteLock else ReadLock)
  }

  function OptimisticActs(p: Path, cur: Addr, depth: int, parent: Option<Lock>): seq<Act> {
    var l := OptimisticLock(cur, depth);
    if p.Moved? then InVain(l) + OptimisticActs(p.again, p.now, p.height, parent)
    else
      Arrival(l, parent)
      + if p.Down? then OptimisticActs(p.rest, p.child, depth - 1, Some(l))
        else Departure(l, p.AtLeaf? && p.fits)
  }

  /** The pessimistic insert keeps all its locks, and writes the nodes it has changed on its way back. */
  function PessimisticActs(p: Path, cur: Addr): seq<Act> {
    var l := Lock(cur, WriteLock);
    match p
    case Moved(now, _, again) => InVain(l) + PessimisticActs(again, now)
    case AtLeaf(_, _) => [Took(l), Reads(l)] + Departure(l, true)
    case LeftOf => [Took(l), Reads(l)] + Departure(l, false)
    case Down(child, _, lowers, rest) =>
      ([Took(l), Reads(l)] + PessimisticActs(rest, child))
      + Departure(l, Splits(rest) || lowers)
  }

  /** For a thread that holds `h` and has last read the node of lock `last`: it gives back only locks it has, reads a
      block under a lock and writes it under a write lock, and while it takes the lock of a node's child it still has
      that of the node. */
  predicate Allowed(x: Act, h: multiset<Lock>, last: Option<Lock>) {
    if x.Took? then last.Some? ==> last.value in h else x.l in h && (x.Writes? ==> x.l.mode == WriteLock)
  }

  function NextHeld(x: Act, h: multiset<Lock>): multiset<Lock> {
    if x.Took? then h + multiset{x.l} else if x.Gave? then h - multiset{x.l} else h
  }

  function NextRead(x: Act, last: Option<Lock>): Option<Lock> {
    if x.Reads? then Some(x.l) else last
  }

  ghost predicate Proper(acts: seq<Act>, h: multiset<Lock>, last: Option<Lock>) {
    acts == [] || (Allowed(acts[0], h, last) && Proper(acts[1..], NextHeld(acts[0], h), NextRead(acts[0], last)))
  }

  /** What the thread holds, and has last read, after that. */
  ghost function Held(acts: seq<Act>, h: multiset<Lock>): multiset<Lock> {
    if acts == [] then h else Held(acts[1..], NextHeld(acts[0], h))
  }

  ghost function LastRead(acts: seq<Act>, last: Option<Lock>): Option<Lock> {
    if acts == [] then last else LastRead(acts[1..], NextRead(acts[0], last))
  }

  lemma {:induction false} ProperCat(a: seq<Act>, b: seq<Act>, h: multiset<Lock>, last: Option<Lock>)
    ensures Proper(a + b, h, last) <==> Proper(a, h, last) && Proper(b, Held(a, h), LastRead(a, last))
    ensures Held(a + b, h) == Held(b, Held(a, h)) && LastRead(a + b, last) == LastRead(b, LastRead(a, last))
  {
    if a == [] { assert a + b == b; }
    else {
      assert (a + b)[1..] == a[1..] + b;
      ProperCat(a[1..], b, NextHeld(a[0], h), NextRead(a[0], last));
    }
  }

  lemma ProperOne(x: Act, h: multiset<Lock>, last: Option<Lock>)
    ensures Proper([x], h, last) <==> Allowed(x, h, last)
    ensures Held([x], h) == NextHeld(x, h) && LastRead([x], last) == NextRead(x, last)
  {
    assert [x][1..] == [];
  }

  lemma Composed(a: seq<Act>, b: seq<Act>, h: multiset<Lock>, last: Option<Lock>, h1: multiset<Lock>,
        last1: Option<Lock>)
    requires Proper(a, h, last) && Held(a, h) == h1 && LastRead(a, last) == last1
    ensures (Proper(a + b, h, last) <==> Proper(b, h1, last1)) && Held(a + b, h) == Held(b, h1)
    ensures LastRead(a + b, last) == LastRead(b, last1)
  {
    ProperCat(a, b, h, last);
  }

  /** What is left of `h` without the parent's lock. */
  function Without(h: multiset<Lock>, parent: Option<Lock>): multiset<Lock> {
    if parent.Some? then h - multiset{parent.value} else h
  }

  lemma Arrives(l: Lock, parent: Option<Lock>, h: multiset<Lock>, h1: multiset<Lock>)
    requires (parent.Some? ==> parent.value in h) && h1 == Without(h, parent) + multiset{l}
    ensures Proper(Arrival(l, parent), h, parent) && LastRead(Arrival(l, parent), parent) == Some(l)
    ensures Held(Arrival(l, parent), h) == h1 && l in h1 && h1 - multiset{l} == Without(h, parent)
  {
    HandsOver(l, parent, h, h1);
    ProperOne(Reads(l), h1, parent);
    Composed([Took(l)] + Returns(parent), [Reads(l)], h, parent, h1, parent);
  }

  lemma HandsOver(l: Lock, parent: Option<Lock>, h: multiset<Lock>, h1: multiset<Lock>)
    requires (parent.Some? ==> parent.value in h) && h1 == Without(h, parent) + multiset{l}
    ensures var a := [Took(l)] + Returns(parent);
            Proper(a, h, parent) && Held(a, h) == h1 && LastRead(a, parent) == parent
  {
    ProperOne(Took(l), h, parent);
    Composed([Took(l)], Returns(parent), h, parent, h + multiset{l}, parent);
    if parent.Some? {
      ProperOne(Gave(parent.value), h + multiset{l}, parent);
      Swap(h, parent.value, l);
    }
  }

  lemma Swap(h: multiset<Lock>, k: Lock, l: Lock)
    requires k in h
    ensures (h + multiset{l}) - multiset{k} == (h - multiset{k}) + multiset{l}
  {
  }

  lemma Restarts(l: Lock, h: multiset<Lock>)
    ensures Proper(InVain(l), h, None) && Held(InVain(l), h) == h
    ensures LastRead(InVain(l), None) == None
  {
    ProperCat([Took(l)], [Gave(l)], h, None);
    ProperOne(Took(l), h, None);
    ProperOne(Gave(l), h + multiset{l}, None);
  }

  lemma Leaves(l: Lock, h: multiset<Lock>, last: Option<Lock>, writes: bool)
    requires l in h
    ensures Proper(Departure(l, writes), h, last) <==> !writes || l.mode == WriteLock
    ensures Held(Departure(l, writes), h) == h - multiset{l}
  {
    ProperOne(Gave(l), h, last);
    if writes {
      assert Departure(l, writes) == [Writes(l)] + [Gave(l)];
      ProperCat([Writes(l)], [Gave(l)], h, last);
      ProperOne(Writes(l), h, last);
    }
  }

  /** A search is proper and ends with no lock more than it came with. */
  lemma {:induction false} SearchIsProper(p: Path, cur: Addr, isRoot: bool, parent: Option<Lock>, h: multiset<Lock>)
    requires Possible(p, cur, isRoot) && (isRoot ==> parent == None) && (parent.Some? ==> parent.value in h)
    ensures Proper(SearchActs(p, cur, parent), h, parent)
    ensures Held(SearchActs(p, cur, parent), h) == Without(h, parent)
    decreases p
  {
    var l := Lock(cur, ReadLock);
    if p.Moved? {
      Restarts(l, h);
      SearchIsProper(p.again, p.now, true, parent, h);
      Composed(InVain(l), SearchActs(p.again, p.now, parent), h, parent, h, None);
    } else {
      var h1 := Without(h, parent) + multiset{l};
      Arrives(l, parent, h, h1);
      if p.Down? {
        SearchIsProper(p.rest, p.child, false, Some(l), h1);
        Composed(Arrival(l, parent), SearchActs(p.rest, p.child, Some(l)), h, parent, h1, Some(l));
      } else {
        Leaves(l, h1, Some(l), false);
        Composed(Arrival(l, parent), Departure(l, false), h, parent, h1, Some(l));
      }
    }
  }

  /** The height the optimistic insert was told with the root it ends up with. */
  function LastHeight(p: Path, height: int): int {
    if p.Moved? then LastHeight(p.again, p.height) else height
  }

  /** The optimistic insert is proper if and only if it writes nothing or the height it was told is that of its path:
      otherwise it writes the leaf under a read lock. */
  lemma {:induction false} OptimisticIsProper(p: Path, cur: Addr, depth: int, isRoot: bool, parent: Option<Lock>,
        h: multiset<Lock>)
    requires Possible(p, cur, isRoot) && (isRoot ==> parent == None) && (parent.Some? ==> parent.value in h)
    ensures Proper(OptimisticActs(p, cur, depth, parent), h, parent) <==> !Fits(p) || LastHeight(p, depth) == Length(p)
    ensures Held(OptimisticActs(p, cur, depth, parent), h) == Without(h, parent)
    decreases p
  {
    var l := OptimisticLock(cur, depth);
    if p.Moved? {
      Restarts(l, h);
      OptimisticIsProper(p.again, p.now, p.height, true, parent, h);
      Composed(InVain(l), OptimisticActs(p.again, p.now, p.height, parent), h, parent, h, None);
    } else {
      var h1 := Without(h, parent) + multiset{l};
      Arrives(l, parent, h, h1);
      if p.Down? {
        OptimisticIsProper(p.rest, p.child, depth - 1, false, Some(l), h1);
        Composed(Arrival(l, parent), OptimisticActs(p.rest, p.child, depth - 1, Some(l)), h, parent, h1, Some(l));
      } else {
        var writes := p.AtLeaf? && p.fits;
        Leaves(l, h1, Some(l), writes);
        Composed(Arrival(l, parent), Departure(l, writes), h, parent, h1, Some(l));
      }
    }
  }

  /** The height and the root are read one after the other. If the height is read first and the root split in between,
      the height is that of the old tree: then the leaf is written under a read lock. */
  lemma StaleHeight(leaf: Addr, root: Addr)
    ensures var p := Down(leaf, false, false, AtLeaf(false, true));
            && Length(p) == 2 && Possible(p, root, true) && Fits(p)
            && Writes(Lock(leaf, ReadLock)) in OptimisticActs(p, root, 1, None)
            && !Proper(OptimisticActs(p, root, 1, None), multiset{}, None)
  {
    var p := Down(leaf, false, false, AtLeaf(false, true));
    OptimisticIsProper(p, root, 1, true, None, multiset{});
    var l, k := Lock(root, WriteLock), Lock(leaf, ReadLock);
    var a, b := Arrival(l, None), Arrival(k, Some(l)) + Departure(k, true);
    assert OptimisticActs(AtLeaf(false, true), leaf, 0, Some(l)) == b;
    assert OptimisticActs(p, root, 1, None) == a + b && b[3] == Writes(k);
    assert (a + b)[|a| + 3] == Writes(k);
  }

  /** The pessimistic insert is proper: what it writes it holds for writing. */
  lemma {:induction false} PessimisticIsProper(p: Path, cur: Addr, isRoot: bool, last: Option<Lock>, h: multiset<Lock>)
    requires Possible(p, cur, isRoot) && ToLeaf(p) && (isRoot ==> last == None) && (last.Some? ==> last.value in h)
    ensures Proper(PessimisticActs(p, cur), h, last) && Held(PessimisticActs(p, cur), h) == h
    decreases p
  {
    var l := Lock(cur, WriteLock);
    if p.Moved? {
      Restarts(l, h);
      PessimisticIsProper(p.again, p.now, true, last, h);
      Composed(InVain(l), PessimisticActs(p.again, p.now), h, last, h, None);
    } else if p.Down? {
      PessimisticIsProper(p.rest, p.child, false, Some(l), h + multiset{l});
      Encloses(l, PessimisticActs(p.rest, p.child), Splits(p.rest) || p.lowers, h, last);
    } else {
      Enters(l, h, last);
      Leaves(l, h + multiset{l}, Some(l), true);
      Composed([Took(l), Reads(l)], Departure(l, true), h, last, h + multiset{l}, Some(l));
    }
  }

  /** What is proper under the lock of a node is proper between taking and giving back that lock. */
  lemma Encloses(l: Lock, m: seq<Act>, writes: bool, h: multiset<Lock>, last: Option<Lock>)
    requires l.mode == WriteLock && (last.Some? ==> last.value in h)
    requires Proper(m, h + multiset{l}, Some(l)) && Held(m, h + multiset{l}) == h + multiset{l}
    ensures var acts := ([Took(l), Reads(l)] + m) + Departure(l, writes); Proper(acts, h, last) && Held(acts, h) == h
  {
    var a, h1 := [Took(l), Reads(l)], h + multiset{l};
    Enters(l, h, last);
    Composed(a, m, h, last, h1, Some(l));
    Leaves(l, h1, LastRead(a + m, last), writes);
    Composed(a + m, Departure(l, writes), h, last, h1, LastRead(a + m, last));
  }

  lemma Enters(l: Lock, h: multiset<Lock>, last: Option<Lock>)
    requires last.Some? ==> last.value in h
    ensures var a := [Took(l), Reads(l)];
            Proper(a, h, last) && LastRead(a, last) == Some(l) && Held(a, h) == h + multiset{l}
  {
    assert [Took(l), Reads(l)] == [Took(l)] + [Reads(l)];
    ProperCat([Took(l)], [Reads(l)], h, last);
    ProperOne(Took(l), h, last);
    ProperOne(Reads(l), h + multiset{l}, last);
  }

  function ParentOf(obtained: seq<Lock>): Option<Lock> {
    if obtained == [] then None else Some(obtained[|obtained| - 1])
  }

  lemma Two<T>(a: seq<T>, b: seq<T>, c: seq<T>)
    ensures a + b + c == a + (b + c)
  {
  }

  lemma Four<T>(a: seq<T>, b: seq<T>, c: seq<T>, d: seq<T>)
    ensures a + b + c + d == a + (b + c + d)
  {
  }

  lemma Three<T>(a: seq<T>, b: seq<T>, c: seq<T>, d: seq<T>)
    ensures a + b + c + d == a + ((b + c) + d)
  {
  }

  class LockManager {
    /** The locks this thread has, the most it ever had at once, and all it has done. */
    var held: seq<Lock>
    ghost var most: nat
    ghost var acts: seq<Act>

    method Acquire(id: Addr, mode: Mode) returns (l: Lock)
      modifies this
      ensures l == Lock(id, mode) && held == old(held) + [l] && most == Max(old(most), |held|)
      ensures acts == old(acts) + [Took(l)]
    {
      l := Lock(id, mode);
      held := held + [l];
      most := Max(most, |held|);
      acts := acts + [Took(l)];
    }

    /** The block of a locked node is read, or written. */
    method Touch(l: Lock, write: bool)
      requires l in held
      modifies this`acts
      ensures acts == old(acts) + [if write then Writes(l) else Reads(l)]
    {
      acts := acts + [if write then Writes(l) else Reads(l)];
    }

    /** A lock may be released only by whoever has it. */
    method Release(l: Lock)
      requires l in held
      modifies this`held, this`acts
      ensures held == Remove(old(held), l) && acts == old(acts) + [Gave(l)]
    {
      held := Remove(held, l);
      acts := acts + [Gave(l)];
    }

    /** Release the lock taken last. */
    method ReleaseLast(l: Lock, ghost rest: seq<Lock>)
      requires held == rest + [l]
      modifies this`held, this`acts
      ensures held == rest && acts == old(acts) + [Gave(l)]
    {
      RemoveLast(rest, l);
      Release(l);
    }

    /** Take the lock of a node with that of its parent, if any, in hand. */
    method Come(obtained: seq<Lock>, cur: Addr, mode: Mode, ghost base: seq<Lock>) returns (l: Lock)
      requires held == base + obtained && |obtained| <= 1
      modifies this
      ensures l == Lock(cur, mode) && held == base + obtained + [l] && acts == old(acts) + [Took(l)]
      ensures most <= Max(old(most), |base| + 2)
    {
      l := Acquire(cur, mode);
    }

    /** The parent's lock is given back and the node read. */
    method Settle(obtained: seq<Lock>, l: Lock, ghost base: seq<Lock>, ghost acts0: seq<Act>) returns (locks: seq<Lock>)
      requires held == base + obtained + [l] && |obtained| <= 1 && acts == acts0 + [Took(l)]
      modifies this`held, this`acts
      ensures locks == [l] && held == base + [l] && acts == acts0 + Arrival(l, ParentOf(obtained))
    {
      locks := HandOver(obtained, l, base);
      Touch(l, false);
      Four(acts0, [Took(l)], Returns(ParentOf(obtained)), [Reads(l)]);
    }

    /** The node is left, written or not. */
    method Depart(l: Lock, writes: bool, ghost rest: seq<Lock>, ghost acts0: seq<Act>, ghost here: seq<Act>)
      requires held == rest + [l] && acts == acts0 + here
      modifies this`held, this`acts
      ensures held == rest && acts == acts0 + (here + Departure(l, writes))
    {
      if writes { Touch(l, true); }
      ReleaseLast(l, rest);
      assert acts == (acts0 + here) + Departure(l, writes);
      Two(acts0, here, Departure(l, writes));
    }

    /** The lock of a node is taken before that of its parent is given back; at the end no lock is left. */
    method Search(obtained: seq<Lock>, p: Path, cur: Addr, isRoot: bool, ghost base: seq<Lock>)
        returns (locks: seq<Lock>, found: bool)
      requires held == base + obtained && |obtained| <= 1 && (isRoot ==> obtained == []) && Possible(p, cur, isRoot)
      modifies this
      ensures locks == [] && held == base && most <= Max(old(most), |base| + 2)
      ensures found == Found(p) && acts == old(acts) + SearchActs(p, cur, ParentOf(obtained))
      decreases p
    {
      locks := obtained;
      ghost var acts0 := acts;
      var l := Come(locks, cur, ReadLock, base);
      if p.Moved? {
        assert base + obtained == base;
        ReleaseLast(l, base);
        locks, found := Search(locks, p.again, p.now, true, base);
        Three(acts0, [Took(l)], [Gave(l)], SearchActs(p.again, p.now, None));
        return;
      }
      locks := Settle(locks, l, base, acts0);
      ghost var here := Arrival(l, ParentOf(obtained));
      match p {
        case AtLeaf(hit, _) =>
          found := hit;
          Depart(l, false, base, acts0, here);
          locks := locks[..|locks| - 1];
        case LeftOf =>
          Depart(l, false, base, acts0, here);
          locks, found := locks[..|locks| - 1], false;
        case Down(child, _, _, rest) =>
          locks, found := Search(locks, rest, child, false, base);
          locks := ReleaseOwn(locks, cur, base);
          Two(acts0, here, SearchActs(rest, child, Some(l)));
      }
    }

    /** Give back the parent's lock, if there is one, and keep the new one. */
    method HandOver(obtained: seq<Lock>, l: Lock, ghost base: seq<Lock>) returns (locks: seq<Lock>)
      requires held == base + obtained + [l] && |obtained| <= 1
      modifies this`held, this`acts
      ensures locks == [l] && held == base + [l] && acts == old(acts) + Returns(ParentOf(obtained))
    {
      locks := obtained;
      if |locks| > 0 {
        var parent := locks[|locks| - 1];
        assert obtained == [parent];
        RemoveParent(base, parent, l);
        locks := locks[..|locks| - 1];
        Release(parent);
      }
      locks := locks + [l];
    }

    /** Give back the lock of node `cur` if it is the last one taken. */
    method ReleaseOwn(obtained: seq<Lock>, cur: Addr, ghost base: seq<Lock>) returns (locks: seq<Lock>)
      requires held == base + obtained
      modifies this`held, this`acts
      ensures locks == if obtained != [] && obtained[|obtained| - 1].id == cur then obtained[..|obtained| - 1]
                else obtained
      ensures held == base + locks
      ensures acts == if |locks| == |obtained| then old(acts) else old(acts) + [Gave(obtained[|obtained| - 1])]
    {
      locks := obtained;
      if |locks| > 0 && cur == locks[|locks| - 1].id {
        var l := locks[|locks| - 1];
        locks := locks[..|locks| - 1];
        assert held == (base + locks) + [l];
        RemoveLast(base + locks, l);
        Release(l);
      }
    }

    /** The same, of the only lock. */
    method LeaveOnly(l: Lock, ghost base: seq<Lock>, ghost acts0: seq<Act>, ghost here: seq<Act>)
        returns (locks: seq<Lock>)
      requires held == base + [l] && acts == acts0 + here
      modifies this`held, this`acts
      ensures locks == [] && held == base && acts == acts0 + (here + Departure(l, false))
    {
      locks := ReleaseOwn([l], l.id, base);
      assert base + locks == base;
      Two(acts0, here, [Gave(l)]);
    }

    /** A node that took in the split of its child, or split, gives back its lock at once; then the test for its own
        lock finds its parent's. */
    method Leave(obtained: seq<Lock>, cur: Addr, childSplit: bool, ghost base: seq<Lock>) returns (locks: seq<Lock>)
      requires held == base + obtained && obtained != [] && obtained[|obtained| - 1].id == cur
      requires |obtained| > 1 ==> obtained[|obtained| - 2].id != cur
      modifies this`held, this`acts
      ensures locks == obtained[..|obtained| - 1] && held == base + locks
      ensures acts == old(acts) + [Gave(obtained[|obtained| - 1])]
    {
      locks := obtained;
      if childSplit {
        var self := locks[|locks| - 1];
        locks := locks[..|locks| - 1];
        assert held == (base + locks) + [self];
        RemoveLast(base + locks, self);
        Release(self);
      }
      locks := ReleaseOwn(locks, cur, base);
    }

    /** As for a search, but for a write lock on what should be the leaf. Nothing is done unless the leaf has room. */
    method InsertOptimistic(obtained: seq<Lock>, p: Path, cur: Addr, depth: int, isRoot: bool, ghost base: seq<Lock>)
      returns (locks: seq<Lock>, done: bool)
      requires held == base + obtained && |obtained| <= 1 && (isRoot ==> obtained == []) && Possible(p, cur, isRoot)
      modifies this
      ensures locks == [] && held == base && most <= Max(old(most), |base| + 2)
      ensures done == Fits(p) && acts == old(acts) + OptimisticActs(p, cur, depth, ParentOf(obtained))
      decreases p
    {
      locks := obtained;
      ghost var acts0 := acts;
      var l := Come(locks, cur, if depth == 1 then WriteLock else ReadLock, base);
      assert l == OptimisticLock(cur, depth);
      if p.Moved? {
        assert base + obtained == base;
        ReleaseLast(l, base);
        locks, done := InsertOptimistic(locks, p.again, p.now, p.height, true, base);
        Three(acts0, [Took(l)], [Gave(l)], OptimisticActs(p.again, p.now, p.height, None));
        return;
      }
      locks := Settle(locks, l, base, acts0);
      ghost var here := Arrival(l, ParentOf(obtained));
      match p {
        case AtLeaf(_, fits) =>
          done := fits;
          Depart(l, fits, base, acts0, here);
          locks := locks[..|locks| - 1];
        case LeftOf =>
          done := false;
          locks := LeaveOnly(l, base, acts0, here);
        case Down(child, _, _, rest) =>
          locks, done := InsertOptimistic(locks, rest, child, depth - 1, false, base);
          locks := ReleaseOwn(locks, cur, base);
          Two(acts0, here, OptimisticActs(rest, child, depth - 1, Some(l)));
      }
    }

    /** Locks pile up on the way down and each node gives back its own on the way up: a node that took in a split, or
        split, has done so already and must not take its parent's lock for its own. */
    method InsertPessimistic(obtained: seq<Lock>, p: Path, cur: Addr, isRoot: bool, ghost base: seq<Lock>)
      returns (locks: seq<Lock>, isSplit: bool)
      requires held == base + obtained && Possible(p, cur, isRoot) && Descends(p, cur) && ToLeaf(p)
      requires obtained != [] ==> obtained[|obtained| - 1].id != cur
      requires isRoot ==> obtained == []
      modifies this
      ensures locks == obtained && held == base + obtained && most <= Max(old(most), |base| + |obtained| + Length(p))
      ensures isSplit == Splits(p) && acts == old(acts) + PessimisticActs(p, cur)
      decreases p
    {
      locks := obtained;
      ghost var acts0 := acts;
      var l := Acquire(cur, WriteLock);
      if p.Moved? {
        ReleaseLast(l, base + obtained);
        locks, isSplit := InsertPessimistic(locks, p.again, p.now, true, base);
        Three(acts0, [Took(l)], [Gave(l)], PessimisticActs(p.again, p.now));
        return;
      }
      Touch(l, false);
      locks := locks + [l];
      ghost var here := [Took(l), Reads(l)];
      assert locks[..|locks| - 1] == obtained && held == base + locks && acts == acts0 + here;
      match p {
        case AtLeaf(_, fits) =>
          isSplit := !fits;
          Depart(l, true, base + obtained, acts0, here);
          locks := locks[..|locks| - 1];
        case Down(child, full, lowers, rest) =>
          locks, isSplit := InsertPessimistic(locks, rest, child, false, base);
          Two(acts0, here, PessimisticActs(rest, child));
          locks := Climb(locks, cur, l, isSplit, lowers, base, acts0, here + PessimisticActs(rest, child));
          isSplit := isSplit && full;
      }
    }

    /** Back at a node after its child: it is written if it has changed, and its lock given back. */
    method Climb(obtained: seq<Lock>, cur: Addr, l: Lock, childSplit: bool, lowers: bool, ghost base: seq<Lock>,
          ghost acts0: seq<Act>, ghost here: seq<Act>) returns (locks: seq<Lock>)
      requires held == base + obtained && obtained != [] && obtained[|obtained| - 1] == l && l.id == cur
      requires |obtained| > 1 ==> obtained[|obtained| - 2].id != cur
      requires acts == acts0 + here
      modifies this`held, this`acts
      ensures locks == obtained[..|obtained| - 1] && held == base + locks
      ensures acts == acts0 + (here + Departure(l, childSplit || lowers))
    {
      assert held[|held| - 1] == l;
      if childSplit || lowers { Touch(l, true); }
      locks := Leave(obtained, cur, childSplit, base);
      assert acts == (acts0 + here) + Departure(l, childSplit || lowers);
      Two(acts0, here, Departure(l, childSplit || lowers));
    }
  }

  /** A search by itself: every lock it took is given back, and it never has more than two. */
  method ConcurrentSearch(manager: LockManager, p: Path, root: Addr) returns (found: bool)
    requires Possible(p, root, true) && manager.held == []
    modifies manager
    ensures manager.held == [] && manager.most <= Max(old(manager.most), 2) && found == Found(p)
    ensures manager.acts == old(manager.acts) + SearchActs(p, root, None)
  {
    var obtained: seq<Lock>;
    obtained, found := manager.Search([], p, root, true, []);
    assert |obtained| == 0;
  }

  /** An insert by itself: first as a search would; then, if the leaf was full or the key left of a node, with a lock on
      every node of its path at once. */
  method ConcurrentInsert(manager: LockManager, p: Path, root: Addr, height: int, q: Path, rootThen: Addr)
      returns (again: bool)
    requires Possible(p, root, true) && Possible(q, rootThen, true) && Descends(q, rootThen)
    requires ToLeaf(q) && manager.held == []
    modifies manager
    ensures manager.held == [] && again == !Fits(p)
    ensures manager.most <= Max(old(manager.most), if again then Max(2, Length(q)) else 2)
    ensures manager.acts == old(manager.acts) + OptimisticActs(p, root, height, None)
                            + if again then PessimisticActs(q, rootThen) else []
  {
    var obtained, done := manager.InsertOptimistic([], p, root, height, true, []);
    again := !done;
    if again {
      assert |obtained| == 0;
      var isSplit: bool;
      obtained, isSplit := manager.InsertPessimistic(obtained, q, rootThen, true, []);
      assert |obtained| == 0;
    }
  }
}
