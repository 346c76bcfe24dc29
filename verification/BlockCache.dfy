/** The block cache: a list of units, most recently used first, and a map from block address to unit.

    Buffers are cells of `mem`, named by their index, so a unit holds a pointer and a block given out by `evict_unit` is
    still the one the caller reads. A list iterator in the map is the unit it points at: units do not change while they
    are on the list. */
module BlockCache {
  newtype byte = x: int | 0 <= x < 256
  type Block = seq<byte>
  type Addr = nat
  type Ptr = nat

  datatype Option<T> = None | Some(value: T)

  datatype Unit = Unit(id: Addr, dirty: bool, data: Ptr)

  // ---------- the list ----------

  function Ids(key: seq<Unit>): (r: seq<Addr>)
    ensures |r| == |key| && forall i {:trigger r[i]} {:trigger key[i]} :: 0 <= i < |key| ==> r[i] == key[i].id
  {
    if key == [] then [] else [key[0].id] + Ids(key[1..])
  }

  function IndexOf(key: seq<Unit>, u: Unit): (i: nat)
    requires u in key
    ensures i < |key| && key[i] == u
  {
    if key[0] == u then 0 else 1 + IndexOf(key[1..], u)
  }

  /** `splice` of position `i` to the beginning. */
  function ToFront(key: seq<Unit>, i: nat): (r: seq<Unit>)
    requires i < |key|
    ensures |r| == |key|
  {
    [key[i]] + key[..i] + key[i + 1..]
  }

  ghost predicate Listed(key: seq<Unit>, cache: map<Addr, Unit>, i: nat)
    requires i < |key|
  {
    key[i].id in cache && cache[key[i].id] == key[i]
  }

  ghost predicate Mapped(key: seq<Unit>, cache: map<Addr, Unit>, a: Addr) {
    a in cache ==> cache[a] in key && cache[a].id == a
  }

  ghost predicate Apart(key: seq<Unit>, i: nat, j: nat)
    requires i < |key| && j < |key|
  {
    key[i].id != key[j].id
  }

  /** The map and the list agree: each unit of the list is found under its address, and there is nothing else. */
  ghost predicate Agree(key: seq<Unit>, cache: map<Addr, Unit>) {
    && (forall i {:trigger Listed(key, cache, i)} :: 0 <= i < |key| ==> Listed(key, cache, i))
    && (forall a {:trigger Mapped(key, cache, a)} :: Mapped(key, cache, a))
    && (forall i, j {:trigger Apart(key, i, j)} :: 0 <= i < j < |key| ==> Apart(key, i, j))
  }

  /** Where a buffer is: in the unit of an address, in the free pool, or with the caller. */
  datatype Home = InUnit(a: Addr) | InPool(i: nat) | WithCaller

  ghost predicate HomeOk(cache: map<Addr, Unit>, free: seq<Ptr>, out: Option<Ptr>, home: seq<Home>, p: Ptr)
    requires p < |home|
  {
    match home[p]
    case InUnit(a) => a in cache && cache[a].data == p
    case InPool(i) => i < |free| && free[i] == p
    case WithCaller => out == Some(p)
  }

  ghost predicate Holds(cache: map<Addr, Unit>, home: seq<Home>, a: Addr) {
    a in cache ==> cache[a].data < |home| && home[cache[a].data] == InUnit(a)
  }

  ghost predicate Pooled(free: seq<Ptr>, home: seq<Home>, i: nat)
    requires i < |free|
  {
    free[i] < |home| && home[free[i]] == InPool(i)
  }

  /** Every buffer ever allocated is in exactly one place. */
  ghost predicate Tidy(cache: map<Addr, Unit>, free: seq<Ptr>, out: Option<Ptr>, home: seq<Home>) {
    && (forall p {:trigger HomeOk(cache, free, out, home, p)} :: 0 <= p < |home| ==> HomeOk(cache, free, out, home, p))
    && (forall a {:trigger Holds(cache, home, a)} :: Holds(cache, home, a))
    && (forall i {:trigger Pooled(free, home, i)} :: 0 <= i < |free| ==> Pooled(free, home, i))
    && (out.Some? ==> out.value < |home| && home[out.value] == WithCaller)
  }

  /** Where the unit at position `j` comes from, and where it goes. */
  function From(i: nat, j: nat): nat { if j == 0 then i else if j <= i then j - 1 else j }

  function Goes(i: nat, j: nat): nat { if j == i then 0 else if j < i then j + 1 else j }

  lemma ToFrontAt(key: seq<Unit>, i: nat, j: nat)
    requires i < |key| && j < |key|
    ensures ToFront(key, i)[j] == key[From(i, j)] && ToFront(key, i)[Goes(i, j)] == key[j]
  {
  }

  lemma ToFrontAgrees(key: seq<Unit>, i: nat, key': seq<Unit>, cache: map<Addr, Unit>)
    requires Agree(key, cache) && i < |key| && key' == ToFront(key, i)
    ensures Agree(key', cache)
  {
    forall j | 0 <= j < |key'| ensures Listed(key', cache, j) {
      ToFrontAt(key, i, j);
      assert Listed(key, cache, From(i, j));
    }
    forall a ensures Mapped(key', cache, a) {
      assert Mapped(key, cache, a);
      if a in cache {
        var j := IndexOf(key, cache[a]);
        ToFrontAt(key, i, j);
        assert key'[Goes(i, j)] == cache[a];
      }
    }
    forall j, k | 0 <= j < k < |key'| ensures Apart(key', j, k) {
      ToFrontAt(key, i, j);
      ToFrontAt(key, i, k);
      assert if From(i, j) < From(i, k) then Apart(key, From(i, j), From(i, k)) else Apart(key, From(i, k), From(i, j));
    }
  }

  lemma Allocated(cache: map<Addr, Unit>, free: seq<Ptr>, home: seq<Home>, i: nat, p: Ptr)
    requires Tidy(cache, free, None, home) && |free| == i + 1 && p == free[i]
    ensures p < |home| && Tidy(cache, free[..i], Some(p), home[p := WithCaller])
  {
    assert Pooled(free, home, i);
    var free', home' := free[..i], home[p := WithCaller];
    forall q | 0 <= q < |home'| ensures HomeOk(cache, free', Some(p), home', q) {
      assert HomeOk(cache, free, None, home, q);
    }
    forall a ensures Holds(cache, home', a) { assert Holds(cache, home, a); }
    forall k | 0 <= k < |free'| ensures Pooled(free', home', k) { assert Pooled(free, home, k); }
  }

  lemma Grown(cache: map<Addr, Unit>, free: seq<Ptr>, home: seq<Home>)
    requires Tidy(cache, free, None, home)
    ensures Tidy(cache, free, Some(|home|), home + [WithCaller])
  {
    var home' := home + [WithCaller];
    forall q | 0 <= q < |home'| ensures HomeOk(cache, free, Some(|home|), home', q) {
      if q < |home| { assert HomeOk(cache, free, None, home, q); }
    }
    forall a ensures Holds(cache, home', a) { assert Holds(cache, home, a); }
    forall k | 0 <= k < |free| ensures Pooled(free, home', k) { assert Pooled(free, home, k); }
  }

  lemma Freed(cache: map<Addr, Unit>, free: seq<Ptr>, home: seq<Home>, p: Ptr)
    requires Tidy(cache, free, Some(p), home)
    ensures Tidy(cache, free + [p], None, home[p := InPool(|free|)])
  {
    var free', home' := free + [p], home[p := InPool(|free|)];
    forall q | 0 <= q < |home'| ensures HomeOk(cache, free', None, home', q) {
      assert HomeOk(cache, free, Some(p), home, q);
    }
    forall a ensures Holds(cache, home', a) { assert Holds(cache, home, a); }
    forall k | 0 <= k < |free'| ensures Pooled(free', home', k) {
      if k < |free| { assert Pooled(free, home, k); }
    }
  }

  /** A new unit at the front takes the buffer the caller has. */
  lemma Inserted(key: seq<Unit>, cache: map<Addr, Unit>, free: seq<Ptr>, home: seq<Home>, u: Unit)
    requires Agree(key, cache) && Tidy(cache, free, Some(u.data), home) && u.id !in cache
    ensures Agree([u] + key, cache[u.id := u]) && Tidy(cache[u.id := u], free, None, home[u.data := InUnit(u.id)])
  {
    var key', cache', home' := [u] + key, cache[u.id := u], home[u.data := InUnit(u.id)];
    forall q | 0 <= q < |home'| ensures HomeOk(cache', free, None, home', q) {
      assert HomeOk(cache, free, Some(u.data), home, q);
    }
    forall a ensures Holds(cache', home', a) && Mapped(key', cache', a) {
      assert Holds(cache, home, a) && Mapped(key, cache, a);
      if a in cache { assert key'[IndexOf(key, cache[a]) + 1] == cache[a]; }
    }
    forall k | 0 <= k < |free| ensures Pooled(free, home', k) { assert Pooled(free, home, k); }
    forall j | 0 <= j < |key'| ensures Listed(key', cache', j) {
      if j > 0 { assert Listed(key, cache, j - 1); }
    }
    forall j, k | 0 <= j < k < |key'| ensures Apart(key', j, k) {
      assert Listed(key, cache, k - 1);
      if j > 0 { assert Apart(key, j - 1, k - 1); }
    }
  }

  /** The last unit leaves, and its buffer goes to the caller. */
  lemma Evicted(key: seq<Unit>, cache: map<Addr, Unit>, free: seq<Ptr>, home: seq<Home>, n: nat, u: Unit)
    requires Agree(key, cache) && Tidy(cache, free, None, home) && |key| == n + 1 && u == key[n]
    ensures u.id in cache && cache[u.id] == u && u.data < |home|
    ensures Agree(key[..n], cache - {u.id}) && Tidy(cache - {u.id}, free, Some(u.data), home[u.data := WithCaller])
  {
    assert Listed(key, cache, n) && Holds(cache, home, u.id);
    var key', cache', home' := key[..n], cache - {u.id}, home[u.data := WithCaller];
    forall q | 0 <= q < |home'| ensures HomeOk(cache', free, Some(u.data), home', q) {
      assert HomeOk(cache, free, None, home, q);
    }
    forall a ensures Holds(cache', home', a) && Mapped(key', cache', a) {
      assert Holds(cache, home, a) && Mapped(key, cache, a);
      if a in cache' { assert key'[IndexOf(key, cache[a])] == cache[a]; }
    }
    forall k | 0 <= k < |free| ensures Pooled(free, home', k) { assert Pooled(free, home, k); }
    forall j | 0 <= j < |key'| ensures Listed(key', cache', j) { assert Listed(key, cache, j) && Apart(key, j, n); }
    forall j, k | 0 <= j < k < |key'| ensures Apart(key', j, k) { assert Apart(key, j, k); }
  }

  /** The unit at the front is marked dirty. */
  lemma Marked(key: seq<Unit>, cache: map<Addr, Unit>, free: seq<Ptr>, home: seq<Home>, u: Unit)
    requires Agree(key, cache) && Tidy(cache, free, None, home) && key != [] && u == key[0].(dirty := u.dirty)
    ensures Agree([u] + key[1..], cache[u.id := u]) && Tidy(cache[u.id := u], free, None, home)
  {
    assert Listed(key, cache, 0);
    var key', cache' := [u] + key[1..], cache[u.id := u];
    forall q | 0 <= q < |home| ensures HomeOk(cache', free, None, home, q) {
      assert HomeOk(cache, free, None, home, q);
    }
    forall a ensures Holds(cache', home, a) && Mapped(key', cache', a) {
      assert Holds(cache, home, a) && Mapped(key, cache, a);
      if a == u.id { assert key'[0] == cache'[a]; }
      else if a in cache { assert key'[IndexOf(key, cache[a])] == cache[a]; }
    }
    forall j | 0 <= j < |key'| ensures Listed(key', cache', j) {
      assert Listed(key, cache, j);
      if j > 0 { assert Apart(key, 0, j); }
    }
    forall j, k | 0 <= j < k < |key'| ensures Apart(key', j, k) { assert Apart(key, j, k); }
  }

  // ---------- least recently used ----------

  function Without(s: seq<Addr>, a: Addr): seq<Addr> {
    if s == [] then [] else if s[0] == a then s[1..] else [s[0]] + Without(s[1..], a)
  }

  /** The addresses of a history of uses, each once, the last used first. */
  function Recent(uses: seq<Addr>): seq<Addr> {
    if uses == [] then []
    else var a := uses[|uses| - 1]; [a] + Without(Recent(uses[..|uses| - 1]), a)
  }

  function Take(s: seq<Addr>, n: nat): seq<Addr> {
    if n <= |s| then s[..n] else s
  }

  /** The first `n` units of the list are those of the addresses used last, in order. */
  ghost predicate Ordered(key: seq<Unit>, uses: seq<Addr>, n: nat) {
    Take(Ids(key), n) == Take(Recent(uses), n)
  }

  lemma RecentUse(uses: seq<Addr>, a: Addr)
    ensures Recent(uses + [a]) == [a] + Without(Recent(uses), a)
  {
    assert (uses + [a])[..|uses|] == uses;
  }

  lemma {:induction false} WithoutAt(s: seq<Addr>, i: nat)
    requires i < |s| && s[i] !in s[..i]
    ensures Without(s, s[i]) == s[..i] + s[i + 1..]
  {
    if i > 0 {
      WithoutAt(s[1..], i - 1);
      assert s[1..][..i - 1] == s[1..i];
      assert s[..i] == [s[0]] + s[1..i] && s[1..][i..] == s[i + 1..];
    }
  }

  lemma {:induction false} WithoutNone(s: seq<Addr>, a: Addr)
    requires a !in s
    ensures Without(s, a) == s
  {
    if s != [] { WithoutNone(s[1..], a); }
  }

  lemma TakeMoved(s: seq<Addr>, i: nat, n: nat, w: seq<Addr>, ids: seq<Addr>)
    requires ids == Take(s, n) && i < |ids| && w == s[..i] + s[i + 1..]
    ensures Take([s[i]] + w, n) == [ids[i]] + ids[..i] + ids[i + 1..]
  {
    var l, r := Take([s[i]] + w, n), [ids[i]] + ids[..i] + ids[i + 1..];
    assert |l| == |r|;
    forall j | 0 <= j < |l| ensures l[j] == r[j] { }
  }

  /** A used address among the first `n` moves to the front of them. */
  lemma RecentHit(s: seq<Addr>, i: nat, n: nat, ids: seq<Addr>)
    requires ids == Take(s, n) && i < |ids| && ids[i] !in ids[..i]
    ensures Take([ids[i]] + Without(s, ids[i]), n) == [ids[i]] + ids[..i] + ids[i + 1..]
  {
    assert s[..i] == ids[..i] && s[i] == ids[i];
    WithoutAt(s, i);
    TakeMoved(s, i, n, s[..i] + s[i + 1..], ids);
  }

  /** An address not among the first `n` pushes the last of them out. */
  lemma RecentMiss(s: seq<Addr>, a: Addr, n: nat, ids: seq<Addr>)
    requires ids == Take(s, n) && a !in ids
    ensures Take([a] + Without(s, a), n) == Take([a] + ids, n)
  {
    if a in s {
      var i := FirstOf(s, a);
      WithoutAt(s, i);
    } else {
      WithoutNone(s, a);
    }
  }

  lemma FirstOf(s: seq<Addr>, a: Addr) returns (i: nat)
    requires a in s
    ensures i < |s| && s[i] == a && a !in s[..i]
  {
    if s[0] == a { i := 0; }
    else {
      i := FirstOf(s[1..], a);
      i := i + 1;
      assert s[..i] == [s[0]] + s[1..][..i - 1];
    }
  }

  lemma UsedAgain(key: seq<Unit>, i: nat, key': seq<Unit>, cache: map<Addr, Unit>, uses: seq<Addr>, n: nat)
    requires i < |key| <= n && key' == ToFront(key, i) && Ordered(key, uses, n) && Agree(key, cache)
    ensures Ordered(key', uses + [key[i].id], n)
  {
    var ids := Ids(key);
    forall j | 0 <= j < i ensures ids[j] != ids[i] { assert Apart(key, j, i); }
    RecentUse(uses, ids[i]);
    RecentHit(Recent(uses), i, n, ids);
    IdsToFront(key, i, key', ids);
  }

  lemma IdsToFront(key: seq<Unit>, i: nat, key': seq<Unit>, ids: seq<Addr>)
    requires i < |key| && key' == ToFront(key, i) && ids == Ids(key)
    ensures Ids(key') == [ids[i]] + ids[..i] + ids[i + 1..]
  {
    var ids' := [ids[i]] + ids[..i] + ids[i + 1..];
    forall j | 0 <= j < |key'| ensures Ids(key')[j] == ids'[j] { ToFrontAt(key, i, j); }
  }

  lemma UsedAnew(key: seq<Unit>, u: Unit, key': seq<Unit>, cache: map<Addr, Unit>, uses: seq<Addr>, n: nat)
    requires |key| <= n && key' == [u] + key && Ordered(key, uses, n) && Agree(key, cache) && u.id !in cache
    ensures Ordered(key', uses + [u.id], n)
  {
    forall j | 0 <= j < |key| ensures Ids(key)[j] != u.id { assert Listed(key, cache, j); }
    RecentUse(uses, u.id);
    RecentMiss(Recent(uses), u.id, n, Ids(key));
    assert ([u] + key)[1..] == key;
  }

  /** Beyond the first `n` nothing matters, nor do dirty bits. */
  lemma OrderedSame(key: seq<Unit>, key': seq<Unit>, uses: seq<Addr>, n: nat)
    requires Ordered(key, uses, n) && (|key'| == |key| || n <= |key'| <= |key|)
    requires forall i {:trigger key'[i]} :: 0 <= i < |key'| ==> key'[i].id == key[i].id
    ensures Ordered(key', uses, n)
  {
    assert Take(Ids(key'), n) == Take(Ids(key), n);
  }

  // ---------- which address leaves ----------

  /** The addresses kept by a cache of `n` units: the `n` used last. */
  function Kept(uses: seq<Addr>, n: nat): seq<Addr> {
    Take(Recent(uses), n)
  }

  /** The address that leaves when `a` is used: none if it is kept or there is room, else the one used longest ago. */
  function Victim(uses: seq<Addr>, n: nat, a: Addr): Option<Addr> {
    Leaver(Kept(uses, n), n, a)
  }

  ghost predicate NoDup(s: seq<Addr>) {
    forall i, j {:trigger s[i], s[j]} :: 0 <= i < j < |s| ==> s[i] != s[j]
  }

  lemma NoDupCons(a: Addr, s: seq<Addr>)
    requires NoDup(s) && a !in s
    ensures NoDup([a] + s)
  {
    var r := [a] + s;
    forall i, j | 0 <= i < j < |r| ensures r[i] != r[j] {
      assert r[j] == s[j - 1];
      if i > 0 { assert r[i] == s[i - 1]; }
    }
  }

  lemma {:induction false} WithoutIs(s: seq<Addr>, a: Addr)
    requires NoDup(s)
    ensures NoDup(Without(s, a)) && forall b {:trigger b in Without(s, a)} :: b in Without(s, a) <==> b in s && b != a
  {
    if s != [] {
      var r := s[1..];
      assert s == [s[0]] + r && NoDup(r);
      forall i | 0 <= i < |r| ensures r[i] != s[0] { assert r[i] == s[i + 1]; }
      if s[0] != a {
        WithoutIs(r, a);
        NoDupCons(s[0], Without(r, a));
      }
    }
  }

  lemma {:induction false} RecentNoDup(uses: seq<Addr>)
    ensures NoDup(Recent(uses))
  {
    if uses != [] {
      var before, a := Recent(uses[..|uses| - 1]), uses[|uses| - 1];
      RecentNoDup(uses[..|uses| - 1]);
      WithoutIs(before, a);
      NoDupCons(a, Without(before, a));
    }
  }

  lemma MovedSame(kept: seq<Addr>, i: nat, kept': seq<Addr>, b: Addr)
    requires i < |kept| && kept' == [kept[i]] + kept[..i] + kept[i + 1..]
    ensures b in kept' <==> b in kept
  {
    assert kept == kept[..i] + [kept[i]] + kept[i + 1..];
  }

  lemma PushedOff(kept: seq<Addr>, a: Addr, n: nat, b: Addr)
    requires NoDup(kept) && |kept| == n > 0 && a !in kept
    ensures b in Take([a] + kept, n) <==> (b == a || b in kept) && b != kept[n - 1]
  {
    var most, last := kept[..n - 1], kept[n - 1];
    assert kept == most + [last] && Take([a] + kept, n) == [a] + most;
    forall i | 0 <= i < |most| ensures most[i] != last { assert most[i] == kept[i]; }
  }

  function Leaver(kept: seq<Addr>, n: nat, a: Addr): Option<Addr> {
    if a in kept || |kept| < n then None else if n == 0 then Some(a) else Some(kept[n - 1])
  }

  lemma KeptHit(r: seq<Addr>, kept: seq<Addr>, n: nat, a: Addr, b: Addr)
    requires kept == Take(r, n) && a in kept
    ensures b in Take([a] + Without(r, a), n) <==> b in kept
  {
    var i := FirstOf(kept, a);
    RecentHit(r, i, n, kept);
    MovedSame(kept, i, Take([a] + Without(r, a), n), b);
  }

  lemma KeptMiss(r: seq<Addr>, kept: seq<Addr>, n: nat, a: Addr, b: Addr)
    requires kept == Take(r, n) && a !in kept && NoDup(r) && n > 0
    ensures b in Take([a] + Without(r, a), n) <==> (b == a || b in kept) && Leaver(kept, n, a) != Some(b)
  {
    RecentMiss(r, a, n, kept);
    if |kept| == n { PushedOff(kept, a, n, b); } else { assert Take([a] + kept, n) == [a] + kept; }
  }

  /** After a use: the address used and those kept before, but for the one that leaves. */
  lemma KeptUse(uses: seq<Addr>, n: nat, a: Addr, b: Addr)
    requires n > 0
    ensures b in Kept(uses + [a], n) <==> (b == a || b in Kept(uses, n)) && Victim(uses, n, a) != Some(b)
    ensures Victim(uses, n, a).Some? ==> Victim(uses, n, a).value in Kept(uses, n) && Victim(uses, n, a).value != a
  {
    var r, kept := Recent(uses), Kept(uses, n);
    RecentNoDup(uses);
    RecentUse(uses, a);
    if a in kept { KeptHit(r, kept, n, a, b); } else { KeptMiss(r, kept, n, a, b); }
  }

  // ---------- the cache ----------

  /** What the cache has for an address. */
  datatype Cell = Cell(data: Block, dirty: bool)

  function Look(cache: map<Addr, Unit>, mem: seq<Block>, a: Addr): Option<Cell> {
    if a in cache && cache[a].data < |mem| then Some(Cell(mem[cache[a].data], cache[a].dirty)) else None
  }

  ghost function CellsOf(cache: map<Addr, Unit>, mem: seq<Block>): (cells: map<Addr, Cell>)
    ensures forall a {:trigger Look(cache, mem, a)} ::
              Look(cache, mem, a) == if a in cells then Some(cells[a]) else None
  {
    map a | a in cache && cache[a].data < |mem| :: Cell(mem[cache[a].data], cache[a].dirty)
  }

  /** One address is given a cell, and one may leave. */
  function Changed(cells: map<Addr, Cell>, id: Addr, cell: Cell, gone: Option<Addr>): map<Addr, Cell> {
    if gone.Some? then cells[id := cell] - {gone.value} else cells[id := cell]
  }

  lemma CellsChanged(cache: map<Addr, Unit>, mem: seq<Block>, cache': map<Addr, Unit>, mem': seq<Block>,
                     id: Addr, cell: Cell, gone: Option<Addr>)
    requires forall a {:trigger Look(cache', mem', a)} :: Look(cache', mem', a) ==
               if gone == Some(a) then None else if a == id then Some(cell) else Look(cache, mem, a)
    ensures CellsOf(cache', mem') == Changed(CellsOf(cache, mem), id, cell, gone)
  {
    var l, r := CellsOf(cache', mem'), Changed(CellsOf(cache, mem), id, cell, gone);
    forall a ensures a in l <==> a in r { assert Look(cache', mem', a).Some? <==> a in l; }
    forall a | a in l ensures l[a] == r[a] { assert Look(cache', mem', a) == Some(l[a]); }
  }

  /** Writing the buffer of one address changes what is cached for that address alone. */
  lemma Rewritten(cache: map<Addr, Unit>, free: seq<Ptr>, home: seq<Home>, mem: seq<Block>, unit: Unit, b: Block,
        a: Addr)
    requires Tidy(cache, free, None, home) && |home| == |mem| && unit.id in cache && cache[unit.id] == unit
    ensures unit.data < |mem|
    ensures Look(cache, mem[unit.data := b], a) ==
              if a == unit.id then Some(Cell(b, unit.dirty)) else Look(cache, mem, a)
  {
    assert Holds(cache, home, a) && Holds(cache, home, unit.id);
  }

  /** One address leaves and another's buffer is written: the rest stays as cached. */
  lemma BroughtIn(cache: map<Addr, Unit>, free: seq<Ptr>, home: seq<Home>, mem: seq<Block>, unit: Unit, evict: Unit,
        b: Block, a: Addr)
    requires Tidy(cache, free, None, home) && |home| == |mem|
    requires unit.id in cache && cache[unit.id] == unit && evict.id in cache && cache[evict.id] == evict
    ensures unit.data < |mem| && evict.data < |mem|
    ensures Look(cache - {evict.id}, mem[unit.data := b], a) ==
              if a == evict.id then None else if a == unit.id then Some(Cell(b, unit.dirty)) else Look(cache, mem, a)
    ensures Some(Cell(mem[unit.data := b][evict.data], evict.dirty)) ==
              if evict.id == unit.id then Some(Cell(b, unit.dirty)) else Look(cache, mem, evict.id)
  {
    assert Holds(cache, home, a) && Holds(cache, home, unit.id) && Holds(cache, home, evict.id);
  }

  lemma SameLook(cache: map<Addr, Unit>, free: seq<Ptr>, home: seq<Home>, mem: seq<Block>, mem': seq<Block>,
        unit: Unit, a: Addr)
    requires Tidy(cache, free, None, home) && |home| == |mem| && mem <= mem' && a != unit.id
    ensures Look(cache[unit.id := unit], mem', a) == Look(cache, mem, a)
  {
    assert Holds(cache, home, a);
  }

  class BlkCache {
    const capacity: nat
    /** Whether a write that hits stores the dirty bit in the list, as it means to. The code as written sets it in a
        copy. */
    const stores: bool
    var key: seq<Unit>
    var cache: map<Addr, Unit>
    var size: int
    var mem: seq<Block>
    var free: seq<Ptr>
    /** Every address read with success or written, in order; and where each buffer is. */
    ghost var uses: seq<Addr>
    ghost var home: seq<Home>

    /** The cache holds exactly the `capacity` addresses used last. `out` is the buffer of an evicted unit. */
    ghost predicate Valid(out: Option<Ptr>)
      reads this
    {
      && Agree(key, cache) && |home| == |mem| && Tidy(cache, free, out, home) && size == |key| <= capacity
      && Ordered(key, uses, capacity)
    }

    /** The cached contents of block `a`, and its dirty bit. */
    function At(a: Addr): Option<Cell>
      reads this
    {
      Look(cache, mem, a)
    }

    /** Everything cached. */
    ghost function Cells(): map<Addr, Cell>
      reads this
    {
      CellsOf(cache, mem)
    }

    /** The address that leaves when `a` is used is told by the history of uses. */
    lemma Leaving(a: Addr)
      requires Valid(None)
      ensures Victim(uses, capacity, a) ==
                if a in cache || |key| < capacity then None
                else if capacity == 0 then Some(a) else Some(key[capacity - 1].id)
      ensures a in cache <==> a in Cells()
    {
      assert Kept(uses, capacity) == Ids(key);
      assert Mapped(key, cache, a) && Holds(cache, home, a);
      if a in cache { assert Ids(key)[IndexOf(key, cache[a])] == a; }
      forall i | 0 <= i < |key| && Ids(key)[i] == a ensures a in cache { assert Listed(key, cache, i); }
    }

    constructor (capacity: nat, stores: bool)
      ensures Valid(None) && this.capacity == capacity && this.stores == stores && cache == map[] && uses == []
    {
      this.capacity, this.stores := capacity, stores;
      key, cache, size, mem, free, uses, home := [], map[], 0, [], [], [], [];
    }

    method AllocateBlock() returns (p: Ptr)
      requires |home| == |mem| && Tidy(cache, free, None, home)
      modifies this`mem, this`free, this`home
      ensures |home| == |mem| && Tidy(cache, free, Some(p), home) && old(mem) <= mem
    {
      if free == [] {
        p := |mem|;
        mem := mem + [[]];
        Grown(cache, free, home);
        home := home + [WithCaller];
      } else {
        var i := |free| - 1;
        p := free[i];
        Allocated(cache, free, home, i, p);
        free := free[..i];
        home := home[p := WithCaller];
      }
    }

    method FreeBlock(p: Ptr)
      requires Valid(Some(p))
      modifies this`free, this`home
      ensures Valid(None) && forall a {:trigger At(a)} :: At(a) == old(At(a))
    {
      Freed(cache, free, home, p);
      home := home[p := InPool(|free|)];
      free := free + [p];
    }

    method Get(id: Addr) returns (unit: Unit)
      requires Valid(None) && id in cache
      modifies this`key, this`uses
      ensures Valid(None) && unit == cache[id] && uses == old(uses) + [id] && key != [] && key[0] == unit
    {
      unit := cache[id];
      assert Mapped(key, cache, id);
      var i := IndexOf(key, unit);
      UsedAgain(key, i, ToFront(key, i), cache, uses, capacity);
      ToFrontAgrees(key, i, ToFront(key, i), cache);
      key := ToFront(key, i);
      uses := uses + [id];
    }

    /** A hit rewrites the unit's buffer. A miss puts a new unit in front; if that is one too many, the unit used
        longest ago leaves, and its buffer goes to the caller. */
    method Write(id: Addr, buffer: Block, dirty: bool) returns (evicted: bool, evict: Unit)
      requires Valid(None)
      modifies this
      ensures Valid(if evicted then Some(evict.data) else None) && uses == old(uses) + [id]
      ensures evicted <==> id !in old(cache) && |old(key)| == capacity
      ensures forall a {:trigger At(a)} :: At(a) ==
                if evicted && a == evict.id then None
                else if a != id then old(At(a))
                else if id in old(cache) then Some(Cell(buffer, old(cache[id]).dirty || (stores && dirty)))
                else Some(Cell(buffer, dirty))
      ensures evicted ==> evict.id == (if capacity == 0 then id else old(key)[capacity - 1].id) && evict.data < |mem|
      ensures evicted ==>
                Some(Cell(mem[evict.data], evict.dirty)) ==
                    if evict.id == id then Some(Cell(buffer, dirty)) else old(At(evict.id))
    {
      if id in cache {
        evicted, evict := false, Unit(0, false, 0);
        Rewrite(id, buffer, dirty);
      } else {
        var unit := Enter(id, dirty);
        if size > capacity {
          evicted := true;
          evict := PushOut(unit, buffer);
        } else {
          evicted, evict := false, unit;
          assert Holds(cache, home, id);
          forall a
            ensures Look(cache, mem[unit.data := buffer], a) ==
                      if a == id then Some(Cell(buffer, dirty)) else old(At(a))
          {
            assert a != id ==> At(a) == old(At(a));
            Rewritten(cache, free, home, mem, unit, buffer, a);
          }
          mem := mem[unit.data := buffer];
        }
      }
    }

    /** Store the dirty bit in the unit in front. */
    method Mark(unit: Unit)
      requires Valid(None) && key != [] && unit == key[0].(dirty := unit.dirty)
      modifies this`key, this`cache
      ensures Valid(None) && cache == old(cache)[unit.id := unit]
    {
      Marked(key, cache, free, home, unit);
      OrderedSame(key, [unit] + key[1..], uses, capacity);
      key, cache := [unit] + key[1..], cache[unit.id := unit];
    }

    /** The unit of a hit, in front; its dirty bit is set as it means to be only if that is stored. */
    method Touch(id: Addr, dirty: bool) returns (unit: Unit)
      requires Valid(None) && id in cache
      modifies this`key, this`cache, this`uses
      ensures Valid(None) && uses == old(uses) + [id] && id in cache && cache[id] == unit && unit.id == id
      ensures unit == old(cache[id]).(dirty := old(cache[id]).dirty || (stores && dirty))
      ensures cache == old(cache)[id := unit]
    {
      unit := Get(id);
      assert Holds(cache, home, id);
      if stores {
        unit := unit.(dirty := unit.dirty || dirty);
        Mark(unit);
      }
    }

    method Overwrite(unit: Unit, buffer: Block)
      requires Valid(None) && unit.id in cache && cache[unit.id] == unit
      modifies this`mem
      ensures Valid(None)
      ensures forall a {:trigger At(a)} :: At(a) == if a == unit.id then Some(Cell(buffer, unit.dirty)) else old(At(a))
    {
      assert Holds(cache, home, unit.id);
      forall a
        ensures Look(cache, mem[unit.data := buffer], a) ==
                  if a == unit.id then Some(Cell(buffer, unit.dirty)) else Look(cache, mem, a)
      {
        Rewritten(cache, free, home, mem, unit, buffer, a);
      }
      mem := mem[unit.data := buffer];
    }

    method Rewrite(id: Addr, buffer: Block, dirty: bool)
      requires Valid(None) && id in cache
      modifies this`key, this`cache, this`mem, this`uses
      ensures Valid(None) && uses == old(uses) + [id]
      ensures forall a {:trigger At(a)} :: At(a) ==
                if a == id then Some(Cell(buffer, old(cache[id]).dirty || (stores && dirty))) else old(At(a))
    {
      var unit := Touch(id, dirty);
      forall a | a != id ensures Look(cache, mem, a) == old(At(a)) { }
      Overwrite(unit, buffer);
    }

    /** A new unit with a buffer of its own, in front. */
    method Enter(id: Addr, dirty: bool) returns (unit: Unit)
      requires Valid(None) && id !in cache
      modifies this
      ensures Agree(key, cache) && |home| == |mem| && Tidy(cache, free, None, home) && size == |key|
      ensures unit.id == id && unit.dirty == dirty && key == [unit] + old(key) && id in cache
      ensures cache[id] == unit && uses == old(uses) + [id]
      ensures Ordered(key, uses, capacity) && (size <= capacity ==> Valid(None))
      ensures forall a {:trigger At(a)} :: a != id ==> At(a) == old(At(a))
    {
      ghost var free0, home0, mem0 := free, home, mem;
      var p := AllocateBlock();
      unit := Unit(id, dirty, p);
      InsertNewUnit(unit);
      forall a | a != id ensures Look(cache, mem, a) == old(At(a)) {
        SameLook(old(cache), free0, home0, mem0, mem, unit, a);
      }
    }

    method PushOut(unit: Unit, buffer: Block) returns (evict: Unit)
      requires Agree(key, cache) && |home| == |mem| && Tidy(cache, free, None, home) && size == |key| == capacity + 1
      requires Ordered(key, uses, capacity) && unit.id in cache && cache[unit.id] == unit
      modifies this
      ensures Valid(Some(evict.data)) && uses == old(uses) && evict == old(key)[capacity] && evict.data < |mem|
      ensures forall a {:trigger At(a)} :: At(a) ==
                if a == evict.id then None else if a == unit.id then Some(Cell(buffer, unit.dirty)) else old(At(a))
      ensures Some(Cell(mem[evict.data], evict.dirty)) ==
                if evict.id == unit.id then Some(Cell(buffer, unit.dirty)) else old(At(evict.id))
    {
      ghost var free1, home1 := free, home;
      assert Listed(key, cache, capacity) && Holds(cache, home, unit.id);
      evict := EvictUnit();
      forall a ensures Look(cache, mem[unit.data := buffer], a) ==
                 if a == evict.id then None else if a == unit.id then Some(Cell(buffer, unit.dirty)) else old(At(a)) {
        BroughtIn(old(cache), free1, home1, mem, unit, evict, buffer, a);
      }
      BroughtIn(old(cache), free1, home1, mem, unit, evict, buffer, unit.id);
      mem := mem[unit.data := buffer];
    }

    method InsertNewUnit(unit: Unit)
      requires Agree(key, cache) && |home| == |mem| && Tidy(cache, free, Some(unit.data), home) && unit.id !in cache
      requires size == |key| <= capacity && Ordered(key, uses, capacity)
      modifies this`key, this`cache, this`size, this`home, this`uses
      ensures Agree(key, cache) && |home| == |mem| && Tidy(cache, free, None, home) && size == |key|
      ensures key == [unit] + old(key) && cache == old(cache)[unit.id := unit] && uses == old(uses) + [unit.id]
      ensures Ordered(key, uses, capacity) && (size <= capacity ==> Valid(None))
    {
      Inserted(key, cache, free, home, unit);
      UsedAnew(key, unit, [unit] + key, cache, uses, capacity);
      key := [unit] + key;
      cache := cache[unit.id := unit];
      size := size + 1;
      home := home[unit.data := InUnit(unit.id)];
      uses := uses + [unit.id];
    }

    method EvictUnit() returns (unit: Unit)
      requires Agree(key, cache) && |home| == |mem| && Tidy(cache, free, None, home) && size == |key| == capacity + 1
      requires Ordered(key, uses, capacity)
      modifies this`key, this`cache, this`size, this`home
      ensures Valid(Some(unit.data)) && unit == old(key)[capacity] && cache == old(cache) - {unit.id}
    {
      unit := key[|key| - 1];
      Evicted(key, cache, free, home, capacity, unit);
      OrderedSame(key, key[..capacity], uses, capacity);
      key := key[..|key| - 1];
      cache := cache - {unit.id};
      size := size - 1;
      home := home[unit.data := WithCaller];
    }

    method Read(id: Addr, buffer: Block) returns (hit: bool, out: Block)
      requires Valid(None)
      modifies this`key, this`uses
      ensures Valid(None) && hit == (id in cache) && forall a {:trigger At(a)} :: At(a) == old(At(a))
      ensures if hit then At(id) == Some(Cell(out, cache[id].dirty)) && uses == old(uses) + [id]
                else out == buffer && uses == old(uses) && key == old(key)
    {
      out := buffer;
      hit := id in cache;
      if hit {
        var unit := Get(id);
        assert Holds(cache, home, id);
        out := mem[unit.data];
      }
    }
  }
}
