/** The file block accessor: a file behind a block cache, changed in place as the store of `StoreRuns` says. */
module FileStore {
  import opened BlockCache
  import opened StoreRuns

  /** The cursor is an unsigned number of 32 bits. */
  const WORD := 0x1_0000_0000

  class FileBlkAccessor {
    const zero: Block
    var cursor: nat
    var freed: set<Addr>
    var file: seq<Block>
    const cache: BlkCache

    ghost predicate Valid()
      reads this, cache
    {
      cache.Valid(None)
    }

    ghost function View(): Store
      reads this, cache
    {
      Store(cache.capacity, cache.stores, zero, cache.uses, cache.Cells(), file)
    }

    predicate Live(a: Addr)
      reads this
    {
      a < cursor && a !in freed
    }

    constructor (blockSize: nat, capacity: nat, stores: bool)
      ensures Valid() && zero == seq(blockSize, i => 0) && View() == Start(capacity, stores, zero)
      ensures cursor == 0 && freed == {}
      ensures fresh(cache)
    {
      zero := seq(blockSize, i => 0);
      cursor, freed, file := 0, {}, [];
      cache := new BlkCache(capacity, stores);
    }

    /** An address that is not live: a freed one if there is any. It becomes live if it was ever allocated. */
    method Allocate() returns (a: Addr)
      requires Valid()
      modifies this`cursor, this`freed
      ensures Valid() && !old(Live(a)) && View() == old(View())
      ensures if old(freed) == {} then a == old(cursor) && cursor == a + 1 && freed == {}
              else a in old(freed) && cursor == old(cursor) && freed == old(freed) - {a}
      ensures forall b {:trigger Live(b)} :: Live(b) <==> old(Live(b)) || (b == a && a < cursor)
    {
      if freed != {} {
        a :| a in freed;
        freed := freed - {a};
      } else {
        a := cursor;
        cursor := cursor + 1;
      }
    }

    /** Any address but the one after the cursor is no longer live, and no other changes. That one lowers the cursor,
        and the address allocated last is no longer live instead. */
    method Deallocate(a: Addr)
      requires Valid()
      modifies this`cursor, this`freed
      ensures Valid() && View() == old(View())
      ensures a != old(cursor) + 1 ==> cursor == old(cursor) && freed == old(freed) + {a}
      ensures a != old(cursor) + 1 ==> forall b {:trigger Live(b)} :: Live(b) <==> old(Live(b)) && b != a
      ensures a == old(cursor) + 1 ==>
                freed == old(freed) && cursor == if old(cursor) == 0 then WORD - 1 else old(cursor) - 1
      ensures a == old(cursor) + 1 && 0 < old(cursor) ==>
                forall b: Addr {:trigger Live(b)} :: Live(b) <==> old(Live(b)) && b + 1 != old(cursor)
    {
      if cursor + 1 == a {
        cursor := if cursor == 0 then WORD - 1 else cursor - 1;
      } else {
        freed := freed + {a};
      }
    }

    /** A read of a live address; what it pushes out is written back, dirty or not. */
    method Read(a: Addr, buffer: Block) returns (ok: bool, out: Block)
      requires Valid()
      modifies this`file, cache
      ensures Valid() && ok == Live(a)
      ensures if ok then out == Got(old(View()), a, buffer) && View() == AfterRead(old(View()), a, buffer)
              else out == buffer && View() == old(View())
    {
      ok, out := Live(a), buffer;
      if !ok { return; }
      var hit: bool;
      hit, out := ReadCache(a, buffer);
      if !hit {
        if a < |file| { out := file[a]; }
        Bring(a, out, false, true);
      }
    }

    method ReadCache(a: Addr, buffer: Block) returns (hit: bool, out: Block)
      requires Valid()
      modifies cache
      ensures Valid() && hit == (a in old(View()).cells) && (a in cache.cache ==> hit)
      ensures out == if hit then old(View()).cells[a].data else buffer
      ensures View() == if hit then old(View()).(uses := old(View()).uses + [a]) else old(View())
    {
      cache.Leaving(a);
      hit, out := cache.Read(a, buffer);
      ghost var was := old(cache.Cells());
      forall b ensures CellAt(cache.Cells(), b) == CellAt(was, b) {
        assert cache.At(b) == old(cache.At(b));
      }
      assert forall b :: b in cache.Cells() <==> CellAt(cache.Cells(), b).Some?;
    }

    /** A write of a live address; what it pushes out is written back if it is marked dirty. */
    method Write(a: Addr, buffer: Block) returns (ok: bool)
      requires Valid()
      modifies this`file, cache
      ensures Valid() && ok == Live(a)
      ensures View() == if ok then AfterWrite(old(View()), a, buffer) else old(View())
    {
      ok := Live(a);
      if !ok { return; }
      cache.Leaving(a);
      Bring(a, buffer, true, false);
    }

    /** Write to the cache, and to the file what is evicted, if it is dirty or in any case. */
    method Bring(a: Addr, data: Block, dirty: bool, always: bool)
      requires Valid() && (a in cache.cache ==> dirty)
      modifies this`file, cache
      ensures Valid()
      ensures View() == Place(old(View()), a, NewCell(data, dirty, cache.stores, old(cache.Cells()), a), always)
    {
      cache.Leaving(a);
      var evicted, unit := WriteThrough(a, data, dirty);
      if evicted {
        if always || unit.dirty {
          file := Pwrite(file, unit.id, cache.mem[unit.data], zero);
        }
        cache.FreeBlock(unit.data);
      }
    }

    method WriteThrough(a: Addr, data: Block, dirty: bool) returns (evicted: bool, unit: Unit)
      requires Valid() && (a in cache.cache ==> dirty)
      modifies cache
      ensures cache.Valid(if evicted then Some(unit.data) else None) && cache.uses == old(cache.uses) + [a]
      ensures var gone := Victim(old(cache.uses), cache.capacity, a);
              var cell := NewCell(data, dirty, cache.stores, old(cache.Cells()), a);
              && (evicted <==> gone.Some?) && cache.Cells() == Changed(old(cache.Cells()), a, cell, gone)
              && (evicted ==> unit.id == gone.value && unit.data < |cache.mem|)
              && (evicted ==>
                    Some(Cell(cache.mem[unit.data], unit.dirty)) == CellAt(old(cache.Cells())[a := cell], unit.id))
    {
      cache.Leaving(a);
      ghost var gone := Victim(cache.uses, cache.capacity, a);
      ghost var cell := NewCell(data, dirty, cache.stores, cache.Cells(), a);
      ghost var was, mem := cache.cache, cache.mem;
      assert a in was ==> Look(was, mem, a).Some?;
      evicted, unit := cache.Write(a, data, dirty);
      forall b ensures Look(cache.cache, cache.mem, b) ==
                 if gone == Some(b) then None else if b == a then Some(cell) else Look(was, mem, b) {
        assert cache.At(b) == Look(cache.cache, cache.mem, b);
      }
      CellsChanged(was, mem, cache.cache, cache.mem, a, cell, gone);
      if evicted && unit.id != a { assert Look(was, mem, unit.id) == CellAt(CellsOf(was, mem), unit.id); }
    }
  }

  function CellAt(cells: map<Addr, Cell>, a: Addr): Option<Cell> {
    if a in cells then Some(cells[a]) else None
  }

  /** The cell of an address just written: a hit keeps its dirty bit, unless it is stored. */
  function NewCell(data: Block, dirty: bool, stores: bool, cells: map<Addr, Cell>, a: Addr): Cell {
    Cell(data, if a in cells then cells[a].dirty || stores else dirty)
  }

  method ServeOne(store: FileBlkAccessor, op: Op) returns (out: Block)
    requires store.Valid() && store.Live(op.a)
    modifies store`file, store.cache
    ensures store.Valid() && store.View() == After(old(store.View()), op)
    ensures op.ReadOp? ==> out == Got(old(store.View()), op.a, op.buffer)
  {
    var ok: bool;
    match op {
      case ReadOp(a, buffer) => ok, out := store.Read(a, buffer);
      case WriteOp(a, data) => ok := store.Write(a, data); out := [];
    }
  }

  /** Every read of the first calls was answered from the store as it was then. */
  ghost predicate Answered(start: Store, ops: seq<Op>, answers: seq<Block>) {
    && |answers| <= |ops|
    && forall i {:trigger answers[i]} :: 0 <= i < |answers| ==> AnswerAt(start, ops, i, answers[i])
  }

  ghost predicate AnswerAt(start: Store, ops: seq<Op>, i: nat, out: Block)
    requires i < |ops|
  {
    ops[i].ReadOp? ==> out == Got(Run(start, ops[..i]), ops[i].a, ops[i].buffer)
  }

  lemma RunNext(start: Store, ops: seq<Op>, n: nat)
    requires n < |ops|
    ensures Run(start, ops[..n + 1]) == After(Run(start, ops[..n]), ops[n])
  {
    assert ops[..n + 1] == ops[..n] + [ops[n]];
    RunStep(start, ops[..n], ops[n]);
  }

  lemma AnsweredStep(start: Store, ops: seq<Op>, answers: seq<Block>, out: Block)
    requires |answers| < |ops| && Answered(start, ops, answers) && AnswerAt(start, ops, |answers|, out)
    ensures Answered(start, ops, answers + [out])
  {
  }

  /** Any sequence of calls on live addresses does to the store, and returns, what the run of the store says. */
  method Serve(store: FileBlkAccessor, ops: seq<Op>) returns (answers: seq<Block>)
    requires store.Valid() && forall i {:trigger ops[i]} :: 0 <= i < |ops| ==> store.Live(ops[i].a)
    modifies store`file, store.cache
    ensures store.Valid() && store.View() == Run(old(store.View()), ops)
    ensures |answers| == |ops| && Answered(old(store.View()), ops, answers)
  {
    answers := [];
    ghost var start := store.View();
    for n := 0 to |ops|
      invariant store.Valid() && |answers| == n && store.View() == Run(start, ops[..n]) && Answered(start, ops, answers)
    {
      RunNext(start, ops, n);
      var out := ServeOne(store, ops[n]);
      AnsweredStep(start, ops, answers, out);
      answers := answers + [out];
    }
    assert ops[..|ops|] == ops;
  }

  /** A new store that serves any sequence of calls on its first `count` addresses: every read returns what was written
      last to its block, if the dirty bit is stored, or else if no call is lossy. */
  method ServeNew(blockSize: nat, n: nat, stores: bool, count: nat, ops: seq<Op>) returns (answers: seq<Block>)
    requires n > 0 && forall i {:trigger ops[i]} :: 0 <= i < |ops| ==> ops[i].a < count
    requires stores || NeverLossy(n, seq(blockSize, i => 0), ops)
    ensures |answers| == |ops|
    ensures forall i {:trigger answers[i]} :: 0 <= i < |ops| && ops[i].ReadOp? && ops[i].a in Flat(ops[..i]) ==>
              answers[i] == Flat(ops[..i])[ops[i].a]
  {
    var store := new FileBlkAccessor(blockSize, n, stores);
    for c := 0 to count
      invariant store.Valid() && store.cursor == c && store.freed == {} && store.View() == Start(n, stores, store.zero)
    {
      var _ := store.Allocate();
    }
    answers := Serve(store, ops);
    forall i | 0 <= i < |ops| && ops[i].ReadOp? && ops[i].a in Flat(ops[..i])
      ensures answers[i] == Flat(ops[..i])[ops[i].a]
    {
      if stores { StoredIsIntact(n, store.zero, ops[..i], ops[i].a); } else { ReadsAreRight(n, store.zero, ops, i); }
    }
  }
}
