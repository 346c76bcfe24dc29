/** The cached file store as a value, and exactly when it loses a block.

    A store is the file, the cells of the cache and the history of uses. A run is a sequence of calls on live addresses.
    What a caller can check is stated over the calls alone: which addresses were used last, whether a block came in with
    a read, what that read returned, what was written since, and how far the file reaches. */
module StoreRuns {
  import opened BlockCache

  // ---------- the store ----------

  /** `stores` tells whether a write that hits stores the dirty bit, as it means to; `zero` is a block of zeros. */
  datatype Store = Store(n: nat, stores: bool, zero: Block, uses: seq<Addr>, cells: map<Addr, Cell>, file: seq<Block>)

  function Start(n: nat, stores: bool, zero: Block): Store {
    Store(n, stores, zero, [], map[], [])
  }

  /** `pread`: past the end of the file the buffer stays as it is. */
  function Pread(file: seq<Block>, a: Addr, buffer: Block): Block {
    if a < |file| then file[a] else buffer
  }

  /** `pwrite`: a gap before the block reads as zeros. */
  function Pwrite(file: seq<Block>, a: Addr, data: Block, zero: Block): (r: seq<Block>)
    ensures |r| == (if a < |file| then |file| else a + 1)
    ensures forall b {:trigger r[b]} ::
              0 <= b < |r| ==> r[b] == if b == a then data else if b < |file| then file[b] else zero
  {
    if a < |file| then file[a := data] else file + seq(a - |file|, i => zero) + [data]
  }

  /** Address `a` comes in with a cell, and another may leave; it is written back if it is dirty, or always. */
  function Place(st: Store, a: Addr, cell: Cell, always: bool): Store {
    var cells := st.cells[a := cell];
    match Victim(st.uses, st.n, a)
    case None => st.(uses := st.uses + [a], cells := cells)
    case Some(v) =>
      st.(uses := st.uses + [a], cells := cells - {v},
          file := if v in cells && (always || cells[v].dirty) then Pwrite(st.file, v, cells[v].data, st.zero)
              else st.file)
  }

  /** What a read returns. */
  function Got(st: Store, a: Addr, buffer: Block): Block {
    if a in st.cells then st.cells[a].data else Pread(st.file, a, buffer)
  }

  function AfterRead(st: Store, a: Addr, buffer: Block): Store {
    if a in st.cells then st.(uses := st.uses + [a]) else Place(st, a, Cell(Got(st, a, buffer), false), true)
  }

  function AfterWrite(st: Store, a: Addr, data: Block): Store {
    Place(st, a, Cell(data, if a in st.cells then st.cells[a].dirty || st.stores else true), false)
  }

  // ---------- runs ----------

  /** A call; a read has whatever its buffer held before. */
  datatype Op = ReadOp(a: Addr, buffer: Block) | WriteOp(a: Addr, data: Block)

  function After(st: Store, op: Op): Store {
    match op
    case ReadOp(a, buffer) => AfterRead(st, a, buffer)
    case WriteOp(a, data) => AfterWrite(st, a, data)
  }

  function Run(st: Store, ops: seq<Op>): Store {
    if ops == [] then st else After(Run(st, ops[..|ops| - 1]), ops[|ops| - 1])
  }

  /** The flat array: what was written last to each address. */
  function Flat(ops: seq<Op>): map<Addr, Block> {
    if ops == [] then map[]
    else
      var op := ops[|ops| - 1];
      var before := Flat(ops[..|ops| - 1]);
      if op.WriteOp? then before[op.a := op.data] else before
  }

  /** Whatever its buffer holds, a read of `a` returns what the flat array has. */
  ghost predicate ReadsBack(st: Store, flat: map<Addr, Block>, a: Addr) {
    a in flat ==> forall buffer :: Got(st, a, buffer) == flat[a]
  }

  /** Every read that could be made of a block ever written would be right. */
  ghost predicate Intact(st: Store, flat: map<Addr, Block>) {
    forall a {:trigger ReadsBack(st, flat, a)} :: ReadsBack(st, flat, a)
  }

  lemma RunStep(st: Store, ops: seq<Op>, op: Op)
    ensures Run(st, ops + [op]) == After(Run(st, ops), op)
    ensures Flat(ops + [op]) == if op.WriteOp? then Flat(ops)[op.a := op.data] else Flat(ops)
  {
    assert (ops + [op])[..|ops|] == ops;
  }

  // ---------- with the dirty bit stored nothing is lost ----------

  /** A cell not marked dirty is on file as written. */
  ghost predicate Safe(st: Store, flat: map<Addr, Block>, a: Addr) {
    && (a in flat && a in st.cells ==> st.cells[a].data == flat[a])
    && (a in flat && (a !in st.cells || !st.cells[a].dirty) ==> a < |st.file| && st.file[a] == flat[a])
  }

  lemma SafeStep(st: Store, op: Op, flat: map<Addr, Block>, flat': map<Addr, Block>, b: Addr)
    requires st.stores && Safe(st, flat, b) && Safe(st, flat, op.a)
    requires flat' == if op.WriteOp? then flat[op.a := op.data] else flat
    ensures Safe(After(st, op), flat', b)
  {
  }

  /** With the dirty bit stored, after any sequence of calls every block ever written reads back as it was written last.
      */
  lemma {:induction false} StoredIsIntact(n: nat, zero: Block, ops: seq<Op>, a: Addr)
    ensures Safe(Run(Start(n, true, zero), ops), Flat(ops), a) && Run(Start(n, true, zero), ops).stores
    ensures ReadsBack(Run(Start(n, true, zero), ops), Flat(ops), a)
  {
    if ops != [] {
      var k := |ops| - 1;
      StoredIsIntact(n, zero, ops[..k], a);
      StoredIsIntact(n, zero, ops[..k], ops[k].a);
      SafeStep(Run(Start(n, true, zero), ops[..k]), ops[k], Flat(ops[..k]), Flat(ops), a);
    }
  }

  // ---------- as written: what a caller can tell ----------

  function Uses(ops: seq<Op>): (r: seq<Addr>)
    ensures |r| == |ops|
  {
    if ops == [] then [] else Uses(ops[..|ops| - 1]) + [ops[|ops| - 1].a]
  }

  /** The call with which the block came into the cache for its present stay, if it is there. */
  function Stay(ops: seq<Op>, n: nat, b: Addr): (j: Option<nat>)
    ensures j.Some? ==> j.value < |ops| && ops[j.value].a == b
  {
    if b !in Kept(Uses(ops), n) || ops == [] then None
    else
      var k := |ops| - 1;
      if ops[k].a == b && b !in Kept(Uses(ops[..k]), n) then Some(k) else Stay(ops[..k], n, b)
  }

  predicate CameByRead(ops: seq<Op>, n: nat, b: Addr) {
    Stay(ops, n, b).Some? && ops[Stay(ops, n, b).value].ReadOp?
  }

  /** The address that leaves with call `op`. */
  function Leaves(ops: seq<Op>, op: Op, n: nat): Option<Addr> {
    Victim(Uses(ops), n, op.a)
  }

  /** How many blocks the file reaches: a block that leaves is written back with a read, or if it came with a write. */
  function Reach(ops: seq<Op>, n: nat): nat {
    if ops == [] then 0
    else
      var before, op := ops[..|ops| - 1], ops[|ops| - 1];
      match Leaves(before, op, n)
      case None => Reach(before, n)
      case Some(v) =>
        if (op.ReadOp? || !CameByRead(before, n, v)) && Reach(before, n) <= v then v + 1 else Reach(before, n)
  }

  /** What call `j`, a read, returned. */
  function Returned(n: nat, zero: Block, ops: seq<Op>, j: nat): Block
    requires j < |ops| && ops[j].ReadOp?
  {
    Got(Run(Start(n, false, zero), ops[..j]), ops[j].a, ops[j].buffer)
  }

  /** A write that misses and pushes out a block that came in with a read and was since written with other contents than
      that read returned. If the read was past the end of the file it returned nothing of the block: then anything is
      other contents, but for zeros once the file reaches past the block. */
  predicate Lossy(n: nat, zero: Block, ops: seq<Op>, op: Op) {
    && op.WriteOp? && Leaves(ops, op, n).Some?
    && var v := Leaves(ops, op, n).value;
       && v in Flat(ops) && CameByRead(ops, n, v)
       && var j := Stay(ops, n, v).value;
          if v < Reach(ops[..j], n) then Flat(ops)[v] != Returned(n, zero, ops, j)
          else !(v < Reach(ops, n) && Flat(ops)[v] == zero)
  }

  // ---------- the calls tell the state ----------

  /** What holds of the store as a whole after a sequence of calls. */
  ghost predicate Known(n: nat, zero: Block, ops: seq<Op>, st: Store) {
    st.n == n && !st.stores && st.zero == zero && st.uses == Uses(ops) && |st.file| == Reach(ops, n)
  }

  /** What the file has for a block that came in with the read `j`. */
  ghost predicate OnFile(n: nat, zero: Block, ops: seq<Op>, file: seq<Block>, b: Addr, j: nat)
    requires j < |ops| && ops[j].ReadOp?
  {
    if b < Reach(ops[..j], n) then b < |file| && file[b] == Returned(n, zero, ops, j)
    else b < |file| ==> file[b] == zero
  }

  /** A block is cached if it is kept, and dirty if it came with a write. */
  ghost predicate CellKnown(n: nat, zero: Block, ops: seq<Op>, st: Store, b: Addr) {
    && (b in st.cells <==> b in Kept(Uses(ops), n))
    && (b in st.cells ==> Stay(ops, n, b).Some? && (st.cells[b].dirty <==> !CameByRead(ops, n, b)))
    && (b in st.cells && CameByRead(ops, n, b) ==> OnFile(n, zero, ops, st.file, b, Stay(ops, n, b).value))
  }

  lemma CallsStep(ops: seq<Op>, op: Op, n: nat, b: Addr)
    requires n > 0
    ensures Uses(ops + [op]) == Uses(ops) + [op.a]
    ensures b in Kept(Uses(ops + [op]), n) <==> (b == op.a || b in Kept(Uses(ops), n)) && Leaves(ops, op, n) != Some(b)
    ensures Leaves(ops, op, n).Some? ==>
              Leaves(ops, op, n).value in Kept(Uses(ops), n) && Leaves(ops, op, n).value != op.a
    ensures Leaves(ops, op, n).Some? ==> op.a !in Kept(Uses(ops), n)
  {
    assert (ops + [op])[..|ops|] == ops;
    KeptUse(Uses(ops), n, op.a, b);
  }

  lemma StayStep(ops: seq<Op>, op: Op, n: nat, b: Addr)
    requires n > 0
    ensures Stay(ops + [op], n, b) ==
              if b !in Kept(Uses(ops + [op]), n) then None
              else if op.a == b && b !in Kept(Uses(ops), n) then Some(|ops|) else Stay(ops, n, b)
  {
    assert (ops + [op])[..|ops|] == ops;
  }

  lemma ReachStep(ops: seq<Op>, op: Op, n: nat)
    ensures Reach(ops + [op], n) ==
              match Leaves(ops, op, n)
              case None => Reach(ops, n)
              case Some(v) =>
                if (op.ReadOp? || !CameByRead(ops, n, v)) && Reach(ops, n) <= v then v + 1 else Reach(ops, n)
  {
    assert (ops + [op])[..|ops|] == ops;
  }

  lemma KnownStep(n: nat, zero: Block, ops: seq<Op>, op: Op, st: Store)
    requires n > 0 && Known(n, zero, ops, st) && CellKnown(n, zero, ops, st, op.a)
    requires Leaves(ops, op, n).Some? ==> CellKnown(n, zero, ops, st, Leaves(ops, op, n).value)
    ensures Known(n, zero, ops + [op], After(st, op))
  {
    CallsStep(ops, op, n, op.a);
    ReachStep(ops, op, n);
  }

  /** Where the file reaches `b` it stays as it is, unless `b` leaves; where it comes to reach `b` it has zeros. */
  lemma FileStep(st: Store, op: Op, b: Addr)
    requires Victim(st.uses, st.n, op.a) != Some(b)
    ensures |st.file| <= |After(st, op).file| && (b < |st.file| ==> After(st, op).file[b] == st.file[b])
    ensures |st.file| <= b < |After(st, op).file| ==> After(st, op).file[b] == st.zero
  {
  }

  lemma OnFileStep(n: nat, zero: Block, ops: seq<Op>, op: Op, file: seq<Block>, file': seq<Block>, b: Addr, j: nat)
    requires j < |ops| && ops[j].ReadOp? && OnFile(n, zero, ops, file, b, j)
    requires |file| <= |file'| && (b < |file| ==> file'[b] == file[b]) && (|file| <= b < |file'| ==> file'[b] == zero)
    ensures (ops + [op])[j] == ops[j] && OnFile(n, zero, ops + [op], file', b, j)
  {
    assert (ops + [op])[..j] == ops[..j] && (ops + [op])[j] == ops[j];
  }

  lemma CellStays(n: nat, zero: Block, ops: seq<Op>, op: Op, st: Store, b: Addr)
    requires n > 0 && Known(n, zero, ops, st) && CellKnown(n, zero, ops, st, b)
    requires b in Kept(Uses(ops), n) && b in Kept(Uses(ops + [op]), n) && Leaves(ops, op, n) != Some(b)
    ensures CellKnown(n, zero, ops + [op], After(st, op), b)
  {
    StayStep(ops, op, n, b);
    FileStep(st, op, b);
    var j := Stay(ops, n, b).value;
    assert (ops + [op])[j] == ops[j];
    if ops[j].ReadOp? { OnFileStep(n, zero, ops, op, st.file, After(st, op).file, b, j); }
  }

  lemma CellComes(n: nat, zero: Block, ops: seq<Op>, op: Op, st: Store)
    requires n > 0 && Known(n, zero, ops, st) && st == Run(Start(n, false, zero), ops)
    requires CellKnown(n, zero, ops, st, op.a)
    requires op.a !in Kept(Uses(ops), n) && op.a in Kept(Uses(ops + [op]), n) && Leaves(ops, op, n) != Some(op.a)
    ensures CellKnown(n, zero, ops + [op], After(st, op), op.a)
  {
    StayStep(ops, op, n, op.a);
    FileStep(st, op, op.a);
    assert (ops + [op])[..|ops|] == ops && (ops + [op])[|ops|] == op;
  }

  lemma CellGoes(n: nat, zero: Block, ops: seq<Op>, op: Op, st: Store, b: Addr)
    requires n > 0 && Known(n, zero, ops, st) && CellKnown(n, zero, ops, st, b) && CellKnown(n, zero, ops, st, op.a)
    requires b !in Kept(Uses(ops + [op]), n)
    ensures b !in After(st, op).cells
  {
    CallsStep(ops, op, n, b);
  }

  lemma CellStep(n: nat, zero: Block, ops: seq<Op>, op: Op, st: Store, b: Addr)
    requires n > 0 && Known(n, zero, ops, st) && st == Run(Start(n, false, zero), ops)
    requires CellKnown(n, zero, ops, st, b) && CellKnown(n, zero, ops, st, op.a)
    ensures CellKnown(n, zero, ops + [op], After(st, op), b)
  {
    CallsStep(ops, op, n, b);
    if b !in Kept(Uses(ops + [op]), n) { CellGoes(n, zero, ops, op, st, b); }
    else if b in Kept(Uses(ops), n) { CellStays(n, zero, ops, op, st, b); }
    else { CellComes(n, zero, ops, op, st); }
  }

  /** After any sequence of calls the store is known. */
  lemma {:induction false} RunKnown(n: nat, zero: Block, ops: seq<Op>, b: Addr)
    requires n > 0
    ensures Known(n, zero, ops, Run(Start(n, false, zero), ops))
    ensures CellKnown(n, zero, ops, Run(Start(n, false, zero), ops), b)
  {
    if ops != [] {
      var k := |ops| - 1;
      var before, op := ops[..k], ops[k];
      assert before + [op] == ops;
      RunKnown(n, zero, before, b);
      RunKnown(n, zero, before, op.a);
      if Leaves(before, op, n).Some? { RunKnown(n, zero, before, Leaves(before, op, n).value); }
      KnownStep(n, zero, before, op, Run(Start(n, false, zero), before));
      CellStep(n, zero, before, op, Run(Start(n, false, zero), before), b);
    }
  }

  // ---------- exactly when a block is lost ----------

  lemma ReadsBackIs(st: Store, flat: map<Addr, Block>, a: Addr)
    ensures ReadsBack(st, flat, a) <==>
              a in flat ==> if a in st.cells then st.cells[a].data == flat[a]
                  else a < |st.file| && st.file[a] == flat[a]
  {
    assert Got(st, a, []) == Got(st, a, [0]) || Got(st, a, []) == [];
  }

  /** A call keeps every block but the one that leaves, and a read keeps that too. */
  lemma OthersReadBack(n: nat, zero: Block, ops: seq<Op>, op: Op, st: Store, flat: map<Addr, Block>, flat': map<Addr,
        Block>, b: Addr)
    requires n > 0 && Known(n, zero, ops, st) && CellKnown(n, zero, ops, st, op.a) && CellKnown(n, zero, ops, st, b)
    requires flat' == if op.WriteOp? then flat[op.a := op.data] else flat
    requires ReadsBack(st, flat, op.a) && ReadsBack(st, flat, b)
    requires Leaves(ops, op, n) != Some(b) || op.ReadOp?
    ensures ReadsBack(After(st, op), flat', b)
  {
    var st' := After(st, op);
    ReadsBackIs(st, flat, b);
    ReadsBackIs(st, flat, op.a);
    ReadsBackIs(st', flat', b);
    CallsStep(ops, op, n, b);
    if Leaves(ops, op, n) != Some(b) { FileStep(st, op, b); }
  }

  /** What a write pushes out reads back if and only if the write is not lossy. */
  lemma LeaverReadsBack(n: nat, zero: Block, ops: seq<Op>, op: Op, st: Store, flat: map<Addr, Block>, flat': map<Addr,
        Block>, v: Addr)
    requires n > 0 && Known(n, zero, ops, st) && CellKnown(n, zero, ops, st, op.a) && CellKnown(n, zero, ops, st, v)
    requires op.WriteOp? && flat == Flat(ops) && flat' == flat[op.a := op.data] && Leaves(ops, op, n) == Some(v)
    requires ReadsBack(st, flat, v)
    ensures ReadsBack(After(st, op), flat', v) <==> !Lossy(n, zero, ops, op)
  {
    ReadsBackIs(st, flat, v);
    ReadsBackIs(After(st, op), flat', v);
    CallsStep(ops, op, n, v);
  }

  lemma CallKeeps(n: nat, zero: Block, ops: seq<Op>, op: Op, st: Store, flat: map<Addr, Block>, flat': map<Addr,
        Block>, b: Addr)
    requires n > 0 && st == Run(Start(n, false, zero), ops) && Intact(st, flat)
    requires flat' == if op.WriteOp? then flat[op.a := op.data] else flat
    requires Leaves(ops, op, n) != Some(b) || op.ReadOp?
    ensures ReadsBack(After(st, op), flat', b)
  {
    RunKnown(n, zero, ops, op.a);
    RunKnown(n, zero, ops, b);
    assert ReadsBack(st, flat, op.a) && ReadsBack(st, flat, b);
    OthersReadBack(n, zero, ops, op, st, flat, flat', b);
  }

  lemma WriteExact(n: nat, zero: Block, ops: seq<Op>, op: Op, st: Store, flat: map<Addr, Block>, flat': map<Addr,
        Block>, v: Addr)
    requires n > 0 && st == Run(Start(n, false, zero), ops) && Intact(st, flat) && flat == Flat(ops)
    requires op.WriteOp? && flat' == flat[op.a := op.data] && Leaves(ops, op, n) == Some(v)
    ensures ReadsBack(After(st, op), flat', v) <==> !Lossy(n, zero, ops, op)
  {
    RunKnown(n, zero, ops, op.a);
    RunKnown(n, zero, ops, v);
    assert ReadsBack(st, flat, v);
    LeaverReadsBack(n, zero, ops, op, st, flat, flat', v);
  }

  lemma CallExact(n: nat, zero: Block, ops: seq<Op>, op: Op, st: Store, st': Store, flat: map<Addr, Block>,
        flat': map<Addr, Block>)
    requires n > 0 && st == Run(Start(n, false, zero), ops) && flat == Flat(ops) && Intact(st, flat)
    requires st' == After(st, op) && flat' == if op.WriteOp? then flat[op.a := op.data] else flat
    ensures Intact(st', flat') <==> !Lossy(n, zero, ops, op)
  {
    if op.WriteOp? && Leaves(ops, op, n).Some? {
      var v := Leaves(ops, op, n).value;
      WriteExact(n, zero, ops, op, st, flat, flat', v);
      forall b: Addr | b != v ensures ReadsBack(st', flat', b) { CallKeeps(n, zero, ops, op, st, flat, flat', b); }
      assert ReadsBack(st', flat', v) <==> !Lossy(n, zero, ops, op);
    } else {
      forall b: Addr ensures ReadsBack(st', flat', b) { CallKeeps(n, zero, ops, op, st, flat, flat', b); }
    }
  }

  ghost predicate IntactAt(n: nat, zero: Block, ops: seq<Op>, i: nat)
    requires i <= |ops|
  {
    Intact(Run(Start(n, false, zero), ops[..i]), Flat(ops[..i]))
  }

  predicate LossyAt(n: nat, zero: Block, ops: seq<Op>, i: nat)
    requires i < |ops|
  {
    Lossy(n, zero, ops[..i], ops[i])
  }

  /** At every point of the sequence, every read that could be made of a block ever written is right. */
  ghost predicate AlwaysIntact(n: nat, zero: Block, ops: seq<Op>) {
    forall i {:trigger IntactAt(n, zero, ops, i)} :: 0 <= i <= |ops| ==> IntactAt(n, zero, ops, i)
  }

  ghost predicate NeverLossy(n: nat, zero: Block, ops: seq<Op>) {
    forall i {:trigger LossyAt(n, zero, ops, i)} :: 0 <= i < |ops| ==> !LossyAt(n, zero, ops, i)
  }

  lemma AlwaysStep(n: nat, zero: Block, ops: seq<Op>, op: Op, ops': seq<Op>)
    requires ops' == ops + [op]
    ensures AlwaysIntact(n, zero, ops') <==> AlwaysIntact(n, zero, ops) && IntactAt(n, zero, ops', |ops'|)
  {
    forall i | 0 <= i <= |ops| ensures IntactAt(n, zero, ops', i) == IntactAt(n, zero, ops, i) {
      assert ops'[..i] == ops[..i];
    }
  }

  lemma NeverStep(n: nat, zero: Block, ops: seq<Op>, op: Op, ops': seq<Op>)
    requires ops' == ops + [op]
    ensures NeverLossy(n, zero, ops') <==> NeverLossy(n, zero, ops) && !Lossy(n, zero, ops, op)
  {
    forall i | 0 <= i < |ops| ensures LossyAt(n, zero, ops', i) == LossyAt(n, zero, ops, i) {
      assert ops'[..i] == ops[..i];
    }
    assert ops'[..|ops|] == ops && LossyAt(n, zero, ops', |ops|) == Lossy(n, zero, ops, op);
  }

  /** As written: every read that could be made at any point of a sequence of calls is right if and only if no call is
      lossy. */
  lemma {:induction false} ExactlyLossy(n: nat, zero: Block, ops: seq<Op>)
    requires n > 0
    ensures AlwaysIntact(n, zero, ops) <==> NeverLossy(n, zero, ops)
  {
    if ops == [] {
      forall i | 0 <= i <= |ops| ensures IntactAt(n, zero, ops, i) { assert ops[..i] == []; }
    } else {
      var before, op := ops[..|ops| - 1], ops[|ops| - 1];
      assert before + [op] == ops;
      ExactlyLossy(n, zero, before);
      AlwaysStep(n, zero, before, op, ops);
      NeverStep(n, zero, before, op, ops);
      if AlwaysIntact(n, zero, before) { LastExact(n, zero, before, op, ops); }
    }
  }

  lemma LastExact(n: nat, zero: Block, ops: seq<Op>, op: Op, ops': seq<Op>)
    requires n > 0 && ops' == ops + [op] && AlwaysIntact(n, zero, ops)
    ensures IntactAt(n, zero, ops', |ops'|) <==> !Lossy(n, zero, ops, op)
  {
    var start := Start(n, false, zero);
    assert ops[..|ops|] == ops && ops'[..|ops'|] == ops';
    assert IntactAt(n, zero, ops, |ops|);
    RunStep(start, ops, op);
    CallExact(n, zero, ops, op, Run(start, ops), Run(start, ops'), Flat(ops), Flat(ops'));
  }

  /** So without a lossy call every read that is made is right. */
  lemma ReadsAreRight(n: nat, zero: Block, ops: seq<Op>, i: nat)
    requires n > 0 && NeverLossy(n, zero, ops)
    requires i < |ops| && ops[i].ReadOp? && ops[i].a in Flat(ops[..i])
    ensures Returned(n, zero, ops, i) == Flat(ops[..i])[ops[i].a]
  {
    ExactlyLossy(n, zero, ops);
    assert IntactAt(n, zero, ops, i);
    assert ReadsBack(Run(Start(n, false, zero), ops[..i]), Flat(ops[..i]), ops[i].a);
  }

  // ---------- a lost block, for any capacity ----------

  /** Read block 0 and write it, then write blocks 1 to k. */
  function Calls(first: Block, data: Block, other: Block, k: nat): (r: seq<Op>)
    ensures |r| == k + 2
  {
    if k == 0 then [ReadOp(0, first), WriteOp(0, data)] else Calls(first, data, other, k - 1) + [WriteOp(k, other)]
  }

  function Down(k: nat): (r: seq<Addr>)
    ensures |r| == k + 1 && r[k] == 0 && forall a {:trigger a in r} :: a in r <==> 0 <= a <= k
  {
    if k == 0 then [0] else [k] + Down(k - 1)
  }

  lemma {:induction false} CallsRecent(first: Block, data: Block, other: Block, k: nat)
    ensures Recent(Uses(Calls(first, data, other, k))) == Down(k)
  {
    var ops := Calls(first, data, other, k);
    if k == 0 {
      assert ops[..1] == [ReadOp(0, first)] && [ReadOp(0, first)][..0] == [];
      assert Uses([ReadOp(0, first)]) == [0] && Uses(ops) == [0, 0];
      RecentUse([], 0);
      RecentUse([0], 0);
      assert [] + [0] == [0] && [0] + [0] == [0, 0];
    } else {
      CallsRecent(first, data, other, k - 1);
      assert ops[..k + 1] == Calls(first, data, other, k - 1);
      RecentUse(Uses(Calls(first, data, other, k - 1)), k);
      WithoutNone(Down(k - 1), k);
    }
  }

  lemma CallsKept(first: Block, data: Block, other: Block, k: nat, n: nat, ops: seq<Op>)
    requires k < n && ops == Calls(first, data, other, k)
    ensures Kept(Uses(ops), n) == Down(k)
  {
    CallsRecent(first, data, other, k);
    assert Down(k)[..|Down(k)|] == Down(k);
  }

  lemma CallsAre(first: Block, data: Block, other: Block, k: nat) returns (before: seq<Op>, op: Op)
    ensures Calls(first, data, other, k) == before + [op] && op.WriteOp? && |before| == k + 1
    ensures k == 0 ==> before == [] + [ReadOp(0, first)] && op == WriteOp(0, data)
    ensures k > 0 ==> before == Calls(first, data, other, k - 1) && op == WriteOp(k, other)
  {
    if k == 0 { before, op := [ReadOp(0, first)], WriteOp(0, data); }
    else { before, op := Calls(first, data, other, k - 1), WriteOp(k, other); }
  }

  /** The first two calls: block 0 comes with a read, and is written. */
  lemma FirstCalls(first: Block, data: Block, n: nat, one: seq<Op>, ops: seq<Op>)
    requires n > 0 && one == [] + [ReadOp(0, first)] && ops == one + [WriteOp(0, data)]
    requires Kept(Uses(ops), n) == Down(0)
    ensures Stay(ops, n, 0) == Some(0) && Reach(ops, n) == 0
  {
    CallsStep([], ReadOp(0, first), n, 0);
    StayStep([], ReadOp(0, first), n, 0);
    StayStep(one, WriteOp(0, data), n, 0);
    ReachStep([], ReadOp(0, first), n);
    ReachStep(one, WriteOp(0, data), n);
  }

  lemma LaterCall(before: seq<Op>, op: Op, n: nat, k: nat)
    requires 0 < k < n && op.a == k && Kept(Uses(before), n) == Down(k - 1) && Kept(Uses(before + [op]), n) == Down(k)
    ensures Stay(before + [op], n, 0) == Stay(before, n, 0) && Reach(before + [op], n) == Reach(before, n)
  {
    CallsStep(before, op, n, 0);
    StayStep(before, op, n, 0);
    ReachStep(before, op, n);
  }

  lemma StayFirst(first: Block, data: Block, other: Block, k: nat, n: nat, ops: seq<Op>)
    requires k < n && ops == Calls(first, data, other, k) && k == 0
    ensures Stay(ops, n, 0) == Some(0) && Reach(ops, n) == 0
  {
    var before, op := CallsAre(first, data, other, k);
    CallsKept(first, data, other, k, n, ops);
    FirstCalls(first, data, n, before, ops);
  }

  lemma StayLater(first: Block, data: Block, other: Block, k: nat, n: nat, ops: seq<Op>)
    requires 0 < k < n && ops == Calls(first, data, other, k)
    ensures var before := Calls(first, data, other, k - 1);
            Stay(ops, n, 0) == Stay(before, n, 0) && Reach(ops, n) == Reach(before, n)
  {
    var before, op := CallsAre(first, data, other, k);
    CallsKept(first, data, other, k, n, ops);
    CallsKept(first, data, other, k - 1, n, before);
    LaterCall(before, op, n, k);
  }

  /** As long as there is room nothing leaves, and block 0 is there since the first call. */
  lemma {:induction false} CallsStay(first: Block, data: Block, other: Block, k: nat, n: nat, ops: seq<Op>)
    requires k < n && ops == Calls(first, data, other, k)
    ensures Stay(ops, n, 0) == Some(0) && Reach(ops, n) == 0
    decreases k
  {
    if k == 0 { StayFirst(first, data, other, k, n, ops); }
    else {
      CallsStay(first, data, other, k - 1, n, Calls(first, data, other, k - 1));
      StayLater(first, data, other, k, n, ops);
    }
  }

  lemma {:induction false} CallsWrite(first: Block, data: Block, other: Block, k: nat, ops: seq<Op>)
    requires ops == Calls(first, data, other, k)
    ensures 0 in Flat(ops) && Flat(ops)[0] == data && ops[0] == ReadOp(0, first)
    decreases k
  {
    var before, op := CallsAre(first, data, other, k);
    if k > 0 { CallsWrite(first, data, other, k - 1, before); }
    RunStep(Start(0, false, []), before, op);
  }

  lemma LastLeaves(n: nat, kept: seq<Addr>)
    requires n > 0 && kept == Down(n - 1)
    ensures Leaver(kept, n, n) == Some(0)
  {
  }

  lemma LossyIs(n: nat, zero: Block, ops: seq<Op>, op: Op, v: Addr)
    requires op.WriteOp? && Leaves(ops, op, n) == Some(v) && v in Flat(ops) && Stay(ops, n, v) == Some(0)
    requires ops[0].ReadOp? && Reach(ops, n) == 0
    ensures CameByRead(ops, n, v) && Lossy(n, zero, ops, op)
  {
    assert Reach(ops[..0], n) == 0;
  }

  /** The next write pushes block 0 out. */
  lemma NextLeaves(first: Block, data: Block, other: Block, n: nat, before: seq<Op>, op: Op)
    requires n > 0 && before == Calls(first, data, other, n - 1) && op == WriteOp(n, other)
    ensures Leaves(before, op, n) == Some(0)
  {
    CallsKept(first, data, other, n - 1, n, before);
    LastLeaves(n, Kept(Uses(before), n));
  }

  /** A block that is neither cached nor on file. */
  lemma Gone(n: nat, zero: Block, before: seq<Op>, op: Op, buffer: Block)
    requires n > 0 && op.WriteOp? && Leaves(before, op, n) == Some(0)
    requires CameByRead(before, n, 0) && Reach(before, n) == 0
    ensures Got(Run(Start(n, false, zero), before + [op]), 0, buffer) == buffer
  {
    CallsStep(before, op, n, 0);
    ReachStep(before, op, n);
    RunKnown(n, zero, before + [op], 0);
  }

  /** With any capacity: a block read in, written, and pushed out by the last of `n` other writes is lost. It is neither
      cached nor on file, and a read leaves its buffer as it was. */
  lemma LostWrite(n: nat, zero: Block, first: Block, data: Block, other: Block, buffer: Block)
    requires n > 0
    ensures var ops := Calls(first, data, other, n);
            && LossyAt(n, zero, ops, n + 1) && 0 in Flat(ops) && Flat(ops)[0] == data
            && Got(Run(Start(n, false, zero), ops), 0, buffer) == buffer
  {
    var before, op := Calls(first, data, other, n - 1), WriteOp(n, other);
    var ops := before + [op];
    assert ops[..n + 1] == before && ops[n + 1] == op;
    NextLeaves(first, data, other, n, before, op);
    CallsStay(first, data, other, n - 1, n, before);
    CallsWrite(first, data, other, n - 1, before);
    LossyIs(n, zero, before, op, 0);
    Gone(n, zero, before, op, buffer);
    RunStep(Start(n, false, zero), before, op);
  }
}
