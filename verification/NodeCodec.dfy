/** Nodes as bytes: what a leaf or inner node writes to its block, it reads back. */
module NodeCodec {
  newtype byte = x: int | 0 <= x < 256
  type Bytes = seq<byte>

  datatype Option<T> = None | Some(value: T)

  const INNER_NODE := 0
  const LEAF_NODE := 1

  // ---------- numbers, least significant byte first ----------

  function Size(w: nat): (n: nat)
    ensures n > 0
  {
    if w == 0 then 1 else 256 * Size(w - 1)
  }

  function Put(x: nat, w: nat): (b: Bytes)
    ensures |b| == w
  {
    if w == 0 then [] else [(x % 256) as byte] + Put(x / 256, w - 1)
  }

  function Get(b: Bytes): (x: nat)
    ensures x < Size(|b|)
  {
    if b == [] then 0 else b[0] as int + 256 * Get(b[1..])
  }

  lemma {:induction false} GetPut(x: nat, w: nat)
    requires x < Size(w)
    ensures Get(Put(x, w)) == x
  {
    if w > 0 {
      GetPut(x / 256, w - 1);
      assert Put(x, w)[1..] == Put(x / 256, w - 1);
    }
  }

  /** Two's complement. */
  predicate Fits(x: int, w: nat) {
    0 <= 2 * x + Size(w) && 2 * x < Size(w)
  }

  function PutInt(x: int, w: nat): (b: Bytes)
    requires Fits(x, w)
    ensures |b| == w
  {
    Put(if x < 0 then x + Size(w) else x, w)
  }

  function GetInt(b: Bytes): int {
    var x := Get(b);
    if 2 * x < Size(|b|) then x else x - Size(|b|)
  }

  lemma GetPutInt(x: int, w: nat)
    requires Fits(x, w)
    ensures GetInt(PutInt(x, w)) == x
  {
    GetPut(if x < 0 then x + Size(w) else x, w);
  }

  // ---------- arrays ----------

  predicate AllFit(xs: seq<int>, w: nat) {
    forall i {:trigger xs[i]} :: 0 <= i < |xs| ==> Fits(xs[i], w)
  }

  /** The bytes of an array of `w`-byte numbers. */
  function Pack(xs: seq<int>, w: nat): Bytes
    requires AllFit(xs, w)
  {
    if xs == [] then [] else PutInt(xs[0], w) + Pack(xs[1..], w)
  }

  function Unpack(b: Bytes, w: nat, n: nat): (xs: seq<int>)
    ensures |xs| == n
  {
    if n == 0 then [] else if |b| < w then seq(n, i => 0) else [GetInt(b[..w])] + Unpack(b[w..], w, n - 1)
  }

  lemma {:induction false} PackLength(xs: seq<int>, w: nat)
    requires AllFit(xs, w)
    ensures |Pack(xs, w)| == |xs| * w
  {
    if xs != [] {
      PackLength(xs[1..], w);
      assert |xs| * w == w + |xs[1..]| * w;
    }
  }

  lemma Sliced(a: Bytes, b: Bytes, rest: Bytes)
    ensures (a + b + rest)[..|a|] == a && (a + b + rest)[|a|..] == b + rest
  {
  }

  /** An array is read back from the front of a buffer, whatever follows it. */
  lemma {:induction false} UnpackPack(xs: seq<int>, w: nat, rest: Bytes)
    requires AllFit(xs, w)
    ensures Unpack(Pack(xs, w) + rest, w, |xs|) == xs
  {
    if xs != [] {
      UnpackPack(xs[1..], w, rest);
      GetPutInt(xs[0], w);
      Sliced(PutInt(xs[0], w), Pack(xs[1..], w), rest);
    }
  }

  // ---------- nodes ----------

  /** What is written of a node: its valid entries, or its valid keys and child addresses. */
  datatype Image =
    | Leaf(self: int, right: int, keys: seq<int>, vals: seq<int>)
    | Inner(self: int, keys: seq<int>, children: seq<int>)

  /** Sizes of a key and a value in bytes, and the node capacity. */
  datatype Shape = Shape(ks: nat, vs: nat, capacity: nat)

  predicate Storable(sh: Shape, n: Image) {
    && Fits(n.self, 8) && AllFit(n.keys, sh.ks) && |n.keys| <= sh.capacity < Size(4)
    && match n
       case Leaf(_, right, keys, vals) => |vals| == |keys| && Fits(right, 8) && AllFit(vals, sh.vs)
       case Inner(_, keys, children) => |children| == |keys| && AllFit(children, 8)
  }

  /** Key and value side by side, entry by entry. */
  function PackEntries(keys: seq<int>, vals: seq<int>, sh: Shape): Bytes
    requires |vals| == |keys| && AllFit(keys, sh.ks) && AllFit(vals, sh.vs)
  {
    if keys == [] then [] else PutInt(keys[0], sh.ks) + PutInt(vals[0], sh.vs) + PackEntries(keys[1..], vals[1..], sh)
  }

  function UnpackEntries(b: Bytes, sh: Shape, n: nat): (r: (seq<int>, seq<int>)) {
    if n == 0 then ([], [])
    else if |b| < sh.ks + sh.vs then (seq(n, i => 0), seq(n, i => 0))
    else
      var rest := UnpackEntries(b[sh.ks + sh.vs..], sh, n - 1);
      ([GetInt(b[..sh.ks])] + rest.0, [GetInt(b[sh.ks..sh.ks + sh.vs])] + rest.1)
  }

  lemma Entry(k: Bytes, v: Bytes, more: Bytes)
    ensures (k + v + more)[..|k|] == k && (k + v + more)[|k|..|k| + |v|] == v && (k + v + more)[|k| + |v|..] == more
  {
  }

  lemma UnpackEntry(k: Bytes, v: Bytes, more: Bytes, sh: Shape, n: nat)
    requires n > 0 && |k| == sh.ks && |v| == sh.vs
    ensures var rest := UnpackEntries(more, sh, n - 1);
            UnpackEntries(k + v + more, sh, n) == ([GetInt(k)] + rest.0, [GetInt(v)] + rest.1)
  {
    Entry(k, v, more);
  }

  lemma {:induction false} EntriesBack(keys: seq<int>, vals: seq<int>, sh: Shape, rest: Bytes)
    requires |vals| == |keys| && AllFit(keys, sh.ks) && AllFit(vals, sh.vs)
    ensures UnpackEntries(PackEntries(keys, vals, sh) + rest, sh, |keys|) == (keys, vals)
  {
    if keys != [] {
      EntriesBack(keys[1..], vals[1..], sh, rest);
      GetPutInt(keys[0], sh.ks);
      GetPutInt(vals[0], sh.vs);
      var k, v, more := PutInt(keys[0], sh.ks), PutInt(vals[0], sh.vs), PackEntries(keys[1..], vals[1..], sh);
      UnpackEntry(k, v, more + rest, sh, |keys|);
      assert k + v + more + rest == k + v + (more + rest);
      assert [keys[0]] + keys[1..] == keys && [vals[0]] + vals[1..] == vals;
    }
  }

  lemma {:induction false} EntriesLength(keys: seq<int>, vals: seq<int>, sh: Shape)
    requires |vals| == |keys| && AllFit(keys, sh.ks) && AllFit(vals, sh.vs)
    ensures |PackEntries(keys, vals, sh)| == |keys| * (sh.ks + sh.vs)
  {
    if keys != [] {
      EntriesLength(keys[1..], vals[1..], sh);
      assert |keys| * (sh.ks + sh.vs) == (sh.ks + sh.vs) + |keys[1..]| * (sh.ks + sh.vs);
    }
  }

  function Serialize(sh: Shape, n: Image): Bytes
    requires Storable(sh, n)
  {
    match n
    case Leaf(self, right, keys, vals) =>
      Put(LEAF_NODE, 4) + (Put(|keys|, 4) + (PutInt(self, 8) + (PutInt(right, 8) + PackEntries(keys, vals, sh))))
    case Inner(self, keys, children) =>
      Put(INNER_NODE, 4) + (Put(|keys|, 4) + (PutInt(self, 8) + (Pack(keys, sh.ks) + Pack(children, 8))))
  }

  /** The buffer after a node is written into it: the rest of the block stays as it was. */
  function Written(buffer: Bytes, b: Bytes): Bytes
    requires |b| <= |buffer|
  {
    b + buffer[|b|..]
  }

  function Deserialize(sh: Shape, b: Bytes): Option<Image>
    requires |b| >= 24
  {
    var size, self := Get(b[4..8]), GetInt(b[8..16]);
    var kind := Get(b[..4]);
    if kind == LEAF_NODE then
      var entries := UnpackEntries(b[24..], sh, size);
      Some(Leaf(self, GetInt(b[16..24]), entries.0, entries.1))
    else if kind == INNER_NODE && size * sh.ks <= |b| - 16 then
      Some(Inner(self, Unpack(b[16..], sh.ks, size), Unpack(b[16 + size * sh.ks..], 8, size)))
    else None
  }

  /** A node fits its block whenever a full one does. */
  lemma Fitting(sh: Shape, n: Image)
    requires Storable(sh, n)
    ensures n.Leaf? ==> |Serialize(sh, n)| == 24 + |n.keys| * (sh.ks + sh.vs) <= 24 + sh.capacity * (sh.ks + sh.vs)
    ensures n.Inner? ==> |Serialize(sh, n)| == 16 + |n.keys| * (sh.ks + 8) <= 16 + sh.capacity * (sh.ks + 8)
  {
    match n
    case Leaf(_, _, keys, vals) =>
      EntriesLength(keys, vals, sh);
      MulMono(|keys|, sh.capacity, sh.ks + sh.vs);
    case Inner(_, keys, children) =>
      PackLength(keys, sh.ks);
      PackLength(children, 8);
      assert |keys| * (sh.ks + 8) == |keys| * sh.ks + |keys| * 8;
      MulMono(|keys|, sh.capacity, sh.ks + 8);
  }

  lemma MulMono(a: nat, b: nat, w: nat)
    requires a <= b
    ensures a * w <= b * w
  {
  }

  /** The fixed fields at the front of a block. */
  lemma Header(kind: Bytes, size: Bytes, self: Bytes, tail: Bytes, rest: Bytes, b: Bytes)
    requires |kind| == |size| == 4 && |self| == 8 && b == kind + (size + (self + tail)) + rest
    ensures |b| >= 16 && b[..4] == kind && b[4..8] == size && b[8..16] == self && b[16..] == tail + rest
  {
  }

  lemma LeafBack(sh: Shape, n: Image, rest: Bytes, b: Bytes)
    requires Storable(sh, n) && n.Leaf? && b == Serialize(sh, n) + rest && |b| >= 24
    ensures Deserialize(sh, b) == Some(n)
  {
    var right, entries := PutInt(n.right, 8), PackEntries(n.keys, n.vals, sh);
    Header(Put(LEAF_NODE, 4), Put(|n.keys|, 4), PutInt(n.self, 8), right + entries, rest, b);
    Sliced(right, entries, rest);
    assert b[16..24] == b[16..][..8] && b[24..] == b[16..][8..];
    GetPut(LEAF_NODE, 4);
    GetPut(|n.keys|, 4);
    GetPutInt(n.self, 8);
    GetPutInt(n.right, 8);
    EntriesBack(n.keys, n.vals, sh, rest);
  }

  /** Keys and then children, followed by any bytes. */
  lemma InnerTail(keys: seq<int>, children: seq<int>, ks: nat, kb: Bytes, cb: Bytes, rest: Bytes, b: Bytes)
    requires |children| == |keys| && AllFit(keys, ks) && AllFit(children, 8)
    requires kb == Pack(keys, ks) && cb == Pack(children, 8) && b == kb + cb + rest
    ensures Unpack(b, ks, |keys|) == keys && Unpack(b[|kb|..], 8, |keys|) == children
  {
    assert b == kb + (cb + rest) && b[|kb|..] == cb + rest;
    UnpackPack(keys, ks, cb + rest);
    UnpackPack(children, 8, rest);
  }

  lemma InnerHead(sh: Shape, n: Image, rest: Bytes, b: Bytes)
    requires Storable(sh, n) && n.Inner? && b == Serialize(sh, n) + rest && |b| >= 24
    ensures Get(b[..4]) == INNER_NODE && Get(b[4..8]) == |n.keys| && GetInt(b[8..16]) == n.self
    ensures b[16..] == Pack(n.keys, sh.ks) + Pack(n.children, 8) + rest
  {
    Header(Put(INNER_NODE, 4), Put(|n.keys|, 4), PutInt(n.self, 8), Pack(n.keys, sh.ks) + Pack(n.children, 8), rest, b);
    GetPut(INNER_NODE, 4);
    GetPut(|n.keys|, 4);
    GetPutInt(n.self, 8);
  }

  lemma InnerBack(sh: Shape, n: Image, rest: Bytes, b: Bytes)
    requires Storable(sh, n) && n.Inner? && b == Serialize(sh, n) + rest && |b| >= 24
    ensures Deserialize(sh, b) == Some(n)
  {
    InnerHead(sh, n, rest, b);
    var keys, children := Pack(n.keys, sh.ks), Pack(n.children, 8);
    InnerTail(n.keys, n.children, sh.ks, keys, children, rest, b[16..]);
    PackLength(n.keys, sh.ks);
    assert b[16 + |keys|..] == b[16..][|keys|..];
  }

  /** Whatever the block held before, a node read from it after it was written is the node. */
  lemma RoundTrip(sh: Shape, n: Image, buffer: Bytes)
    requires Storable(sh, n) && |buffer| >= 24 && |Serialize(sh, n)| <= |buffer|
    ensures Deserialize(sh, Written(buffer, Serialize(sh, n))) == Some(n)
  {
    var b := Serialize(sh, n);
    if n.Leaf? { LeafBack(sh, n, buffer[|b|..], Written(buffer, b)); }
    else { InnerBack(sh, n, buffer[|b|..], Written(buffer, b)); }
  }

  // ---------- where everything is ----------

  /** Bytes `part` stand at offset `at`. */
  predicate Stands(b: Bytes, at: nat, part: Bytes) {
    at + |part| <= |b| && b[at..at + |part|] == part
  }

  lemma StandsAfter(a: Bytes, b: Bytes, at: nat, part: Bytes)
    requires Stands(b, at, part)
    ensures Stands(a + b, |a| + at, part)
  {
    assert (a + b)[|a| + at..|a| + at + |part|] == b[at..at + |part|];
  }

  lemma StandsBefore(a: Bytes, b: Bytes, at: nat, part: Bytes)
    requires Stands(a, at, part)
    ensures Stands(a + b, at, part)
  {
    assert (a + b)[at..at + |part|] == a[at..at + |part|];
  }

  /** The offset of element `i` of an array of elements of `w` bytes. */
  function Offset(i: nat, w: nat): nat {
    if i == 0 then 0 else w + Offset(i - 1, w)
  }

  lemma {:induction false} OffsetIs(i: nat, w: nat)
    ensures Offset(i, w) == i * w
  {
    if i > 0 {
      OffsetIs(i - 1, w);
      assert w + (i - 1) * w == i * w;
    }
  }

  lemma {:induction false} PackedAt(xs: seq<int>, w: nat, i: nat)
    requires AllFit(xs, w) && i < |xs|
    ensures Stands(Pack(xs, w), Offset(i, w), PutInt(xs[i], w))
  {
    var x, rest := PutInt(xs[0], w), Pack(xs[1..], w);
    if i == 0 { StandsBefore(x, rest, 0, x); }
    else {
      PackedAt(xs[1..], w, i - 1);
      StandsAfter(x, rest, Offset(i - 1, w), PutInt(xs[i], w));
    }
  }

  lemma {:induction false} EntryAt(keys: seq<int>, vals: seq<int>, sh: Shape, i: nat, w: nat)
    requires |vals| == |keys| && AllFit(keys, sh.ks) && AllFit(vals, sh.vs) && i < |keys| && w == sh.ks + sh.vs
    ensures Stands(PackEntries(keys, vals, sh), Offset(i, w), PutInt(keys[i], sh.ks))
    ensures Stands(PackEntries(keys, vals, sh), Offset(i, w) + sh.ks, PutInt(vals[i], sh.vs))
    decreases i
  {
    var k, v, rest := PutInt(keys[0], sh.ks), PutInt(vals[0], sh.vs), PackEntries(keys[1..], vals[1..], sh);
    if i == 0 { FirstEntry(k, v, rest); }
    else {
      EntryAt(keys[1..], vals[1..], sh, i - 1, w);
      StandsAfter(k + v, rest, Offset(i - 1, w), PutInt(keys[i], sh.ks));
      StandsAfter(k + v, rest, Offset(i - 1, w) + sh.ks, PutInt(vals[i], sh.vs));
    }
  }

  lemma FirstEntry(k: Bytes, v: Bytes, rest: Bytes)
    ensures Stands(k + v + rest, 0, k) && Stands(k + v + rest, |k|, v)
  {
    StandsBefore(k, v, 0, k);
    StandsAfter(k, v, 0, v);
    StandsBefore(k + v, rest, 0, k);
    StandsBefore(k + v, rest, |k|, v);
  }

  lemma HeadStands(kind: Bytes, size: Bytes, self: Bytes, tail: Bytes, b: Bytes)
    requires |kind| == |size| == 4 && |self| == 8 && b == kind + (size + (self + tail))
    ensures Stands(b, 0, kind) && Stands(b, 4, size) && Stands(b, 8, self)
    ensures forall at: nat, part {:trigger Stands(tail, at, part)} ::
              Stands(tail, at, part) ==> Stands(b, 16 + at, part)
  {
    assert b == (kind + size + self) + tail;
    forall at: nat, part | Stands(tail, at, part) ensures Stands(b, 16 + at, part) {
      StandsAfter(kind + size + self, tail, at, part);
    }
  }

  /** A leaf: its kind, its size, its address and that of its right sibling, and then its entries, key before value. */
  lemma LeafLayout(sh: Shape, n: Image, b: Bytes, i: nat, at: nat)
    requires Storable(sh, n) && n.Leaf? && b == Serialize(sh, n) && at == i * (sh.ks + sh.vs)
    ensures Stands(b, 0, Put(LEAF_NODE, 4)) && Stands(b, 4, Put(|n.keys|, 4))
    ensures Stands(b, 8, PutInt(n.self, 8)) && Stands(b, 16, PutInt(n.right, 8))
    ensures i < |n.keys| ==>
              && Stands(b, 24 + at, PutInt(n.keys[i], sh.ks)) && Stands(b, 24 + at + sh.ks, PutInt(n.vals[i], sh.vs))
  {
    var right, entries := PutInt(n.right, 8), PackEntries(n.keys, n.vals, sh);
    HeadStands(Put(LEAF_NODE, 4), Put(|n.keys|, 4), PutInt(n.self, 8), right + entries, b);
    StandsBefore(right, entries, 0, right);
    if i < |n.keys| {
      OffsetIs(i, sh.ks + sh.vs);
      EntryAt(n.keys, n.vals, sh, i, sh.ks + sh.vs);
      StandsAfter(right, entries, at, PutInt(n.keys[i], sh.ks));
      StandsAfter(right, entries, at + sh.ks, PutInt(n.vals[i], sh.vs));
    }
  }

  /** An inner node: its kind, its size and its address, and then its keys and, after all of these, its children. */
  lemma InnerLayout(sh: Shape, n: Image, b: Bytes, i: nat, at: nat)
    requires Storable(sh, n) && n.Inner? && b == Serialize(sh, n) && at == i * sh.ks
    ensures Stands(b, 0, Put(INNER_NODE, 4)) && Stands(b, 4, Put(|n.keys|, 4)) && Stands(b, 8, PutInt(n.self, 8))
    ensures i < |n.keys| ==>
              && Stands(b, 16 + at, PutInt(n.keys[i], sh.ks))
              && Stands(b, 16 + |n.keys| * sh.ks + 8 * i, PutInt(n.children[i], 8))
  {
    var keys, children := Pack(n.keys, sh.ks), Pack(n.children, 8);
    HeadStands(Put(INNER_NODE, 4), Put(|n.keys|, 4), PutInt(n.self, 8), keys + children, b);
    if i < |n.keys| {
      OffsetIs(i, sh.ks);
      OffsetIs(i, 8);
      PackedAt(n.keys, sh.ks, i);
      PackedAt(n.children, 8, i);
      PackLength(n.keys, sh.ks);
      StandsBefore(keys, children, at, PutInt(n.keys[i], sh.ks));
      StandsAfter(keys, children, 8 * i, PutInt(n.children[i], 8));
    }
  }
}
