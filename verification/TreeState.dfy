/** The shared tree of the pull-based index: the block store, the root reference and the depth,
    together with history variables that only record what the writes so far have meant.

    `fence[a]` gives the level of block `a` and the key interval [lo, hi) it is responsible for: a block
    starts with the interval of the node it was split from, and its `hi` is the boundary of its last split.
    `least` is the smallest key written to the leftmost leaf. `pend[p]` is a split of a child of `p`
    whose right half has been written but not yet linked into `p`; `rootSplit` is the same for the root. */
module TreeState {
  import opened Nodes

  datatype Bound = NegInf | At(k: Key) | PosInf

  predicate Above(lo: Bound, k: Key) {
    lo.NegInf? || (lo.At? && lo.k <= k)
  }

  predicate Below(k: Key, hi: Bound) {
    hi.PosInf? || (hi.At? && k < hi.k)
  }

  predicate Before(hi: Bound, lo: Bound) {
    hi.At? && lo.At? && hi.k <= lo.k
  }

  datatype Fence = Fence(level: nat, lo: Bound, hi: Bound)

  datatype Pending = Pending(pos: nat, right: Addr, key: Key)

  datatype Tree = Tree(cap: nat, store: seq<Node>, root: Addr, depth: nat,
                       fence: seq<Fence>, least: Key, pend: map<Addr, Pending>, rootSplit: Option<Pending>)

  predicate Live(t: Tree, a: int) {
    0 <= a < |t.store| && a < |t.fence|
  }

  ghost predicate InFence(t: Tree, a: Addr, k: Key)
    requires Live(t, a)
  {
    Above(t.fence[a].lo, k) && Below(k, t.fence[a].hi)
  }

  predicate IsInner(t: Tree, a: int) {
    Live(t, a) && t.store[a].Inner? && 1 <= |t.store[a].keys| == |t.store[a].kids|
  }

  predicate IsLeaf(t: Tree, a: int) {
    Live(t, a) && t.store[a].Leaf?
  }

  /** The upper end of the key range that inner node `a` gives its child `i`. */
  function UpTo(t: Tree, a: Addr, i: nat): Bound
    requires IsInner(t, a)
  {
    if i + 1 < |t.store[a].keys| then At(t.store[a].keys[i + 1]) else t.fence[a].hi
  }

  function LowOf(t: Tree, a: Addr, i: nat): Bound
    requires IsInner(t, a) && i < |t.store[a].keys|
  {
    if i == 0 then t.fence[a].lo else At(t.store[a].keys[i])
  }

  ghost predicate FenceOk(t: Tree, a: Addr)
    requires Live(t, a)
  {
    var f := t.fence[a];
    && 1 <= f.level <= t.depth
    && (f.level == 1 <==> t.store[a].Leaf?)
    && !f.lo.PosInf? && !f.hi.NegInf?
    && (f.lo.At? ==> t.least < f.lo.k)
    && (f.lo.At? && f.hi.At? ==> f.lo.k < f.hi.k)
  }

  ghost predicate LeafOk(t: Tree, a: Addr)
    requires IsLeaf(t, a)
  {
    var es := t.store[a].entries;
    && EntriesSorted(es) && |es| <= t.cap
    && (forall i :: 0 <= i < |es| ==> InFence(t, a, es[i].key))
    && (es == [] ==> |t.store| == 1)
    && (t.fence[a].lo.NegInf? && es != [] ==> es[0].key == t.least)
  }

  /** The right sibling of a leaf starts where the leaf ends. */
  ghost predicate ChainOk(t: Tree, a: Addr)
    requires IsLeaf(t, a)
  {
    if t.fence[a].hi.PosInf? then t.store[a].next == -1
    else IsLeaf(t, t.store[a].next) && t.fence[t.store[a].next].lo == t.fence[a].hi
  }

  ghost predicate InnerOk(t: Tree, a: Addr)
    requires Live(t, a)
  {
    && IsInner(t, a)
    && |t.store[a].keys| <= t.cap
    && Sorted(t.store[a].keys)
    && (t.fence[a].lo.At? ==> t.store[a].keys[0] == t.fence[a].lo.k)
    && Below(t.store[a].keys[|t.store[a].keys| - 1], t.fence[a].hi)
  }

  ghost predicate KidOk(t: Tree, a: Addr, i: nat)
    requires IsInner(t, a) && i < |t.store[a].kids|
  {
    var c := t.store[a].kids[i];
    && Live(t, c)
    && t.fence[c].level + 1 == t.fence[a].level
    && t.fence[c].lo == LowOf(t, a, i)
    && t.fence[c].hi == (if a in t.pend && t.pend[a].pos == i then At(t.pend[a].key) else UpTo(t, a, i))
  }

  ghost predicate PendOk(t: Tree, a: Addr)
    requires a in t.pend
  {
    var p := t.pend[a];
    && IsInner(t, a) && p.pos < |t.store[a].keys| && Live(t, p.right)
    && t.fence[p.right].level + 1 == t.fence[a].level
    && t.fence[p.right].lo == At(p.key) && t.fence[p.right].hi == UpTo(t, a, p.pos)
    && t.store[a].keys[p.pos] < p.key && Below(p.key, UpTo(t, a, p.pos))
  }

  ghost predicate RootOk(t: Tree) {
    && Live(t, t.root)
    && t.fence[t.root].level == t.depth && t.fence[t.root].lo == NegInf
    && match t.rootSplit
       case None => t.fence[t.root].hi == PosInf
       case Some(p) =>
         && t.fence[t.root].hi == At(p.key)
         && Live(t, p.right) && t.fence[p.right] == Fence(t.depth, At(p.key), PosInf)
  }

  ghost predicate Apart(t: Tree, a: Addr, b: Addr)
    requires Live(t, a) && Live(t, b)
  {
    t.fence[a].level == t.fence[b].level ==>
      Before(t.fence[a].hi, t.fence[b].lo) || Before(t.fence[b].hi, t.fence[a].lo)
  }

  /** The structural invariant: a B+ tree with a pending split wherever `pend` says so. */
  ghost predicate Sound(t: Tree) {
    && 2 <= t.cap && |t.fence| == |t.store|
    && RootOk(t)
    && (forall a {:trigger FenceOk(t, a)} :: Live(t, a) ==> FenceOk(t, a))
    && (forall a {:trigger LeafOk(t, a)} :: IsLeaf(t, a) ==> LeafOk(t, a))
    && (forall a {:trigger ChainOk(t, a)} :: IsLeaf(t, a) ==> ChainOk(t, a))
    && (forall a {:trigger InnerOk(t, a)} :: Live(t, a) && t.store[a].Inner? ==> InnerOk(t, a))
    && (forall a, i {:trigger KidOk(t, a, i)} :: IsInner(t, a) && 0 <= i < |t.store[a].kids| ==> KidOk(t, a, i))
    && (forall a {:trigger PendOk(t, a)} :: a in t.pend ==> PendOk(t, a))
    && (forall a, b {:trigger Apart(t, a, b)} :: Live(t, a) && Live(t, b) && a != b ==> Apart(t, a, b))
  }

  /** A left-spine node whose first key is still above the least key of the tree. */
  ghost predicate Lagging(t: Tree, a: Addr) {
    IsInner(t, a) && t.fence[a].lo.NegInf? && t.store[a].keys[0] != t.least
  }

  /** Every leaf answers, within its interval, as the map does. */
  ghost predicate Represents(t: Tree, m: map<Key, Val>) {
    forall a, k :: IsLeaf(t, a) && InFence(t, a, k) ==> Lookup(t.store[a].entries, k) == Get(m, k)
  }

  function Get(m: map<Key, Val>, k: Key): Option<Val> {
    if k in m then Some(m[k]) else None
  }
}
