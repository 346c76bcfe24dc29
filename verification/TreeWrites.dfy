/** The writes of an insertion to the shared tree, and what each keeps. */
module TreeWrites {
  import opened Nodes
  import opened TreeState

  /** Rewrite leaf `n` in place. */
  function PutLeaf(t: Tree, n: Addr, leaf: Node): Tree
    requires Live(t, n) && leaf.Leaf? && leaf.entries != []
  {
    t.(store := t.store[n := leaf],
       least := if t.fence[n].lo.NegInf? then leaf.entries[0].key else t.least)
  }

  /** Write both halves of a split of `n` at boundary `b`; `up` is the parent and position that must absorb it. */
  function Cut(t: Tree, n: Addr, left: Node, right: Node, b: Key, up: Option<(Addr, nat)>): Tree
    requires Live(t, n) && |t.fence| == |t.store|
    requires left.Leaf? ==> left.entries != []
  {
    var r := |t.store|;
    t.(store := t.store[n := left] + [right],
       fence := t.fence[n := t.fence[n].(hi := At(b))] + [t.fence[n].(lo := At(b))],
       least := if left.Leaf? && t.fence[n].lo.NegInf? then left.entries[0].key else t.least,
       pend := if up.Some? then (t.pend - {n})[up.value.0 := Pending(up.value.1, r, b)] else t.pend - {n},
       rootSplit := if up.Some? then t.rootSplit else Some(Pending(0, r, b)))
  }

  /** Rewrite inner node `n` with its pending child linked in. */
  function Absorb(t: Tree, n: Addr, node: Node): Tree
    requires Live(t, n)
  {
    t.(store := t.store[n := node], pend := t.pend - {n})
  }

  /** Publish a new root. */
  function Raise(t: Tree, node: Node): Tree {
    t.(store := t.store + [node], fence := t.fence + [Fence(t.depth + 1, NegInf, PosInf)],
       root := |t.store|, depth := t.depth + 1, rootSplit := None)
  }

  // ---------- rewriting a leaf ----------

  ghost predicate CanPut(t: Tree, n: Addr, k: Key) {
    && Sound(t) && IsLeaf(t, n) && InFence(t, n, k)
    && (Found(t.store[n].entries, k) || |t.store[n].entries| < t.cap)
  }

  function NewLeaf(t: Tree, n: Addr, k: Key, v: Val): (leaf: Node)
    requires IsLeaf(t, n)
    ensures leaf.Leaf? && leaf.entries != []
  {
    Leaf(Put(t.store[n].entries, k, v), t.store[n].next)
  }

  lemma FirstOfPut(es: seq<Entry>, k: Key, v: Val)
    requires EntriesSorted(es)
    ensures Put(es, k, v)[0].key == if es == [] || k < es[0].key then k else es[0].key
  {
  }

  lemma PutLeafFences(t: Tree, n: Addr, k: Key, v: Val)
    requires CanPut(t, n, k)
    ensures var t' := PutLeaf(t, n, NewLeaf(t, n, k, v));
            && RootOk(t')
            && (forall a :: Live(t', a) ==> FenceOk(t', a))
            && (forall a, b :: Live(t', a) && Live(t', b) && a != b ==> Apart(t', a, b))
  {
    var t' := PutLeaf(t, n, NewLeaf(t, n, k, v));
    assert LeafOk(t, n);
    FirstOfPut(t.store[n].entries, k, v);
    forall a | Live(t', a) ensures FenceOk(t', a) {
      assert FenceOk(t, a);
    }
    forall a, b | Live(t', a) && Live(t', b) && a != b ensures Apart(t', a, b) {
      assert Apart(t, a, b);
    }
  }

  lemma KeyOfPut(t: Tree, n: Addr, k: Key, v: Val, i: nat)
    requires Sound(t) && IsLeaf(t, n) && InFence(t, n, k) && i < |Put(t.store[n].entries, k, v)|
    ensures InFence(t, n, Put(t.store[n].entries, k, v)[i].key)
  {
    var es, p := t.store[n].entries, Slot(t.store[n].entries, k);
    assert LeafOk(t, n);
    if i != p {
      var j := if i < p || Found(es, k) then i else i - 1;
      assert Put(es, k, v)[i] == es[j];
    }
  }

  lemma PutLeafNodes(t: Tree, n: Addr, k: Key, v: Val)
    requires CanPut(t, n, k)
    ensures var t' := PutLeaf(t, n, NewLeaf(t, n, k, v));
            && (forall a :: IsLeaf(t', a) ==> LeafOk(t', a))
            && (forall a :: IsLeaf(t', a) ==> ChainOk(t', a))
            && (forall a :: Live(t', a) && t'.store[a].Inner? ==> InnerOk(t', a))
  {
    var t' := PutLeaf(t, n, NewLeaf(t, n, k, v));
    forall a | IsLeaf(t', a) ensures LeafOk(t', a) && ChainOk(t', a) {
      assert LeafOk(t, a) && ChainOk(t, a);
      if a == n {
        PutSorted(t.store[n].entries, k, v);
        forall i | 0 <= i < |t'.store[n].entries| ensures InFence(t', n, t'.store[n].entries[i].key) {
          KeyOfPut(t, n, k, v, i);
        }
      } else {
        assert Apart(t, a, n) && FenceOk(t, a) && FenceOk(t, n);
      }
    }
    forall a | Live(t', a) && t'.store[a].Inner? ensures InnerOk(t', a) {
      assert InnerOk(t, a);
    }
  }

  lemma PutLeafKids(t: Tree, n: Addr, k: Key, v: Val)
    requires CanPut(t, n, k)
    ensures var t' := PutLeaf(t, n, NewLeaf(t, n, k, v));
            && (forall a, i :: IsInner(t', a) && 0 <= i < |t'.store[a].kids| ==> KidOk(t', a, i))
            && (forall a :: a in t'.pend ==> PendOk(t', a))
  {
    var t' := PutLeaf(t, n, NewLeaf(t, n, k, v));
    forall a, i | IsInner(t', a) && 0 <= i < |t'.store[a].kids| ensures KidOk(t', a, i) {
      assert KidOk(t, a, i);
    }
    forall a | a in t'.pend ensures PendOk(t', a) {
      assert PendOk(t, a);
    }
  }

  lemma PutLeafSound(t: Tree, n: Addr, k: Key, v: Val)
    requires CanPut(t, n, k)
    ensures Sound(PutLeaf(t, n, NewLeaf(t, n, k, v)))
  {
    PutLeafFences(t, n, k, v);
    PutLeafNodes(t, n, k, v);
    PutLeafKids(t, n, k, v);
  }

  lemma PutLeafRepresents(t: Tree, n: Addr, k: Key, v: Val, m: map<Key, Val>)
    requires CanPut(t, n, k) && Represents(t, m)
    ensures Represents(PutLeaf(t, n, NewLeaf(t, n, k, v)), m[k := v])
  {
    var t' := PutLeaf(t, n, NewLeaf(t, n, k, v));
    forall a, q | IsLeaf(t', a) && InFence(t', a, q)
      ensures Lookup(t'.store[a].entries, q) == Get(m[k := v], q)
    {
      assert IsLeaf(t, a) && InFence(t, a, q);
      if a == n {
        assert LeafOk(t, n);
        PutLookup(t.store[n].entries, k, v, q);
      } else {
        assert Apart(t, a, n) && FenceOk(t, a) && FenceOk(t, n);
      }
    }
  }
}
