/** Leaf and inner nodes as arrays that are searched by bisection and changed in place. */
module NodeArrays {
  import opened Nodes
  import opened TreeState
  import opened SeqTree
  import opened SeqInsert
  import opened SeqDelete

  // ---------- moving slots ----------

  /** Make room at `pos`: slots pos .. size - 1 move up by one. */
  method ShiftUp<T>(a: array<T>, pos: nat, size: nat)
    requires pos <= size < a.Length
    modifies a
    ensures a[..pos] == old(a[..pos]) && a[pos + 1..size + 1] == old(a[pos..size])
    ensures a[size + 1..] == old(a[size + 1..])
  {
    for i := size downto pos
      invariant a[..i + 1] == old(a[..i + 1])
      invariant forall j {:trigger a[j]} :: i < j <= size ==> a[j] == old(a[j - 1])
      invariant a[size + 1..] == old(a[size + 1..])
    {
      a[i + 1] := a[i];
    }
  }

  /** Put `x` before the first `size` slots, as a loan does: one slot more than is in use moves up. */
  method PutHead<T>(a: array<T>, size: nat, x: T)
    requires size + 1 < a.Length
    modifies a
    ensures a[..size + 1] == [x] + old(a[..size])
  {
    ShiftUp(a, 0, size + 1);
    assert a[1..size + 1] == a[1..size + 2][..size] == old(a[..size]);
    a[0] := x;
  }

  /** Close the gap at `pos`: slots pos + 1 .. size - 1 move down by one. */
  method ShiftDown<T>(a: array<T>, pos: nat, size: nat)
    requires pos < size <= a.Length
    modifies a
    ensures a[..pos] == old(a[..pos]) && a[pos..size - 1] == old(a[pos + 1..size])
  {
    for i := pos to size - 1
      invariant a[..pos] == old(a[..pos])
      invariant forall j {:trigger a[j]} :: pos <= j < i ==> a[j] == old(a[j + 1])
      invariant a[i..] == old(a[i..])
    {
      a[i] := a[i + 1];
    }
  }

  /** Copy n slots of `src` from `from` to `dst` at `to`. */
  method Copy<T>(src: array<T>, from: nat, dst: array<T>, to: nat, n: nat)
    requires src != dst && from + n <= src.Length && to + n <= dst.Length
    modifies dst
    ensures dst[..to] == old(dst[..to]) && dst[to..to + n] == src[from..from + n]
  {
    for i := 0 to n
      invariant dst[..to] == old(dst[..to]) && dst[to..to + i] == src[from..from + i]
    {
      dst[to + i] := src[from + i];
    }
  }

  // ---------- leaves ----------

  class LeafNode {
    const cap: nat
    const addr: nat
    const entries: array<Entry>
    var size: nat
    var next: int

    constructor (cap: nat, addr: nat)
      ensures Valid() && this.cap == cap && this.addr == addr && View() == Tip(addr, [], -1) && fresh(entries)
    {
      this.cap, this.addr := cap, addr;
      entries := new Entry[cap](_ => Entry(0, 0));
      size, next := 0, -1;
    }

    ghost predicate Valid()
      reads this, entries
    {
      entries.Length == cap && size <= cap && EntriesSorted(entries[..size])
    }

    function View(): BT
      reads this, entries
      requires size <= entries.Length
    {
      Tip(addr, entries[..size], next)
    }

    /** Bisection finds the first entry not below the key, and whether it is the key's. */
    method SearchPosition(k: Key) returns (found: bool, position: nat)
      requires Valid()
      ensures position == Slot(View().entries, k) && found == Found(View().entries, k)
    {
      var es := entries[..size];
      var l, r := 0, size - 1;
      while l <= r
        invariant 0 <= l <= r + 1 <= size
        invariant forall i {:trigger es[i]} :: 0 <= i < l ==> es[i].key < k
        invariant forall i {:trigger es[i]} :: r < i < size ==> k < es[i].key
        decreases r - l
      {
        var m := (l + r) / 2;
        assert entries[m] == es[m];
        if entries[m].key < k {
          l := m + 1;
        } else if entries[m].key == k {
          SlotUnique(es, k, m);
          return true, m;
        } else {
          r := m - 1;
        }
      }
      SlotUnique(es, k, l);
      return false, l;
    }

    /** Make room for an entry and put it there. */
    method InsertEntry(p: nat, e: Entry)
      requires entries.Length == cap && p <= size < cap
      modifies this`size, entries
      ensures size == old(size) + 1 && entries[..size] == InsertAt(old(entries[..size]), p, e)
    {
      ShiftUp(entries, p, size);
      entries[p] := e;
      size := size + 1;
    }

    /** Update the entry of the key, or insert one if there is room. */
    method Insert(k: Key, v: Val) returns (ok: bool)
      requires Valid()
      modifies this`size, entries
      ensures Valid() && ok == (Found(old(View().entries), k) || old(size) < cap)
      ensures View() == if ok then old(View()).(entries := Put(old(View().entries), k, v)) else old(View())
    {
      var found, p := SearchPosition(k);
      ghost var es := entries[..size];
      PutSorted(es, k, v);
      if found {
        entries[p] := entries[p].(val := v);
        assert entries[..size] == es[p := Entry(k, v)];
        return true;
      }
      if size >= cap { return false; }
      InsertEntry(p, Entry(k, v));
      return true;
    }

    /** Move the upper half of a full leaf to `right`, a new leaf, and link it in. */
    method MoveHalf(right: LeafNode)
      requires Valid() && size == cap && right != this && right.entries != entries
      requires right.Valid() && right.cap == cap
      modifies this`size, this`next, right`size, right`next, right.entries
      ensures Valid() && right.Valid() && size == cap / 2
      ensures View() == Tip(addr, old(View().entries)[..cap / 2], right.addr)
      ensures right.View() == Tip(right.addr, old(View().entries)[cap / 2..], old(next))
    {
      var h := cap / 2;
      right.next := next;
      next := right.addr;
      Copy(entries, h, right.entries, 0, cap - h);
      right.size := cap - h;
      size := h;
      assert entries[..h] == old(entries[..size])[..h] && right.entries[..right.size] == old(entries[..size])[h..];
    }

    /** Insert, splitting a full leaf. */
    method InsertWithSplit(k: Key, v: Val, right: LeafNode) returns (split: bool, boundary: Key)
      requires Valid() && 2 <= cap && right != this && right.entries != entries
      requires right.Valid() && right.cap == cap
      modifies this`size, this`next, entries, right`size, right`next, right.entries
      ensures Valid() && right.Valid()
      ensures SeqInsert.Insert(cap, old(View()), k, v, right.addr)
           == if split then Two(View(), right.View(), boundary) else One(View())
    {
      var found, p := SearchPosition(k);
      if found || size < cap {
        var ok := Insert(k, v);
        return false, 0;
      }
      MoveHalf(right);
      if p < cap / 2 {
        var ok := Insert(k, v);
      } else {
        var ok := right.Insert(k, v);
      }
      return true, right.entries[0].key;
    }

    /** Remove the entry of the key; say whether there was one, and whether the leaf is too small then. */
    method DeleteKey(k: Key) returns (found: bool, underflow: bool)
      requires Valid()
      modifies this`size, entries
      ensures Valid() && Del(View(), found, underflow) == DeleteTip(cap, old(View()), k)
    {
      var p;
      found, p := SearchPosition(k);
      ghost var es := entries[..size];
      RemoveSorted(es, k);
      if !found { return false, false; }
      ShiftDown(entries, p, size);
      size := size - 1;
      assert entries[..size] == Remove(es, k);
      underflow := size < (cap + 1) / 2;
    }

    /** Move one entry over from the fuller of two neighbours, or merge `right` into this leaf. */
    method Balance(right: LeafNode) returns (merged: bool, boundary: Key)
      requires Valid() && right.Valid() && right.cap == cap && right != this && right.entries != entries && 2 <= cap
      requires size + right.size <= cap || (size < (cap + 1) / 2 < right.size) || (right.size < (cap + 1) / 2 < size)
      requires forall i, j :: 0 <= i < size && 0 <= j < right.size ==> entries[i].key < right.entries[j].key
      modifies this`size, this`next, entries, right`size, right.entries
      ensures Valid() && right.Valid()
      ensures BalanceTips(cap, old(View()), old(right.View()))
           == if merged then Merged(View()) else Borrowed(View(), right.View(), boundary)
    {
      var u := (cap + 1) / 2;
      if size < u && right.size > u {
        boundary := TakeFirstOf(right);
        return false, boundary;
      }
      if right.size < u && size > u {
        boundary := GiveLastTo(right);
        return false, boundary;
      }
      MergeFrom(right);
      return true, 0;
    }

    method TakeFirstOf(right: LeafNode) returns (boundary: Key)
      requires Valid() && right.Valid() && right != this && right.entries != entries && size < cap && right.size > 1
      requires forall i, j :: 0 <= i < size && 0 <= j < right.size ==> entries[i].key < right.entries[j].key
      modifies this`size, entries, right`size, right.entries
      ensures Valid() && right.Valid()
      ensures TakeFirst(old(View()), old(right.View())) == Borrowed(View(), right.View(), boundary)
    {
      ghost var es, fs := entries[..size], right.entries[..right.size];
      entries[size] := right.entries[0];
      size := size + 1;
      ShiftDown(right.entries, 0, right.size);
      right.size := right.size - 1;
      assert entries[..size] == es + [fs[0]] && right.entries[..right.size] == fs[1..];
      boundary := right.entries[0].key;
    }

    method GiveLastTo(right: LeafNode) returns (boundary: Key)
      requires Valid() && right.Valid() && right.cap == cap && right != this && right.entries != entries
      requires right.size < cap && size > 0
      requires forall i, j :: 0 <= i < size && 0 <= j < right.size ==> entries[i].key < right.entries[j].key
      modifies this`size, right`size, right.entries
      ensures Valid() && right.Valid()
      ensures GiveLast(old(View()), old(right.View())) == Borrowed(View(), right.View(), boundary)
    {
      ghost var es, fs := entries[..size], right.entries[..right.size];
      right.InsertEntry(0, entries[size - 1]);
      size := size - 1;
      assert entries[..size] == es[..size] && right.entries[..right.size] == [es[size]] + fs;
      boundary := right.entries[0].key;
    }

    method MergeFrom(right: LeafNode)
      requires Valid() && right.Valid() && right != this && right.entries != entries && size + right.size <= cap
      requires forall i, j :: 0 <= i < size && 0 <= j < right.size ==> entries[i].key < right.entries[j].key
      modifies this`size, this`next, entries, right`size
      ensures Valid() && right.Valid()
      ensures View() == Tip(addr, old(View().entries) + old(right.View().entries), old(right.next))
    {
      ghost var es, fs := entries[..size], right.entries[..right.size];
      Copy(right.entries, 0, entries, size, right.size);
      size := size + right.size;
      right.size := 0;
      next := right.next;
      assert entries[..size] == es + fs;
    }
  }

  // ---------- inner nodes ----------

  /** An inner node; its children stand in the array as the trees they refer to. */
  class InnerNode {
    const cap: nat
    const keys: array<Key>
    const kids: array<BT>
    var size: nat

    constructor (cap: nat)
      ensures Valid() && this.cap == cap && size == 0 && fresh(keys) && fresh(kids)
    {
      this.cap := cap;
      keys := new Key[cap](_ => 0);
      kids := new BT[cap](_ => Tip(0, [], -1));
      size := 0;
    }

    ghost predicate Valid()
      reads this
    {
      keys.Length == cap && kids.Length == cap && size <= cap
    }

    function View(): BT
      reads this, keys, kids
      requires size <= keys.Length && size <= kids.Length
    {
      Fork(keys[..size], kids[..size])
    }

    ghost predicate Apart(right: InnerNode)
      reads this, right
    {
      right != this && right.keys != keys && right.kids != kids && right.cap == cap && Valid() && right.Valid()
    }

    /** Bisection finds the last key not above the given one. */
    method LocateChild(k: Key) returns (i: int)
      requires Valid() && Sorted(keys[..size])
      ensures i == Locate(keys[..size], k)
    {
      if size == 0 { return -1; }
      var ks := keys[..size];
      var l, r := 0, size - 1;
      while l <= r
        invariant 0 <= l <= r + 1 <= size
        invariant forall j {:trigger ks[j]} :: 0 <= j < l ==> ks[j] < k
        invariant forall j {:trigger ks[j]} :: r < j < size ==> k < ks[j]
        decreases r - l
      {
        var m := (l + r) / 2;
        assert keys[m] == ks[m];
        if keys[m] < k {
          l := m + 1;
        } else if k < keys[m] {
          r := m - 1;
        } else {
          LocateUnique(ks, k, m);
          return m;
        }
      }
      LocateUnique(ks, k, l - 1);
      return l - 1;
    }

    /** `insert_inner_node`: put a key and a child at `pos`. */
    method InsertChild(pos: nat, key: Key, kid: BT)
      requires Valid() && pos <= size < cap
      modifies this`size, keys, kids
      ensures Valid() && View() == Fork(InsertAt(old(View().keys), pos, key), InsertAt(old(View().kids), pos, kid))
    {
      ShiftUp(keys, pos, size);
      keys[pos] := key;
      ShiftUp(kids, pos, size);
      kids[pos] := kid;
      size := size + 1;
      assert keys[..size] == InsertAt(old(keys[..size]), pos, key);
      assert kids[..size] == InsertAt(old(kids[..size]), pos, kid);
    }

    /** Move the upper half of a full node to `right`, a new node. */
    method MoveHalf(right: InnerNode)
      requires Apart(right) && size == cap
      modifies this`size, right`size, right.keys, right.kids
      ensures Valid() && right.Valid() && size == cap / 2 && right.size == cap - cap / 2
      ensures View() == Fork(old(View().keys)[..cap / 2], old(View().kids)[..cap / 2])
      ensures right.View() == Fork(old(View().keys)[cap / 2..], old(View().kids)[cap / 2..])
    {
      var h := cap / 2;
      Copy(keys, h, right.keys, 0, cap - h);
      Copy(kids, h, right.kids, 0, cap - h);
      right.size := cap - h;
      size := h;
      assert right.keys[..right.size] == old(keys[..size])[h..] && right.kids[..right.size] == old(kids[..size])[h..];
      assert keys[..h] == old(keys[..size])[..h] && kids[..h] == old(kids[..size])[..h];
    }

    /** Put a key and a child after the last key not above it. */
    method PlaceChild(key: Key, kid: BT)
      requires Valid() && size < cap && Sorted(keys[..size])
      modifies this`size, keys, kids
      ensures Valid()
      ensures var i := Locate(old(View().keys), key) + 1;
              View() == Fork(InsertAt(old(View().keys), i, key), InsertAt(old(View().kids), i, kid))
    {
      var i := LocateChild(key);
      InsertChild(i + 1, key, kid);
    }

    /** A full node and the new sibling `kid` of child `pos`: split the node, and put the child into its half. */
    method SplitWith(pos: nat, key: Key, kid: BT, right: InnerNode) returns (boundary: Key)
      requires Apart(right) && size == cap && pos < size && 2 <= cap && Sorted(keys[..size])
      modifies this`size, keys, kids, right`size, right.keys, right.kids
      ensures Valid() && right.Valid()
      ensures SplitFork(cap, old(View().keys), old(View().kids), pos, kid, key) == Two(View(), right.View(), boundary)
    {
      ghost var ks, cs := View().keys, View().kids;
      MoveHalf(right);
      if pos < cap / 2 {
        boundary := FillLeft(key, kid, right, ks, cs);
      } else {
        boundary := FillRight(key, kid, right, ks, cs);
      }
    }

    method FillLeft(key: Key, kid: BT, right: InnerNode, ghost ks: seq<Key>, ghost cs: seq<BT>) returns (boundary: Key)
      requires Apart(right) && 2 <= cap && |ks| == |cs| == cap && Sorted(ks)
      requires size == cap / 2 && right.size == cap - cap / 2
      requires View() == Fork(ks[..cap / 2], cs[..cap / 2]) && right.View() == Fork(ks[cap / 2..], cs[cap / 2..])
      modifies this`size, keys, kids
      ensures Valid() && right.Valid()
      ensures SplitToLeft(ks, cs, cap / 2, kid, key) == Two(View(), right.View(), boundary)
    {
      PlaceChild(key, kid);
      boundary := right.keys[0];
      LeftIs(ks, cs, cap / 2, kid, key, View(), right.View(), boundary);
    }

    method FillRight(key: Key, kid: BT, right: InnerNode, ghost ks: seq<Key>, ghost cs: seq<BT>) returns (boundary: Key)
      requires Apart(right) && 2 <= cap && |ks| == |cs| == cap && Sorted(ks)
      requires size == cap / 2 && right.size == cap - cap / 2
      requires View() == Fork(ks[..cap / 2], cs[..cap / 2]) && right.View() == Fork(ks[cap / 2..], cs[cap / 2..])
      modifies right`size, right.keys, right.kids
      ensures Valid() && right.Valid()
      ensures SplitToRight(ks, cs, cap / 2, kid, key) == Two(View(), right.View(), boundary)
    {
      right.PlaceChild(key, kid);
      boundary := right.keys[0];
      RightIs(ks, cs, cap / 2, kid, key, View(), right.View(), boundary);
    }

    /** The rest of `insert_with_split_support`, once the insertion into child `pos` has come to `r`. */
    method TakeBack(pos: nat, r: Ins, right: InnerNode) returns (split: bool, boundary: Key)
      requires Apart(right) && pos < size && 2 <= cap && Sorted(keys[..size])
      modifies this`size, keys, kids, right`size, right.keys, right.kids
      ensures Valid() && right.Valid()
      ensures Absorb(cap, old(View().keys), old(View().kids), pos, r) ==
                if split then Two(View(), right.View(), boundary) else One(View())
    {
      kids[pos] := if r.One? then r.t else r.left;
      ghost var cs := old(kids[..size])[pos := if r.One? then r.t else r.left];
      assert kids[..size] == cs;
      if r.One? { return false, 0; }
      if size < cap {
        InsertChild(pos + 1, r.key, r.right);
        return false, 0;
      }
      boundary := SplitWith(pos, r.key, r.right, right);
      return true, boundary;
    }

    /** Take child `i` out. */
    method RemoveChild(i: nat)
      requires Valid() && i < size
      modifies this`size, keys, kids
      ensures Valid() && View() == Fork(DropAt(old(View().keys), i), DropAt(old(View().kids), i))
    {
      ShiftDown(keys, i, size);
      ShiftDown(kids, i, size);
      size := size - 1;
      assert keys[..size] == DropAt(old(keys[..size]), i) && kids[..size] == DropAt(old(kids[..size]), i);
    }

    /** The rest of `delete_key`, once children `l` and `l + 1` have been balanced. */
    method AfterBalance(l: nat, b: Bal) returns (underflow: bool)
      requires Valid() && l + 1 < size
      modifies this`size, keys, kids
      ensures Valid() && Rejoin(cap, old(View().keys), old(View().kids), l, b) == Del(View(), true, underflow)
    {
      match b {
        case Borrowed(x, y, key) =>
          kids[l] := x;
          kids[l + 1] := y;
          keys[l + 1] := key;
          assert kids[..size] == old(kids[..size])[l := x][l + 1 := y]
              && keys[..size] == old(keys[..size])[l + 1 := key];
          underflow := false;
        case Merged(m) =>
          kids[l] := m;
          assert kids[..size] == old(kids[..size])[l := m];
          RemoveChild(l + 1);
          underflow := size < (cap + 1) / 2;
      }
    }

    /** The loop of a borrow, as it is written: every slot takes what the next one holds, the last one too. It is cut
        short at a read past the arrays. */
    method DropFirst() returns (ok: bool)
      requires Valid() && size > 0
      modifies this`size, keys, kids
      ensures Valid() && (ok <==> old(size) < cap)
      ensures ok ==> View() == Fork(old(View().keys)[1..], old(View().kids)[1..])
    {
      ok := true;
      for i := 0 to size
        invariant ok && (i > 0 ==> i < cap) && size == old(size)
        invariant keys[..i] == old(keys[..])[1..i + 1] && keys[i..] == old(keys[i..])
        invariant kids[..i] == old(kids[..])[1..i + 1] && kids[i..] == old(kids[i..])
      {
        if i + 1 >= cap { return false; }
        keys[i] := keys[i + 1];
        kids[i] := kids[i + 1];
      }
      size := size - 1;
      assert keys[..size] == old(keys[..size])[1..] && kids[..size] == old(kids[..size])[1..];
    }

    /** The loop of a loan. */
    method PutFirst(key: Key, kid: BT)
      requires Valid() && size + 1 < cap
      modifies this`size, keys, kids
      ensures Valid() && View() == Fork([key] + old(View().keys), [kid] + old(View().kids))
    {
      PutHead(keys, size, key);
      PutHead(kids, size, kid);
      size := size + 1;
    }

    /** Borrow the first child of `right`. All reads are within the arrays if and only if `right` is not full. */
    method TakeFirstOf(right: InnerNode) returns (ok: bool, boundary: Key)
      requires Apart(right) && size < cap && right.size > 1
      modifies this`size, keys, kids, right`size, right.keys, right.kids
      ensures Valid() && right.Valid() && (ok <==> old(right.size) < cap)
      ensures ok ==> TakeFirstKid(old(View()), old(right.View())) == Borrowed(View(), right.View(), boundary)
    {
      ghost var l, r := View(), right.View();
      InsertChild(size, right.keys[0], right.kids[0]);
      ok := right.DropFirst();
      if !ok { return false, 0; }
      boundary := right.keys[0];
      FirstIs(l, r, View(), right.View());
    }

    method GiveLastTo(right: InnerNode) returns (boundary: Key)
      requires Apart(right) && size > 0 && right.size + 1 < cap
      modifies this`size, right`size, right.keys, right.kids
      ensures Valid() && right.Valid()
      ensures GiveLastKid(old(View()), old(right.View())) == Borrowed(View(), right.View(), boundary)
    {
      ghost var l := View();
      right.PutFirst(keys[size - 1], kids[size - 1]);
      size := size - 1;
      boundary := right.keys[0];
      assert View() == Fork(l.keys[..size], l.kids[..size]);
    }

    method MergeFrom(right: InnerNode)
      requires Apart(right) && size + right.size <= cap
      modifies this`size, keys, kids, right`size
      ensures Valid() && right.Valid()
      ensures View() == Fork(old(View().keys) + old(right.View().keys), old(View().kids) + old(right.View().kids))
    {
      Copy(right.keys, 0, keys, size, right.size);
      Copy(right.kids, 0, kids, size, right.size);
      size := size + right.size;
      right.size := 0;
      assert keys[..size] == old(keys[..size]) + old(right.keys[..right.size]);
      assert kids[..size] == old(kids[..size]) + old(right.kids[..right.size]);
    }

    /** Move one child over from the fuller of two neighbours, or merge `right` into this node. All reads are within the
        arrays unless this node is too small and `right` is full; then the outcome is that of the tree function. */
    method Balance(right: InnerNode) returns (ok: bool, merged: bool, boundary: Key)
      requires Apart(right) && 2 <= cap && 0 < size && 0 < right.size
      requires size + right.size <= cap || (size < (cap + 1) / 2 < right.size) || (right.size < (cap + 1) / 2 < size)
      modifies this`size, keys, kids, right`size, right.keys, right.kids
      ensures Valid() && right.Valid() && (ok <==> !(old(size) < (cap + 1) / 2 && old(right.size) == cap))
      ensures ok ==> BalanceForks(cap, old(View()), old(right.View()))
                     == if merged then Merged(View()) else Borrowed(View(), right.View(), boundary)
    {
      var u := (cap + 1) / 2;
      if size < u && right.size > u {
        ok, boundary := TakeFirstOf(right);
        return ok, false, boundary;
      }
      if right.size < u && size > u {
        boundary := GiveLastTo(right);
        return true, false, boundary;
      }
      MergeFrom(right);
      return true, true, 0;
    }
  }

  lemma LeftIs(ks: seq<Key>, cs: seq<BT>, h: nat, kid: BT, key: Key, l: BT, r: BT, boundary: Key)
    requires h < |ks| == |cs| && l.Fork? && r == Fork(ks[h..], cs[h..]) && boundary == r.keys[0]
    requires var i := Locate(ks[..h], key) + 1; l == Fork(InsertAt(ks[..h], i, key), InsertAt(cs[..h], i, kid))
    ensures SplitToLeft(ks, cs, h, kid, key) == Two(l, r, boundary)
  {
  }

  lemma RightIs(ks: seq<Key>, cs: seq<BT>, h: nat, kid: BT, key: Key, l: BT, r: BT, boundary: Key)
    requires h < |ks| == |cs| && l == Fork(ks[..h], cs[..h])
    requires var i := Locate(ks[h..], key) + 1;
             r == Fork(InsertAt(ks[h..], i, key), InsertAt(cs[h..], i, kid)) && boundary == r.keys[0]
    ensures SplitToRight(ks, cs, h, kid, key) == Two(l, r, boundary)
  {
  }

  lemma FirstIs(l: BT, r: BT, l': BT, r': BT)
    requires l.Fork? && r.Fork? && |l.keys| == |l.kids| && |r.keys| == |r.kids| > 1
    requires l' == Fork(InsertAt(l.keys, |l.keys|, r.keys[0]), InsertAt(l.kids, |l.kids|, r.kids[0]))
    requires r' == Fork(r.keys[1..], r.kids[1..])
    ensures TakeFirstKid(l, r) == Borrowed(l', r', r.keys[1]) && r'.keys[0] == r.keys[1]
  {
  }
}
