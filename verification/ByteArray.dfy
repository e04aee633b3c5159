/**
 The byte array: a singly linked chain of equally sized nodes with one cursor,
 proved to refine the flat form in `FlatBytes` for every node size.
 */
module ByteArrays {
  import opened Bytes
  import opened FlatBytes
  import opened Arith
  import opened Options

  /** Block `i` of a memory cut into blocks of `n` bytes. */
  ghost function Block(mem: seq<byte>, n: nat, i: nat): (r: seq<byte>)
    requires Times(i, n) + n <= |mem|
  {
    mem[Times(i, n)..Times(i, n) + n]
  }

  class Node {
    const data: array<byte>
    var next: Node?

    constructor (size: nat)
      ensures fresh(data) && data.Length == size && next == null
    {
      data := new byte[size];
      next := null;
    }
  }

  /** One slice of a scatter/gather list: `len` bytes of a node's buffer from `off` on. */
  datatype IoVec = IoVec(base: array<byte>, off: nat, len: nat)

  ghost function Total(iovs: seq<IoVec>): nat {
    if iovs == [] then 0 else Total(iovs[..|iovs| - 1]) + iovs[|iovs| - 1].len
  }

  ghost predicate InBounds(iovs: seq<IoVec>) {
    forall i :: 0 <= i < |iovs| ==> 0 < iovs[i].len && iovs[i].off + iovs[i].len <= iovs[i].base.Length
  }

  /** What a gathering write sends: the bytes of all slices, in order. */
  ghost function Gather(iovs: seq<IoVec>): seq<byte>
    requires InBounds(iovs)
    reads set v | v in iovs :: v.base
  {
    if iovs == [] then []
    else
      var v := iovs[|iovs| - 1];
      Gather(iovs[..|iovs| - 1]) + v.base[v.off..v.off + v.len]
  }

  method Overwrite(data: array<byte>, off: nat, d: seq<byte>)
    requires off + |d| <= data.Length
    modifies data
    ensures data[..] == Splice(old(data[..]), off, d)
  {
    forall j | off <= j < off + |d| {
      data[j] := d[j - off];
    }
  }

  class ByteArray {
    const baseSize: nat
    var position: nat
    var capacity: nat
    var size: nat
    var root: Node
    var cur: Node?
    ghost var nodes: seq<Node>
    ghost var mem: seq<byte>
    ghost var places: map<object, nat>
    ghost var Repr: set<object>

    /** The chain is `nodes`, its buffers are the blocks of `mem`. */
    ghost predicate Chain()
      reads this`root, this`nodes, this`mem, this`places, this`capacity, this`Repr, Repr
    {
      && this !in Repr
      && baseSize > 0
      && |nodes| > 0
      && root == nodes[0]
      && (forall i :: 0 <= i < |nodes| ==>
            nodes[i] in Repr && nodes[i].data in Repr && nodes[i].data.Length == baseSize)
      && (forall i :: 0 <= i < |nodes| ==> Place(nodes[i]) == i && Place(nodes[i].data) == i)
      && (forall i :: 0 <= i < |nodes| ==> IsLinked(i))
      && capacity == Times(|nodes|, baseSize) == |mem|
      && (forall i :: 0 <= i < |nodes| ==> IsBlock(i))
    }

    /** The index in the chain of a node or of a node's buffer; that it exists makes them all different. */
    ghost function Place(o: object): int
      reads this`places
    {
      if o in places then places[o] else -1
    }

    ghost predicate IsLinked(i: nat)
      requires i < |nodes|
      reads this`nodes, nodes[i]
    {
      nodes[i].next == if i + 1 < |nodes| then nodes[i + 1] else null
    }

    ghost predicate IsBlock(i: nat)
      requires i < |nodes|
      reads this`nodes, this`mem, nodes[i].data
    {
      && Times(i, baseSize) + baseSize <= |mem|
      && nodes[i].data[..] == Block(mem, baseSize, i)
    }

    /** The node that holds flat offset `p`; null exactly at capacity. */
    ghost function NodeAt(p: nat): Node?
      requires baseSize > 0
      reads this`nodes
    {
      var k := Quot(p, baseSize);
      if k < |nodes| then nodes[k] else null
    }

    ghost predicate Valid()
      reads this, Repr
    {
      && Chain()
      && position <= size <= capacity
      && cur == NodeAt(position)
    }

    ghost function View(): Flat
      reads this
    {
      Flat(mem, size, position)
    }

    constructor (n: nat)
      requires n > 0
      ensures Valid() && fresh(Repr)
      ensures baseSize == n && size == 0 && position == 0 && capacity == n
    {
      baseSize := n;
      position, capacity, size := 0, n, 0;
      var node := new Node(n);
      root, cur := node, node;
      nodes := [node];
      places := map[node := 0, node.data := 0];
      mem := node.data[..];
      Repr := {node, node.data};
      new;
      assert Times(1, baseSize) == baseSize;
      assert IsLinked(0) && IsBlock(0);
    }

    /** Where flat offset `p` lies in the chain. */
    lemma Locate(p: nat)
      requires Chain() && p <= capacity
      ensures var k := Quot(p, baseSize);
              && (p < capacity <==> k < |nodes|)
              && p == Times(k, baseSize) + p % baseSize
              && p % baseSize < baseSize
    {
      QuotIsDiv(p, baseSize);
      if Quot(p, baseSize) < |nodes| {
        TimesLe(Quot(p, baseSize), |nodes|, baseSize);
      } else {
        TimesLe(|nodes|, Quot(p, baseSize), baseSize);
      }
    }

    lemma CursorNotNull(p: nat)
      requires Chain() && p < capacity
      ensures NodeAt(p) != null
    {
      Locate(p);
    }

    lemma {:induction false} NodeAtOffset(k: nat, off: nat)
      requires Chain() && k < |nodes| && off <= baseSize
      ensures NodeAt(Times(k, baseSize) + off) == if off < baseSize then nodes[k] else nodes[k].next
      ensures Times(k, baseSize) + off <= capacity
    {
      TimesLe(k, |nodes|, baseSize);
      NextOf(k);
      if off < baseSize {
        QuotOf(k, off, baseSize);
      } else {
        QuotOf(k + 1, 0, baseSize);
      }
    }

    /** The flat bytes inside one node. */
    lemma {:induction false} NodeSlice(k: nat, off: nat, n: nat)
      requires Chain() && k < |nodes| && off + n <= baseSize
      ensures Times(k, baseSize) + off + n <= |mem|
      ensures nodes[k].data[off..off + n] == mem[Times(k, baseSize) + off..Times(k, baseSize) + off + n]
    {
      assert IsBlock(k);
      assert nodes[k].data[off..off + n] == nodes[k].data[..][off..off + n];
    }

    /** The next `n` bytes of node `k` extend the flat bytes from `p` to `at`; then comes the rest of the chain. */
    lemma {:induction false} Piece(k: nat, off: nat, n: nat, p: nat, at: nat)
      requires Chain() && k < |nodes| && off + n <= baseSize
      requires p <= at == Times(k, baseSize) + off
      ensures at + n <= capacity
      ensures mem[p..at] + nodes[k].data[off..off + n] == mem[p..at + n]
      ensures NodeAt(at + n) == if off + n < baseSize then nodes[k] else nodes[k].next
      ensures off + n == baseSize && at + n < capacity ==>
                k + 1 < |nodes| && nodes[k].next == nodes[k + 1] && at + n == Times(k + 1, baseSize)
    {
      NodeSlice(k, off, n);
      NodeAtOffset(k, off + n);
      NextOf(k);
      SliceJoin(mem, p, at, at + n);
    }

    /** Hangs one fresh node at the end of the chain. */
    method AppendNode(last: Node) returns (node: Node)
      requires Chain() && last == nodes[|nodes| - 1]
      modifies this`nodes, this`mem, this`places, this`capacity, this`Repr, last`next
      ensures Chain() && fresh(node) && fresh(Repr - old(Repr)) && old(Repr) <= Repr
      ensures nodes == old(nodes) + [node]
      ensures capacity == old(capacity) + baseSize
      ensures old(mem) == mem[..old(capacity)]
    {
      node := new Node(baseSize);
      last.next := node;
      places := places[node := |nodes|][node.data := |nodes|];
      nodes := nodes + [node];
      mem := mem + node.data[..];
      Repr := Repr + {node, node.data};
      capacity := capacity + baseSize;
      forall i | 0 <= i < |nodes| ensures IsLinked(i) {
        assert i < |nodes| - 1 ==> old(IsLinked(i));
      }
      forall i | 0 <= i < |nodes| ensures IsBlock(i) {
        TimesLe(i, |nodes| - 1, baseSize);
        BlockOfJoin(old(mem), node.data[..], baseSize, i);
        assert i < |nodes| - 1 ==> old(IsBlock(i));
      }
    }

    lemma NextOf(k: nat)
      requires Chain() && k < |nodes|
      ensures nodes[k].next == if k + 1 < |nodes| then nodes[k + 1] else null
    {
      assert IsLinked(k);
    }

    method LastNode() returns (tmp: Node)
      requires Chain()
      ensures tmp == nodes[|nodes| - 1]
    {
      tmp := root;
      ghost var k := 0;
      while tmp.next != null
        invariant k < |nodes| && tmp == nodes[k]
        decreases |nodes| - k
      {
        NextOf(k);
        tmp := tmp.next;
        k := k + 1;
      }
      NextOf(k);
    }

    /** Hangs `count` fresh nodes at the end of the chain; `first` is the first of them. */
    method AppendNodes(count: nat) returns (first: Node?)
      requires Chain() && count > 0
      modifies this`nodes, this`mem, this`places, this`capacity, this`Repr, nodes
      ensures Chain() && fresh(Repr - old(Repr)) && old(Repr) <= Repr
      ensures old(nodes) <= nodes && |nodes| == |old(nodes)| + count
      ensures first == nodes[|old(nodes)|]
      ensures old(mem) <= mem
      ensures capacity == old(capacity) + Times(count, baseSize)
    {
      var tmp := LastNode();
      first := null;
      var i := 0;
      while i < count
        invariant 0 <= i <= count
        invariant Chain() && fresh(Repr - old(Repr)) && old(Repr) <= Repr
        invariant tmp == nodes[|nodes| - 1] && (tmp in old(nodes) || fresh(tmp))
        invariant old(nodes) <= nodes && |nodes| == |old(nodes)| + i
        invariant old(mem) <= mem
        invariant i == 0 ==> first == null
        invariant i > 0 ==> first == nodes[|old(nodes)|]
        invariant capacity == old(capacity) + Times(i, baseSize)
      {
        tmp := AppendNode(tmp);
        if first == null {
          first := tmp;
        }
        i := i + 1;
      }
    }

    /** Grows the chain by the fewest nodes that leave room for `n` more bytes. */
    method AddCapacity(n: nat)
      requires Valid()
      modifies this, Repr
      ensures Valid() && fresh(Repr - old(Repr)) && old(Repr) <= Repr
      ensures position == old(position) && size == old(size)
      ensures capacity == Grown(old(capacity), old(position) + n, baseSize)
      ensures old(mem) <= mem
      ensures old(nodes) <= nodes
    {
      if n == 0 {
        return;
      }
      var oldCap := capacity - position;
      if oldCap >= n {
        return;
      }
      Locate(position);
      var count := CeilDiv(n - oldCap, baseSize);
      GrownByCount(capacity, position, n, baseSize);
      var first := AppendNodes(count);
      if oldCap == 0 {
        cur := first;
        QuotOf(|old(nodes)|, 0, baseSize);
      }
    }

    /** Copies `d` into one node at `off`, and the flat memory changes at that place only. */
    method CopyIn(ghost k: nat, data: array<byte>, off: nat, d: seq<byte>)
      requires Chain() && k < |nodes| && data == nodes[k].data && off + |d| <= baseSize
      modifies this`mem, data
      ensures Chain()
      ensures Times(k, baseSize) + off + |d| <= |old(mem)|
      ensures mem == Splice(old(mem), Times(k, baseSize) + off, d)
    {
      assert IsBlock(k);
      Overwrite(data, off, d);
      mem := Splice(mem, Times(k, baseSize) + off, d);
      forall i | 0 <= i < |nodes| ensures IsLinked(i) && IsBlock(i) {
        assert old(IsLinked(i)) && old(IsBlock(i));
        if i == k {
          SameBlock(old(mem), baseSize, k, off, d);
        } else {
          OtherBlock(old(mem), baseSize, k, off, d, i);
        }
      }
    }

    /** If flat bytes remain past node `k`, it has a successor, where they start. */
    lemma NextNode(k: nat)
      requires Chain() && k < |nodes| && Times(k, baseSize) + baseSize < capacity
      ensures k + 1 < |nodes| && nodes[k].next == nodes[k + 1]
      ensures Times(k + 1, baseSize) == Times(k, baseSize) + baseSize
    {
      NextOf(k);
    }

    /** The offset of flat offset `p` in its node. */
    method InNode(p: nat) returns (npos: nat, ghost k: nat)
      requires Chain() && p <= capacity && NodeAt(p) != null
      ensures k < |nodes| && NodeAt(p) == nodes[k] && npos < baseSize
      ensures p == Times(k, baseSize) + npos
    {
      Locate(p);
      npos := p % baseSize;
      k := Quot(p, baseSize);
    }

    /** Copies the first `n` bytes of `d` into the cursor's node; a full node moves the cursor to the next. */
    method CopyStep(ghost k: nat, npos: nat, d: seq<byte>, n: nat)
      requires Chain() && k < |nodes| && cur == nodes[k]
      requires n <= |d| && npos + n <= baseSize && position + |d| <= capacity
      requires position == Times(k, baseSize) + npos
      modifies this`position, this`cur, this`mem, nodes[k].data
      ensures Chain()
      ensures npos + n == baseSize && position < capacity ==>
                k + 1 < |nodes| && cur == nodes[k + 1] && position == Times(k + 1, baseSize)
      ensures position == old(position) + n
      ensures cur == NodeAt(position)
      ensures Splice(mem, position, d[n..]) == Splice(old(mem), old(position), d)
    {
      SpliceSplit(mem, position, d, n);
      CopyIn(k, cur.data, npos, d[..n]);
      NodeAtOffset(k, npos + n);
      NextOf(k);
      if cur.data.Length == npos + n {
        cur := cur.next;
      }
      position := position + n;
    }

    /** The copy loop of `Write`: fills the chain from the cursor on, node by node. */
    method Fill(buf: seq<byte>)
      requires Chain() && cur == NodeAt(position)
      requires 0 < |buf| && position + |buf| <= capacity
      modifies this`position, this`cur, this`mem, Repr
      ensures Chain() && cur == NodeAt(position)
      ensures position == old(position) + |buf|
      ensures mem == Splice(old(mem), old(position), buf)
    {
      var npos: nat;
      ghost var k: nat;
      CursorNotNull(position);
      npos, k := InNode(position);
      var ncap: nat := cur.data.Length - npos;
      var rest := buf;
      ghost var goal := Splice(mem, position, buf);
      while |rest| > 0
        invariant Chain()
        invariant position + |rest| == old(position) + |buf|
        invariant Splice(mem, position, rest) == goal
        invariant |rest| > 0 ==> k < |nodes| && cur == nodes[k] && npos < baseSize && npos + ncap == baseSize
        invariant |rest| > 0 ==> position == Times(k, baseSize) + npos
        invariant |rest| == 0 ==> cur == NodeAt(position)
      {
        var n := if ncap >= |rest| then |rest| else ncap;
        CopyStep(k, npos, rest, n);
        rest := rest[n..];
        npos, ncap, k := 0, baseSize, k + 1;
      }
      SpliceNone(mem, position, rest);
    }

    method Write(buf: seq<byte>)
      requires Valid()
      modifies this, Repr
      ensures Valid() && fresh(Repr - old(Repr)) && old(Repr) <= Repr
      ensures Wrote(old(View()), buf, baseSize, View())
    {
      if |buf| == 0 {
        return;
      }
      AddCapacity(|buf|);
      ghost var grown := mem;
      Fill(buf);
      if position > size {
        size := position;
      }
      WroteBySplice(old(View()), buf, baseSize, grown);
    }

    /** The copy loop of both readers: the `n` flat bytes from `p` on, and the node where they end. */
    method CopyOut(start: Node, p: nat, n: nat) returns (buf: seq<byte>, node: Node?)
      requires Chain() && start == NodeAt(p) && p + n <= capacity
      ensures buf == mem[p..p + n] && node == NodeAt(p + n)
    {
      var npos: nat;
      ghost var k: nat;
      npos, k := InNode(p);
      node := start;
      var ncap: nat := node.data.Length - npos;
      var at, left: nat := p, n;
      buf := [];
      while left > 0
        invariant at + left == p + n && p <= at
        invariant buf == mem[p..at]
        invariant node == NodeAt(at)
        invariant left > 0 ==> k < |nodes| && node == nodes[k] && npos < baseSize && npos + ncap == baseSize
        invariant left > 0 ==> at == Times(k, baseSize) + npos
      {
        var take := if ncap >= left then left else ncap;
        Piece(k, npos, take, p, at);
        buf := buf + node.data[npos..npos + take];
        if node.data.Length == npos + take {
          node := node.next;
        }
        at, left := at + take, left - take;
        npos, ncap, k := 0, baseSize, k + 1;
      }
    }

    /** A read with the cursor at capacity dereferences a null node, even for zero bytes. */
    method Read(n: nat) returns (out: Out)
      requires Valid()
      modifies this`position, this`cur
      ensures Valid()
      ensures Step(old(View()), FlatBytes.Read(n), baseSize, out, View())
      ensures out == OutOfRange <==> n > old(size) - old(position)
      ensures out == NullNode <==> n == 0 && old(position) == capacity
      ensures if out.Bytes? then position == old(position) + n <= capacity && out.data == mem[old(position)..position]
              else position == old(position)
    {
      if n > size - position {
        return OutOfRange;
      }
      if cur == null {
        Locate(position);
        return NullNode;
      }
      Locate(position);
      var buf, node := CopyOut(cur, position, n);
      position := position + n;
      cur := node;
      out := FlatBytes.Bytes(buf);
    }

    /** The unread bytes, without moving the cursor. */
    method ToString() returns (str: seq<byte>)
      requires Valid()
      ensures str == View().Unread()
    {
      if size - position == 0 {
        return [];
      }
      Locate(position);
      ghost var node;
      str, node := CopyOut(cur, position, size - position);
    }

    /** The walk of `setPosition` from the root. */
    method FindNode(v: nat) returns (node: Node?)
      requires Chain() && v <= capacity
      ensures node == NodeAt(v)
    {
      node := root;
      var rest: nat := v;
      ghost var k: nat := 0;
      while rest > node.data.Length
        invariant k < |nodes| && node == nodes[k] && v == Times(k, baseSize) + rest
        decreases rest
      {
        NextNode(k);
        rest := rest - node.data.Length;
        node := node.next;
        k := k + 1;
      }
      NodeAtOffset(k, rest);
      if rest == node.data.Length {
        node := node.next;
      }
    }

    method SetPosition(v: nat) returns (out: Out)
      requires Valid()
      modifies this`position, this`size, this`cur
      ensures Valid()
      ensures Step(old(View()), FlatBytes.SetPosition(v), baseSize, out, View())
      ensures out == (if v > capacity then OutOfRange else Done)
      ensures v > capacity ==> position == old(position) && size == old(size)
      ensures v <= capacity ==> position == v && size == if v > old(size) then v else old(size)
    {
      if v > capacity {
        return OutOfRange;
      }
      position := v;
      if position > size {
        size := position;
      }
      cur := FindNode(v);
      out := Done;
    }

    method Clear()
      requires Valid()
      modifies this, root
      ensures Valid() && Repr == old(Repr)
      ensures Step(old(View()), FlatBytes.Clear, baseSize, Done, View())
      ensures position == 0 && size == 0 && capacity == baseSize && nodes == [root]
    {
      assert IsBlock(0);
      position, size := 0, 0;
      CutChain();
      cur := root;
    }

    /** Cuts the chain behind the root. */
    method CutChain()
      requires Chain()
      modifies this`capacity, this`nodes, this`mem, root`next
      ensures Chain() && nodes == [root] && baseSize <= |old(mem)| && mem == old(mem)[..baseSize]
    {
      assert IsBlock(0);
      capacity := baseSize;
      root.next := null;
      nodes := [root];
      mem := mem[..baseSize];
      assert IsLinked(0);
      assert Times(1, baseSize) == baseSize;
      assert IsBlock(0);
    }

    /** `v` is a non-empty slice of the one node that holds flat offset `q`. */
    ghost predicate SliceAt(v: IoVec, q: nat)
      requires baseSize > 0
      reads this`nodes
    {
      var k := Quot(q, baseSize);
      && k < |nodes|
      && v.base == nodes[k].data
      && q == Times(k, baseSize) + v.off
      && 0 < v.len && v.off + v.len <= baseSize
    }

    /** The slices follow each other in the flat memory from `p` on. */
    ghost predicate Covers(iovs: seq<IoVec>, p: nat)
      requires baseSize > 0
      reads this`nodes
      decreases |iovs|
    {
      iovs == [] ||
      (var init := iovs[..|iovs| - 1];
       Covers(init, p) && SliceAt(iovs[|iovs| - 1], p + Total(init)))
    }

    lemma CoversMore(iovs: seq<IoVec>, v: IoVec, p: nat)
      requires baseSize > 0 && Covers(iovs, p) && SliceAt(v, p + Total(iovs))
      ensures Covers(iovs + [v], p) && Total(iovs + [v]) == Total(iovs) + v.len
    {
      assert (iovs + [v])[..|iovs|] == iovs;
    }

    /** Where slice `i` of the list lies. */
    lemma {:induction false} CoversAt(iovs: seq<IoVec>, p: nat, i: nat)
      requires baseSize > 0 && Covers(iovs, p) && i < |iovs|
      ensures SliceAt(iovs[i], p + Total(iovs[..i]))
      ensures Total(iovs[..i + 1]) == Total(iovs[..i]) + iovs[i].len <= Total(iovs)
      decreases |iovs|
    {
      var init := iovs[..|iovs| - 1];
      if i < |init| {
        CoversAt(init, p, i);
        assert init[..i] == iovs[..i] && init[..i + 1] == iovs[..i + 1];
      } else {
        assert iovs[..i + 1] == iovs;
      }
    }

    lemma SliceBounds(v: IoVec, q: nat)
      requires Chain() && SliceAt(v, q)
      ensures v.base in Repr && v.base.Length == baseSize
      ensures q + v.len <= capacity && v.base[v.off..v.off + v.len] == mem[q..q + v.len]
    {
      NodeSlice(Quot(q, baseSize), v.off, v.len);
    }

    lemma CoversBounds(iovs: seq<IoVec>, p: nat)
      requires Chain() && Covers(iovs, p)
      ensures InBounds(iovs)
    {
      forall i | 0 <= i < |iovs| ensures 0 < iovs[i].len && iovs[i].off + iovs[i].len <= iovs[i].base.Length {
        CoversAt(iovs, p, i);
        SliceBounds(iovs[i], p + Total(iovs[..i]));
      }
    }

    lemma CoversEnd(iovs: seq<IoVec>, p: nat)
      requires Chain() && Covers(iovs, p) && p <= capacity
      ensures p + Total(iovs) <= capacity
    {
      if iovs != [] {
        var init, v := iovs[..|iovs| - 1], iovs[|iovs| - 1];
        SliceBounds(v, p + Total(init));
      }
    }

    /** The slices hold the flat bytes from `p` to `q`. */
    lemma {:induction false} GatherIsFlat(iovs: seq<IoVec>, p: nat, q: nat)
      requires Chain() && Covers(iovs, p) && InBounds(iovs) && p <= capacity
      requires q == p + Total(iovs) <= capacity
      ensures Gather(iovs) == mem[p..q]
      decreases |iovs|
    {
      if iovs != [] {
        var init, v := iovs[..|iovs| - 1], iovs[|iovs| - 1];
        var mid := p + Total(init);
        GatherIsFlat(init, p, mid);
        SliceBounds(v, mid);
        SliceJoin(mem, p, mid, q);
      }
    }

    /** The slicing loop of both buffer getters. */
    method Slices(start: Node, p: nat, n: nat) returns (iovs: seq<IoVec>)
      requires Chain() && start == NodeAt(p) && p + n <= capacity
      ensures Covers(iovs, p) && Total(iovs) == n
    {
      var npos: nat;
      ghost var k: nat;
      npos, k := InNode(p);
      var node := start;
      var ncap: nat := node.data.Length - npos;
      var left: nat := n;
      iovs := [];
      while left > 0
        invariant left <= n
        invariant Covers(iovs, p) && Total(iovs) == n - left
        invariant left > 0 ==> k < |nodes| && node == nodes[k] && npos < baseSize && npos + ncap == baseSize
        invariant left > 0 ==> p + n - left == Times(k, baseSize) + npos
      {
        var v := IoVec(node.data, npos, if ncap >= left then left else ncap);
        QuotOf(k, npos, baseSize);
        CoversMore(iovs, v, p);
        if ncap >= left {
          left := 0;
        } else {
          NextNode(k);
          left := left - ncap;
          node := node.next;
          ncap := node.data.Length;
          npos := 0;
          k := k + 1;
        }
        iovs := iovs + [v];
      }
    }

    /** Slices over the next unread bytes, at most `len` of them. */
    method GetReadBuffers(len: nat) returns (n: nat, iovs: seq<IoVec>)
      requires Valid()
      ensures n == if len > size - position then size - position else len
      ensures Covers(iovs, position) && Total(iovs) == n && InBounds(iovs)
      ensures Gather(iovs) == mem[position..position + n]
    {
      n := if len > size - position then size - position else len;
      if n == 0 {
        return n, [];
      }
      Locate(position);
      iovs := Slices(cur, position, n);
      CoversBounds(iovs, position);
      CoversEnd(iovs, position);
      GatherIsFlat(iovs, position, position + n);
    }

    /** Makes room for `len` bytes and returns slices over that room. */
    method GetWriteBuffers(len: nat) returns (iovs: seq<IoVec>)
      requires Valid()
      modifies this, Repr
      ensures Valid() && fresh(Repr - old(Repr)) && old(Repr) <= Repr
      ensures position == old(position) && size == old(size)
      ensures capacity == Grown(old(capacity), old(position) + len, baseSize)
      ensures old(mem) <= mem
      ensures Covers(iovs, position) && Total(iovs) == len
    {
      if len == 0 {
        return [];
      }
      AddCapacity(len);
      Locate(position);
      iovs := Slices(cur, position, len);
    }

    /** Puts the first bytes of `d` into one slice; the rest is still to come behind it. */
    method ScatterOne(v: IoVec, ghost q: nat, d: seq<byte>)
      requires Chain() && SliceAt(v, q) && v.len <= |d| && q + |d| <= capacity
      modifies this`mem, v.base
      ensures Chain()
      ensures Splice(mem, q + v.len, d[v.len..]) == Splice(old(mem), q, d)
    {
      SpliceSplit(mem, q, d, v.len);
      CopyIn(Quot(q, baseSize), v.base, v.off, d[..v.len]);
    }

    lemma NextSlice(iovs: seq<IoVec>, p: nat, i: nat)
      requires Chain() && Covers(iovs, p) && i < |iovs|
      ensures SliceAt(iovs[i], p + Total(iovs[..i])) && iovs[i].base in Repr
      ensures Total(iovs[..i + 1]) == Total(iovs[..i]) + iovs[i].len <= Total(iovs)
    {
      CoversAt(iovs, p, i);
      SliceBounds(iovs[i], p + Total(iovs[..i]));
    }

    /** What a scattering read does with the slices: puts `d` into them, in order. */
    method Scatter(iovs: seq<IoVec>, ghost p: nat, d: seq<byte>)
      requires Chain() && Covers(iovs, p) && Total(iovs) == |d| && p + |d| <= capacity
      modifies this`mem, Repr
      ensures Chain()
      ensures mem == Splice(old(mem), p, d)
    {
      var rest := d;
      ghost var q := p;
      ghost var goal := Splice(mem, p, d);
      for i := 0 to |iovs|
        invariant Chain() && q == p + Total(iovs[..i]) && q + |rest| == p + |d|
        invariant Splice(mem, q, rest) == goal
      {
        var v := iovs[i];
        NextSlice(iovs, p, i);
        ScatterOne(v, q, rest);
        rest := rest[v.len..];
        q := q + v.len;
      }
      assert iovs[..|iovs|] == iovs;
      SpliceNone(mem, q, rest);
    }

    /** Fills slices that start at the cursor and moves the cursor behind them. */
    method FillBuffers(iovs: seq<IoVec>, d: seq<byte>) returns (out: Out)
      requires Valid() && Covers(iovs, position) && Total(iovs) == |d| && position + |d| <= capacity
      modifies this`mem, this`position, this`size, this`cur, Repr
      ensures Valid() && out == Done
      ensures View() == Flat(Splice(old(mem), old(position), d), Max(old(size), position), old(position) + |d|)
    {
      Scatter(iovs, position, d);
      out := SetPosition(position + |d|);
    }

    /** Scatter into write buffers and then move the cursor: the same flat effect as `Write`. */
    method WriteByBuffers(d: seq<byte>) returns (out: Out)
      requires Valid()
      modifies this, Repr
      ensures Valid() && fresh(Repr - old(Repr)) && old(Repr) <= Repr
      ensures out == Done && Wrote(old(View()), d, baseSize, View())
    {
      var iovs := GetWriteBuffers(|d|);
      ghost var grown := mem;
      out := FillBuffers(iovs, d);
      WroteBySplice(old(View()), d, baseSize, grown);
    }

    /** The invariant in the source's own terms. */
    lemma CursorInvariant()
      requires Valid()
      ensures capacity == |nodes| * baseSize
      ensures position <= size <= capacity
      ensures position == capacity <==> cur == null
      ensures position < capacity ==> position / baseSize < |nodes| && cur == nodes[position / baseSize]
    {
      TimesIsMul(|nodes|, baseSize);
      QuotIsDiv(position, baseSize);
      Locate(position);
    }

    /** Offset and length of the next chunk. */
    method ChunkExtent(left: nat, pos: nat) returns (diff: nat, len: int)
      requires baseSize > 0 && left > 0
      ensures pos == Times(Quot(pos, baseSize), baseSize) + diff
      ensures diff + len == if left > baseSize then baseSize else left
      ensures Chunkable(left, pos, baseSize) ==> len > 0
      ensures len >= 0 ==> Chunkable(left - len, pos + len, baseSize) == Chunkable(left, pos, baseSize)
      ensures Chunkable(left, pos, baseSize) && left > len ==> Quot(pos + len, baseSize) == Quot(pos, baseSize) + 1
    {
      diff := pos % baseSize;
      len := (if left > baseSize then baseSize else left) - diff;
      QuotIsDiv(pos, baseSize);
      if len >= 0 {
        ChunkStep(left, pos, baseSize);
      }
    }

    /**
     The chunks handed to the file, or nothing if a chunk had a negative length or
     no node. The chunk length subtracts the offset inside the node from the bytes
     left even when these do not reach the end of the node.
     */
    method WriteToFile() returns (file: Option<seq<byte>>)
      requires Valid()
      ensures file.Some? <==> Chunkable(size - position, position, baseSize)
      ensures file.Some? ==> file.value == View().Unread()
    {
      var readSize: nat := size - position;
      var pos: nat := position;
      var node := cur;
      ghost var k: nat := Quot(pos, baseSize);
      ghost var good := Chunkable(readSize, pos, baseSize);
      var out: seq<byte> := [];
      while readSize > 0
        invariant node == if k < |nodes| then nodes[k] else null
        invariant Chunkable(readSize, pos, baseSize) == good
        invariant good ==> pos + readSize == size && position <= pos && out == mem[position..pos]
        invariant good && readSize > 0 ==> k == Quot(pos, baseSize)
        decreases |nodes| - k
      {
        var diff, len := ChunkExtent(readSize, pos);
        if node == null || len < 0 {
          if good {
            CursorNotNull(pos);
          }
          return None;
        }
        if good {
          Piece(k, diff, len, position, pos);
        }
        out := out + node.data[diff..diff + len];
        NextOf(k);
        node := node.next;
        k := k + 1;
        pos := pos + len;
        readSize := readSize - len;
      }
      file := Some(out);
    }

    /** Reads a file of the given content in chunks of the node size; the flat effect is one write. */
    method ReadFromFile(content: seq<byte>)
      requires Valid()
      modifies this, Repr
      ensures Valid() && fresh(Repr - old(Repr)) && old(Repr) <= Repr
      ensures Wrote(old(View()), content, baseSize, View())
    {
      var rest := content;
      ghost var done: seq<byte> := [];
      var eof := false;
      while !eof
        invariant done + rest == content
        invariant eof ==> rest == []
        invariant Valid() && fresh(Repr - old(Repr)) && old(Repr) <= Repr
        invariant Wrote(old(View()), done, baseSize, View())
        decreases !eof, |rest|
      {
        var count := if |rest| < baseSize then |rest| else baseSize;
        if count < baseSize {
          eof := true;
        }
        ghost var before := View();
        Write(rest[..count]);
        WroteTwice(old(View()), done, rest[..count], baseSize, before, View());
        JoinRest(done, rest, count);
        done, rest := done + rest[..count], rest[count..];
      }
      assert done == content;
    }

    /** Answers a list of operations exactly as the flat form may, and inside the content as a plain byte string. */
    method Serve(ops: seq<Op>) returns (outs: seq<Out>)
      requires Valid()
      modifies this, Repr
      ensures Valid() && fresh(Repr - old(Repr)) && old(Repr) <= Repr
      ensures Run(old(View()), ops, baseSize, outs, View())
      ensures AllInside(ContentOf(old(View())), ops) ==> outs == Answers(ContentOf(old(View())), ops)
    {
      outs := ServeAll(ops);
      if AllInside(ContentOf(old(View())), ops) {
        RunByContent(old(View()), ops, baseSize, outs, View());
      }
    }

    method ServeAll(ops: seq<Op>) returns (outs: seq<Out>)
      requires Valid()
      modifies this, Repr
      ensures Valid() && fresh(Repr - old(Repr)) && old(Repr) <= Repr
      ensures Run(old(View()), ops, baseSize, outs, View())
      decreases |ops|
    {
      if ops == [] {
        return [];
      }
      var out := Done;
      match ops[0] {
        case Write(d) => Write(d);
        case Read(n) => out := Read(n);
        case SetPosition(v) => out := SetPosition(v);
        case Clear => Clear();
      }
      ghost var mid := View();
      assert mid.Wf() && Step(old(View()), ops[0], baseSize, out, mid);
      var rest := ServeAll(ops[1..]);
      outs := [out] + rest;
      assert outs[1..] == rest;
    }
  }

  /** When the chunk loop of `writeToFile` gets through `left` bytes from `pos` on. */
  predicate Chunkable(left: nat, pos: nat, block: nat)
    requires block > 0
  {
    left == 0 || pos % block == 0 || left >= block
  }

  /** One chunk keeps the outcome of the whole loop, and a good one ends its node or the data. */
  lemma ChunkStep(left: nat, pos: nat, block: nat)
    requires block > 0 && left > 0
    requires pos % block <= if left > block then block else left
    ensures var len := (if left > block then block else left) - pos % block;
            && Chunkable(left - len, pos + len, block) == Chunkable(left, pos, block)
            && (Chunkable(left, pos, block) && left > len ==> Quot(pos + len, block) == Quot(pos, block) + 1)
  {
    var r := pos % block;
    var len := (if left > block then block else left) - r;
    var k := Quot(pos, block);
    QuotIsDiv(pos, block);
    if r + len == block {
      ModOf(k + 1, 0, block);
      QuotOf(k + 1, 0, block);
    } else {
      ModOf(k, r + len, block);
    }
  }

  /** Saving the unread bytes and loading them into a fresh array of any node size. */
  method FileRoundTrip(src: ByteArray, n: nat) returns (dst: Option<ByteArray>)
    requires src.Valid() && n > 0
    ensures dst.Some? <==> Chunkable(src.size - src.position, src.position, src.baseSize)
    ensures dst.Some? ==> fresh(dst.value) && dst.value.Valid() && dst.value.position == 0
    ensures dst.Some? ==> dst.value.View().Unread() == old(src.View().Unread())
  {
    var file := src.WriteToFile();
    if file == None {
      return None;
    }
    var ba := new ByteArray(n);
    ba.ReadFromFile(file.value);
    var out := ba.SetPosition(0);
    dst := Some(ba);
  }

  /** `ceil(1.0 * x / n)` taken exactly. */
  function CeilDiv(x: nat, n: nat): (count: nat)
    requires n > 0
    ensures x > 0 ==> count > 0
  {
    (x + n - 1) / n
  }

  lemma GrownByCount(cap: nat, pos: nat, n: nat, block: nat)
    requires block > 0 && pos <= cap < pos + n
    ensures var count := CeilDiv(pos + n - cap, block);
            Grown(cap, pos + n, block) == cap + Times(count, block)
  {
    var lack := pos + n - cap;
    var count := CeilDiv(lack, block);
    QuotIsDiv(lack + block - 1, block);
    GrownUnique(cap, pos + n, block, count);
  }

  lemma BlockOfJoin(mem: seq<byte>, more: seq<byte>, n: nat, i: nat)
    requires |more| == n && Times(i, n) <= |mem|
    requires Times(i, n) == |mem| || Times(i, n) + n <= |mem|
    ensures n > 0 ==> Block(mem + more, n, i) == if Times(i, n) == |mem| then more else Block(mem, n, i)
  {
  }

  /** Overwriting inside block `k` changes no other block. */
  lemma {:induction false} OtherBlock(mem: seq<byte>, n: nat, k: nat, off: nat, d: seq<byte>, i: nat)
    requires off + |d| <= n && Times(k, n) + n <= |mem| && Times(i, n) + n <= |mem| && i != k
    ensures Block(Splice(mem, Times(k, n) + off, d), n, i) == Block(mem, n, i)
  {
    if i < k {
      TimesLe(i, k, n);
    } else {
      TimesLe(k, i, n);
    }
    SliceApart(mem, Times(k, n) + off, d, Times(i, n), Times(i, n) + n);
  }

  lemma {:induction false} SameBlock(mem: seq<byte>, n: nat, k: nat, off: nat, d: seq<byte>)
    requires off + |d| <= n && Times(k, n) + n <= |mem|
    ensures Block(Splice(mem, Times(k, n) + off, d), n, k) == Splice(Block(mem, n, k), off, d)
  {
    SliceAround(mem, Times(k, n) + off, d, Times(k, n), Times(k, n) + n);
  }
}
