/**
 The flat form of a byte array: one block of memory, the number of bytes that
 count as content, and one cursor. The chained form in `ByteArrays` is proved to
 behave exactly like it. `mem` reaches up to the capacity, because moving the
 cursor past the content makes the stale bytes there part of the content.
 */
module FlatBytes {
  import opened Arith
  import opened Bytes

  datatype Flat = Flat(mem: seq<byte>, size: nat, pos: nat) {
    ghost predicate Wf() { pos <= size <= |mem| }

    /** The bytes that a reader can still see. */
    function Unread(): seq<byte>
      requires pos <= size <= |mem|
    {
      mem[pos..size]
    }
  }

  datatype Op = Write(data: seq<byte>) | Read(n: nat) | SetPosition(v: nat) | Clear

  /** `NullNode` is the crash of a zero-length read with the cursor at capacity. */
  datatype Out = Done | Bytes(data: seq<byte>) | OutOfRange | NullNode

  function Max(a: nat, b: nat): nat { if a < b then b else a }

  /** The smallest capacity that is `cap` plus whole blocks of `block` and holds `need` bytes. */
  function Grown(cap: nat, need: nat, block: nat): (r: nat)
    requires block > 0
    ensures r >= cap && r >= need
    ensures r > cap ==> r - block < need
    decreases if need > cap then need - cap else 0
  {
    if need <= cap then cap else Grown(cap + block, need, block)
  }

  /** The two properties of `Grown` pin it down. */
  lemma {:induction false} GrownUnique(cap: nat, need: nat, block: nat, count: nat)
    requires block > 0
    requires cap + Times(count, block) >= need
    requires count > 0 ==> cap + Times(count - 1, block) < need
    ensures Grown(cap, need, block) == cap + Times(count, block)
    decreases count
  {
    if count > 0 {
      TimesShift(count - 1, block);
      if count > 1 {
        TimesShift(count - 2, block);
      }
      GrownUnique(cap + block, need, block, count - 1);
    }
  }

  /** The growth is a whole number of blocks, and one block fewer would not do. */
  lemma {:induction false} GrownWhole(cap: nat, need: nat, block: nat) returns (count: nat)
    requires block > 0
    ensures Grown(cap, need, block) == cap + Times(count, block)
    ensures count > 0 ==> cap + Times(count - 1, block) < need
    decreases if need > cap then need - cap else 0
  {
    count := 0;
    if need > cap {
      var more := GrownWhole(cap + block, need, block);
      count := more + 1;
      TimesShift(more, block);
      if more > 0 {
        TimesShift(more - 1, block);
      }
    }
  }

  /** Bytes beyond the old capacity come from fresh blocks and are not specified. */
  ghost predicate Wrote(f: Flat, d: seq<byte>, block: nat, f': Flat)
    requires f.Wf() && block > 0
  {
    var end := f.pos + |d|;
    if d == [] then f' == f
    else
      && f'.pos == end
      && f'.size == Max(f.size, end)
      && |f'.mem| == Grown(|f.mem|, end, block)
      && (forall i :: 0 <= i < |f'.mem| ==>
           if f.pos <= i < end then f'.mem[i] == d[i - f.pos] else i < |f.mem| ==> f'.mem[i] == f.mem[i])
  }

  /** The bytes are at the old position, the cursor is behind them, and the content ends there or where it did. */
  lemma WroteIs(f: Flat, d: seq<byte>, block: nat, f': Flat)
    requires f.Wf() && block > 0 && Wrote(f, d, block, f')
    ensures f'.pos == f.pos + |d| <= |f'.mem| && f'.mem[f.pos..f'.pos] == d
    ensures f'.size == if f.size < f'.pos then f'.pos else f.size
    ensures |f.mem| <= |f'.mem| && f'.mem[..f.pos] == f.mem[..f.pos]
    ensures forall i :: f'.pos <= i < |f.mem| ==> f'.mem[i] == f.mem[i]
  {
  }

  /** Growing first and overwriting then is a write. */
  lemma WroteBySplice(f: Flat, d: seq<byte>, block: nat, grown: seq<byte>)
    requires f.Wf() && block > 0
    requires f.mem <= grown && |grown| == Grown(|f.mem|, f.pos + |d|, block)
    ensures Wrote(f, d, block, Flat(Splice(grown, f.pos, d), Max(f.size, f.pos + |d|), f.pos + |d|))
  {
    if d == [] {
      assert Splice(grown, f.pos, d) == grown == f.mem;
    }
  }

  lemma {:induction false} GrownTwice(cap: nat, n1: nat, n2: nat, block: nat)
    requires block > 0 && n1 <= n2
    ensures Grown(Grown(cap, n1, block), n2, block) == Grown(cap, n2, block)
    decreases if n1 > cap then n1 - cap else 0
  {
    if n1 > cap {
      GrownTwice(cap + block, n1, n2, block);
    }
  }

  /** Two writes in a row are one write of the joined data. */
  lemma WroteTwice(f: Flat, d: seq<byte>, e: seq<byte>, block: nat, f1: Flat, f2: Flat)
    requires f.Wf() && f1.Wf() && block > 0
    requires Wrote(f, d, block, f1) && Wrote(f1, e, block, f2)
    ensures Wrote(f, d + e, block, f2)
  {
    if d == [] {
      assert d + e == e;
    } else if e == [] {
      assert d + e == d;
    } else {
      GrownTwice(|f.mem|, f1.pos, f2.pos, block);
    }
  }

  ghost predicate Step(f: Flat, op: Op, block: nat, out: Out, f': Flat)
    requires f.Wf() && block > 0
  {
    match op
    case Write(d) => out == Done && Wrote(f, d, block, f')
    case Read(n) =>
      if n > f.size - f.pos then out == OutOfRange && f' == f
      else if n == 0 && f.pos == |f.mem| then out == NullNode && f' == f
      else out == Bytes(f.mem[f.pos..f.pos + n]) && f' == f.(pos := f.pos + n)
    case SetPosition(v) =>
      if v > |f.mem| then out == OutOfRange && f' == f
      else out == Done && f' == f.(pos := v, size := Max(f.size, v))
    case Clear =>
      out == Done && block <= |f.mem| && f' == Flat(f.mem[..block], 0, 0)
  }

  /** The flat form, started in `f`, can answer `ops` with `outs` and end in `f'`. */
  ghost predicate Run(f: Flat, ops: seq<Op>, block: nat, outs: seq<Out>, f': Flat)
    requires f.Wf() && block > 0
    decreases |ops|
  {
    if ops == [] then outs == [] && f' == f
    else
      |outs| > 0
      && exists m: Flat :: m.Wf() && Step(f, ops[0], block, outs[0], m) && Run(m, ops[1..], block, outs[1..], f')
  }

  /** The content alone, without capacity or stale bytes. */
  datatype Content = Content(data: seq<byte>, pos: nat)

  ghost function ContentOf(f: Flat): Content
    requires f.Wf()
  {
    Content(f.mem[..f.size], f.pos)
  }

  /** `op` reads at least one byte and does not move the cursor past the content. */
  predicate Inside(c: Content, op: Op) {
    match op
    case Read(n) => n > 0
    case SetPosition(v) => v <= |c.data|
    case _ => true
  }

  function Answer(c: Content, op: Op): (Out, Content)
    requires c.pos <= |c.data|
  {
    match op
    case Write(d) =>
      var end := c.pos + |d|;
      (Done, Content(c.data[..c.pos] + d + (if end < |c.data| then c.data[end..] else []), end))
    case Read(n) =>
      if n > |c.data| - c.pos then (OutOfRange, c)
      else (Bytes(c.data[c.pos..c.pos + n]), c.(pos := c.pos + n))
    case SetPosition(v) => (Done, if v <= |c.data| then c.(pos := v) else c)
    case Clear => (Done, Content([], 0))
  }

  ghost predicate AllInside(c: Content, ops: seq<Op>)
    requires c.pos <= |c.data|
    decreases |ops|
  {
    ops == [] ||
    (Inside(c, ops[0]) &&
     var next := Answer(c, ops[0]).1; next.pos <= |next.data| && AllInside(next, ops[1..]))
  }

  function Answers(c: Content, ops: seq<Op>): (outs: seq<Out>)
    requires c.pos <= |c.data|
    decreases |ops|
  {
    if ops == [] then []
    else
      var (out, next) := Answer(c, ops[0]);
      if next.pos <= |next.data| then [out] + Answers(next, ops[1..]) else [out]
  }

  lemma StepByContent(f: Flat, op: Op, block: nat, out: Out, f': Flat)
    requires f.Wf() && f'.Wf() && block > 0
    requires Step(f, op, block, out, f') && Inside(ContentOf(f), op)
    ensures (out, ContentOf(f')) == Answer(ContentOf(f), op)
  {
    var c, c' := ContentOf(f), ContentOf(f');
    match op
    case Write(d) =>
      assert c'.data == Answer(c, op).1.data;
    case Read(n) =>
      assert n <= f.size - f.pos ==> c.data[f.pos..f.pos + n] == f.mem[f.pos..f.pos + n];
    case SetPosition(v) =>
    case Clear =>
  }

  /** Inside the content every run of the flat form gives the same answers, those of a plain byte string. */
  lemma {:induction false} RunByContent(f: Flat, ops: seq<Op>, block: nat, outs: seq<Out>, f': Flat)
    requires f.Wf() && block > 0
    requires Run(f, ops, block, outs, f') && AllInside(ContentOf(f), ops)
    ensures outs == Answers(ContentOf(f), ops)
    decreases |ops|
  {
    if ops != [] {
      var m: Flat :| m.Wf() && Step(f, ops[0], block, outs[0], m) && Run(m, ops[1..], block, outs[1..], f');
      StepByContent(f, ops[0], block, outs[0], m);
      RunByContent(m, ops[1..], block, outs[1..], f');
    }
  }
}
