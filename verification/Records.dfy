/** The typed writers and readers of the byte array, and lists of typed values. */
module Records {
  import opened Arith
  import opened Bytes
  import opened FlatBytes
  import opened ByteArrays
  import opened Options
  import opened Endian
  import opened Bits
  import opened Words
  import Varint
  import Zigzag

  /**
   `Fixed` is written at full width, `Var` as a variable-length integer of 32 or 64
   bits, `Str` behind a length of `width` bytes. Floating-point numbers are `Fixed`
   by their bit patterns; the "vint" string writer uses a length of eight bytes.
   */
  datatype Kind = Fixed(width: nat, signed: bool) | Var(wide: bool, signed: bool) | Str(width: nat) {
    predicate Wf() {
      match this
      case Fixed(w, _) => w == 1 || w == 2 || w == 4 || w == 8
      case Var(_, _) => true
      case Str(w) => w == 2 || w == 4 || w == 8
    }
  }

  datatype Value = Num(n: int) | Text(s: seq<byte>)

  type Record = r: (Kind, Value) | r.0.Wf() && HasKind(r.0, r.1) witness (Fixed(1, false), Num(0))

  /** `Short` is the thrown range error, `Crash` the null node of an empty read at capacity. */
  datatype Outcome<+T> = Got(value: T) | Short | Crash

  function WordBits(wide: bool): nat { if wide then 64 else 32 }

  function WordSize(wide: bool): nat { if wide then W64 else W32 }

  lemma WordSizeIs(wide: bool)
    ensures Pow2(WordBits(wide)) == WordSize(wide)
  {
    WordSizes();
  }

  /** The values of the C++ type that a writer takes. */
  predicate HasKind(k: Kind, v: Value) {
    match k
    case Fixed(w, signed) => v.Num? && (if signed then Zigzag.IsInt(v.n, Pow256(w)) else 0 <= v.n < Pow256(w))
    case Var(wide, signed) =>
      v.Num? && (if signed then Zigzag.IsInt(v.n, WordSize(wide)) else 0 <= v.n < WordSize(wide))
    case Str(w) => v.Text?
  }

  /** The values that a reader can give back. */
  predicate InDomain(k: Kind, v: Value)
    requires HasKind(k, v)
  {
    match k
    case Fixed(_, _) => true
    case Var(wide, signed) => wide && signed ==> Zigzag.IsInt(v.n, W32)
    case Str(w) => |v.s| < Pow256(w)
  }

  /** The word that a variable-length writer encodes. */
  function VarWord(wide: bool, signed: bool, n: int): (u: nat)
    requires HasKind(Var(wide, signed), Num(n))
    ensures u < WordSize(wide)
  {
    if !signed then n else if wide then Zigzag.Encode64(n) else Zigzag.Encode32(n)
  }

  function Encode(k: Kind, v: Value, order: Order, host: Order): (s: seq<byte>)
    requires k.Wf() && HasKind(k, v)
    ensures |s| > 0
  {
    match k
    case Fixed(w, _) => Put(v.n % Pow256(w), w, order, host)
    case Var(wide, signed) => Varint.Encode(VarWord(wide, signed, v.n))
    case Str(w) => Put(|v.s| % Pow256(w), w, order, host) + v.s
  }

  /** The value at the front of `s` and its length, or nothing if `s` is too short. */
  function Decode(k: Kind, s: seq<byte>, order: Order, host: Order): (r: Option<(Value, nat)>)
    requires k.Wf()
    ensures r.Some? ==> r.value.1 <= |s|
  {
    match k
    case Fixed(w, signed) =>
      if |s| < w then None
      else
        var u := Get(s[..w], order, host);
        Some((Num(if signed then Zigzag.ToSigned(u, Pow256(w)) else u), w))
    case Var(wide, signed) => (
      Pow2Positive(WordBits(wide));
      match Varint.Decode(s, 0, WordBits(wide), 0)
      case None => None
      case Some((u, n)) => Some((Num(if signed then Zigzag.Decode(u, WordBits(wide)) else u), n)))
    case Str(w) =>
      if |s| < w then None
      else
        var len := Get(s[..w], order, host);
        if |s| < w + len then None else Some((Text(s[w..w + len]), w + len))
  }

  lemma FixedRoundTrip(w: nat, signed: bool, n: int, order: Order, host: Order, rest: seq<byte>)
    requires Fixed(w, signed).Wf() && HasKind(Fixed(w, signed), Num(n))
    ensures var s := Encode(Fixed(w, signed), Num(n), order, host);
            Decode(Fixed(w, signed), s + rest, order, host) == Some((Num(n), |s|))
  {
    var s := Encode(Fixed(w, signed), Num(n), order, host);
    assert (s + rest)[..w] == s;
    WrapSigned(n, Pow256(w), signed);
    RoundTrip(n % Pow256(w), w, order, host, host);
  }

  /** What the fixed-width writers store, byte by byte, for every width, order and host. */
  lemma FixedBytes(w: nat, signed: bool, n: int, order: Order, host: Order, i: nat)
    requires Fixed(w, signed).Wf() && HasKind(Fixed(w, signed), Num(n)) && i < w
    ensures var s := Encode(Fixed(w, signed), Num(n), order, host);
            |s| == w && s[if order == Little then i else w - 1 - i] == n % Pow256(w) / Pow256(i) % 256
  {
    PutAt(n % Pow256(w), w, order, host, i);
  }

  /** What the fixed-width readers make of any bytes: the number of that type with this sum, modulo 256^w. */
  lemma FixedSum(w: nat, signed: bool, s: seq<byte>, order: Order, host: Order)
    requires Fixed(w, signed).Wf() && |s| >= w
    ensures var r := Decode(Fixed(w, signed), s, order, host);
            && r.Some? && r.value.1 == w && HasKind(Fixed(w, signed), r.value.0)
            && r.value.0.n % Pow256(w) == Sum(s[..w], order, w)
  {
    GetIsSum(s[..w], order, host);
    SignedMod(Get(s[..w], order, host), Pow256(w));
    SmallMod(Get(s[..w], order, host), Pow256(w));
  }

  lemma SignedMod(u: nat, p: nat)
    requires u < p
    ensures Zigzag.IsInt(Zigzag.ToSigned(u, p), p) && Zigzag.ToSigned(u, p) % p == u
  {
    SmallMod(u, p);
    if 2 * u >= p {
      var n: int := u - p;
      assert (n + p) % p == n % p;
    }
  }

  /** The word that the variable-length writers encode: the number, or its zigzag form, cut to 32 bits. */
  lemma VarWordIs(wide: bool, signed: bool, n: int)
    requires HasKind(Var(wide, signed), Num(n))
    ensures VarWord(wide, signed, n) ==
            if !signed then n else (if n < 0 then -2 * n - 1 else 2 * n) % W32
  {
    if signed && wide {
      Zigzag.Encode64Is(n);
    } else if signed {
      Zigzag.Encode32Is(n);
    }
  }

  /** What the variable-length writers store, byte by byte. */
  lemma VarBytes(wide: bool, signed: bool, n: int, order: Order, host: Order, i: nat)
    requires HasKind(Var(wide, signed), Num(n)) && i < |Encode(Var(wide, signed), Num(n), order, host)|
    ensures var s := Encode(Var(wide, signed), Num(n), order, host);
            var word := if !signed then n else (if n < 0 then -2 * n - 1 else 2 * n) % W32;
            && Varint.Pow128(i) > 0
            && s[i] % 128 == word / Varint.Pow128(i) % 128 && (s[i] >= 128 <==> i + 1 < |s|)
            && word < Varint.Pow128(|s|) && (|s| > 1 ==> word >= Varint.Pow128(|s| - 1))
  {
    VarWordIs(wide, signed, n);
    Varint.EncodeAt(VarWord(wide, signed, n), i);
    Varint.EncodeLength(VarWord(wide, signed, n));
  }

  /** The length prefix of a string in the same way, and the string behind it. */
  lemma PrefixBytes(w: nat, t: seq<byte>, order: Order, host: Order, i: nat)
    requires Str(w).Wf() && i < w
    ensures var s := Encode(Str(w), Text(t), order, host);
            && |s| == w + |t| && s[w..] == t
            && s[if order == Little then i else w - 1 - i] == |t| % Pow256(w) / Pow256(i) % 256
  {
    PutAt(|t| % Pow256(w), w, order, host, i);
  }

  /** The string readers take as many bytes as the prefix says, or find too few. */
  lemma PrefixSum(w: nat, s: seq<byte>, order: Order, host: Order)
    requires Str(w).Wf()
    ensures Decode(Str(w), s, order, host) ==
            if |s| < w || |s| < w + Sum(s[..w], order, w) then None
            else Some((Text(s[w..w + Sum(s[..w], order, w)]), w + Sum(s[..w], order, w)))
  {
    if |s| >= w {
      GetIsSum(s[..w], order, host);
    }
  }

  lemma WrapSigned(n: int, w: nat, signed: bool)
    requires w > 0
    requires if signed then Zigzag.IsInt(n, w) else 0 <= n < w
    ensures 0 <= n % w < w
    ensures (if signed then Zigzag.ToSigned(n % w, w) else n % w) == n
  {
    if n >= 0 {
      SmallMod(n, w);
    } else {
      assert n % w == n + w by {
        SmallMod(n + w, w);
        assert (n + w) % w == n % w;
      }
    }
  }

  /** A value comes back, with exactly its own bytes consumed, if and only if it is in the codec's domain. */
  lemma ValueRoundTrip(k: Kind, v: Value, order: Order, host: Order, rest: seq<byte>)
    requires k.Wf() && HasKind(k, v)
    ensures var s := Encode(k, v, order, host);
            Decode(k, s + rest, order, host) == Some((v, |s|)) <==> InDomain(k, v)
  {
    match k
    case Fixed(w, signed) => FixedRoundTrip(w, signed, v.n, order, host, rest);
    case Var(wide, signed) =>
      var bits := WordBits(wide);
      WordSizeIs(wide);
      Varint.RoundTrip(VarWord(wide, signed, v.n), bits, rest);
      if signed && wide {
        Zigzag.RoundTrip64(v.n, bits);
      } else if signed {
        Zigzag.RoundTrip32(v.n, bits);
      }
    case Str(w) => StringRoundTrip(w, v.s, order, host, rest);
  }

  /** The reader trusts the length prefix. */
  lemma {:induction false} DecodeString(w: nat, len: nat, t: seq<byte>, order: Order, host: Order)
    requires Str(w).Wf() && len < Pow256(w) && len <= |t|
    ensures Decode(Str(w), Put(len, w, order, host) + t, order, host) == Some((Text(t[..len]), w + len))
  {
    RoundTrip(len, w, order, host, host);
    JoinParts(Put(len, w, order, host), t, len);
  }

  lemma {:induction false} StringRoundTrip(w: nat, t: seq<byte>, order: Order, host: Order, rest: seq<byte>)
    requires Str(w).Wf()
    ensures var s := Encode(Str(w), Text(t), order, host);
            Decode(Str(w), s + rest, order, host) == Some((Text(t), |s|)) <==> |t| < Pow256(w)
  {
    var len := |t| % Pow256(w);
    var prefix := Put(len, w, order, host);
    assert prefix + t + rest == prefix + (t + rest);
    if |t| < Pow256(w) {
      SmallMod(|t|, Pow256(w));
      assert (t + rest)[..len] == t;
    }
    assert len < Pow256(w) && len <= |t|;
    DecodeString(w, len, t + rest, order, host);
  }

  /** The loop of the variable-length writers into a scratch array of `room` bytes. */
  method EncodeVarint(value: nat, room: nat) returns (bytes: seq<byte>)
    requires |Varint.Encode(value)| <= room
    ensures bytes == Varint.Encode(value)
  {
    var tmp := new byte[room];
    var i, v := 0, value;
    while v >= 0x80
      invariant 0 <= i && i + |Varint.Encode(v)| <= room
      invariant tmp[..i] + Varint.Encode(v) == Varint.Encode(value)
      decreases v
    {
      ghost var before := tmp[..i];
      assert Varint.Encode(v) == [v % 128 + 128] + Varint.Encode(v / 128);
      tmp[i] := v % 128 + 128;
      assert tmp[..i + 1] == before + [v % 128 + 128];
      i, v := i + 1, v / 128;
    }
    tmp[i] := v;
    assert tmp[..i + 1] == tmp[..i] + [v];
    bytes := tmp[..i + 1];
  }

  method WriteValue(ba: ByteArray, r: Record, order: Order, host: Order)
    requires ba.Valid()
    modifies ba, ba.Repr
    ensures ba.Valid() && fresh(ba.Repr - old(ba.Repr)) && old(ba.Repr) <= ba.Repr
    ensures Wrote(old(ba.View()), Encode(r.0, r.1, order, host), ba.baseSize, ba.View())
    ensures r.0.Fixed? ==> StoredFrom(r.1.n, r.0.width, order, ba.View().mem[old(ba.position)..ba.position])
    ensures r.0.Str? ==> var s := ba.View().mem[old(ba.position)..ba.position];
                         |s| == r.0.width + |r.1.s| && s[r.0.width..] == r.1.s
                         && StoredFrom(|r.1.s|, r.0.width, order, s[..r.0.width])
  {
    WriteEncoded(ba, r, order, host);
    EncodedIs(r, order, host);
    assert ba.View().mem[old(ba.position)..ba.position] == Encode(r.0, r.1, order, host);
  }

  /** The `w` bytes `s` are `n` modulo 256^w: the least significant byte is first in little order, last in big. */
  ghost predicate StoredFrom(n: int, w: nat, order: Order, s: seq<byte>) {
    && |s| == w
    && forall i :: 0 <= i < w ==> s[if order == Little then i else w - 1 - i] == n % Pow256(w) / Pow256(i) % 256
  }

  lemma EncodedIs(r: Record, order: Order, host: Order)
    ensures var s := Encode(r.0, r.1, order, host);
            && (r.0.Fixed? ==> StoredFrom(r.1.n, r.0.width, order, s))
            && (r.0.Str? ==> |s| == r.0.width + |r.1.s| && s[r.0.width..] == r.1.s
                             && StoredFrom(|r.1.s|, r.0.width, order, s[..r.0.width]))
  {
    match r.0
    case Fixed(w, signed) => forall i | 0 <= i < w { FixedBytes(w, signed, r.1.n, order, host, i); }
    case Var(_, _) =>
    case Str(w) => forall i | 0 <= i < w { PrefixBytes(w, r.1.s, order, host, i); }
  }

  method WriteEncoded(ba: ByteArray, r: Record, order: Order, host: Order)
    requires ba.Valid()
    modifies ba, ba.Repr
    ensures ba.Valid() && fresh(ba.Repr - old(ba.Repr)) && old(ba.Repr) <= ba.Repr
    ensures Wrote(old(ba.View()), Encode(r.0, r.1, order, host), ba.baseSize, ba.View())
  {
    var (k, v) := r;
    match k
    case Fixed(w, _) => ba.Write(Put(v.n % Pow256(w), w, order, host));
    case Var(wide, signed) =>
      var word := VarWord(wide, signed, v.n);
      Varint.EncodeFits(word);
      var bytes := EncodeVarint(word, if wide then 10 else 5);
      ba.Write(bytes);
    case Str(w) => WriteTwo(ba, Put(|v.s| % Pow256(w), w, order, host), v.s);
  }

  /** A length prefix and the string behind it. */
  method WriteTwo(ba: ByteArray, prefix: seq<byte>, s: seq<byte>)
    requires ba.Valid()
    modifies ba, ba.Repr
    ensures ba.Valid() && fresh(ba.Repr - old(ba.Repr)) && old(ba.Repr) <= ba.Repr
    ensures Wrote(old(ba.View()), prefix + s, ba.baseSize, ba.View())
  {
    ba.Write(prefix);
    ghost var mid := ba.View();
    ba.Write(s);
    WroteTwice(old(ba.View()), prefix, s, ba.baseSize, mid, ba.View());
  }

  /** The memory and the content are as before, only the cursor moved forward. */
  ghost predicate Advanced(f: Flat, f': Flat, n: nat) {
    f.Wf() && f.pos + n <= f.size && f' == f.(pos := f.pos + n)
  }

  lemma UnreadSlice(f: Flat, n: nat)
    requires f.Wf() && n <= f.size - f.pos
    ensures f.Unread()[..n] == f.mem[f.pos..f.pos + n]
    ensures f.(pos := f.pos + n).Unread() == f.Unread()[n..]
  {
  }

  method Take(ba: ByteArray, n: nat) returns (r: Outcome<seq<byte>>)
    requires ba.Valid()
    modifies ba`position, ba`cur
    ensures ba.Valid()
    ensures var u := old(ba.View().Unread());
            if |u| < n then r == Short && ba.View() == old(ba.View())
            else if n == 0 && old(ba.position) == ba.capacity then r == Crash && ba.View() == old(ba.View())
            else r == Got(u[..n]) && Advanced(old(ba.View()), ba.View(), n) && ba.View().Unread() == u[n..]
  {
    ghost var f := ba.View();
    if n <= f.size - f.pos {
      UnreadSlice(f, n);
    }
    var out := ba.Read(n);
    match out
    case Bytes(d) => r := Got(d);
    case OutOfRange => r := Short;
    case _ => r := Crash;
  }

  method ReadFixed(ba: ByteArray, w: nat, order: Order, host: Order) returns (r: Outcome<nat>)
    requires ba.Valid() && w > 0
    modifies ba`position, ba`cur
    ensures ba.Valid()
    ensures var u := old(ba.View().Unread());
            if |u| < w then r == Short && ba.View() == old(ba.View())
            else
              && r == Got(Get(u[..w], order, host))
              && Advanced(old(ba.View()), ba.View(), w) && ba.View().Unread() == u[w..]
  {
    var b := Take(ba, w);
    match b
    case Got(d) => r := Got(Get(d, order, host));
    case _ => r := Short;
  }

  /** One turn of the loop below: the byte, if there is one, and its seven bits added at shift `i`. */
  method ReadGroup(ba: ByteArray, i: nat, bits: nat, acc: nat, ghost done: nat)
    returns (b: Option<byte>, acc': nat)
    requires ba.Valid() && i < bits && Pow2(bits) > 0
    modifies ba`position, ba`cur
    ensures ba.Valid()
    ensures var u := old(ba.View().Unread());
            if u == [] then b == None && ba.View() == old(ba.View())
            else
              && b == Some(u[0]) && Advanced(old(ba.View()), ba.View(), 1) && ba.View().Unread() == u[1..]
              && Plus(Varint.Decode(u, i, bits, acc), done) ==
                 if u[0] < 128 then Some((acc', done + 1))
                 else Plus(Varint.Decode(u[1..], i + 7, bits, acc'), done + 1)
  {
    ghost var u := ba.View().Unread();
    var d := Take(ba, 1);
    if !d.Got? {
      return None, acc;
    }
    DecodeOne(u, i, bits, acc, done);
    b, acc' := Some(d.value[0]), Or(acc, Shl(d.value[0] % 128, i) % Pow2(bits));
  }

  /** The loop of the variable-length readers. */
  method ReadVarint(ba: ByteArray, bits: nat) returns (r: Outcome<nat>)
    requires ba.Valid() && Pow2(bits) > 0
    modifies ba`position, ba`cur
    ensures ba.Valid()
    ensures match Varint.Decode(old(ba.View().Unread()), 0, bits, 0)
            case Some((v, n)) => r == Got(v) && Advanced(old(ba.View()), ba.View(), n)
            case None => r == Short && Advanced(old(ba.View()), ba.View(), |old(ba.View().Unread())|)
  {
    ghost var f0 := ba.View();
    ghost var goal := Varint.Decode(f0.Unread(), 0, bits, 0);
    var i, acc: nat := 0, 0;
    ghost var done: nat := 0;
    while i < bits
      invariant ba.Valid() && Advanced(f0, ba.View(), done)
      invariant goal == Plus(Varint.Decode(ba.View().Unread(), i, bits, acc), done)
    {
      var b;
      b, acc := ReadGroup(ba, i, bits, acc, done);
      if b == None {
        return Short;
      }
      done := done + 1;
      if b.value < 0x80 {
        return Got(acc);
      }
      i := i + 7;
    }
    r := Got(acc);
  }

  lemma DecodeOne(u: seq<byte>, i: nat, bits: nat, acc: nat, done: nat)
    requires u != [] && i < bits && Pow2(bits) > 0
    ensures var acc' := Or(acc, Shl(u[0] % 128, i) % Pow2(bits));
            Plus(Varint.Decode(u, i, bits, acc), done) ==
            if u[0] < 128 then Some((acc', done + 1)) else Plus(Varint.Decode(u[1..], i + 7, bits, acc'), done + 1)
  {
  }

  ghost function Plus(r: Option<(nat, nat)>, done: nat): Option<(nat, nat)> {
    match r
    case None => None
    case Some((v, n)) => Some((v, n + done))
  }

  /** A string that is empty and ends at capacity: its reader asks a null node for zero bytes. */
  ghost predicate EmptyAtEnd(v: Value, end: nat, capacity: nat) {
    v == Text([]) && end == capacity
  }

  /** How far the cursor is when a reader runs out of bytes: it keeps what it has read by then. */
  function GivesUpAt(k: Kind, unread: seq<byte>): (n: nat)
    ensures n <= |unread|
  {
    match k
    case Fixed(_, _) => 0
    case Var(_, _) => |unread|
    case Str(w) => if |unread| < w then 0 else w
  }

  method TakeText(ba: ByteArray, n: nat) returns (r: Outcome<Value>)
    requires ba.Valid()
    modifies ba`position, ba`cur
    ensures ba.Valid()
    ensures var u := old(ba.View().Unread());
            if |u| < n then r == Short && ba.View() == old(ba.View())
            else
              && r == (if n == 0 && old(ba.position) == ba.capacity then Crash else Got(Text(u[..n])))
              && Advanced(old(ba.View()), ba.View(), n)
  {
    var b := Take(ba, n);
    match b
    case Got(d) => r := Got(Text(d));
    case Short => r := Short;
    case Crash => r := Crash;
  }

  method ReadString(ba: ByteArray, w: nat, order: Order, host: Order) returns (r: Outcome<Value>)
    requires ba.Valid() && w > 0
    modifies ba`position, ba`cur
    ensures ba.Valid()
    ensures var u := old(ba.View().Unread());
            if |u| < w then r == Short && ba.View() == old(ba.View())
            else
              var n := Get(u[..w], order, host);
              if |u| < w + n then r == Short && Advanced(old(ba.View()), ba.View(), w)
              else
                && r == (if n == 0 && old(ba.position) + w == ba.capacity then Crash else Got(Text(u[w..w + n])))
                && Advanced(old(ba.View()), ba.View(), w + n)
  {
    ghost var u := ba.View().Unread();
    var len := ReadFixed(ba, w, order, host);
    if !len.Got? {
      return Short;
    }
    if w + len.value <= |u| {
      DropTake(u, w, len.value);
    }
    r := TakeText(ba, len.value);
  }

  /** The typed readers; what a fixed-width one returns is the number of its type with the sum of the bytes. */
  method ReadValue(ba: ByteArray, k: Kind, order: Order, host: Order) returns (r: Outcome<Value>)
    requires ba.Valid() && k.Wf()
    modifies ba`position, ba`cur
    ensures ba.Valid()
    ensures match Decode(k, old(ba.View().Unread()), order, host)
            case None =>
              r == Short && Advanced(old(ba.View()), ba.View(), GivesUpAt(k, old(ba.View().Unread())))
            case Some((v, n)) =>
              && r == (if k.Str? && EmptyAtEnd(v, old(ba.position) + n, ba.capacity) then Crash else Got(v))
              && Advanced(old(ba.View()), ba.View(), n)
    ensures k.Fixed? ==>
              var u := old(ba.View().Unread());
              if |u| < k.width then r == Short
              else r.Got? && HasKind(k, r.value) && r.value.n % Pow256(k.width) == Sum(u[..k.width], order, k.width)
    ensures k.Str? && r.Got? ==>
              var u := old(ba.View().Unread());
              |u| >= k.width && r.value.Text? && |r.value.s| == Sum(u[..k.width], order, k.width)
              && r.value.s <= u[k.width..]
  {
    ghost var u := ba.View().Unread();
    if k.Fixed? && |u| >= k.width {
      FixedSum(k.width, k.signed, u, order, host);
    } else if k.Str? {
      PrefixSum(k.width, u, order, host);
    }
    r := ReadDecoded(ba, k, order, host);
  }

  method ReadDecoded(ba: ByteArray, k: Kind, order: Order, host: Order) returns (r: Outcome<Value>)
    requires ba.Valid() && k.Wf()
    modifies ba`position, ba`cur
    ensures ba.Valid()
    ensures match Decode(k, old(ba.View().Unread()), order, host)
            case None =>
              r == Short && Advanced(old(ba.View()), ba.View(), GivesUpAt(k, old(ba.View().Unread())))
            case Some((v, n)) =>
              && r == (if k.Str? && EmptyAtEnd(v, old(ba.position) + n, ba.capacity) then Crash else Got(v))
              && Advanced(old(ba.View()), ba.View(), n)
  {
    match k
    case Fixed(w, signed) =>
      var u := ReadFixed(ba, w, order, host);
      if !u.Got? {
        return Short;
      }
      r := Got(Num(if signed then Zigzag.ToSigned(u.value, Pow256(w)) else u.value));
    case Var(wide, signed) =>
      Pow2Positive(WordBits(wide));
      var u := ReadVarint(ba, WordBits(wide));
      if !u.Got? {
        return Short;
      }
      r := Got(Num(if signed then Zigzag.Decode(u.value, WordBits(wide)) else u.value));
    case Str(w) => r := ReadString(ba, w, order, host);
  }

  ghost function EncodeAll(rs: seq<Record>, order: Order, host: Order): seq<byte> {
    if rs == [] then [] else Encode(rs[0].0, rs[0].1, order, host) + EncodeAll(rs[1..], order, host)
  }

  lemma {:induction false} EncodeAllJoin(a: seq<Record>, b: seq<Record>, order: Order, host: Order)
    ensures EncodeAll(a + b, order, host) == EncodeAll(a, order, host) + EncodeAll(b, order, host)
  {
    if a == [] {
      assert a + b == b;
    } else {
      assert (a + b)[1..] == a[1..] + b;
      EncodeAllJoin(a[1..], b, order, host);
      JoinThree(Encode(a[0].0, a[0].1, order, host), EncodeAll(a[1..], order, host), EncodeAll(b, order, host));
    }
  }

  method WriteRecords(ba: ByteArray, rs: seq<Record>, order: Order, host: Order)
    requires ba.Valid()
    modifies ba, ba.Repr
    ensures ba.Valid() && fresh(ba.Repr - old(ba.Repr)) && old(ba.Repr) <= ba.Repr
    ensures Wrote(old(ba.View()), EncodeAll(rs, order, host), ba.baseSize, ba.View())
  {
    for i := 0 to |rs|
      invariant ba.Valid() && fresh(ba.Repr - old(ba.Repr)) && old(ba.Repr) <= ba.Repr
      invariant Wrote(old(ba.View()), EncodeAll(rs[..i], order, host), ba.baseSize, ba.View())
    {
      ghost var mid := ba.View();
      WriteValue(ba, rs[i], order, host);
      ghost var s := Encode(rs[i].0, rs[i].1, order, host);
      WroteTwice(old(ba.View()), EncodeAll(rs[..i], order, host), s, ba.baseSize, mid, ba.View());
      EncodeAllSnoc(rs, i, order, host);
    }
    assert rs[..|rs|] == rs;
  }

  lemma EncodeAllSnoc(rs: seq<Record>, i: nat, order: Order, host: Order)
    requires i < |rs|
    ensures EncodeAll(rs[..i + 1], order, host)
         == EncodeAll(rs[..i], order, host) + Encode(rs[i].0, rs[i].1, order, host)
  {
    assert rs[..i + 1] == rs[..i] + [rs[i]];
    EncodeAllJoin(rs[..i], [rs[i]], order, host);
    assert [rs[i]][1..] == [];
    assert EncodeAll([rs[i]], order, host) == Encode(rs[i].0, rs[i].1, order, host);
  }

  ghost predicate AllInDomain(rs: seq<Record>) {
    forall i :: 0 <= i < |rs| ==> InDomain(rs[i].0, rs[i].1)
  }

  function Values(rs: seq<Record>): seq<Value> {
    if rs == [] then [] else [rs[0].1] + Values(rs[1..])
  }

  /** The last record is an empty string and ends at capacity. */
  ghost predicate EndsEmpty(rs: seq<Record>, size: nat, capacity: nat) {
    |rs| > 0 && rs[|rs| - 1].1 == Text([]) && size == capacity
  }

  lemma EncodeAllEmpty(rs: seq<Record>, order: Order, host: Order)
    ensures EncodeAll(rs, order, host) == [] <==> rs == []
  {
  }

  method ReadRecord(ba: ByteArray, ghost rs: seq<Record>, k: Kind, order: Order, host: Order)
    returns (r: Outcome<Value>)
    requires ba.Valid() && rs != [] && k == rs[0].0 && InDomain(rs[0].0, rs[0].1)
    requires ba.View().Unread() == EncodeAll(rs, order, host)
    modifies ba`position, ba`cur
    ensures ba.Valid() && ba.size == old(ba.size)
    ensures if |rs| == 1 && EndsEmpty(rs, ba.size, ba.capacity) then r == Crash
            else r == Got(rs[0].1) && ba.View().Unread() == EncodeAll(rs[1..], order, host)
  {
    ghost var f := ba.View();
    ghost var s, rest := Encode(k, rs[0].1, order, host), EncodeAll(rs[1..], order, host);
    ValueRoundTrip(k, rs[0].1, order, host, rest);
    EncodeAllEmpty(rs[1..], order, host);
    UnreadSlice(f, |s|);
    r := ReadValue(ba, k, order, host);
  }

  /** Reading the records that lie unread in the array, up to the end of its content. */
  method ReadRecords(ba: ByteArray, rs: seq<Record>, order: Order, host: Order) returns (r: Outcome<seq<Value>>)
    requires ba.Valid() && AllInDomain(rs)
    requires ba.View().Unread() == EncodeAll(rs, order, host)
    modifies ba`position, ba`cur
    ensures ba.Valid() && ba.size == old(ba.size)
    ensures r == if EndsEmpty(rs, ba.size, ba.capacity) then Crash else Got(Values(rs))
    ensures r.Got? ==> ba.position == ba.size
  {
    if rs == [] {
      return Got([]);
    }
    var first := ReadRecord(ba, rs, rs[0].0, order, host);
    if !first.Got? {
      return Crash;
    }
    var rest := ReadRecords(ba, rs[1..], order, host);
    if !rest.Got? {
      return Crash;
    }
    r := Got([first.value] + rest.value);
  }

  /**
   Writing a list of values to a fresh array, going back to its start and reading them
   gives the list back and leaves nothing unread, for every node size and byte order,
   except when the list ends with an empty string and fills its last node.
   */
  method RecordRoundTrip(rs: seq<Record>, n: nat, order: Order, host: Order)
    returns (ba: ByteArray, r: Outcome<seq<Value>>)
    requires n > 0 && AllInDomain(rs)
    ensures ba.Valid() && ba.baseSize == n
    ensures r == if |rs| > 0 && rs[|rs| - 1].1 == Text([]) && |EncodeAll(rs, order, host)| % n == 0
                 then Crash else Got(Values(rs))
    ensures r.Got? ==> ba.position == ba.size
  {
    ba := new ByteArray(n);
    ghost var f0 := ba.View();
    ghost var s := EncodeAll(rs, order, host);
    WriteRecords(ba, rs, order, host);
    FreshCapacity(|s|, n);
    var out := ba.SetPosition(0);
    assert ba.View().Unread() == s;
    r := ReadRecords(ba, rs, order, host);
  }

  /** A fresh array ends up full exactly when the content is a positive multiple of the node size. */
  lemma FreshCapacity(need: nat, n: nat)
    requires n > 0
    ensures Grown(n, need, n) == need <==> need > 0 && need % n == 0
  {
    var q := Quot(need, n);
    QuotIsDiv(need, n);
    if need > n {
      var count: nat := if need % n == 0 then q - 1 else q;
      TimesLe(1, q, n);
      assert Times(1, n) == n;
      TimesShift(q - 1, n);
      if need % n != 0 { TimesShift(q, n); }
      if count > 0 { TimesShift(count - 1, n); }
      GrownUnique(n, need, n, count);
    }
  }
}
