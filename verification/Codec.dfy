/** Bit operations on machine words, as the codecs use them, over natural numbers. */
module Bits {

  /** `x << i` without truncation. */
  function Shl(x: nat, i: nat): nat {
    if i == 0 then x else 2 * Shl(x, i - 1)
  }

  function Pow2(i: nat): nat { Shl(1, i) }

  function Or(a: nat, b: nat): nat
    decreases a + b
  {
    if a == 0 && b == 0 then 0
    else (if a % 2 == 1 || b % 2 == 1 then 1 else 0) + 2 * Or(a / 2, b / 2)
  }

  function Xor(a: nat, b: nat): nat
    decreases a + b
  {
    if a == 0 && b == 0 then 0
    else (if a % 2 != b % 2 then 1 else 0) + 2 * Xor(a / 2, b / 2)
  }

  lemma {:induction false} Pow2Positive(i: nat)
    ensures Pow2(i) >= 1
  {
    if i > 0 { Pow2Positive(i - 1); }
  }

  lemma {:induction false} ShlAdd(a: nat, b: nat, i: nat)
    ensures Shl(a + b, i) == Shl(a, i) + Shl(b, i)
  {
    if i > 0 { ShlAdd(a, b, i - 1); }
  }

  lemma {:induction false} ShlLe(a: nat, b: nat, i: nat)
    requires a <= b
    ensures Shl(a, i) <= Shl(b, i)
    ensures a < b ==> Shl(a, i) + Pow2(i) <= Shl(b, i)
  {
    if i > 0 { ShlLe(a, b, i - 1); }
  }

  lemma {:induction false} ShlShl(x: nat, i: nat, j: nat)
    ensures Shl(Shl(x, j), i) == Shl(x, i + j)
  {
    if i > 0 { ShlShl(x, i - 1, j); }
  }

  lemma Shl7(x: nat)
    ensures Shl(x, 7) == 128 * x
  {
    assert Shl(x, 1) == 2 * x;
    assert Shl(x, 2) == 4 * x;
    assert Shl(x, 3) == 8 * x;
    assert Shl(x, 4) == 16 * x;
    assert Shl(x, 5) == 32 * x;
    assert Shl(x, 6) == 64 * x;
  }

  lemma Shl8(x: nat)
    ensures Shl(x, 8) == 256 * x
  {
    Shl7(x);
  }

  lemma WordSizes()
    ensures Pow2(32) == 0x1_0000_0000
    ensures Pow2(64) == 0x1_0000_0000_0000_0000
  {
    Shl8(1);
    ShlShl(1, 8, 8);
    Shl8(256);
    ShlShl(1, 8, 16);
    Shl8(0x1_0000);
    ShlShl(1, 8, 24);
    Shl8(0x100_0000);
    ShlShl(1, 8, 32);
    Shl8(0x1_0000_0000);
    ShlShl(1, 8, 40);
    Shl8(0x100_0000_0000);
    ShlShl(1, 8, 48);
    Shl8(0x1_0000_0000_0000);
    ShlShl(1, 8, 56);
    Shl8(0x100_0000_0000_0000);
  }

  lemma Pow2Mono(i: nat, j: nat)
    requires i <= j
    ensures Pow2(i) <= Pow2(j)
  {
    ShlShl(1, i, j - i);
    Pow2Positive(j - i);
    ShlLe(1, Pow2(j - i), i);
  }

  lemma {:induction false} OrZero(b: nat)
    ensures Or(0, b) == b
  {
    if b > 0 { OrZero(b / 2); }
  }

  /** Bits that do not overlap: `|` is `+`. */
  lemma {:induction false} OrDisjoint(a: nat, x: nat, i: nat)
    requires a < Pow2(i)
    ensures Or(a, Shl(x, i)) == a + Shl(x, i)
  {
    if i == 0 {
      OrZero(x);
    } else {
      OrDisjoint(a / 2, x, i - 1);
    }
  }

  lemma {:induction false} XorZero(a: nat)
    ensures Xor(a, 0) == a
  {
    if a > 0 { XorZero(a / 2); }
  }

  /** `^` with all bits set is the complement. */
  lemma {:induction false} XorOnes(a: nat, i: nat)
    requires a < Pow2(i)
    ensures Xor(a, Pow2(i) - 1) == Pow2(i) - 1 - a
  {
    if i > 0 {
      Pow2Positive(i - 1);
      XorOnes(a / 2, i - 1);
    }
  }

  lemma SmallMod(x: nat, m: nat)
    requires x < m
    ensures x % m == x
  {
  }
}

/** Base-128 variable-length integers. */
module Varint {
  import opened Arith
  import opened Bytes
  import opened Bits
  import opened Options

  /** Least significant group first; the top bit of a byte says that more follow. */
  function Encode(v: nat): (s: seq<byte>)
    ensures |s| > 0
  {
    if v < 128 then [v] else [v % 128 + 128] + Encode(v / 128)
  }

  /**
   The reader's loop from shift `i` on with `acc` read so far, over a word of `bits`
   bits: the value and the number of bytes consumed, or nothing if the bytes run out.
   */
  function Decode(s: seq<byte>, i: nat, bits: nat, acc: nat): (r: Option<(nat, nat)>)
    requires Pow2(bits) > 0
    ensures r.Some? ==> r.value.1 <= |s|
    decreases |s|
  {
    if i >= bits then Some((acc, 0))
    else if s == [] then None
    else
      var acc' := Or(acc, Shl(s[0] % 128, i) % Pow2(bits));
      if s[0] < 128 then Some((acc', 1))
      else
        match Decode(s[1..], i + 7, bits, acc')
        case None => None
        case Some((v, n)) => Some((v, n + 1))
  }

  function Pow128(n: nat): nat { if n == 0 then 1 else 128 * Pow128(n - 1) }

  lemma {:induction false} Pow128Positive(n: nat)
    ensures Pow128(n) >= 1
  {
    if n > 0 { Pow128Positive(n - 1); }
  }

  /** Each byte holds its seven bits of the value, and says that more follow exactly if it is not the last. */
  lemma {:induction false} EncodeAt(v: nat, i: nat)
    requires i < |Encode(v)|
    ensures Pow128(i) > 0 && Encode(v)[i] % 128 == v / Pow128(i) % 128
    ensures Encode(v)[i] >= 128 <==> i + 1 < |Encode(v)|
  {
    Pow128Positive(i);
    if i > 0 {
      Pow128Positive(i - 1);
      EncodeAt(v / 128, i - 1);
      DivDiv(v, 128, Pow128(i - 1));
    }
  }

  /** The encoding is as short as base 128 allows. */
  lemma {:induction false} EncodeLength(v: nat)
    ensures v < Pow128(|Encode(v)|)
    ensures |Encode(v)| > 1 ==> v >= Pow128(|Encode(v)| - 1)
  {
    if v >= 128 {
      EncodeLength(v / 128);
    }
  }

  /** No shorter number of groups holds the value, so the length is the least one. */
  lemma {:induction false} EncodeLeast(v: nat, n: nat)
    requires n >= 1
    ensures v < Pow128(n) <==> |Encode(v)| <= n
  {
    EncodeLength(v);
    if |Encode(v)| <= n {
      Pow128Mono(|Encode(v)|, n);
    } else {
      Pow128Mono(n, |Encode(v)| - 1);
    }
  }

  lemma {:induction false} Pow128Mono(a: nat, b: nat)
    requires a <= b
    ensures Pow128(a) <= Pow128(b)
    decreases b
  {
    if a < b { Pow128Mono(a, b - 1); }
  }

  /** The scratch arrays of five and ten bytes suffice. */
  lemma EncodeFits(v: nat)
    ensures v < 0x1_0000_0000 ==> |Encode(v)| <= 5
    ensures v < 0x1_0000_0000_0000_0000 ==> |Encode(v)| <= 10
  {
    EncodeLeast(v, 5);
    EncodeLeast(v, 10);
    assert Pow128(5) == 128 * 128 * 128 * 128 * 128 by {
      assert Pow128(1) == 128 && Pow128(2) == 128 * 128 && Pow128(3) == 128 * 128 * 128;
    }
    assert Pow128(10) == 0x80 * 0x80 * 0x80 * 0x80 * 0x80 * Pow128(5) by {
      assert Pow128(6) == 128 * Pow128(5) && Pow128(7) == 128 * Pow128(6) && Pow128(8) == 128 * Pow128(7);
    }
  }

  /** Splits off the lowest group of seven bits. */
  lemma ShlSplit(w: nat, i: nat)
    ensures Shl(w, i) == Shl(w % 128, i) + Shl(w / 128, i + 7)
  {
    var high := w / 128;
    ShlAdd(w % 128, 128 * high, i);
    ShlShl(high, i, 7);
    Shl7(high);
  }

  lemma GroupBelow(acc: nat, low: nat, i: nat)
    requires acc < Pow2(i) && low < 128
    ensures acc + Shl(low, i) < Pow2(i + 7)
  {
    ShlLe(low, 128, i);
    ShlShl(1, i, 7);
    Shl7(1);
  }

  lemma ShiftInWord(w: nat, i: nat, bits: nat)
    requires w > 0 && Shl(w, i) < Pow2(bits)
    ensures i < bits
  {
    ShlLe(1, w, i);
    if bits <= i {
      Pow2Mono(bits, i);
    }
  }

  /** One group is added without loss. */
  lemma AddGroup(acc: nat, low: nat, i: nat, bits: nat)
    requires acc < Pow2(i) && Shl(low, i) < Pow2(bits)
    ensures Or(acc, Shl(low, i) % Pow2(bits)) == acc + Shl(low, i)
  {
    SmallMod(Shl(low, i), Pow2(bits));
    OrDisjoint(acc, low, i);
  }

  /** One turn of the reader's loop, when the group is added without loss. */
  lemma DecodeTurn(s: seq<byte>, i: nat, bits: nat, acc: nat)
    requires s != [] && i < bits && acc < Pow2(i) && Shl(s[0] % 128, i) < Pow2(bits)
    ensures var acc' := acc + Shl(s[0] % 128, i);
            Decode(s, i, bits, acc) ==
            if s[0] < 128 then Some((acc', 1))
            else match Decode(s[1..], i + 7, bits, acc')
                 case None => None
                 case Some((v, n)) => Some((v, n + 1))
  {
    AddGroup(acc, s[0] % 128, i, bits);
  }

  lemma EncodeParts(w: nat, rest: seq<byte>)
    ensures var s := Encode(w) + rest;
            && s[0] % 128 == w % 128
            && (s[0] < 128 <==> w < 128)
            && (w >= 128 ==> s[1..] == Encode(w / 128) + rest && |Encode(w)| == 1 + |Encode(w / 128)|)
  {
  }

  /** What is left to decode, `w` at shift `i`, fits the word. */
  lemma {:induction false} DecodeFrom(w: nat, i: nat, bits: nat, acc: nat, rest: seq<byte>)
    requires bits > 0 && Pow2(bits) > 0
    requires acc < Pow2(i) && acc + Shl(w, i) < Pow2(bits)
    requires w > 0 || i == 0
    ensures Decode(Encode(w) + rest, i, bits, acc) == Some((acc + Shl(w, i), |Encode(w)|))
    decreases w
  {
    var s := Encode(w) + rest;
    if w > 0 {
      ShiftInWord(w, i, bits);
    }
    ShlSplit(w, i);
    EncodeParts(w, rest);
    DecodeTurn(s, i, bits, acc);
    if w >= 128 {
      GroupBelow(acc, w % 128, i);
      DecodeFrom(w / 128, i + 7, bits, acc + Shl(w % 128, i), rest);
    } else {
      ShlZero(i + 7);
    }
  }

  // ---------- the reader on any bytes

  /** The number in the first `n` groups. */
  ghost function Groups(s: seq<byte>, n: nat): nat
    requires n <= |s|
  {
    if n == 0 then 0 else s[0] % 128 + 128 * Groups(s[1..], n - 1)
  }

  /** The first `n` bytes, from shift `i` on, go up to the first without the top bit, or to the end of the word. */
  ghost predicate EndsAfter(s: seq<byte>, i: nat, bits: nat, n: nat) {
    && 1 <= n <= |s| && i + 7 * (n - 1) < bits
    && (forall j :: 0 <= j < n - 1 ==> s[j] >= 128)
    && (s[n - 1] < 128 || i + 7 * n >= bits)
  }

  lemma {:induction false} ShlTimes(q: nat, m: nat, i: nat)
    ensures Shl(Times(q, m), i) == Times(q, Shl(m, i))
  {
    if q == 0 {
      ShlZero(i);
    } else {
      ShlTimes(q - 1, m, i);
      ShlAdd(Times(q - 1, m), m, i);
    }
  }

  /** What of a shifted group lies beyond the word, and what in it. */
  lemma {:induction false} CutAt(low: nat, i: nat, bits: nat, q: nat, r: nat)
    requires i <= bits && low == Times(q, Pow2(bits - i)) + r && r < Pow2(bits - i)
    ensures Shl(low, i) == Times(q, Pow2(bits)) + Shl(r, i) && Shl(r, i) + Pow2(i) <= Pow2(bits)
  {
    var m := Pow2(bits - i);
    ShlShl(1, i, bits - i);
    ShlAdd(Times(q, m), r, i);
    ShlTimes(q, m, i);
    ShlLe(r, m, i);
  }

  /** A group that reaches over the end of the word loses its high bits, as the whole sum does. */
  lemma CutGroup(acc: nat, low: nat, i: nat, bits: nat)
    requires i <= bits && acc < Pow2(i)
    ensures Pow2(bits) > 0 && Or(acc, Shl(low, i) % Pow2(bits)) == (acc + Shl(low, i)) % Pow2(bits)
  {
    var m := Pow2(bits - i);
    Pow2Positive(bits - i);
    QuotBounds(low, m);
    var q: nat, r: nat := Quot(low, m), low - Times(Quot(low, m), m);
    CutAt(low, i, bits, q, r);
    ModOf(q, Shl(r, i), Pow2(bits));
    OrDisjoint(acc, r, i);
    ModOf(q, acc + Shl(r, i), Pow2(bits));
  }

  lemma GroupsSplit(s: seq<byte>, n: nat, i: nat)
    requires 1 <= n <= |s|
    ensures Shl(Groups(s, n), i) == Shl(s[0] % 128, i) + Shl(Groups(s[1..], n - 1), i + 7)
  {
    assert Groups(s, n) % 128 == s[0] % 128 && Groups(s, n) / 128 == Groups(s[1..], n - 1);
    ShlSplit(Groups(s, n), i);
  }

  lemma {:induction false} DecodeAnyFrom(s: seq<byte>, i: nat, bits: nat, acc: nat, n: nat)
    requires acc < Pow2(i) && EndsAfter(s, i, bits, n)
    ensures Pow2(bits) > 0
    ensures Decode(s, i, bits, acc) == Some(((acc + Shl(Groups(s, n), i)) % Pow2(bits), n))
    decreases n
  {
    var low := s[0] % 128;
    CutGroup(acc, low, i, bits);
    GroupsSplit(s, n, i);
    if n > 1 {
      GroupBelow(acc, low, i);
      Pow2Mono(i + 7, bits);
      SmallMod(acc + Shl(low, i), Pow2(bits));
      DecodeAnyFrom(s[1..], i + 7, bits, acc + Shl(low, i), n - 1);
    } else {
      ShlZero(i + 7);
    }
  }

  /** Any bytes are read as their groups, up to the first byte without the top bit or the end of the word. */
  lemma DecodeAny(s: seq<byte>, bits: nat, n: nat)
    requires EndsAfter(s, 0, bits, n)
    ensures Pow2(bits) > 0 && Decode(s, 0, bits, 0) == Some((Groups(s, n) % Pow2(bits), n))
  {
    DecodeAnyFrom(s, 0, bits, 0, n);
  }

  /** The bytes run out if and only if all of them say that more follow and the word has room for more. */
  lemma {:induction false} DecodeShort(s: seq<byte>, i: nat, bits: nat, acc: nat)
    requires Pow2(bits) > 0
    ensures Decode(s, i, bits, acc) == None <==> i + 7 * |s| < bits && forall j :: 0 <= j < |s| ==> s[j] >= 128
    decreases |s|
  {
    if i < bits && s != [] {
      DecodeShort(s[1..], i + 7, bits, Or(acc, Shl(s[0] % 128, i) % Pow2(bits)));
      assert forall j :: 1 <= j < |s| ==> s[j] == s[1..][j - 1];
    }
  }

  lemma {:induction false} ShlZero(i: nat)
    ensures Shl(0, i) == 0
  {
    if i > 0 { ShlZero(i - 1); }
  }

  /** The reader gets the value back and stops right behind it, whatever follows. */
  lemma RoundTrip(v: nat, bits: nat, rest: seq<byte>)
    requires bits > 0 && v < Pow2(bits)
    ensures Decode(Encode(v) + rest, 0, bits, 0) == Some((v, |Encode(v)|))
  {
    DecodeFrom(v, 0, bits, 0, rest);
  }
}

/** Two's complement and zigzag. Signed overflow is taken to wrap. */
module Zigzag {
  import opened Bits
  import opened Words

  predicate IsInt(v: int, w: nat) { 0 - w <= 2 * v < w }

  /** The signed reading of a word below `w`. */
  function ToSigned(u: nat, w: nat): int {
    if 2 * u < w then u else u - w
  }

  function Encode32(v: int): (u: nat)
    requires IsInt(v, W32)
    ensures u < W32
  {
    if v < 0 then ((-v) % W32 * 2 - 1) % W32 else v * 2 % W32
  }

  /** The declared result type is 32 bits wide, so the 64-bit result is truncated. */
  function Encode64(v: int): (u: nat)
    requires IsInt(v, W64)
    ensures u < W32
  {
    (if v < 0 then ((-v) % W64 * 2 - 1) % W64 else v * 2 % W64) % W32
  }

  function Decode(u: nat, bits: nat): int
    requires Pow2(bits) > 0
  {
    ToSigned(Xor(u / 2, if u % 2 == 1 then Pow2(bits) - 1 else 0), Pow2(bits))
  }

  /** Decoding by arithmetic: even words are the non-negative numbers, odd ones the negative. */
  lemma DecodeIs(u: nat, bits: nat)
    requires 1 <= bits && u < Pow2(bits)
    ensures Decode(u, bits) == if u % 2 == 0 then u / 2 else -(u / 2) - 1
  {
    if u % 2 == 0 {
      XorZero(u / 2);
    } else {
      XorOnes(u / 2, bits);
    }
  }

  lemma Encode32Is(v: int)
    requires IsInt(v, W32)
    ensures Encode32(v) == if v < 0 then -2 * v - 1 else 2 * v
  {
  }

  lemma Encode64Is(v: int)
    requires IsInt(v, W64)
    ensures Encode64(v) == (if v < 0 then -2 * v - 1 else 2 * v) % W32
  {
  }

  lemma RoundTrip32(v: int, bits: nat)
    requires IsInt(v, W32) && Pow2(bits) == W32 && bits > 0
    ensures Decode(Encode32(v), bits) == v
  {
    Encode32Is(v);
    DecodeIs(Encode32(v), bits);
  }

  /** The 64-bit codec gives a number back exactly when it fits 32 bits. */
  lemma RoundTrip64(v: int, bits: nat)
    requires IsInt(v, W64) && Pow2(bits) == W64 && bits > 0
    ensures Decode(Encode64(v), bits) == v <==> IsInt(v, W32)
  {
    Encode64Is(v);
    DecodeIs(Encode64(v), bits);
  }
}

/** Fixed-width integers in the byte order of the array, on a host of either byte order. */
module Endian {
  import opened Bytes
  import opened Arith

  datatype Order = Little | Big

  function Pow256(n: nat): (r: nat)
    ensures r >= 1
  {
    if n == 0 then 1 else 256 * Pow256(n - 1)
  }

  function ToLittle(v: nat, n: nat): (s: seq<byte>)
    ensures |s| == n
  {
    if n == 0 then [] else [v % 256] + ToLittle(v / 256, n - 1)
  }

  function FromLittle(s: seq<byte>): nat {
    if s == [] then 0 else s[0] + 256 * FromLittle(s[1..])
  }

  function Reverse(s: seq<byte>): (r: seq<byte>)
    ensures |r| == |s|
  {
    if s == [] then [] else Reverse(s[1..]) + [s[0]]
  }

  /** The bytes of a word in the memory of the host. */
  function Store(v: nat, n: nat, host: Order): (s: seq<byte>)
    ensures |s| == n
  {
    if host == Little then ToLittle(v, n) else Reverse(ToLittle(v, n))
  }

  function Load(s: seq<byte>, host: Order): nat {
    if host == Little then FromLittle(s) else FromLittle(Reverse(s))
  }

  /** `bswap` at `n` bytes. */
  function ByteSwap(v: nat, n: nat): nat {
    FromLittle(Reverse(ToLittle(v, n)))
  }

  /** What the fixed-width writers pass on: swapped when the array's order is not the host's. */
  function Put(v: nat, n: nat, order: Order, host: Order): (s: seq<byte>)
    ensures |s| == n
  {
    Store(if order != host then ByteSwap(v, n) else v, n, host)
  }

  function Get(s: seq<byte>, order: Order, host: Order): nat {
    var v := Load(s, host);
    if order == host then v else ByteSwap(v, |s|)
  }

  lemma {:induction false} FromTo(v: nat, n: nat)
    requires v < Pow256(n)
    ensures FromLittle(ToLittle(v, n)) == v
  {
    if n > 0 {
      FromTo(v / 256, n - 1);
    }
  }

  lemma {:induction false} ToFrom(s: seq<byte>)
    ensures FromLittle(s) < Pow256(|s|)
    ensures ToLittle(FromLittle(s), |s|) == s
  {
    if s != [] {
      ToFrom(s[1..]);
    }
  }

  lemma {:induction false} ReverseJoin(s: seq<byte>, t: seq<byte>)
    ensures Reverse(s + t) == Reverse(t) + Reverse(s)
  {
    if s == [] {
      assert s + t == t;
    } else {
      assert (s + t)[1..] == s[1..] + t;
      ReverseJoin(s[1..], t);
    }
  }

  lemma {:induction false} ReverseTwice(s: seq<byte>)
    ensures Reverse(Reverse(s)) == s
  {
    if s != [] {
      ReverseJoin(Reverse(s[1..]), [s[0]]);
      ReverseTwice(s[1..]);
    }
  }

  lemma SwapIsReverse(v: nat, n: nat)
    ensures ByteSwap(v, n) < Pow256(n)
    ensures ToLittle(ByteSwap(v, n), n) == Reverse(ToLittle(v, n))
  {
    ToFrom(Reverse(ToLittle(v, n)));
  }

  lemma SwapTwice(v: nat, n: nat)
    requires v < Pow256(n)
    ensures ByteSwap(ByteSwap(v, n), n) == v
  {
    SwapIsReverse(v, n);
    ReverseTwice(ToLittle(v, n));
    FromTo(v, n);
  }

  /** The bytes in the array are in the array's order, whatever the host's. */
  lemma PutIsHostFree(v: nat, n: nat, order: Order, host: Order)
    ensures Put(v, n, order, host) == if order == Little then ToLittle(v, n) else Reverse(ToLittle(v, n))
  {
    SwapIsReverse(v, n);
    ReverseTwice(ToLittle(v, n));
  }

  lemma GetIsHostFree(s: seq<byte>, order: Order, host: Order)
    ensures Get(s, order, host) == if order == Little then FromLittle(s) else FromLittle(Reverse(s))
  {
    ToFrom(s);
    ToFrom(Reverse(s));
    ReverseTwice(s);
  }

  lemma {:induction false} ToLittleAt(v: nat, n: nat, i: nat)
    requires i < n
    ensures ToLittle(v, n)[i] == v / Pow256(i) % 256
  {
    if i > 0 {
      ToLittleAt(v / 256, n - 1, i - 1);
      DivDiv(v, 256, Pow256(i - 1));
    }
  }

  lemma {:induction false} ReverseAt(s: seq<byte>, i: nat)
    requires i < |s|
    ensures Reverse(s)[i] == s[|s| - 1 - i]
  {
    if i < |s| - 1 {
      ReverseAt(s[1..], i);
    }
  }

  /** Each byte that is stored, on any host: the least significant first for little, last for big. */
  lemma PutAt(v: nat, n: nat, order: Order, host: Order, i: nat)
    requires i < n
    ensures var k := if order == Little then i else n - 1 - i; Put(v, n, order, host)[k] == v / Pow256(i) % 256
  {
    PutIsHostFree(v, n, order, host);
    ToLittleAt(v, n, i);
    ReverseAt(ToLittle(v, n), n - 1 - i);
  }

  /** The sum of the first `k` bytes of each weight. */
  ghost function Sum(s: seq<byte>, order: Order, k: nat): nat
    requires k <= |s|
  {
    if k == 0 then 0
    else Sum(s, order, k - 1) + s[if order == Little then k - 1 else |s| - k] * Pow256(k - 1)
  }

  lemma {:induction false} SumShift(s: seq<byte>, k: nat)
    requires s != [] && 0 < k <= |s|
    ensures Sum(s, Little, k) == s[0] + 256 * Sum(s[1..], Little, k - 1)
  {
    if k > 1 {
      SumShift(s, k - 1);
      var b, p := s[k - 1] as int, Pow256(k - 2);
      assert b * (256 * p) == 256 * (b * p);
    }
  }

  lemma {:induction false} FromLittleIsSum(s: seq<byte>)
    ensures FromLittle(s) == Sum(s, Little, |s|)
  {
    if s != [] {
      FromLittleIsSum(s[1..]);
      SumShift(s, |s|);
    }
  }

  lemma {:induction false} SumReverse(s: seq<byte>, k: nat)
    requires k <= |s|
    ensures Sum(Reverse(s), Little, k) == Sum(s, Big, k)
  {
    if k > 0 {
      SumReverse(s, k - 1);
      ReverseAt(s, k - 1);
    }
  }

  /** The loaded number, on any host: the sum of the bytes by their weights in the array's order. */
  lemma GetIsSum(s: seq<byte>, order: Order, host: Order)
    ensures Get(s, order, host) == Sum(s, order, |s|) < Pow256(|s|)
  {
    GetIsHostFree(s, order, host);
    if order == Little {
      ToFrom(s);
      FromLittleIsSum(s);
    } else {
      ToFrom(Reverse(s));
      FromLittleIsSum(Reverse(s));
      SumReverse(s, |s|);
    }
  }

  /** Written on one host and read on any other. */
  lemma RoundTrip(v: nat, n: nat, order: Order, host: Order, host': Order)
    requires v < Pow256(n)
    ensures Get(Put(v, n, order, host), order, host') == v
  {
    PutIsHostFree(v, n, order, host);
    GetIsHostFree(Put(v, n, order, host), order, host');
    ReverseTwice(ToLittle(v, n));
    FromTo(v, n);
  }
}
