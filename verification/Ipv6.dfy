/** The IPv6 address printer, checked against the text form of section 2.2 of RFC 4291. */
module Ipv6 {
  import opened Bytes
  import opened Endian
  import opened Options

  // ---------- numerals

  function Digit(d: nat): char
    requires d < 16
  {
    "0123456789abcdef"[d]
  }

  function DigitValue(c: char): Option<nat> {
    if '0' <= c <= '9' then Some((c - '0') as nat)
    else if 'a' <= c <= 'f' then Some((c - 'a') as nat + 10)
    else if 'A' <= c <= 'F' then Some((c - 'A') as nat + 10)
    else None
  }

  /** `n` in the given base, without leading zeros. */
  function Numeral(n: nat, base: nat): (s: string)
    requires 2 <= base <= 16
    ensures |s| > 0
    decreases n
  {
    if n < base then [Digit(n)] else Numeral(n / base, base) + [Digit(n % base)]
  }

  function Hex(n: nat): string { Numeral(n, 16) }

  /** The value of a numeral, or nothing if a character is no digit of the base. */
  function Value(s: string, base: nat): Option<nat>
    requires 2 <= base <= 16
    decreases |s|
  {
    if s == "" then Some(0)
    else
      match (Value(s[..|s| - 1], base), DigitValue(s[|s| - 1]))
      case (Some(v), Some(d)) => if d < base then Some(v * base + d) else None
      case _ => None
  }

  lemma DigitBack(d: nat)
    requires d < 16
    ensures DigitValue(Digit(d)) == Some(d) && Digit(d) != ':' && Digit(d) != ']'
  {
  }

  /** No punctuation in `s`. */
  ghost predicate Plain(s: string) {
    forall i :: 0 <= i < |s| ==> s[i] != ':' && s[i] != ']'
  }

  lemma {:induction false} NumeralPlain(n: nat, base: nat)
    requires 2 <= base <= 16
    ensures Plain(Numeral(n, base))
    decreases n
  {
    if n < base {
      DigitBack(n);
    } else {
      DigitBack(n % base);
      DivLess(n, base);
      NumeralPlain(n / base, base);
    }
  }

  /** A digit as the printer writes it: lower case. */
  ghost predicate LowerDigit(c: char, base: nat) {
    '0' <= c <= '9' || (base > 10 && 'a' <= c <= 'f')
  }

  /** Lower-case digits of the base, and no zero in front of others. */
  lemma {:induction false} NumeralIs(n: nat, base: nat)
    requires base == 10 || base == 16
    ensures var s := Numeral(n, base);
            && (forall i :: 0 <= i < |s| ==> LowerDigit(s[i], base))
            && (s[0] == '0' <==> n == 0) && (n == 0 ==> |s| == 1)
    decreases n
  {
    if n < base {
      DigitIs(n, base);
    } else {
      DigitIs(n % base, base);
      DivLess(n, base);
      assert n / base > 0;
      NumeralIs(n / base, base);
    }
  }

  lemma DigitIs(d: nat, base: nat)
    requires d < base && (base == 10 || base == 16)
    ensures LowerDigit(Digit(d), base) && (Digit(d) == '0' <==> d == 0)
  {
  }

  lemma ValueMore(s: string, d: nat, base: nat)
    requires 2 <= base <= 16 && d < base && Value(s, base).Some?
    ensures Value(s + [Digit(d)], base) == Some(Value(s, base).value * base + d)
  {
    DigitBack(d);
    assert (s + [Digit(d)])[..|s|] == s;
  }

  lemma {:induction false} NumeralBack(n: nat, base: nat)
    requires 2 <= base <= 16
    ensures Value(Numeral(n, base), base) == Some(n)
    decreases n
  {
    if n < base {
      ValueMore("", n, base);
      assert "" + [Digit(n)] == [Digit(n)];
    } else {
      DivLess(n, base);
      NumeralBack(n / base, base);
      NumeralMore(n, base);
    }
  }

  lemma NumeralMore(n: nat, base: nat)
    requires 2 <= base <= 16 && n >= base
    requires Value(Numeral(n / base, base), base) == Some(n / base)
    ensures Value(Numeral(n, base), base) == Some(n)
  {
    ValueMore(Numeral(n / base, base), n % base, base);
    DivMod(n, base);
  }

  lemma DivLess(n: nat, base: nat)
    requires 2 <= base <= n
    ensures 0 <= n / base < n
  {
  }

  lemma DivMod(n: nat, base: nat)
    requires base > 0
    ensures n / base * base + n % base == n
  {
  }

  lemma HexLength(n: nat)
    requires n < 0x1_0000
    ensures 1 <= |Hex(n)| <= 4
  {
    assert |Hex(n / 4096)| == 1;
    assert n >= 16 ==> |Hex(n)| == |Hex(n / 16)| + 1;
    assert n / 16 >= 16 ==> |Hex(n / 16)| == |Hex(n / 16 / 16)| + 1;
    assert n / 16 / 16 >= 16 ==> |Hex(n / 16 / 16)| == |Hex(n / 16 / 16 / 16)| + 1;
  }

  // ---------- the text form of the standard

  /** The place of the first colon, or the length. */
  function Colon(s: string): (k: nat)
    ensures k <= |s|
    ensures k < |s| ==> s[k] == ':'
    ensures forall i :: 0 <= i < k ==> s[i] != ':'
  {
    if s == "" || s[0] == ':' then 0 else 1 + Colon(s[1..])
  }

  /** The pieces between single colons. */
  function Pieces(s: string): seq<string>
    decreases |s|
  {
    var k := Colon(s);
    if k == |s| then [s] else [s[..k]] + Pieces(s[k + 1..])
  }

  /** One to four hexadecimal digits. */
  function Piece(s: string): Option<nat> {
    if 1 <= |s| <= 4 then Value(s, 16) else None
  }

  function PieceValues(ps: seq<string>): Option<seq<nat>> {
    if ps == [] then Some([])
    else
      match (Piece(ps[0]), PieceValues(ps[1..]))
      case (Some(v), Some(vs)) => Some([v] + vs)
      case _ => None
  }

  function Groups(s: string): Option<seq<nat>> {
    if s == "" then Some([]) else PieceValues(Pieces(s))
  }

  predicate DoubleAt(s: string, i: nat) {
    i + 1 < |s| && s[i] == ':' && s[i + 1] == ':'
  }

  /** The place of the first double colon, or the length. */
  function Double(s: string): (k: nat)
    ensures k <= |s|
    ensures k < |s| ==> DoubleAt(s, k)
    ensures forall i :: 0 <= i < k ==> !DoubleAt(s, i)
  {
    if s == "" || DoubleAt(s, 0) then 0
    else
      var k := 1 + Double(s[1..]);
      assert forall i :: 0 < i < k ==> !DoubleAt(s, i) by {
        forall i | 0 < i < k ensures !DoubleAt(s, i) { assert !DoubleAt(s[1..], i - 1); }
      }
      k
  }

  /** Eight groups, or fewer with one double colon for one or more groups of zeros. */
  function Parse(s: string): Option<seq<nat>> {
    var k := Double(s);
    if k == |s| then
      match Groups(s)
      case Some(gs) => if |gs| == 8 then Some(gs) else None
      case None => None
    else
      match (Groups(s[..k]), Groups(s[k + 2..]))
      case (Some(l), Some(r)) => if |l| + |r| <= 7 then Some(l + Zeros(8 - |l| - |r|) + r) else None
      case _ => None
  }

  function Zeros(n: nat): (z: seq<nat>)
    ensures |z| == n && forall i :: 0 <= i < n ==> z[i] == 0
  {
    if n == 0 then [] else [0] + Zeros(n - 1)
  }

  // ---------- the printer

  /** `:` and a group, for each group. */
  function Tail(gs: seq<nat>): string {
    if gs == [] then "" else ":" + Hex(gs[0]) + Tail(gs[1..])
  }

  function Join(gs: seq<nat>): string {
    if gs == [] then "" else Hex(gs[0]) + Tail(gs[1..])
  }

  /** The first group of zero from `i` on, or the length. */
  function ZeroFrom(gs: seq<nat>, i: nat): (k: nat)
    requires i <= |gs|
    ensures i <= k <= |gs|
    ensures k < |gs| ==> gs[k] == 0
    ensures forall j :: i <= j < k ==> gs[j] != 0
    decreases |gs| - i
  {
    if i == |gs| || gs[i] == 0 then i else ZeroFrom(gs, i + 1)
  }

  /** The end of the zeros from `i` on. */
  function ZerosEnd(gs: seq<nat>, i: nat): (k: nat)
    requires i <= |gs|
    ensures i <= k <= |gs|
    ensures k < |gs| ==> gs[k] != 0
    ensures forall j :: i <= j < k ==> gs[j] == 0
    decreases |gs| - i
  {
    if i == |gs| || gs[i] != 0 then i else ZerosEnd(gs, i + 1)
  }

  /** The first run of zeros is written as a double colon. */
  function Short(gs: seq<nat>): string {
    var z := ZeroFrom(gs, 0);
    if z == |gs| then Join(gs) else Join(gs[..z]) + "::" + Join(gs[ZerosEnd(gs, z)..])
  }

  // ---------- reading back what was printed

  lemma JoinParts(gs: seq<nat>)
    requires gs != []
    ensures |gs| == 1 ==> Join(gs) == Hex(gs[0])
    ensures |gs| > 1 ==> Join(gs) == Hex(gs[0]) + ":" + Join(gs[1..])
  {
    var h, t := Hex(gs[0]), Tail(gs[1..]);
    if |gs| == 1 {
      assert t == "" && h + t == h;
    } else {
      var r := gs[1..];
      assert t == ":" + Hex(r[0]) + Tail(r[1..]);
      assert t == ":" + (Hex(r[0]) + Tail(r[1..]));
      assert Join(r) == Hex(r[0]) + Tail(r[1..]);
      assert h + t == h + ":" + Join(r);
    }
  }

  lemma PiecesParts(h: string, r: string)
    requires Plain(h)
    ensures Pieces(h) == [h]
    ensures Pieces(h + ":" + r) == [h] + Pieces(r)
  {
    var s := h + ":" + r;
    assert Colon(h) == |h|;
    assert forall i :: 0 <= i < |h| ==> s[i] == h[i];
    assert s[|h|] == ':';
    assert Colon(s) == |h|;
    assert s[..|h|] == h && s[|h| + 1..] == r;
  }

  lemma PieceBack(n: nat)
    requires n < 0x1_0000
    ensures Piece(Hex(n)) == Some(n)
  {
    NumeralBack(n, 16);
    HexLength(n);
  }

  ghost predicate AllSmall(gs: seq<nat>) { forall i :: 0 <= i < |gs| ==> gs[i] < 0x1_0000 }

  lemma {:induction false} JoinBack(gs: seq<nat>)
    requires gs != [] && AllSmall(gs)
    ensures PieceValues(Pieces(Join(gs))) == Some(gs)
    decreases |gs|
  {
    var h, rest := Hex(gs[0]), gs[1..];
    NumeralPlain(gs[0], 16);
    PieceBack(gs[0]);
    JoinParts(gs);
    PiecesParts(h, Join(rest));
    if |gs| == 1 {
      ValuesMore(h, [], gs[0]);
      assert [h] + [] == [h];
      assert [gs[0]] + [] == gs;
    } else {
      assert gs == [gs[0]] + rest;
      JoinBack(rest);
      ValuesMore(h, Pieces(Join(rest)), gs[0]);
    }
  }

  lemma ValuesMore(h: string, ps: seq<string>, n: nat)
    requires Piece(h) == Some(n) && PieceValues(ps).Some?
    ensures PieceValues([h] + ps) == Some([n] + PieceValues(ps).value)
  {
    assert ([h] + ps)[1..] == ps;
  }

  lemma GroupsBack(gs: seq<nat>)
    requires AllSmall(gs)
    ensures Groups(Join(gs)) == Some(gs)
  {
    if gs != [] {
      JoinBack(gs);
      JoinSingle(gs);
    }
  }

  /** A text of groups and single colons that neither starts nor ends with a colon. */
  ghost predicate Single(s: string) {
    && (forall i: nat :: !DoubleAt(s, i))
    && (s != "" ==> s[0] != ':' && s[|s| - 1] != ':')
    && (forall i :: 0 <= i < |s| ==> s[i] != ']')
  }

  lemma {:induction false} JoinSingle(gs: seq<nat>)
    ensures Single(Join(gs)) && (gs != [] ==> Join(gs) != "")
    decreases |gs|
  {
    if gs != [] {
      var h := Hex(gs[0]);
      NumeralPlain(gs[0], 16);
      JoinParts(gs);
      if |gs| == 1 {
        PlainSingle(h);
      } else {
        JoinSingle(gs[1..]);
        SingleJoin(h, Join(gs[1..]));
      }
    }
  }

  lemma PlainSingle(h: string)
    requires Plain(h)
    ensures Single(h)
  {
  }

  lemma SingleJoin(h: string, r: string)
    requires Plain(h) && h != "" && Single(r) && r != ""
    ensures Single(h + ":" + r)
  {
    var s := h + ":" + r;
    forall i: nat ensures !DoubleAt(s, i) {
      if i < |h| {
        assert s[i] == h[i];
      } else if i == |h| {
        assert s[i + 1] == r[0];
      } else {
        assert DoubleAt(s, i) <==> DoubleAt(r, i - |h| - 1);
      }
    }
    assert s[0] == h[0] && s[|s| - 1] == r[|r| - 1];
  }

  /** Between two such texts the double colon is where it was put, and nowhere else. */
  lemma {:induction false} DoubleBetween(l: string, r: string)
    requires Single(l) && Single(r)
    ensures forall i: nat :: DoubleAt(l + "::" + r, i) <==> i == |l|
    ensures Double(l + "::" + r) == |l|
  {
    var s := l + "::" + r;
    forall i: nat ensures DoubleAt(s, i) <==> i == |l| {
      if i + 1 < |l| {
        assert DoubleAt(s, i) <==> DoubleAt(l, i);
      } else if i + 1 == |l| {
        assert s[i] == l[|l| - 1];
      } else if i == |l| + 1 {
        assert r != "" ==> s[i + 1] == r[0];
      } else if i > |l| + 1 {
        assert DoubleAt(s, i) <==> DoubleAt(r, i - |l| - 2);
      }
    }
    assert DoubleAt(s, |l|);
  }

  lemma NoDouble(s: string)
    requires Single(s)
    ensures Double(s) == |s|
  {
  }

  ghost predicate IsAddress(gs: seq<nat>) {
    |gs| == 8 && AllSmall(gs)
  }

  lemma {:induction false} ParseShort(a: string, b: string, l: seq<nat>, r: seq<nat>)
    requires Groups(a) == Some(l) && Groups(b) == Some(r) && |l| + |r| <= 7
    requires Double(a + "::" + b) == |a|
    ensures Parse(a + "::" + b) == Some(l + Zeros(8 - |l| - |r|) + r)
  {
    var s := a + "::" + b;
    assert s[..|a|] == a && s[|a| + 2..] == b;
  }

  /** The printed groups read back as the same groups. */
  lemma PrintedReadsBack(gs: seq<nat>)
    requires IsAddress(gs)
    ensures Parse(Short(gs)) == Some(gs)
  {
    if ZeroFrom(gs, 0) == 8 {
      JoinSingle(gs);
      NoDouble(Join(gs));
      GroupsBack(gs);
    } else {
      ShortReadsBack(gs);
    }
  }

  lemma ShortReadsBack(gs: seq<nat>)
    requires IsAddress(gs) && ZeroFrom(gs, 0) < 8
    ensures Parse(Short(gs)) == Some(gs)
  {
    var z := ZeroFrom(gs, 0);
    var e := ZerosEnd(gs, z);
    ShortenedReadsBack(gs[..z], gs[e..]);
    ZerosBetween(gs, z, e);
    assert 8 - |gs[..z]| - |gs[e..]| == e - z;
    assert Short(gs) == Join(gs[..z]) + "::" + Join(gs[e..]);
  }

  lemma ShortenedReadsBack(l: seq<nat>, r: seq<nat>)
    requires AllSmall(l) && AllSmall(r) && |l| + |r| <= 7
    ensures Parse(Join(l) + "::" + Join(r)) == Some(l + Zeros(8 - |l| - |r|) + r)
  {
    JoinSingle(l);
    JoinSingle(r);
    GroupsBack(l);
    GroupsBack(r);
    DoubleBetween(Join(l), Join(r));
    ParseShort(Join(l), Join(r), l, r);
  }

  lemma ZerosBetween(gs: seq<nat>, z: nat, e: nat)
    requires z <= e <= |gs| && forall i :: z <= i < e ==> gs[i] == 0
    ensures gs == gs[..z] + Zeros(e - z) + gs[e..]
  {
  }

  ghost predicate OnlyAt(s: string, k: nat) {
    DoubleAt(s, k) && forall i: nat :: DoubleAt(s, i) ==> i == k
  }

  /** The double colon occurs once if some group is zero, and never otherwise. */
  lemma OneDouble(gs: seq<nat>)
    requires IsAddress(gs)
    ensures if 0 in gs then exists k: nat :: OnlyAt(Short(gs), k) else forall i: nat :: !DoubleAt(Short(gs), i)
  {
    var z := ZeroFrom(gs, 0);
    if z == 8 {
      assert 0 !in gs;
      JoinSingle(gs);
    } else {
      assert gs[z] in gs;
      var l, r := gs[..z], gs[ZerosEnd(gs, z)..];
      JoinSingle(l);
      JoinSingle(r);
      DoubleBetween(Join(l), Join(r));
      assert OnlyAt(Short(gs), |Join(l)|);
    }
  }

  /** From `z` to `e` is the first run of zeros, as long as it goes. */
  ghost predicate FirstRun(gs: seq<nat>, z: nat, e: nat) {
    && z < e <= |gs| && (e < |gs| ==> gs[e] != 0)
    && (forall j :: 0 <= j < z ==> gs[j] != 0) && (forall j :: z <= j < e ==> gs[j] == 0)
  }

  /** The text has the groups before `z`, a double colon, and the groups from `e` on. */
  ghost predicate LeavesOut(s: string, gs: seq<nat>, z: nat, e: nat)
    requires z <= e <= |gs|
  {
    var k := Double(s);
    k < |s| && Groups(s[..k]) == Some(gs[..z]) && Groups(s[k + 2..]) == Some(gs[e..])
  }

  lemma RunIs(gs: seq<nat>, z: nat, e: nat)
    requires FirstRun(gs, z, e)
    ensures z == ZeroFrom(gs, 0) && e == ZerosEnd(gs, z)
  {
    var k, m := ZeroFrom(gs, 0), ZerosEnd(gs, z);
    assert gs[z] == 0;
  }

  /** The double colon stands for the first run of zeros, the whole of it. */
  lemma FirstRunLeftOut(gs: seq<nat>, z: nat, e: nat)
    requires AllSmall(gs) && FirstRun(gs, z, e)
    ensures LeavesOut(Short(gs), gs, z, e)
  {
    RunIs(gs, z, e);
    var l, r := Join(gs[..z]), Join(gs[e..]);
    JoinSingle(gs[..z]);
    JoinSingle(gs[e..]);
    DoubleBetween(l, r);
    GroupsBack(gs[..z]);
    GroupsBack(gs[e..]);
    assert Short(gs)[..|l|] == l && Short(gs)[|l| + 2..] == r;
  }

  /** A group starts with a zero at `i` and goes on. */
  ghost predicate ZeroFirst(s: string, i: nat)
    requires i < |s|
  {
    s[i] == '0' && (i == 0 || s[i - 1] == ':') && i + 1 < |s| && s[i + 1] != ':'
  }

  /** Lower-case digits and colons, and no group with a zero in front of other digits. */
  ghost predicate Neat(s: string) {
    && (forall i :: 0 <= i < |s| ==> s[i] == ':' || LowerDigit(s[i], 16))
    && (forall i :: 0 <= i < |s| ==> !ZeroFirst(s, i))
  }

  lemma NeatPieces(a: string, b: string)
    requires Neat(a) && Neat(b)
    ensures Neat(a + ":" + b)
  {
    var s := a + ":" + b;
    assert forall i :: 0 <= i < |a| ==> s[i] == a[i];
    assert s[|a|] == ':';
    assert forall i :: |a| < i < |s| ==> s[i] == b[i - |a| - 1];
    forall i | 0 <= i < |s| ensures !ZeroFirst(s, i) {
      if i < |a| {
        assert !ZeroFirst(a, i);
      } else if i > |a| {
        assert !ZeroFirst(b, i - |a| - 1);
      }
    }
  }

  lemma {:induction false} JoinNeat(gs: seq<nat>)
    ensures Neat(Join(gs))
    decreases |gs|
  {
    if gs != [] {
      NumeralIs(gs[0], 16);
      assert Neat(Hex(gs[0])) by { NumeralPlain(gs[0], 16); }
      JoinParts(gs);
      if |gs| > 1 {
        JoinNeat(gs[1..]);
        NeatPieces(Hex(gs[0]), Join(gs[1..]));
      }
    }
  }

  lemma ShortNeat(gs: seq<nat>)
    ensures Neat(Short(gs))
  {
    var z := ZeroFrom(gs, 0);
    if z == |gs| {
      JoinNeat(gs);
    } else {
      var l, r := Join(gs[..z]), Join(gs[ZerosEnd(gs, z)..]);
      JoinNeat(gs[..z]);
      JoinNeat(gs[ZerosEnd(gs, z)..]);
      NeatBoth(l, r);
    }
  }

  lemma NeatBoth(l: string, r: string)
    requires Neat(l) && Neat(r)
    ensures Neat(l + "::" + r)
  {
    NeatPieces("", r);
    NeatPieces(l, "" + ":" + r);
    assert l + ":" + ("" + ":" + r) == l + "::" + r;
  }

  /** Different addresses print differently. */
  lemma PrintingIsInjective(gs: seq<nat>, hs: seq<nat>)
    requires IsAddress(gs) && IsAddress(hs) && Short(gs) == Short(hs)
    ensures gs == hs
  {
    PrintedReadsBack(gs);
    PrintedReadsBack(hs);
  }

  // ---------- the whole text, with the port

  ghost predicate NoBracket(s: string) { forall i :: 0 <= i < |s| ==> s[i] != ']' }

  lemma ShortNoBracket(gs: seq<nat>)
    ensures NoBracket(Short(gs))
  {
    var z := ZeroFrom(gs, 0);
    if z == |gs| {
      JoinSingle(gs);
    } else {
      JoinSingle(gs[..z]);
      JoinSingle(gs[ZerosEnd(gs, z)..]);
    }
  }

  function Text(gs: seq<nat>, port: nat): string {
    "[" + Short(gs) + "]:" + Numeral(port, 10)
  }

  lemma BracketEnds(a: string, b: string, p: string, q: string)
    requires NoBracket(a) && NoBracket(b) && "[" + a + "]:" + p == "[" + b + "]:" + q
    ensures a == b && p == q
  {
    var s, t := "[" + a + "]:" + p, "[" + b + "]:" + q;
    assert s[|a| + 1] == ']' && t[|b| + 1] == ']';
    assert forall i :: 0 <= i < |a| ==> s[i + 1] == a[i];
    assert forall i :: 0 <= i < |b| ==> t[i + 1] == b[i];
    assert |a| == |b|;
    assert a == s[1..|a| + 1] && p == s[|a| + 3..];
    assert b == t[1..|b| + 1] && q == t[|b| + 3..];
  }

  /** Two socket addresses with the same text are the same address and port. */
  lemma TextIsInjective(gs: seq<nat>, port: nat, hs: seq<nat>, port': nat)
    requires IsAddress(gs) && IsAddress(hs) && Text(gs, port) == Text(hs, port')
    ensures gs == hs && port == port'
  {
    ShortNoBracket(gs);
    ShortNoBracket(hs);
    BracketEnds(Short(gs), Short(hs), Numeral(port, 10), Numeral(port', 10));
    PrintingIsInjective(gs, hs);
    NumeralBack(port, 10);
    NumeralBack(port', 10);
  }

  /** Digits of base ten without a leading zero. */
  ghost predicate Decimal(s: string) {
    && s != "" && (forall i :: 0 <= i < |s| ==> '0' <= s[i] <= '9')
    && (s[0] == '0' ==> |s| == 1)
  }

  lemma InBrackets(a: string, p: string)
    requires NoBracket(a) && NoBracket(p)
    ensures var s, k := "[" + a + "]:" + p, 1 + |a|;
            && |s| == k + 2 + |p| && s[0] == '[' && s[k] == ']' && s[k + 1] == ':'
            && (forall i :: 0 <= i < |s| && s[i] == ']' ==> i == k)
            && s[1..k] == a && s[k + 2..] == p
  {
    var s, k := "[" + a + "]:" + p, 1 + |a|;
    assert forall i :: 1 <= i < k ==> s[i] == a[i - 1];
    assert forall i :: k + 2 <= i < |s| ==> s[i] == p[i - k - 2];
  }

  lemma PortIs(port: nat)
    ensures var p := Numeral(port, 10); Value(p, 10) == Some(port) && Decimal(p) && NoBracket(p)
  {
    NumeralBack(port, 10);
    NumeralIs(port, 10);
    NumeralPlain(port, 10);
  }

  /** The address is written as the standard reads it, with the double colon for the whole first run of zeros. */
  ghost predicate Presents(s: string, gs: seq<nat>) {
    && Parse(s) == Some(gs) && Neat(s)
    && (forall z, e :: FirstRun(gs, z, e) ==> LeavesOut(s, gs, z, e))
    && (0 !in gs ==> Double(s) == |s|)
  }

  lemma ShortPresents(gs: seq<nat>)
    requires IsAddress(gs)
    ensures Presents(Short(gs), gs)
  {
    PrintedReadsBack(gs);
    ShortNeat(gs);
    OneDouble(gs);
    forall z, e | FirstRun(gs, z, e) ensures LeavesOut(Short(gs), gs, z, e) {
      FirstRunLeftOut(gs, z, e);
    }
  }

  /** The address in brackets, `k` the place of the only closing one, a colon and the port in base ten. */
  ghost predicate Spells(s: string, k: nat, gs: seq<nat>, port: nat) {
    && 1 <= k && k + 2 <= |s| && s[0] == '[' && s[k] == ']' && s[k + 1] == ':'
    && (forall i :: 0 <= i < |s| && s[i] == ']' ==> i == k)
    && Parse(s[1..k]) == Some(gs) && Presents(s[1..k], gs)
    && Value(s[k + 2..], 10) == Some(port) && Decimal(s[k + 2..])
  }

  lemma PartsSpell(a: string, p: string, gs: seq<nat>, port: nat) returns (k: nat)
    requires NoBracket(a) && NoBracket(p) && Presents(a, gs) && Value(p, 10) == Some(port) && Decimal(p)
    ensures Spells("[" + a + "]:" + p, k, gs, port)
  {
    InBrackets(a, p);
    k := 1 + |a|;
  }

  lemma ShortSpells(gs: seq<nat>, p: string, port: nat) returns (k: nat)
    requires IsAddress(gs) && NoBracket(p) && Value(p, 10) == Some(port) && Decimal(p)
    ensures Spells("[" + Short(gs) + "]:" + p, k, gs, port)
  {
    ShortNoBracket(gs);
    ShortPresents(gs);
    k := PartsSpell(Short(gs), p, gs, port);
  }

  lemma TextSpells(gs: seq<nat>, port: nat) returns (k: nat)
    requires IsAddress(gs)
    ensures Spells(Text(gs, port), k, gs, port)
  {
    PortIs(port);
    k := ShortSpells(gs, Numeral(port, 10), port);
  }

  // ---------- the printing loop

  /** A 16-bit word in network order. */
  function Word(a: byte, b: byte): (w: nat)
    ensures w < 0x1_0000
  {
    256 * a + b
  }

  /** The eight groups of an address. */
  function GroupsOf(addr: seq<byte>): (gs: seq<nat>)
    requires |addr| == 16
    ensures IsAddress(gs)
    ensures forall i :: 0 <= i < 8 ==> gs[i] == 256 * (addr[2 * i] as int) + addr[2 * i + 1]
  {
    seq(8, i requires 0 <= i < 8 => Word(addr[2 * i], addr[2 * i + 1]))
  }

  /** The loaded word is zero on every host exactly if the group is, and the swapped one is the group. */
  lemma LoadedWord(s: seq<byte>, host: Order)
    requires |s| == 2
    ensures Load(s, host) == 0 <==> Word(s[0], s[1]) == 0
    ensures Get(s, Big, host) == Word(s[0], s[1])
  {
    GetIsHostFree(s, Big, host);
    TwoBytes(s[0], s[1]);
    TwoBytes(s[1], s[0]);
    assert s == [s[0], s[1]];
  }

  lemma TwoBytes(a: byte, b: byte)
    ensures FromLittle([a, b]) == a + 256 * b
    ensures Reverse([a, b]) == [b, a]
  {
    assert [a, b][1..] == [b] && [b][1..] == [];
    assert Reverse([b]) == [b] && FromLittle([b]) == b;
  }

  lemma {:induction false} TailMore(gs: seq<nat>, n: nat)
    ensures Tail(gs + [n]) == Tail(gs) + ":" + Hex(n)
    decreases |gs|
  {
    if gs == [] {
      assert gs + [n] == [n] && Tail([n][1..]) == "";
    } else {
      assert (gs + [n])[1..] == gs[1..] + [n];
      TailMore(gs[1..], n);
    }
  }

  lemma JoinMore(gs: seq<nat>, n: nat)
    ensures Join(gs + [n]) == Join(gs) + (if gs == [] then "" else ":") + Hex(n)
  {
    if gs == [] {
      assert gs + [n] == [n] && Tail([n][1..]) == "";
    } else {
      assert (gs + [n])[1..] == gs[1..] + [n];
      TailMore(gs[1..], n);
    }
  }

  /**
   * What is written after `i` turns: `z` is the place of the first zero and `e` the end of its run,
   * each `i` if not yet met, and the run's colons are written only when it has ended.
   */
  ghost predicate Written(gs: seq<nat>, i: nat, z: nat, e: nat, used: bool, os: string)
    requires i <= |gs|
  {
    && z <= e <= i
    && (forall j :: 0 <= j < z ==> gs[j] != 0)
    && (forall j :: z <= j < e ==> gs[j] == 0)
    && (z < i ==> z < e)
    && (used <==> e < i)
    && (used ==> gs[e] != 0)
    && os == if used then "[" + Join(gs[..z]) + "::" + Join(gs[e..i]) else "[" + Join(gs[..z])
  }

  lemma Reassociate(a: string, b: string, c: string, d: string)
    ensures a + (b + c + d) == a + b + c + d
  {
  }

  lemma TwoColons(a: string, b: string)
    ensures a + ":" + ":" + b == a + "::" + b
  {
  }

  /** After the last turn only an unwritten run at the end is missing. */
  lemma WrittenAll(gs: seq<nat>, z: nat, e: nat, used: bool, os: string)
    requires Written(gs, |gs|, z, e, used, os) && gs != []
    ensures "[" + Short(gs) == if !used && gs[|gs| - 1] == 0 then os + "::" else os
  {
    assert z < |gs| ==> gs[z] == 0;
    assert z == ZeroFrom(gs, 0);
    if z < |gs| {
      assert e == ZerosEnd(gs, z);
      assert gs[e..|gs|] == gs[e..];
      var l, r := Join(gs[..z]), Join(gs[e..]);
      assert !used ==> l + "::" + r == l + "::";
      Reassociate("[", l, "::", r);
    } else {
      assert gs[..z] == gs;
    }
  }

  lemma WriteNothing(gs: seq<nat>, i: nat, z: nat, e: nat, os: string)
    requires i < |gs| && gs[i] == 0 && Written(gs, i, z, e, false, os)
    ensures Written(gs, i + 1, z, i + 1, false, os)
  {
    assert e == i;
  }

  lemma WriteFirst(gs: seq<nat>, i: nat, z: nat, e: nat, os: string)
    requires i < |gs| && gs[i] != 0 && Written(gs, i, z, e, false, os)
    requires i > 0 ==> gs[i - 1] != 0
    ensures Written(gs, i + 1, i + 1, i + 1, false, os + (if i > 0 then ":" else "") + Hex(gs[i]))
  {
    assert z == i;
    JoinMore(gs[..i], gs[i]);
    assert gs[..i] + [gs[i]] == gs[..i + 1];
    var l, c := Join(gs[..i]), if i > 0 then ":" else "";
    Reassociate("[", l, c, Hex(gs[i]));
  }

  lemma WriteAfterRun(gs: seq<nat>, i: nat, z: nat, e: nat, os: string)
    requires 0 < i < |gs| && gs[i - 1] == 0 && gs[i] != 0 && Written(gs, i, z, e, false, os)
    ensures e == i && Written(gs, i + 1, z, i, true, os + ":" + ":" + Hex(gs[i]))
  {
    JoinMore([], gs[i]);
    assert [] + [gs[i]] == gs[i..i + 1];
    assert "" + "" + Hex(gs[i]) == Hex(gs[i]);
    TwoColons(os, Hex(gs[i]));
  }

  lemma WriteMore(gs: seq<nat>, i: nat, z: nat, e: nat, os: string)
    requires e < i < |gs| && Written(gs, i, z, e, true, os)
    ensures Written(gs, i + 1, z, e, true, os + ":" + Hex(gs[i]))
  {
    JoinMore(gs[e..i], gs[i]);
    assert gs[e..i] + [gs[i]] == gs[e..i + 1];
    var l, m := Join(gs[..z]), Join(gs[e..i]);
    Reassociate("[" + l + "::", m, ":", Hex(gs[i]));
  }

  /** The word at `i` is zero on every host exactly if the group is, and is the group when swapped. */
  lemma GroupAt(addr: seq<byte>, i: nat, host: Order)
    requires |addr| == 16 && i < 8
    ensures Load(addr[2 * i..2 * i + 2], host) == 0 <==> GroupsOf(addr)[i] == 0
    ensures Get(addr[2 * i..2 * i + 2], Big, host) == GroupsOf(addr)[i]
  {
    LoadedWord(addr[2 * i..2 * i + 2], host);
  }

  /** What one turn of the printing loop writes for group `i`, given the zero tests and the swapped word. */
  method WriteGroup(ghost gs: seq<nat>, i: nat, zero: bool, zeroBefore: bool, word: nat, usedZeros: bool, os: string,
                    ghost z: nat, ghost e: nat)
    returns (used: bool, out: string, ghost z': nat, ghost e': nat)
    requires i < |gs| && zero == (gs[i] == 0) && zeroBefore == (i > 0 && gs[i - 1] == 0) && word == gs[i]
    requires Written(gs, i, z, e, usedZeros, os)
    ensures Written(gs, i + 1, z', e', used, out)
  {
    if zero && !usedZeros {
      WriteNothing(gs, i, z, e, os);
      return usedZeros, os, z, i + 1;
    }
    used, out := usedZeros, os;
    if zeroBefore && !usedZeros {
      out := out + ":";
      used := true;
    }
    if i > 0 {
      out := out + ":";
    }
    out := out + Hex(word);
    z', e' := z, e;
    if usedZeros {
      WriteMore(gs, i, z, e, os);
    } else if used {
      WriteAfterRun(gs, i, z, e, os);
    } else {
      WriteFirst(gs, i, z, e, os);
      assert i == 0 ==> os + "" == os;
      z', e' := i + 1, i + 1;
    }
  }

  /** One turn of the printing loop. */
  method InsertGroup(addr: seq<byte>, host: Order, i: nat, usedZeros: bool, os: string, ghost z: nat, ghost e: nat)
    returns (used: bool, out: string, ghost z': nat, ghost e': nat)
    requires |addr| == 16 && i < 8 && Written(GroupsOf(addr), i, z, e, usedZeros, os)
    ensures Written(GroupsOf(addr), i + 1, z', e', used, out)
  {
    GroupAt(addr, i, host);
    var group := addr[2 * i..2 * i + 2];
    var zeroBefore := false;
    if i > 0 {
      GroupAt(addr, i - 1, host);
      zeroBefore := Load(addr[2 * (i - 1)..2 * (i - 1) + 2], host) == 0;
    }
    used, out, z', e' :=
      WriteGroup(GroupsOf(addr), i, Load(group, host) == 0, zeroBefore, Get(group, Big, host), usedZeros, os, z, e);
  }

  /** `IPv6Address::insert` on a host of either byte order. */
  method Insert(addr: seq<byte>, port: seq<byte>, host: Order) returns (os: string, ghost k: nat)
    requires |addr| == 16 && |port| == 2
    ensures Spells(os, k, GroupsOf(addr), 256 * (port[0] as int) + port[1])
    ensures os[0] == '[' && os[k] == ']' && os[k + 1] == ':'
    ensures Parse(os[1..k]) == Some(GroupsOf(addr)) && Value(os[k + 2..], 10) == Some(256 * (port[0] as int) + port[1])
    ensures os == Text(GroupsOf(addr), Word(port[0], port[1]))
  {
    os := Print(addr, port, host);
    k := TextSpells(GroupsOf(addr), Word(port[0], port[1]));
  }

  /** The body of `insert`. */
  method Print(addr: seq<byte>, port: seq<byte>, host: Order) returns (os: string)
    requires |addr| == 16 && |port| == 2
    ensures os == Text(GroupsOf(addr), Word(port[0], port[1]))
  {
    ghost var z, e := 0, 0;
    os := "[";
    var usedZeros := false;
    for i := 0 to 8
      invariant Written(GroupsOf(addr), i, z, e, usedZeros, os)
    {
      usedZeros, os, z, e := InsertGroup(addr, host, i, usedZeros, os, z, e);
    }
    GroupAt(addr, 7, host);
    WrittenAll(GroupsOf(addr), z, e, usedZeros, os);
    if !usedZeros && Load(addr[14..16], host) == 0 {
      os := os + "::";
    }
    LoadedWord(port, host);
    os := os + "]:" + Numeral(Get(port, Big, host), 10);
  }
}
