/** Bytes as the byte array stores them, and sequence surgery shared by the models. */
module Bytes {

  type byte = b: int | 0 <= b < 256

  /** `s` with the bytes from index `at` on overwritten by `d`. */
  function Splice(s: seq<byte>, at: nat, d: seq<byte>): (r: seq<byte>)
    requires at + |d| <= |s|
    ensures |r| == |s|
    ensures forall i :: 0 <= i < |r| ==> r[i] == if at <= i < at + |d| then d[i - at] else s[i]
  {
    s[..at] + d + s[at + |d|..]
  }

  /** Overwriting piece by piece is overwriting once. */
  lemma SpliceSplit(s: seq<byte>, at: nat, d: seq<byte>, n: nat)
    requires at + |d| <= |s| && n <= |d|
    ensures Splice(Splice(s, at, d[..n]), at + n, d[n..]) == Splice(s, at, d)
  {
  }

  lemma SpliceNone(s: seq<byte>, at: nat, d: seq<byte>)
    requires at <= |s| && d == []
    ensures Splice(s, at, d) == s
  {
  }

  /** A slice that the overwritten range does not touch. */
  lemma SliceApart(s: seq<byte>, at: nat, d: seq<byte>, lo: nat, hi: nat)
    requires at + |d| <= |s| && lo <= hi <= |s|
    requires hi <= at || at + |d| <= lo
    ensures Splice(s, at, d)[lo..hi] == s[lo..hi]
  {
  }

  /** A slice that contains the overwritten range. */
  lemma SliceAround(s: seq<byte>, at: nat, d: seq<byte>, lo: nat, hi: nat)
    requires lo <= at && at + |d| <= hi <= |s|
    ensures Splice(s, at, d)[lo..hi] == Splice(s[lo..hi], at - lo, d)
  {
  }

  lemma SliceJoin(s: seq<byte>, a: nat, b: nat, c: nat)
    requires a <= b <= c <= |s|
    ensures s[a..b] + s[b..c] == s[a..c]
  {
  }

  lemma DropTake(s: seq<byte>, a: nat, n: nat)
    requires a + n <= |s|
    ensures s[a..][..n] == s[a..a + n]
  {
  }

  lemma JoinParts(a: seq<byte>, b: seq<byte>, n: nat)
    requires n <= |b|
    ensures (a + b)[..|a|] == a && (a + b)[|a|..|a| + n] == b[..n]
  {
  }

  lemma JoinThree(a: seq<byte>, b: seq<byte>, c: seq<byte>)
    ensures a + (b + c) == a + b + c
  {
  }

  lemma JoinRest(done: seq<byte>, rest: seq<byte>, n: nat)
    requires n <= |rest|
    ensures done + rest[..n] + rest[n..] == done + rest
  {
  }
}
