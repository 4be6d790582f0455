/** Bytes as eight-bit vectors, and their use as array indices. */
module Bytes {

  type byte = bv8

  lemma SuccessorIndex(b: byte)
    requires b < 255
    ensures (b + 1) as int == b as int + 1
  {
  }

  lemma IndexThenByte(b: byte)
    ensures (b as int) as byte == b
  {
  }

  lemma SixBitIndex(b: byte)
    ensures b as int < 64 <==> b < 64
  {
  }

  /** The byte reached by counting up from 0, as an unsigned char loop variable does. */
  function Counted(i: nat): (b: byte)
    requires i < 256
    ensures b as int == i
  {
    if i == 0 then 0
    else
      SuccessorIndex(Counted(i - 1));
      Counted(i - 1) + 1
  }

  lemma ByteThenIndex(i: nat)
    requires i < 256
    ensures (i as byte) as int == i
  {
    IndexThenByte(Counted(i));
  }

  lemma IndexInjective(a: byte, b: byte)
    requires a as int == b as int
    ensures a == b
  {
    IndexThenByte(a);
    IndexThenByte(b);
  }

  /** s with the elements from position at on replaced by t. */
  function Splice<T>(s: seq<T>, at: nat, t: seq<T>): (r: seq<T>)
    requires at + |t| <= |s|
    ensures |r| == |s|
    ensures forall i | 0 <= i < |s| :: r[i] == if at <= i < at + |t| then t[i - at] else s[i]
  {
    s[..at] + t + s[at + |t|..]
  }

  lemma SpliceAll<T>(s: seq<T>, t: seq<T>)
    requires |s| == |t|
    ensures Splice(s, 0, t) == t
  {
  }

  /** A part of a prefix is that part of the whole. */
  lemma PartOfPrefix<T>(s: seq<T>, n: nat, i: nat, j: nat)
    requires i <= j <= n <= |s|
    ensures s[..n][i..j] == s[i..j]
  {
  }

  function Repeat<T>(n: nat, x: T): (r: seq<T>)
    ensures |r| == n && forall i | 0 <= i < n :: r[i] == x
  {
    seq(n, _ => x)
  }
}
