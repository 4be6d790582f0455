/** One 24-bit group: three octets as four sextets, by the masks and shifts of the source. */
module Base64Groups {
  import opened Bytes

  function Sextet0(a: byte): (six: byte)
    ensures six < 64
  {
    (a & 0xfc) >> 2
  }

  function Sextet1(a: byte, b: byte): (six: byte)
    ensures six < 64
  {
    ((a & 0x3) << 4) | ((b & 0xf0) >> 4)
  }

  function Sextet2(b: byte, c: byte): (six: byte)
    ensures six < 64
  {
    ((c & 0xc0) >> 6) | ((b & 0xf) << 2)
  }

  function Sextet3(c: byte): (six: byte)
    ensures six < 64
  {
    c & 0x3f
  }

  function Octet0(s: byte, t: byte): byte {
    (s << 2) | (t >> 4)
  }

  function Octet1(t: byte, u: byte): byte {
    ((t & 0xf) << 4) | (u >> 2)
  }

  function Octet2(u: byte, v: byte): byte {
    ((u & 0x3) << 6) | v
  }

  /** RFC 4648, section 4: three octets concatenated into a 24-bit group. */
  function JoinOctets(a: byte, b: byte, c: byte): bv24 {
    (a as bv24 << 16) | (b as bv24 << 8) | c as bv24
  }

  /** The k-th of the four 6-bit groups of a 24-bit group. */
  function SixBits(group: bv24, k: nat): (six: byte)
    requires k < 4
    ensures six < 64
  {
    ((if k == 0 then group >> 18 else if k == 1 then group >> 12 else if k == 2 then group >> 6 else group) & 0x3f) as byte
  }

  /** Four sextets concatenated into a 24-bit group. */
  function JoinSextets(s: byte, t: byte, u: byte, v: byte): bv24 {
    (s as bv24 << 18) | (t as bv24 << 12) | (u as bv24 << 6) | v as bv24
  }

  /** The k-th of the three octets of a 24-bit group. */
  function EightBits(group: bv24, k: nat): byte
    requires k < 3
  {
    ((if k == 0 then group >> 16 else if k == 1 then group >> 8 else group) & 0xff) as byte
  }

  lemma SextetsSplitTheGroup(a: byte, b: byte, c: byte)
    ensures var group := JoinOctets(a, b, c);
            && Sextet0(a) == SixBits(group, 0) && Sextet1(a, b) == SixBits(group, 1)
            && Sextet2(b, c) == SixBits(group, 2) && Sextet3(c) == SixBits(group, 3)
  {
  }

  lemma OctetsSplitTheGroup(s: byte, t: byte, u: byte, v: byte)
    requires s < 64 && t < 64 && u < 64 && v < 64
    ensures var group := JoinSextets(s, t, u, v);
            && Octet0(s, t) == EightBits(group, 0) && Octet1(t, u) == EightBits(group, 1)
            && Octet2(u, v) == EightBits(group, 2)
  {
  }

  lemma SextetsOfOctets(a: byte, b: byte, c: byte)
    ensures Octet0(Sextet0(a), Sextet1(a, b)) == a
    ensures Octet1(Sextet1(a, b), Sextet2(b, c)) == b
    ensures Octet2(Sextet2(b, c), Sextet3(c)) == c
  {
  }

  lemma OctetsOfSextets(s: byte, t: byte, u: byte, v: byte)
    requires s < 64 && t < 64 && u < 64 && v < 64
    ensures Sextet0(Octet0(s, t)) == s
    ensures Sextet1(Octet0(s, t), Octet1(t, u)) == t
    ensures Sextet2(Octet1(t, u), Octet2(u, v)) == u
    ensures Sextet3(Octet2(u, v)) == v
  {
  }

  /** A short group keeps its last sextet exactly when the sextet's discarded bits are zero. */
  lemma DiscardedBits(s: byte, t: byte, u: byte)
    requires s < 64 && t < 64 && u < 64
    ensures Sextet1(Octet0(s, t), 0) == t <==> t & 0xf == 0
    ensures Sextet2(Octet1(t, u), 0) == u <==> u & 0x3 == 0
  {
  }
}
