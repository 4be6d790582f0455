/** The tables of the base64 codec: how they are built and when they are inverse. */
module Base64Maps {
  import opened Bytes

  /** Entry of the decode table for a character outside the alphabet. */
  const OUTSIDE: byte := 0xff
  /** '=', the padding character. */
  const PAD: byte := 61
  /** 'A', which the decoder appends to a short final group. */
  const FILLER: byte := 65

  /** base64_maps_t. */
  datatype RawMaps = RawMaps(encodeMap: seq<byte>, decodeMap: seq<byte>)
  {
    predicate Shaped() {
      |encodeMap| == 64 && |decodeMap| == 256
    }

    /** The character of a six-bit value. */
    function Letter(six: byte): byte
      requires Shaped() && six < 64
    {
      encodeMap[six as int]
    }

    /** The six-bit value of a character, or OUTSIDE. */
    function Sixbit(c: byte): byte
      requires Shaped()
    {
      decodeMap[c as int]
    }

    /** Every decode entry is a six-bit value or OUTSIDE. */
    ghost predicate Sound() {
      Shaped() && forall c :: Sixbit(c) < 64 || Sixbit(c) == OUTSIDE
    }
  }

  /** The tables base64_init_maps builds, and the pregenerated ones. */
  type Maps = m: RawMaps | m.Sound()
    witness RawMaps(seq(64, _ => PAD), seq(256, _ => OUTSIDE))

  predicate InAlphabet(m: Maps, c: byte) {
    m.Sixbit(c) != OUTSIDE
  }

  predicate AllInAlphabet(m: Maps, s: seq<byte>) {
    forall i | 0 <= i < |s| :: InAlphabet(m, s[i])
  }

  ghost predicate Distinct(alphabet: seq<byte>) {
    forall i, j | 0 <= i < j < |alphabet| :: alphabet[i] != alphabet[j]
  }

  /** The two tables are inverse to each other and every other character is rejected. */
  ghost predicate Inverse(m: Maps) {
    && (forall six | six < 64 :: m.Sixbit(m.Letter(six)) == six)
    && (forall c | InAlphabet(m, c) :: m.Letter(m.Sixbit(c)) == c)
  }

  /** The decode entry at index x after the first n characters of s were entered in order. */
  function Entry(s: seq<byte>, n: nat, x: nat): byte
    requires n <= |s| <= 64
  {
    if n == 0 then OUTSIDE
    else if s[n - 1] as int == x then Counted(n - 1)
    else Entry(s, n - 1, x)
  }

  /** Of equal characters the last position wins; a character that does not occur is OUTSIDE. */
  lemma {:induction false} EntryIsLastPosition(s: seq<byte>, n: nat, c: byte)
    requires n <= |s| <= 64
    ensures Entry(s, n, c as int) == OUTSIDE <==> c !in s[..n]
    ensures c in s[..n] ==>
              var i := Entry(s, n, c as int) as int;
              i < n && s[i] == c && forall k | i < k < n :: s[k] != c
  {
    if n > 0 {
      EntryIsLastPosition(s, n - 1, c);
      assert s[..n] == s[..n - 1] + [s[n - 1]];
      if s[n - 1] as int == c as int {
        IndexInjective(s[n - 1], c);
        SixBitIndex(Counted(n - 1));
      }
    }
  }

  /** The tables of an alphabet. */
  function MapsOf(alphabet: seq<byte>): (m: Maps)
    requires |alphabet| == 64
    ensures m.encodeMap == alphabet
  {
    var m := RawMaps(alphabet, seq(256, x requires 0 <= x => Entry(alphabet, 64, x)));
    assert m.Sound() by {
      assert alphabet[..64] == alphabet;
      forall c: byte ensures m.Sixbit(c) < 64 || m.Sixbit(c) == OUTSIDE {
        EntryIsLastPosition(alphabet, 64, c);
        SixBitIndex(m.Sixbit(c));
      }
    }
    m
  }

  lemma MembersAreTheAlphabet(alphabet: seq<byte>, c: byte)
    requires |alphabet| == 64
    ensures InAlphabet(MapsOf(alphabet), c) <==> c in alphabet
  {
    assert alphabet[..64] == alphabet;
    EntryIsLastPosition(alphabet, 64, c);
  }

  /** The tables of 64 characters are mutually inverse exactly when no character repeats. */
  lemma InverseIffDistinct(alphabet: seq<byte>)
    requires |alphabet| == 64
    ensures Inverse(MapsOf(alphabet)) <==> Distinct(alphabet)
  {
    var m := MapsOf(alphabet);
    assert alphabet[..64] == alphabet;
    if Distinct(alphabet) {
      forall six: byte | six < 64 ensures m.Sixbit(m.Letter(six)) == six {
        EntryIsLastPosition(alphabet, 64, m.Letter(six));
        IndexInjective(m.Sixbit(m.Letter(six)), six);
      }
      forall c | InAlphabet(m, c) ensures m.Letter(m.Sixbit(c)) == c {
        EntryIsLastPosition(alphabet, 64, c);
      }
    }
    if Inverse(m) {
      forall i, j | 0 <= i < j < 64 ensures alphabet[i] != alphabet[j] {
        SixBitIndex(Counted(i));
        SixBitIndex(Counted(j));
        assert m.Sixbit(m.Letter(Counted(i))) == Counted(i) && m.Sixbit(m.Letter(Counted(j))) == Counted(j);
      }
    }
  }

  /** base64_init_maps: fills both tables in place. */
  method InitMaps(encodeMap: array<byte>, decodeMap: array<byte>, src: array<byte>)
    requires encodeMap.Length == 64 && decodeMap.Length == 256 && src.Length == 64
    requires encodeMap != decodeMap && src != encodeMap && src != decodeMap
    modifies encodeMap, decodeMap
    ensures RawMaps(encodeMap[..], decodeMap[..]) == MapsOf(src[..])
  {
    forall k | 0 <= k < 64 {
      encodeMap[k] := src[k];
    }
    forall k | 0 <= k < 256 {
      decodeMap[k] := OUTSIDE;
    }
    ghost var letters := src[..];
    ghost var n := 0;
    var i: byte := 0;
    while i < 64
      invariant n <= 64 && i == Counted(n)
      invariant encodeMap[..] == src[..] == letters
      invariant forall x | 0 <= x < 256 :: decodeMap[x] == Entry(letters, n, x)
      decreases 64 - n
    {
      SixBitIndex(i);
      decodeMap[src[i as int] as int] := i;
      i, n := i + 1, n + 1;
    }
    SixBitIndex(i);
  }
}
