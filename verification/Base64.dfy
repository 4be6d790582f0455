/** The codec on sequences, following the control flow of the source, and what it computes. */
module Base64 {
  import opened Wrappers
  import opened Bytes
  import opened Base64Maps
  import opened Base64Groups

  datatype Errno = EDOM | EINVAL | EOVERFLOW

  function EncodeTriplet(m: Maps, a: byte, b: byte, c: byte): (q: seq<byte>)
    ensures |q| == 4
  {
    [m.Letter(Sextet0(a)), m.Letter(Sextet1(a, b)), m.Letter(Sextet2(b, c)), m.Letter(Sextet3(c))]
  }

  /** The octet at i, or 0 past the end. */
  function OctetAt(b: seq<byte>, i: nat): byte {
    if i < |b| then b[i] else 0
  }

  function EncodeTail(m: Maps, b: seq<byte>): (q: seq<byte>)
    requires |b| <= 3
    ensures |q| == 4
  {
    EncodeTriplet(m, OctetAt(b, 0), OctetAt(b, 1), OctetAt(b, 2))[..1 + |b|] + Repeat(3 - |b|, PAD)
  }

  function Encode(m: Maps, b: seq<byte>): (s: seq<byte>)
    ensures |s| == (|b| + 2) / 3 * 4
  {
    if |b| >= 3 then EncodeTriplet(m, b[0], b[1], b[2]) + Encode(m, b[3..])
    else if b != [] then EncodeTail(m, b)
    else []
  }

  function DecodeQuartet(m: Maps, q: seq<byte>): (r: Result<seq<byte>, Errno>)
    requires |q| == 4
    ensures r.Success? ==> |r.value| == 3
    ensures r.Failure? ==> r.error == EDOM
  {
    var (s, t, u, v) := (m.Sixbit(q[0]), m.Sixbit(q[1]), m.Sixbit(q[2]), m.Sixbit(q[3]));
    if s == OUTSIDE || t == OUTSIDE || u == OUTSIDE || v == OUTSIDE then Failure(EDOM)
    else Success([Octet0(s, t), Octet1(t, u), Octet2(u, v)])
  }

  /** The length of s without its trailing padding characters. */
  function Unpadded(s: seq<byte>): (n: nat)
    ensures n <= |s|
    ensures forall i | n <= i < |s| :: s[i] == PAD
    ensures n > 0 ==> s[n - 1] != PAD
  {
    if s != [] && s[|s| - 1] == PAD then Unpadded(s[..|s| - 1]) else |s|
  }

  /** The letter at i, or the filler past the end. */
  function LetterAt(s: seq<byte>, i: nat): byte {
    if i < |s| then s[i] else FILLER
  }

  /** The four characters of a final group whose letters are s. */
  function Filled(s: seq<byte>): (q: seq<byte>)
    requires |s| <= 4
    ensures |q| == 4
  {
    [LetterAt(s, 0), LetterAt(s, 1), LetterAt(s, 2), LetterAt(s, 3)]
  }

  function DecodeLetters(m: Maps, t: seq<byte>): (r: Result<seq<byte>, Errno>)
    requires 2 <= |t| <= 4
    ensures r.Success? ==> |r.value| == |t| - 1
    ensures r.Failure? ==> r.error == EDOM
  {
    var r := DecodeQuartet(m, Filled(t));
    if r.Failure? then r else Success(r.value[..|t| - 1])
  }

  function DecodeTail(m: Maps, s: seq<byte>): (r: Result<seq<byte>, Errno>)
    requires |s| <= 4
    ensures r.Success? ==> |r.value| <= 3
    ensures r.Failure? ==> r.error != EOVERFLOW
  {
    var n := Unpadded(s);
    if n == 0 then Success([])
    else if n == 1 then Failure(EINVAL)
    else
      DecodeLetters(m, s[..n])
  }

  function Prepend(b: seq<byte>, r: Result<seq<byte>, Errno>): Result<seq<byte>, Errno> {
    if r.Failure? then r else Success(b + r.value)
  }

  lemma PrependTwice(a: seq<byte>, b: seq<byte>, r: Result<seq<byte>, Errno>)
    ensures Prepend(a, Prepend(b, r)) == Prepend(a + b, r) && Prepend([], r) == r
  {
    if r.Success? {
      assert a + (b + r.value) == a + b + r.value && [] + r.value == r.value;
    }
  }

  function Decode(m: Maps, s: seq<byte>): (r: Result<seq<byte>, Errno>)
    ensures r.Failure? ==> r.error != EOVERFLOW
    ensures r.Success? ==> |r.value| <= (|s| + 3) / 4 * 3
  {
    if |s| > 4 then
      var head := DecodeQuartet(m, s[..4]);
      if head.Failure? then head else Prepend(head.value, Decode(m, s[4..]))
    else DecodeTail(m, s)
  }

  // ---- Section 4 of RFC 4648: what the encoder computes ----

  /** The number of characters that carry bits of n octets. */
  function LetterCount(n: nat): nat {
    (4 * n + 2) / 3
  }

  /** The 24-bit input group that character k belongs to, extended with zero bits on the right. */
  function InputGroup(b: seq<byte>, k: nat): bv24 {
    var i := k / 4 * 3;
    JoinOctets(OctetAt(b, i), OctetAt(b, i + 1), OctetAt(b, i + 2))
  }

  /** Each character is the letter of its 6 bits of the input; '=' completes the last quantum. */
  function EncodingByGroups(m: Maps, b: seq<byte>): (s: seq<byte>) {
    seq((|b| + 2) / 3 * 4, k requires k >= 0 =>
      if k < LetterCount(|b|) then m.Letter(SixBits(InputGroup(b, k), k % 4)) else PAD)
  }

  lemma FirstGroup(m: Maps, b: seq<byte>, k: nat)
    requires k < 4 && b != []
    ensures EncodeTriplet(m, OctetAt(b, 0), OctetAt(b, 1), OctetAt(b, 2))[k] == m.Letter(SixBits(InputGroup(b, k), k % 4))
  {
    SextetsSplitTheGroup(OctetAt(b, 0), OctetAt(b, 1), OctetAt(b, 2));
  }

  lemma LaterGroup(b: seq<byte>, k: nat)
    requires |b| >= 3 && k >= 4
    ensures InputGroup(b, k) == InputGroup(b[3..], k - 4) && (k - 4) % 4 == k % 4
    ensures k < LetterCount(|b|) <==> k - 4 < LetterCount(|b| - 3)
  {
    assert (k - 4) / 4 == k / 4 - 1;
  }

  /** The encoder computes the encoding of section 4 of RFC 4648. */
  lemma {:induction false} EncodeByGroups(m: Maps, b: seq<byte>)
    ensures Encode(m, b) == EncodingByGroups(m, b)
  {
    hide Sextet0, Sextet1, Sextet2, Sextet3, SixBits, JoinOctets, InputGroup, EncodeTriplet;
    if |b| >= 3 {
      EncodeByGroups(m, b[3..]);
    }
    forall k | 0 <= k < (|b| + 2) / 3 * 4 ensures Encode(m, b)[k] == EncodingByGroups(m, b)[k] {
      if k < 4 {
        FirstGroup(m, b, k);
      } else {
        LaterGroup(b, k);
      }
    }
  }

  // ---- What the decoder accepts and computes ----

  /** The start of the final group of one to four characters. */
  function FinalGroup(n: nat): (g: nat)
    ensures g <= n <= g + 4 && g % 4 == 0
    ensures n <= 4 ==> g == 0
  {
    if n == 0 then 0 else (n - 1) / 4 * 4
  }

  /** The number of characters left in the final group when its padding is thrown away. */
  function FinalLetters(s: seq<byte>): (n: nat)
    ensures n <= |s| - FinalGroup(|s|)
  {
    Unpadded(s[FinalGroup(|s|)..])
  }

  function Letters(s: seq<byte>): (n: nat)
    ensures FinalGroup(|s|) <= n <= |s|
  {
    FinalGroup(|s|) + FinalLetters(s)
  }

  /** The final group is not a single letter, which would carry only six bits. */
  predicate WholeOctets(s: seq<byte>) {
    FinalLetters(s) != 1
  }

  predicate Accepts(m: Maps, s: seq<byte>) {
    && AllInAlphabet(m, s[..Letters(s)])
    && WholeOctets(s)
    && (FinalLetters(s) in {2, 3} ==> InAlphabet(m, FILLER))
  }

  /** The sextet of letter i, or 0 past the end. */
  function SextetAt(m: Maps, t: seq<byte>, i: nat): byte {
    if i < |t| then m.Sixbit(t[i]) else 0
  }

  /** The 24-bit group that octet i is taken from. */
  function OutputGroup(m: Maps, t: seq<byte>, i: nat): bv24 {
    var k := i / 3 * 4;
    JoinSextets(SextetAt(m, t, k), SextetAt(m, t, k + 1), SextetAt(m, t, k + 2), SextetAt(m, t, k + 3))
  }

  function OctetOf(m: Maps, t: seq<byte>, i: nat): byte {
    EightBits(OutputGroup(m, t, i), i % 3)
  }

  /** The whole octets among the 6 * |t| bits of the letters t. */
  function Octets(m: Maps, t: seq<byte>): (r: seq<byte>)
    ensures |r| == |t| * 6 / 8
    ensures forall i | 0 <= i < |r| :: r[i] == OctetOf(m, t, i)
  {
    seq(|t| * 6 / 8, i requires i >= 0 => OctetOf(m, t, i))
  }

  function DecodingByGroups(m: Maps, s: seq<byte>): (r: Result<seq<byte>, Errno>) {
    if Accepts(m, s) then Success(Octets(m, s[..Letters(s)]))
    else if !WholeOctets(s) && AllInAlphabet(m, s[..FinalGroup(|s|)]) then Failure(EINVAL)
    else Failure(EDOM)
  }

  lemma LettersOfRest(s: seq<byte>)
    requires |s| > 4
    ensures FinalGroup(|s|) == 4 + FinalGroup(|s| - 4)
    ensures FinalLetters(s) == FinalLetters(s[4..]) && Letters(s) == 4 + Letters(s[4..])
  {
    assert s[4..][FinalGroup(|s| - 4)..] == s[FinalGroup(|s|)..];
  }

  lemma AllInAlphabetSplit(m: Maps, s: seq<byte>, t: seq<byte>)
    ensures AllInAlphabet(m, s + t) <==> AllInAlphabet(m, s) && AllInAlphabet(m, t)
  {
    assert forall i | 0 <= i < |s| :: s[i] == (s + t)[i];
    assert forall i | 0 <= i < |t| :: t[i] == (s + t)[|s| + i];
  }

  lemma AlphabetPrefix(m: Maps, s: seq<byte>, n: nat)
    requires 4 <= n <= |s|
    ensures AllInAlphabet(m, s[..n]) <==> AllInAlphabet(m, s[..4]) && AllInAlphabet(m, s[4..][..n - 4])
  {
    assert s[..n] == s[..4] + s[4..][..n - 4];
    AllInAlphabetSplit(m, s[..4], s[4..][..n - 4]);
  }

  lemma AcceptsRest(m: Maps, s: seq<byte>)
    requires |s| > 4
    ensures WholeOctets(s) <==> WholeOctets(s[4..])
    ensures Accepts(m, s) <==> AllInAlphabet(m, s[..4]) && Accepts(m, s[4..])
  {
    hide AllInAlphabet, FinalGroup, FinalLetters;
    LettersOfRest(s);
    AlphabetPrefix(m, s, Letters(s));
  }

  lemma OctetOfRest(m: Maps, t: seq<byte>, i: nat)
    requires |t| >= 4 && i >= 3
    ensures OctetOf(m, t, i) == OctetOf(m, t[4..], i - 3)
  {
    var k := i / 3 * 4;
    assert (i - 3) / 3 * 4 == k - 4 && (i - 3) % 3 == i % 3;
    forall j | k <= j < k + 4 ensures SextetAt(m, t, j) == SextetAt(m, t[4..], j - 4) {
    }
  }

  lemma FirstOctet(m: Maps, t: seq<byte>, i: nat)
    requires i < 3
    ensures OctetOf(m, t, i) ==
            EightBits(JoinSextets(SextetAt(m, t, 0), SextetAt(m, t, 1), SextetAt(m, t, 2), SextetAt(m, t, 3)), i)
  {
  }

  lemma QuartetByGroup(m: Maps, q: seq<byte>)
    requires |q| == 4
    ensures DecodeQuartet(m, q).Success? <==> AllInAlphabet(m, q)
    ensures AllInAlphabet(m, q) ==>
              var group := JoinSextets(m.Sixbit(q[0]), m.Sixbit(q[1]), m.Sixbit(q[2]), m.Sixbit(q[3]));
              DecodeQuartet(m, q).value == [EightBits(group, 0), EightBits(group, 1), EightBits(group, 2)]
  {
    if AllInAlphabet(m, q) {
      assert InAlphabet(m, q[0]) && InAlphabet(m, q[1]) && InAlphabet(m, q[2]) && InAlphabet(m, q[3]);
      OctetsSplitTheGroup(m.Sixbit(q[0]), m.Sixbit(q[1]), m.Sixbit(q[2]), m.Sixbit(q[3]));
    }
  }

  /** Only the letters of a short group reach the octets that are kept, whatever fills it up. */
  lemma FillDoesNotMatter(s: byte, t: byte, u: byte, v: byte, u': byte, v': byte)
    requires s < 64 && t < 64 && u < 64 && v < 64 && u' < 64 && v' < 64
    ensures EightBits(JoinSextets(s, t, u, v), 0) == EightBits(JoinSextets(s, t, u', v'), 0)
    ensures EightBits(JoinSextets(s, t, u, v), 1) == EightBits(JoinSextets(s, t, u, v'), 1)
  {
  }

  lemma FilledInAlphabet(m: Maps, t: seq<byte>)
    requires |t| <= 4
    ensures AllInAlphabet(m, Filled(t)) <==> AllInAlphabet(m, t) && (|t| < 4 ==> InAlphabet(m, FILLER))
  {
    forall i | 0 <= i < |t| ensures Filled(t)[i] == t[i] {
    }
    assert |t| < 4 ==> Filled(t)[3] == FILLER;
  }

  lemma KeptOctet(m: Maps, t: seq<byte>, i: nat)
    requires 2 <= |t| <= 4 && i + 1 < |t| && AllInAlphabet(m, Filled(t))
    ensures DecodeLetters(m, t).Success? && DecodeLetters(m, t).value[i] == OctetOf(m, t, i)
  {
    hide Octet0, Octet1, Octet2, EightBits, JoinSextets, OctetOf;
    var q := Filled(t);
    QuartetByGroup(m, q);
    assert InAlphabet(m, q[0]) && InAlphabet(m, q[1]) && InAlphabet(m, q[2]) && InAlphabet(m, q[3]);
    FirstOctet(m, t, i);
    FillDoesNotMatter(m.Sixbit(q[0]), m.Sixbit(q[1]), m.Sixbit(q[2]), m.Sixbit(q[3]), SextetAt(m, t, 2), SextetAt(m, t, 3));
  }

  lemma ShortGroupByGroups(m: Maps, t: seq<byte>)
    requires 2 <= |t| <= 4
    ensures DecodeLetters(m, t) ==
            if AllInAlphabet(m, t) && (|t| < 4 ==> InAlphabet(m, FILLER)) then Success(Octets(m, t)) else Failure(EDOM)
  {
    FilledInAlphabet(m, t);
    QuartetByGroup(m, Filled(t));
    assert |t| * 6 / 8 == |t| - 1 by {
      assert |t| == 2 || |t| == 3 || |t| == 4;
    }
    if AllInAlphabet(m, Filled(t)) {
      forall i | 0 <= i < |t| - 1 ensures DecodeLetters(m, t).value[i] == OctetOf(m, t, i) {
        KeptOctet(m, t, i);
      }
      assert DecodeLetters(m, t).value == Octets(m, t);
    }
  }

  lemma TailByGroups(m: Maps, s: seq<byte>)
    requires |s| <= 4
    ensures DecodeTail(m, s) == DecodingByGroups(m, s)
  {
    assert s[0..] == s;
    var n := Unpadded(s);
    if n >= 2 {
      ShortGroupByGroups(m, s[..n]);
    }
  }

  lemma OctetsOfRest(m: Maps, t: seq<byte>)
    requires |t| >= 4 && AllInAlphabet(m, t[..4])
    ensures DecodeQuartet(m, t[..4]).Success?
    ensures Octets(m, t) == DecodeQuartet(m, t[..4]).value + Octets(m, t[4..])
  {
    QuartetByGroup(m, t[..4]);
    var r := Octets(m, t);
    FirstOctet(m, t, 0);
    FirstOctet(m, t, 1);
    FirstOctet(m, t, 2);
    assert r[..3] == DecodeQuartet(m, t[..4]).value;
    forall i | 3 <= i < |r| ensures r[i] == Octets(m, t[4..])[i - 3] {
      OctetOfRest(m, t, i);
    }
    assert r == r[..3] + Octets(m, t[4..]);
  }

  /** The decoder accepts exactly Accepts and computes the octets its letters stand for. */
  lemma {:induction false} DecodeByGroups(m: Maps, s: seq<byte>)
    ensures Decode(m, s) == DecodingByGroups(m, s)
  {
    if |s| <= 4 {
      TailByGroups(m, s);
    } else {
      DecodeByGroups(m, s[4..]);
      AcceptsRest(m, s);
      LettersOfRest(s);
      QuartetByGroup(m, s[..4]);
      AlphabetPrefix(m, s, FinalGroup(|s|));
      if Accepts(m, s) {
        var t := s[..Letters(s)];
        assert t[..4] == s[..4] && t[4..] == s[4..][..Letters(s[4..])];
        OctetsOfRest(m, t);
      }
    }
  }
}
