/** Round trips, canonical forms and block structure of the codec. */
module Base64Laws {
  import opened Wrappers
  import opened Bytes
  import opened Base64Maps
  import opened Base64Groups
  import opened Base64

  /** An alphabet fit for the padded encoding: it contains the filler and excludes the padding character. */
  predicate Fit(m: Maps) {
    InAlphabet(m, FILLER) && !InAlphabet(m, PAD)
  }

  lemma LettersBelong(m: Maps, six: byte)
    requires Inverse(m) && six < 64
    ensures InAlphabet(m, m.Letter(six)) && m.Sixbit(m.Letter(six)) == six
  {
  }

  lemma TripletBack(m: Maps, a: byte, b: byte, c: byte)
    requires Inverse(m)
    ensures DecodeQuartet(m, EncodeTriplet(m, a, b, c)) == Success([a, b, c])
  {
    LettersBelong(m, Sextet0(a));
    LettersBelong(m, Sextet1(a, b));
    LettersBelong(m, Sextet2(b, c));
    LettersBelong(m, Sextet3(c));
    SextetsOfOctets(a, b, c);
  }

  lemma QuartetBack(m: Maps, q: seq<byte>)
    requires Inverse(m) && |q| == 4 && DecodeQuartet(m, q).Success?
    ensures var r := DecodeQuartet(m, q).value; EncodeTriplet(m, r[0], r[1], r[2]) == q
  {
    hide Sextet0, Sextet1, Sextet2, Sextet3, Octet0, Octet1, Octet2;
    assert InAlphabet(m, q[0]) && InAlphabet(m, q[1]) && InAlphabet(m, q[2]) && InAlphabet(m, q[3]);
    OctetsOfSextets(m.Sixbit(q[0]), m.Sixbit(q[1]), m.Sixbit(q[2]), m.Sixbit(q[3]));
  }

  // ---- Round trip ----

  /** The last character of the encoding that is not padding added by the encoder. */
  function LastLetter(m: Maps, b: seq<byte>): byte
    requires b != []
  {
    Encode(m, b)[LetterCount(|b|) - 1]
  }

  /** What the decoder needs to give b back. */
  predicate Survives(m: Maps, b: seq<byte>) {
    b != [] ==> LastLetter(m, b) != PAD && (|b| % 3 != 0 ==> InAlphabet(m, FILLER))
  }

  lemma UnpaddedIs(s: seq<byte>, n: nat)
    requires n <= |s| && (n > 0 ==> s[n - 1] != PAD)
    requires forall i | n <= i < |s| :: s[i] == PAD
    ensures Unpadded(s) == n
  {
  }

  lemma EncodeShort(m: Maps, b: seq<byte>)
    requires 1 <= |b| <= 3
    ensures Encode(m, b) == EncodeTail(m, b) && LastLetter(m, b) == EncodeTail(m, b)[|b|]
  {
  }

  lemma OneOctetBack(m: Maps, a: byte)
    requires Inverse(m)
    ensures DecodeLetters(m, EncodeTriplet(m, a, 0, 0)[..2]) == if InAlphabet(m, FILLER) then Success([a]) else Failure(EDOM)
  {
    hide Sextet0, Sextet1, Sextet2, Sextet3, Octet0, Octet1, Octet2;
    LettersBelong(m, Sextet0(a));
    LettersBelong(m, Sextet1(a, 0));
    SextetsOfOctets(a, 0, 0);
    var t := EncodeTriplet(m, a, 0, 0)[..2];
    assert DecodeQuartet(m, Filled(t)).Success? ==> DecodeQuartet(m, Filled(t)).value[..1] == [a];
  }

  lemma TwoOctetsBack(m: Maps, a: byte, b: byte)
    requires Inverse(m)
    ensures DecodeLetters(m, EncodeTriplet(m, a, b, 0)[..3]) == if InAlphabet(m, FILLER) then Success([a, b]) else Failure(EDOM)
  {
    hide Sextet0, Sextet1, Sextet2, Sextet3, Octet0, Octet1, Octet2;
    LettersBelong(m, Sextet0(a));
    LettersBelong(m, Sextet1(a, b));
    LettersBelong(m, Sextet2(b, 0));
    SextetsOfOctets(a, b, 0);
    var t := EncodeTriplet(m, a, b, 0)[..3];
    assert DecodeQuartet(m, Filled(t)).Success? ==> DecodeQuartet(m, Filled(t)).value[..2] == [a, b];
  }

  lemma LettersBack(m: Maps, b: seq<byte>)
    requires Inverse(m) && 1 <= |b| <= 3
    ensures DecodeLetters(m, EncodeTail(m, b)[..|b| + 1]) ==
            if |b| == 3 || InAlphabet(m, FILLER) then Success(b) else Failure(EDOM)
  {
    hide Sextet0, Sextet1, Sextet2, Sextet3, DecodeQuartet;
    var q := EncodeTriplet(m, OctetAt(b, 0), OctetAt(b, 1), OctetAt(b, 2));
    var t := EncodeTail(m, b)[..|b| + 1];
    assert t == q[..|b| + 1];
    if |b| == 1 {
      OneOctetBack(m, b[0]);
      assert b == [b[0]];
    } else if |b| == 2 {
      TwoOctetsBack(m, b[0], b[1]);
      assert b == [b[0], b[1]];
    } else {
      TripletBack(m, b[0], b[1], b[2]);
      assert Filled(t) == q && b[..3] == b;
      assert b == [b[0], b[1], b[2]];
    }
  }

  lemma TailRoundTrip(m: Maps, b: seq<byte>)
    requires Inverse(m) && 1 <= |b| <= 3
    ensures DecodeTail(m, EncodeTail(m, b)) == Success(b) <==> Survives(m, b)
  {
    hide Sextet0, Sextet1, Sextet2, Sextet3, Octet0, Octet1, Octet2;
    EncodeShort(m, b);
    var s := EncodeTail(m, b);
    if s[|b|] != PAD {
      UnpaddedIs(s, |b| + 1);
      LettersBack(m, b);
    } else {
      assert Unpadded(s) <= |b|;
    }
  }

  lemma ShortRoundTrip(m: Maps, b: seq<byte>)
    requires Inverse(m) && |b| <= 3
    ensures Decode(m, Encode(m, b)) == Success(b) <==> Survives(m, b)
  {
    if b != [] {
      hide EncodeTriplet, DecodeQuartet;
      EncodeShort(m, b);
      TailRoundTrip(m, b);
    }
  }

  lemma LastLetterOfRest(m: Maps, b: seq<byte>)
    requires |b| > 3
    ensures LastLetter(m, b) == LastLetter(m, b[3..]) && Survives(m, b) == Survives(m, b[3..])
  {
    hide EncodeTriplet, EncodeTail;
    assert LetterCount(|b|) == 4 + LetterCount(|b| - 3) && LetterCount(|b| - 3) > 0;
  }

  /** The codec gives a byte string back exactly when its last letter is not '=' and, for a short
      final group, the filler 'A' is in the alphabet. */
  lemma {:induction false} RoundTripExactly(m: Maps, b: seq<byte>)
    requires Inverse(m)
    ensures Decode(m, Encode(m, b)) == Success(b) <==> Survives(m, b)
  {
    hide EncodeTriplet, EncodeTail, DecodeQuartet, DecodeTail, Survives;
    if |b| <= 3 {
      ShortRoundTrip(m, b);
    } else {
      RoundTripExactly(m, b[3..]);
      TripletBack(m, b[0], b[1], b[2]);
      var s := Encode(m, b);
      assert s[..4] == EncodeTriplet(m, b[0], b[1], b[2]) && s[4..] == Encode(m, b[3..]);
      LastLetterOfRest(m, b);
      assert b == [b[0], b[1], b[2]] + b[3..];
      var rest := Decode(m, s[4..]);
      if Decode(m, s) == Success(b) {
        assert ([b[0], b[1], b[2]] + rest.value)[3..] == rest.value;
        assert rest == Success(b[3..]);
      }
    }
  }

  lemma FitSurvives(m: Maps, b: seq<byte>)
    requires Inverse(m) && Fit(m)
    ensures Survives(m, b)
  {
    if b != [] {
      EncodeByGroups(m, b);
      var k := LetterCount(|b|) - 1;
      LettersBelong(m, SixBits(InputGroup(b, k), k % 4));
    }
  }

  lemma RoundTrip(m: Maps, b: seq<byte>)
    requires Inverse(m) && Fit(m)
    ensures Decode(m, Encode(m, b)) == Success(b)
  {
    FitSurvives(m, b);
    RoundTripExactly(m, b);
  }

  lemma PadAlphabetLoses(m: Maps) returns (b: seq<byte>)
    requires Inverse(m) && InAlphabet(m, PAD)
    ensures !Survives(m, b)
  {
    var six := m.Sixbit(PAD);
    b := [0, 0, six];
    var q := EncodeTriplet(m, 0, 0, six);
    assert Encode(m, b)[3] == q[3] && LetterCount(3) == 4;
    assert six & 0x3f == six;
  }

  /** The round trip holds for all byte strings exactly for the alphabets that contain 'A' and exclude '='. */
  lemma RoundTripsIffFit(alphabet: seq<byte>)
    requires |alphabet| == 64 && Distinct(alphabet)
    ensures (forall b :: Decode(MapsOf(alphabet), Encode(MapsOf(alphabet), b)) == Success(b))
            <==> FILLER in alphabet && PAD !in alphabet
  {
    var m := MapsOf(alphabet);
    InverseIffDistinct(alphabet);
    MembersAreTheAlphabet(alphabet, FILLER);
    MembersAreTheAlphabet(alphabet, PAD);
    forall b ensures Decode(m, Encode(m, b)) == Success(b) <==> Survives(m, b) {
      RoundTripExactly(m, b);
    }
    if Fit(m) {
      forall b ensures Survives(m, b) { FitSurvives(m, b); }
    } else if InAlphabet(m, PAD) {
      var b := PadAlphabetLoses(m);
      assert Decode(m, Encode(m, b)) != Success(b);
    } else {
      assert !Survives(m, [0]);
      assert Decode(m, Encode(m, [0])) != Success([0]);
    }
  }

  // ---- Canonical strings, section 3.5 of RFC 4648 ----

  /** Whole quanta, at most two padding characters, and zeros in the bits the decoder discards. */
  predicate Canonical(m: Maps, s: seq<byte>) {
    s != [] ==>
      && |s| % 4 == 0
      && FinalLetters(s) >= 2
      && AllInAlphabet(m, s[..Letters(s)])
      && (FinalLetters(s) == 2 ==> m.Sixbit(s[Letters(s) - 1]) & 0xf == 0)
      && (FinalLetters(s) == 3 ==> m.Sixbit(s[Letters(s) - 1]) & 0x3 == 0)
  }

  /** The encoding of what s decodes to is s. */
  predicate Reencodes(m: Maps, s: seq<byte>) {
    Decode(m, s).Success? && Encode(m, Decode(m, s).value) == s
  }

  lemma CanonicalOfRest(m: Maps, s: seq<byte>)
    requires |s| > 4
    ensures Canonical(m, s) <==> AllInAlphabet(m, s[..4]) && Canonical(m, s[4..])
  {
    hide AllInAlphabet, FinalGroup, FinalLetters;
    LettersOfRest(s);
    AlphabetPrefix(m, s, Letters(s));
    assert |s| % 4 == 0 <==> |s[4..]| % 4 == 0;
    assert s[4..] != [];
    assert Letters(s) > 4 ==> s[Letters(s) - 1] == s[4..][Letters(s[4..]) - 1];
  }

  lemma ReencodesRest(m: Maps, s: seq<byte>)
    requires Inverse(m) && |s| > 4
    ensures Reencodes(m, s) <==> AllInAlphabet(m, s[..4]) && Reencodes(m, s[4..])
  {
    hide EncodeTriplet, EncodeTail, DecodeQuartet, DecodeTail;
    QuartetByGroup(m, s[..4]);
    assert s == s[..4] + s[4..];
    if Decode(m, s).Success? {
      QuartetBack(m, s[..4]);
      var head, rest := DecodeQuartet(m, s[..4]).value, Decode(m, s[4..]).value;
      assert (head + rest)[3..] == rest;
      assert Encode(m, head + rest) == s[..4] + Encode(m, rest);
      assert (s[..4] + Encode(m, rest))[4..] == Encode(m, rest);
    }
  }

  lemma LetterIs(m: Maps, six: byte, c: byte)
    requires Inverse(m) && six < 64 && InAlphabet(m, c)
    ensures m.Letter(six) == c <==> six == m.Sixbit(c)
  {
  }

  lemma TwoLettersReencode(m: Maps, x: byte, y: byte)
    requires Inverse(m) && Fit(m) && InAlphabet(m, x) && InAlphabet(m, y)
    ensures DecodeLetters(m, [x, y]).Success?
    ensures EncodeTail(m, DecodeLetters(m, [x, y]).value) == [x, y, PAD, PAD] <==> m.Sixbit(y) & 0xf == 0
  {
    hide Sextet0, Sextet1, Sextet2, Sextet3, Octet0, Octet1, Octet2;
    var s, t := m.Sixbit(x), m.Sixbit(y);
    OctetsOfSextets(s, t, 0, 0);
    DiscardedBits(s, t, 0);
    var v := DecodeLetters(m, [x, y]).value;
    assert v[0] == Octet0(s, t);
    assert EncodeTail(m, v) == [m.Letter(Sextet0(v[0])), m.Letter(Sextet1(v[0], 0)), PAD, PAD];
    LetterIs(m, Sextet0(v[0]), x);
    LetterIs(m, Sextet1(v[0], 0), y);
  }

  lemma ThreeLettersReencode(m: Maps, x: byte, y: byte, z: byte)
    requires Inverse(m) && Fit(m) && InAlphabet(m, x) && InAlphabet(m, y) && InAlphabet(m, z)
    ensures DecodeLetters(m, [x, y, z]).Success?
    ensures EncodeTail(m, DecodeLetters(m, [x, y, z]).value) == [x, y, z, PAD] <==> m.Sixbit(z) & 0x3 == 0
  {
    hide Sextet0, Sextet1, Sextet2, Sextet3, Octet0, Octet1, Octet2;
    var s, t, u := m.Sixbit(x), m.Sixbit(y), m.Sixbit(z);
    OctetsOfSextets(s, t, u, 0);
    DiscardedBits(s, t, u);
    var v := DecodeLetters(m, [x, y, z]).value;
    assert v[0] == Octet0(s, t) && v[1] == Octet1(t, u);
    assert EncodeTail(m, v) == [m.Letter(Sextet0(v[0])), m.Letter(Sextet1(v[0], v[1])), m.Letter(Sextet2(v[1], 0)), PAD];
    LetterIs(m, Sextet0(v[0]), x);
    LetterIs(m, Sextet1(v[0], v[1]), y);
    LetterIs(m, Sextet2(v[1], 0), z);
  }

  lemma FourLettersReencode(m: Maps, q: seq<byte>)
    requires Inverse(m) && |q| == 4 && AllInAlphabet(m, q)
    ensures DecodeLetters(m, q).Success? && EncodeTail(m, DecodeLetters(m, q).value) == q
  {
    hide Sextet0, Sextet1, Sextet2, Sextet3, Octet0, Octet1, Octet2;
    assert Filled(q) == q;
    QuartetByGroup(m, q);
    QuartetBack(m, q);
  }

  lemma FinalGroupReencoding(m: Maps, s: seq<byte>)
    requires Inverse(m) && Fit(m) && |s| == 4 && Unpadded(s) >= 2
    ensures var t := s[..Unpadded(s)];
            Reencodes(m, s) <==> DecodeLetters(m, t).Success? && EncodeTail(m, DecodeLetters(m, t).value) == s
  {
    hide EncodeTriplet, DecodeQuartet, EncodeTail, Filled, DecodeLetters;
    var t := s[..Unpadded(s)];
    if DecodeLetters(m, t).Success? {
      EncodeShort(m, DecodeLetters(m, t).value);
    }
  }

  lemma FinalGroupCanonical(m: Maps, s: seq<byte>)
    requires |s| == 4 && Unpadded(s) >= 2
    ensures var t := s[..Unpadded(s)];
            Canonical(m, s) <==>
            && AllInAlphabet(m, t)
            && (|t| == 2 ==> m.Sixbit(s[1]) & 0xf == 0)
            && (|t| == 3 ==> m.Sixbit(s[2]) & 0x3 == 0)
  {
    hide AllInAlphabet, Unpadded;
    assert s[0..] == s;
  }

  lemma FinalGroupReencodes(m: Maps, s: seq<byte>)
    requires Inverse(m) && Fit(m) && |s| == 4 && Unpadded(s) >= 2
    ensures Reencodes(m, s) <==> Canonical(m, s)
  {
    hide EncodeTail, DecodeLetters, Reencodes, Canonical;
    FinalGroupReencoding(m, s);
    FinalGroupCanonical(m, s);
    var n := Unpadded(s);
    var t := s[..n];
    ShortGroupByGroups(m, t);
    if AllInAlphabet(m, t) {
      assert InAlphabet(m, t[0]) && InAlphabet(m, t[1]);
      if n == 2 {
        assert t == [s[0], s[1]] && s == [s[0], s[1], PAD, PAD];
        TwoLettersReencode(m, s[0], s[1]);
      } else if n == 3 {
        assert t == [s[0], s[1], s[2]] && s == [s[0], s[1], s[2], PAD] && InAlphabet(m, t[2]);
        ThreeLettersReencode(m, s[0], s[1], s[2]);
      } else {
        assert t == s;
        FourLettersReencode(m, s);
      }
    }
  }

  lemma TailReencodes(m: Maps, s: seq<byte>)
    requires Inverse(m) && Fit(m) && |s| <= 4
    ensures Reencodes(m, s) <==> Canonical(m, s)
  {
    hide EncodeTriplet, DecodeQuartet, EncodeTail, Filled;
    assert s[0..] == s;
    if |s| == 4 && Unpadded(s) >= 2 {
      FinalGroupReencodes(m, s);
    } else if Decode(m, s).Success? {
      var r := Decode(m, s).value;
      assert |Encode(m, r)| == (|r| + 2) / 3 * 4;
      assert r != [] ==> |s| < 4;
    }
  }

  /** Encoding what was decoded gives the string back exactly when it is canonical. */
  lemma {:induction false} ReencodesIffCanonical(m: Maps, s: seq<byte>)
    requires Inverse(m) && Fit(m)
    ensures Reencodes(m, s) <==> Canonical(m, s)
  {
    if |s| <= 4 {
      TailReencodes(m, s);
    } else {
      ReencodesIffCanonical(m, s[4..]);
      ReencodesRest(m, s);
      CanonicalOfRest(m, s);
    }
  }

  /** Every accepted string has exactly one canonical string that decodes to the same octets. */
  lemma CanonicalForm(m: Maps, s: seq<byte>)
    requires Inverse(m) && Fit(m) && Decode(m, s).Success?
    ensures var c := Encode(m, Decode(m, s).value);
            && Decode(m, c) == Decode(m, s)
            && Canonical(m, c)
            && forall c' | Canonical(m, c') && Decode(m, c') == Decode(m, s) :: c' == c
  {
    var c := Encode(m, Decode(m, s).value);
    RoundTrip(m, Decode(m, s).value);
    ReencodesIffCanonical(m, c);
    forall c' | Canonical(m, c') && Decode(m, c') == Decode(m, s) ensures c' == c {
      ReencodesIffCanonical(m, c');
    }
  }

  // ---- Block structure ----

  lemma {:induction false} EncodeBlocks(m: Maps, a: seq<byte>, b: seq<byte>)
    requires |a| % 3 == 0
    ensures Encode(m, a + b) == Encode(m, a) + Encode(m, b)
  {
    hide EncodeTriplet, EncodeTail;
    if a == [] {
      assert a + b == b;
    } else {
      EncodeBlocks(m, a[3..], b);
      assert |a| >= 3 && (a + b)[3..] == a[3..] + b;
    }
  }

  lemma FullGroupInTail(m: Maps, q: seq<byte>)
    requires |q| == 4 && q[3] != PAD
    ensures DecodeTail(m, q) == DecodeQuartet(m, q)
  {
    hide Octet0, Octet1, Octet2;
    UnpaddedIs(q, 4);
    assert q[..4] == q && Filled(q) == q;
    assert DecodeQuartet(m, q).Success? ==> DecodeQuartet(m, q).value[..3] == DecodeQuartet(m, q).value;
  }

  /** A full group of letters decodes alike in the loop and in the tail, unless it is the whole source and ends in '='. */
  lemma DecodeFirstGroup(m: Maps, s: seq<byte>)
    requires |s| >= 4 && AllInAlphabet(m, s[..4])
    ensures DecodeQuartet(m, s[..4]).Success?
    ensures Decode(m, s) == Prepend(DecodeQuartet(m, s[..4]).value, Decode(m, s[4..])) <==> |s| > 4 || s[3] != PAD
  {
    hide DecodeQuartet;
    QuartetByGroup(m, s[..4]);
    if |s| == 4 {
      assert s[..4] == s && s[4..] == [];
      assert DecodeQuartet(m, s).value + [] == DecodeQuartet(m, s).value;
      if s[3] != PAD {
        FullGroupInTail(m, s);
      } else {
        assert Unpadded(s) < 4;
      }
    }
  }

  /** Full groups of letters before something else contribute their octets, whatever they end in. */
  lemma {:induction false} BlocksBefore(m: Maps, s: seq<byte>, t: seq<byte>)
    requires |s| % 4 == 0 && AllInAlphabet(m, s) && t != []
    ensures Decode(m, s + t) == Prepend(Octets(m, s), Decode(m, t))
  {
    hide DecodeQuartet, DecodeTail, OctetOf;
    if s == [] {
      assert s + t == t && Octets(m, s) == [];
      PrependTwice([], [], Decode(m, t));
    } else {
      AlphabetPrefix(m, s, |s|);
      assert s[..|s|] == s && s[4..][..|s| - 4] == s[4..];
      BlocksBefore(m, s[4..], t);
      assert (s + t)[..4] == s[..4] && (s + t)[4..] == s[4..] + t;
      OctetsOfRest(m, s);
      PrependTwice(DecodeQuartet(m, s[..4]).value, Octets(m, s[4..]), Decode(m, t));
    }
  }

  lemma FullGroupsLetters(s: seq<byte>)
    requires |s| % 4 == 0
    ensures if s == [] || s[|s| - 1] != PAD then Letters(s) == |s| && FinalLetters(s) in {0, 4} else Letters(s) < |s|
  {
    if s != [] {
      var t := s[FinalGroup(|s|)..];
      assert |t| == 4 && t[3] == s[|s| - 1];
      if t[3] != PAD {
        UnpaddedIs(t, 4);
      } else {
        assert Unpadded(t) < 4;
      }
    }
  }

  /** On their own they do exactly when they do not end in '='. */
  lemma BlocksAlone(m: Maps, s: seq<byte>)
    requires |s| % 4 == 0 && AllInAlphabet(m, s)
    ensures Decode(m, s) == Success(Octets(m, s)) <==> s == [] || s[|s| - 1] != PAD
  {
    hide OctetOf, Octets, FinalLetters, FinalGroup, Letters, AllInAlphabet, Decode;
    DecodeByGroups(m, s);
    FullGroupsLetters(s);
    if Letters(s) == |s| {
      assert s[..Letters(s)] == s;
    } else {
      assert Letters(s) * 6 / 8 < |s| * 6 / 8;
    }
  }

  /** Full groups of letters that do not end in '=' decode independently of what follows, failure included; before an
      accepted t that is the only case in which they do. */
  lemma DecodeBlocks(m: Maps, s: seq<byte>, t: seq<byte>)
    requires |s| % 4 == 0 && AllInAlphabet(m, s)
    ensures s == [] || s[|s| - 1] != PAD ==>
              Decode(m, s).Success? && Decode(m, s + t) == Prepend(Decode(m, s).value, Decode(m, t))
    ensures t != [] && Decode(m, t).Success? ==>
              (Decode(m, s).Success? && Decode(m, s + t) == Prepend(Decode(m, s).value, Decode(m, t))
               <==> s == [] || s[|s| - 1] != PAD)
  {
    hide Decode, Octets, AllInAlphabet;
    BlocksAlone(m, s);
    if t == [] {
      EmptyDecodes(m);
      assert s + t == s && forall v: seq<byte> :: v + [] == v;
    } else {
      BlocksBefore(m, s, t);
      if Decode(m, t).Success? && Decode(m, s).Success? {
        var a, b, c := Octets(m, s), Decode(m, s).value, Decode(m, t).value;
        assert a + c == b + c ==> a == b by {
          assert (a + c)[..|a + c| - |c|] == a && (b + c)[..|b + c| - |c|] == b;
        }
      }
    }
  }

  lemma EmptyDecodes(m: Maps)
    ensures Decode(m, []) == Success([])
  {
  }
}
