/** The test vectors of section 10 of RFC 4648. */
module Base64Vectors {
  import opened Wrappers
  import opened Bytes
  import opened Base64Maps
  import opened Base64Groups
  import opened Base64
  import opened Base64Laws
  import opened Messages
  import Base64Rfc4648

  /** s is the text in ASCII. */
  predicate Reads(s: seq<byte>, text: string) {
    |s| == |text| && forall i | 0 <= i < |s| :: s[i] as int == text[i] as int
  }

  lemma LetterReads(six: byte, i: nat, c: char)
    requires i < 64 && six == Counted(i) && Base64Rfc4648.Code(i) == c as int
    ensures six < 64 && Rfc4648().Letter(six) as int == c as int
  {
    SixBitIndex(six);
  }

  lemma FoIs()
    ensures Sextet0(102) == Counted(25) && Sextet1(102, 111) == Counted(38) && Sextet2(111, 111) == Counted(61)
    ensures Sextet3(111) == Counted(47) && Sextet1(102, 0) == Counted(32) && Sextet2(111, 0) == Counted(60)
  {
    ByteIs(25); ByteIs(38); ByteIs(61); ByteIs(47); ByteIs(32); ByteIs(60);
  }

  lemma BarIs()
    ensures Sextet0(98) == Counted(24) && Sextet1(98, 97) == Counted(38) && Sextet2(97, 114) == Counted(5)
    ensures Sextet3(114) == Counted(50) && Sextet1(98, 0) == Counted(32) && Sextet2(97, 0) == Counted(4)
  {
    ByteIs(24); ByteIs(38); ByteIs(5); ByteIs(50); ByteIs(32); ByteIs(4);
  }

  lemma ByteIs(i: nat)
    requires i < 256
    ensures Counted(i) == i as byte
  {
    IndexThenByte(Counted(i));
  }

  lemma FooReads()
    ensures Reads(EncodeTriplet(Rfc4648(), 102, 111, 111), "Zm9v")
    ensures Reads(EncodeTriplet(Rfc4648(), 102, 111, 0)[..3], "Zm8") && Reads(EncodeTriplet(Rfc4648(), 102, 0, 0)[..2], "Zg")
  {
    hide Sextet0, Sextet1, Sextet2, Sextet3, Rfc4648;
    FoIs();
    LetterReads(Sextet0(102), 25, 'Z');
    LetterReads(Sextet1(102, 111), 38, 'm');
    LetterReads(Sextet2(111, 111), 61, '9');
    LetterReads(Sextet3(111), 47, 'v');
    LetterReads(Sextet1(102, 0), 32, 'g');
    LetterReads(Sextet2(111, 0), 60, '8');
  }

  lemma BarReads()
    ensures Reads(EncodeTriplet(Rfc4648(), 98, 97, 114), "YmFy")
    ensures Reads(EncodeTriplet(Rfc4648(), 98, 97, 0)[..3], "YmE") && Reads(EncodeTriplet(Rfc4648(), 98, 0, 0)[..2], "Yg")
  {
    hide Sextet0, Sextet1, Sextet2, Sextet3, Rfc4648;
    BarIs();
    LetterReads(Sextet0(98), 24, 'Y');
    LetterReads(Sextet1(98, 97), 38, 'm');
    LetterReads(Sextet2(97, 114), 5, 'F');
    LetterReads(Sextet3(114), 50, 'y');
    LetterReads(Sextet1(98, 0), 32, 'g');
    LetterReads(Sextet2(97, 0), 4, 'E');
  }

  lemma PaddedReads(a: byte, b: byte, t: string, u: string)
    requires |t| == 2 && |u| == 3
    requires Reads(EncodeTriplet(Rfc4648(), a, b, 0)[..3], u) && Reads(EncodeTriplet(Rfc4648(), a, 0, 0)[..2], t)
    ensures Reads(Encode(Rfc4648(), [a]), t + "==") && Reads(Encode(Rfc4648(), [a, b]), u + "=")
  {
    hide EncodeTriplet, Rfc4648;
    Base64Rfc4648.OrdinaryCodes();
    var one, two := EncodeTriplet(Rfc4648(), a, 0, 0), EncodeTriplet(Rfc4648(), a, b, 0);
    assert Encode(Rfc4648(), [a]) == one[..2] + [PAD, PAD];
    assert Encode(Rfc4648(), [a, b]) == two[..3] + [PAD];
  }

  /** Foobar by its first octets; with "", which encodes to "", all vectors for this alphabet. */
  lemma Section10()
    ensures Encode(Rfc4648(), []) == []
    ensures Reads(Encode(Rfc4648(), [102]), "Zg==")
    ensures Reads(Encode(Rfc4648(), [102, 111]), "Zm8=")
    ensures Reads(Encode(Rfc4648(), [102, 111, 111]), "Zm9v")
    ensures Reads(Encode(Rfc4648(), [102, 111, 111, 98]), "Zm9vYg==")
    ensures Reads(Encode(Rfc4648(), [102, 111, 111, 98, 97]), "Zm9vYmE=")
    ensures Reads(Encode(Rfc4648(), [102, 111, 111, 98, 97, 114]), "Zm9vYmFy")
  {
    Nothing();
    hide Encode, EncodeTriplet, Rfc4648, Reads;
    FooReads();
    BarReads();
    PaddedReads(102, 111, "Zg", "Zm8");
    PaddedReads(98, 97, "Yg", "YmE");
    assert "Zg" + "==" == "Zg==" && "Zm8" + "=" == "Zm8=" && "Yg" + "==" == "Yg==" && "YmE" + "=" == "YmE=";
    WholeTriplet(102, 111, 111);
    WholeTriplet(98, 97, 114);
    Continued("Zm9v", [98], "Yg==");
    Continued("Zm9v", [98, 97], "YmE=");
    Continued("Zm9v", [98, 97, 114], "YmFy");
    assert "Zm9v" + "Yg==" == "Zm9vYg==" && "Zm9v" + "YmE=" == "Zm9vYmE=" && "Zm9v" + "YmFy" == "Zm9vYmFy";
    var foo: seq<byte> := [102, 111, 111];
    assert foo + [98] == [102, 111, 111, 98] && foo + [98, 97] == [102, 111, 111, 98, 97];
    assert foo + [98, 97, 114] == [102, 111, 111, 98, 97, 114];
  }

  lemma Nothing()
    ensures Encode(Rfc4648(), []) == []
  {
  }

  lemma WholeTriplet(a: byte, b: byte, c: byte)
    ensures Encode(Rfc4648(), [a, b, c]) == EncodeTriplet(Rfc4648(), a, b, c)
  {
    hide EncodeTriplet, Rfc4648;
    assert [a, b, c][3..] == [];
    assert Encode(Rfc4648(), []) == [];
  }

  lemma Continued(text: string, rest: seq<byte>, more: string)
    requires Reads(EncodeTriplet(Rfc4648(), 102, 111, 111), text) && Reads(Encode(Rfc4648(), rest), more)
    ensures Reads(Encode(Rfc4648(), [102, 111, 111] + rest), text + more)
  {
    hide EncodeTriplet, Rfc4648, Encode;
    WholeTriplet(102, 111, 111);
    EncodeBlocks(Rfc4648(), [102, 111, 111], rest);
  }

  // ---- What the decoder makes of strings that are not encodings ----

  lemma TailOf(s: seq<byte>, n: nat)
    requires |s| <= 4 && n <= |s| && (n > 0 ==> s[n - 1] != PAD) && forall i | n <= i < |s| :: s[i] == PAD
    ensures Decode(Rfc4648(), s) ==
            if n == 0 then Success([]) else if n == 1 then Failure(EINVAL) else DecodeLetters(Rfc4648(), s[..n])
  {
    hide Rfc4648, DecodeLetters;
    UnpaddedIs(s, n);
  }

  lemma FillerIsZero()
    ensures InAlphabet(Rfc4648(), FILLER) && !InAlphabet(Rfc4648(), PAD) && Rfc4648().Sixbit(FILLER) == 0
  {
    Base64Rfc4648.PregeneratedFitsCodec();
    Base64Rfc4648.OrdinaryCodes();
    assert Base64Rfc4648.Position(65) == 0;
  }

  lemma ZeroLetters(n: nat)
    requires 2 <= n <= 4
    ensures DecodeLetters(Rfc4648(), Repeat(n, FILLER)) == Success(Repeat(n - 1, 0))
  {
    hide Rfc4648;
    FillerIsZero();
    var q := [FILLER, FILLER, FILLER, FILLER];
    assert Filled(Repeat(n, FILLER)) == q;
    assert Octet0(0, 0) == 0 && Octet1(0, 0) == 0 && Octet2(0, 0) == 0;
    assert DecodeQuartet(Rfc4648(), q) == Success([0, 0, 0]);
    var zeros: seq<byte> := [0, 0, 0];
    assert zeros[..n - 1] == Repeat(n - 1, 0);
  }

  /** "AA", "AA=", "AAA" and "===" are accepted although section 3.2 of RFC 4648 asks for padding; "A" and "A===" are not, and
      neither is "A=A", with '=' before a letter. */
  lemma LiberalDecoder()
    ensures Decode(Rfc4648(), [FILLER, FILLER]) == Success([0])
    ensures Decode(Rfc4648(), [FILLER, FILLER, PAD]) == Success([0])
    ensures Decode(Rfc4648(), [FILLER, FILLER, FILLER]) == Success([0, 0])
    ensures Decode(Rfc4648(), [FILLER, FILLER, FILLER, FILLER]) == Success([0, 0, 0])
    ensures Decode(Rfc4648(), [PAD, PAD, PAD]) == Success([])
    ensures Decode(Rfc4648(), [FILLER]) == Failure(EINVAL)
    ensures Decode(Rfc4648(), [FILLER, PAD, PAD, PAD]) == Failure(EINVAL)
    ensures Decode(Rfc4648(), [FILLER, PAD, FILLER]) == Failure(EDOM)
  {
    hide Rfc4648, Decode, DecodeLetters;
    TailOf([FILLER, FILLER], 2);
    TailOf([FILLER, FILLER, PAD], 2);
    TailOf([FILLER, FILLER, FILLER], 3);
    TailOf([FILLER, FILLER, FILLER, FILLER], 4);
    TailOf([PAD, PAD, PAD], 0);
    TailOf([FILLER], 1);
    TailOf([FILLER, PAD, PAD, PAD], 1);
    TailOf([FILLER, PAD, FILLER], 3);
    ZeroLetters(2);
    ZeroLetters(3);
    ZeroLetters(4);
    assert [FILLER, FILLER][..2] == Repeat(2, FILLER) == [FILLER, FILLER, PAD][..2];
    assert [FILLER, FILLER, FILLER][..3] == Repeat(3, FILLER);
    assert [FILLER, FILLER, FILLER, FILLER][..4] == Repeat(4, FILLER);
    assert Repeat(1, 0 as byte) == [0] && Repeat(2, 0 as byte) == [0, 0] && Repeat(3, 0 as byte) == [0, 0, 0];
    PadInside();
    assert [FILLER, PAD, FILLER][..3] == [FILLER, PAD, FILLER];
  }

  lemma PadInside()
    ensures DecodeLetters(Rfc4648(), [FILLER, PAD, FILLER]) == Failure(EDOM)
  {
    hide Rfc4648;
    FillerIsZero();
    assert Filled([FILLER, PAD, FILLER])[1] == PAD;
  }
}
