/** The pregenerated tables for RFC 4648, section 4. */
module Base64Rfc4648 {
  import opened Bytes
  import opened Base64Maps

  /** The code of the character at position i of A-Z a-z 0-9 + /. */
  function Code(i: nat): (x: nat)
    requires i < 64
    ensures x < 256
  {
    if i < 26 then i + 65 else if i < 52 then i + 71 else if i < 62 then i - 4 else if i == 62 then 43 else 47
  }

  predicate IsLetterCode(x: nat) {
    65 <= x <= 90 || 97 <= x <= 122 || 48 <= x <= 57 || x == 43 || x == 47
  }

  /** The decode entry listed for the character with code x. */
  function Position(x: nat): (i: nat)
    requires IsLetterCode(x)
    ensures i < 64 && Code(i) == x
  {
    if x == 43 then 62 else if x == 47 then 63
    else if x <= 57 then x + 4 else if x <= 90 then x - 65 else x - 71
  }

  function Alphabet(): (r: seq<byte>)
    ensures |r| == 64
    ensures forall i | 0 <= i < 64 :: r[i] == Counted(Code(i))
  {
    seq(64, i requires 0 <= i < 64 => Counted(Code(i)))
  }

  function DecodeEntries(): (r: seq<byte>)
    ensures |r| == 256
    ensures forall x | 0 <= x < 256 :: r[x] == if IsLetterCode(x) then Counted(Position(x)) else OUTSIDE
  {
    seq(256, x requires 0 <= x < 256 => if IsLetterCode(x) then Counted(Position(x)) else OUTSIDE)
  }

  /** base64_maps_rfc4648. */
  function Pregenerated(): RawMaps {
    RawMaps(Alphabet(), DecodeEntries())
  }

  lemma CountedInjective(x: nat, y: nat)
    requires x < 256 && y < 256 && Counted(x) == Counted(y)
    ensures x == y
  {
  }

  lemma AlphabetDistinct()
    ensures Distinct(Alphabet())
  {
    forall i, j | 0 <= i < j < 64 ensures Alphabet()[i] != Alphabet()[j] {
      if Alphabet()[i] == Alphabet()[j] { CountedInjective(Code(i), Code(j)); }
    }
  }

  lemma LetterCodes(x: nat)
    requires x < 256
    ensures Counted(x) in Alphabet() <==> IsLetterCode(x)
  {
    if IsLetterCode(x) {
      assert Alphabet()[Position(x)] == Counted(x);
    }
    forall i | 0 <= i < 64 && Alphabet()[i] == Counted(x) ensures IsLetterCode(x) {
      CountedInjective(Code(i), x);
    }
  }

  lemma {:induction false} EntryAtLastPosition(s: seq<byte>, n: nat, i: nat, x: nat)
    requires i < n <= |s| <= 64 && s[i] as int == x
    requires forall k | i < k < n :: s[k] as int != x
    ensures Entry(s, n, x) == Counted(i)
  {
    if i < n - 1 {
      EntryAtLastPosition(s, n - 1, i, x);
    }
  }

  lemma EntryOfCode(x: nat)
    requires x < 256
    ensures Entry(Alphabet(), 64, x) == DecodeEntries()[x]
  {
    if IsLetterCode(x) {
      forall k | Position(x) < k < 64 ensures Alphabet()[k] as int != x {
        assert Alphabet()[k] as int == Code(k);
      }
      EntryAtLastPosition(Alphabet(), 64, Position(x), x);
    } else {
      LetterCodes(x);
      assert Alphabet()[..64] == Alphabet();
      EntryIsLastPosition(Alphabet(), 64, Counted(x));
    }
  }

  /** The pregenerated tables are those base64_init_maps builds from the alphabet of RFC 4648. */
  lemma PregeneratedIsBuilt()
    ensures Pregenerated() == MapsOf(Alphabet())
  {
    forall x | 0 <= x < 256 ensures DecodeEntries()[x] == Entry(Alphabet(), 64, x) {
      EntryOfCode(x);
    }
  }

  /** They are sound, mutually inverse, contain the filler 'A' and exclude the padding '='. */
  lemma PregeneratedFitsCodec()
    ensures Pregenerated().Sound()
    ensures Inverse(Pregenerated())
    ensures InAlphabet(Pregenerated(), FILLER) && !InAlphabet(Pregenerated(), PAD)
  {
    PregeneratedIsBuilt();
    AlphabetDistinct();
    InverseIffDistinct(Alphabet());
    MembersAreTheAlphabet(Alphabet(), FILLER);
    MembersAreTheAlphabet(Alphabet(), PAD);
    EntryOfCode(FILLER as int);
    EntryOfCode(PAD as int);
    OrdinaryCodes();
  }

  lemma OrdinaryCodes()
    ensures FILLER as int == 65 && PAD as int == 61
  {
    ByteThenIndex(65);
    ByteThenIndex(61);
  }

  // ---- The tables, written out ----

  const UPPER: string := "ABCDEFGHIJKLMNOPQRSTUVWXYZ"
  const LOWER: string := "abcdefghijklmnopqrstuvwxyz"
  const DIGITS: string := "0123456789"
  const LETTERS: string := UPPER + LOWER + DIGITS + "+/"

  lemma LetterCode(i: nat)
    requires i < 64
    ensures |LETTERS| == 64 && LETTERS[i] as int == Code(i)
  {
    assert |UPPER| == 26 && |LOWER| == 26 && |DIGITS| == 10;
    if i < 26 {
      assert LETTERS[i] == UPPER[i];
    } else if i < 52 {
      assert LETTERS[i] == LOWER[i - 26];
    } else if i < 62 {
      assert LETTERS[i] == DIGITS[i - 52];
    }
  }

  /** The encode table is the 64 letters of RFC 4648 in order; the decode table gives each letter its position and rejects
      every other character. */
  lemma PregeneratedInFull()
    ensures |LETTERS| == 64 && Pregenerated().Shaped()
    ensures forall i | 0 <= i < 64 :: Pregenerated().encodeMap[i] as int == LETTERS[i] as int
    ensures forall i | 0 <= i < 64 :: LETTERS[i] as int < 256 && Pregenerated().decodeMap[LETTERS[i] as int] as int == i
    ensures forall x | 0 <= x < 256 && x as char !in LETTERS :: Pregenerated().decodeMap[x] == OUTSIDE
  {
    LetterCode(0);
    forall i | 0 <= i < 64
      ensures Pregenerated().encodeMap[i] as int == LETTERS[i] as int
      ensures LETTERS[i] as int < 256 && Pregenerated().decodeMap[LETTERS[i] as int] as int == i
    {
      LetterCode(i);
    }
    forall x | 0 <= x < 256 && x as char !in LETTERS ensures Pregenerated().decodeMap[x] == OUTSIDE {
      if IsLetterCode(x) {
        LetterCode(Position(x));
      }
    }
  }
}
