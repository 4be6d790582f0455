/** What the decoder has written when it stops, and how much room it needs. */
module Base64Writes {
  import opened Wrappers
  import opened Bytes
  import opened Base64Maps
  import opened Base64
  import opened Base64Laws
  import opened Base64Lengths
  import opened Base64InPlace

  /** The loop has written the octets of the first p characters, which are letters, where either these are all its groups
      or the next group is rejected. */
  lemma {:induction false} LoopWrites(m: Maps, s: seq<byte>) returns (p: nat)
    ensures p % 4 == 0 && p <= FinalGroup(|s|) && AllInAlphabet(m, s[..p])
    ensures DecodedBefore(m, s) == Octets(m, s[..p])
    ensures p == FinalGroup(|s|) || (p + 4 <= FinalGroup(|s|) && !AllInAlphabet(m, s[p..p + 4]))
  {
    hide DecodeQuartet, Octets, AllInAlphabet, DecodedBefore, FinalGroup, FinalLetters, Letters, Decode, DecodeTail, Prepend;
    p := 0;
    NoLetters(m, s);
    DecodeUnfolds(m, s);
    if |s| > 4 {
      QuartetByGroup(m, s[..4]);
      LettersOfRest(s);
      if AllInAlphabet(m, s[..4]) {
        var rest := LoopWrites(m, s[4..]);
        p := rest + 4;
        OneMoreGroup(m, s, p);
        SameGroup(s, p);
      }
    }
  }

  lemma OneMoreGroup(m: Maps, s: seq<byte>, p: nat)
    requires 4 <= p <= |s| && AllInAlphabet(m, s[..4]) && AllInAlphabet(m, s[4..][..p - 4])
    ensures DecodeQuartet(m, s[..4]).Success? && AllInAlphabet(m, s[..p])
    ensures Octets(m, s[..p]) == DecodeQuartet(m, s[..4]).value + Octets(m, s[4..][..p - 4])
  {
    hide DecodeQuartet, Octets, AllInAlphabet;
    var t := s[..p];
    assert t[..4] == s[..4] && t[4..] == s[4..][..p - 4];
    AlphabetPrefix(m, s, p);
    OctetsOfRest(m, t);
  }

  lemma SameGroup(s: seq<byte>, p: nat)
    requires 4 <= p <= |s|
    ensures p + 4 <= |s| ==> s[p..p + 4] == s[4..][p - 4..p]
  {
    if p + 4 <= |s| {
      var a, b := s[p..p + 4], s[4..][p - 4..p];
      assert |a| == |b| && forall i | 0 <= i < 4 :: a[i] == s[p + i] == b[i];
    }
  }

  lemma NoLetters(m: Maps, s: seq<byte>)
    ensures AllInAlphabet(m, s[..0]) && Octets(m, s[..0]) == [] && (|s| <= 4 ==> FinalGroup(|s|) == 0)
    ensures |s| > 4 ==> FinalGroup(|s|) >= 4
  {
  }

  /** The whole effect on a large enough destination: an accepted source leaves the octets of its letters and zeros; a
      rejected one the octets of the groups before the rejected one, and nothing else. */
  lemma EffectByGroups(m: Maps, s: seq<byte>, destlen: nat) returns (p: nat)
    requires |s| <= OBJECT_MAX && DecodedLength(|s|) <= destlen
    ensures p <= |s| && |Octets(m, s[..p])| <= destlen
    ensures var effect, octets := DecodeEffect(m, s, destlen), Octets(m, s[..p]);
            if Accepts(m, s) then
              p == Letters(s) && effect == Effect(Success(|octets|), octets + Repeat(destlen - |octets|, 0))
            else
              effect.ret.Failure? && effect.written == octets
    ensures !Accepts(m, s) ==>
              && p % 4 == 0 && AllInAlphabet(m, s[..p])
              && (p == FinalGroup(|s|) || (p + 4 <= FinalGroup(|s|) && !AllInAlphabet(m, s[p..p + 4])))
  {
    hide Decode, DecodedBefore, Accepts, Octets, AllInAlphabet, FinalGroup;
    DecodeByGroups(m, s);
    DecodedLengthExact(|s|);
    if Accepts(m, s) {
      p := Letters(s);
    } else {
      p := LoopWrites(m, s);
    }
  }

  // ---- How far the writes reach ----

  /** The octets are written for a final group t: two letters at least, all in the alphabet, and the filler if needed. */
  predicate WritesTail(m: Maps, t: seq<byte>) {
    && Unpadded(t) >= 2
    && AllInAlphabet(m, t[..Unpadded(t)])
    && (Unpadded(t) < 4 ==> InAlphabet(m, FILLER))
  }

  lemma TailWrites(m: Maps, t: seq<byte>)
    requires |t| <= 4
    ensures |TailOctets(m, t)| == if WritesTail(m, t) then 3 else 0
  {
    hide TailOctets, DecodeTail, DecodeQuartet, Filled, AllInAlphabet;
    TailCases(m, t);
    if Unpadded(t) >= 2 {
      FilledInAlphabet(m, t[..Unpadded(t)]);
      QuartetByGroup(m, Filled(t[..Unpadded(t)]));
    }
  }

  /** How far the decoder has written, before the zero fill, when it stops. */
  function Written(m: Maps, s: seq<byte>): nat {
    |DecodedBefore(m, s)|
    + if AllInAlphabet(m, s[..FinalGroup(|s|)]) then |TailOctets(m, s[FinalGroup(|s|)..])| else 0
  }

  predicate WritesAll(m: Maps, s: seq<byte>) {
    s == [] || (AllInAlphabet(m, s[..FinalGroup(|s|)]) && WritesTail(m, s[FinalGroup(|s|)..]))
  }

  lemma AllGroupsInAlphabet(m: Maps, s: seq<byte>, p: nat, n: nat)
    requires p <= n <= |s| && AllInAlphabet(m, s[..p])
    requires p == n || (p + 4 <= n && !AllInAlphabet(m, s[p..p + 4]))
    ensures AllInAlphabet(m, s[..n]) <==> p == n
  {
    hide AllInAlphabet;
    if p < n {
      assert s[..n] == s[..p] + (s[p..p + 4] + s[p + 4..n]);
      AllInAlphabetSplit(m, s[..p], s[p..p + 4] + s[p + 4..n]);
      AllInAlphabetSplit(m, s[p..p + 4], s[p + 4..n]);
    }
  }

  /** For every source the last write ends at the decoded length exactly when every group is written, and otherwise at
      least three octets before it. */
  lemma LastWriteEnd(m: Maps, s: seq<byte>)
    requires |s| <= OBJECT_MAX
    ensures Written(m, s) == DecodedLength(|s|) <==> WritesAll(m, s)
    ensures !WritesAll(m, s) ==> Written(m, s) + 3 <= DecodedLength(|s|)
  {
    hide DecodedBefore, TailOctets, AllInAlphabet, WritesTail, OctetOf;
    var p := LoopWrites(m, s);
    AllGroupsInAlphabet(m, s, p, FinalGroup(|s|));
    TailWrites(m, s[FinalGroup(|s|)..]);
    DecodedLengthExact(|s|);
    assert |DecodedBefore(m, s)| == p / 4 * 3;
    if s == [] {
      assert !WritesTail(m, []) by { NothingToWrite(m); }
    }
  }

  lemma NothingToWrite(m: Maps)
    ensures !WritesTail(m, [])
  {
  }

  ghost predicate SomeSourceWrites(m: Maps, n: nat, length: nat) {
    exists s: seq<byte> | |s| == n :: Written(m, s) == length
  }

  ghost predicate HasLetter(m: Maps) {
    exists c :: c != PAD && InAlphabet(m, c)
  }

  lemma RepeatedLetter(m: Maps, n: nat, c: byte)
    requires 0 < n <= OBJECT_MAX && c != PAD && InAlphabet(m, c) && n % 4 != 1
    requires n % 4 != 0 ==> InAlphabet(m, FILLER)
    ensures WritesAll(m, Repeat(n, c))
  {
    var t := Repeat(n, c)[FinalGroup(n)..];
    UnpaddedIs(t, |t|);
  }

  /** Some source of n characters is written up to the decoded length, so that the up-front test refuses no buffer that is
      large enough for all of them, exactly when n is a multiple of four and the alphabet has a letter other than '=', or
      n is two or three more and the filler is in the alphabet. */
  lemma TestIsTightIff(m: Maps, n: nat)
    requires n <= OBJECT_MAX
    ensures SomeSourceWrites(m, n, DecodedLength(n)) <==>
            n == 0 || (n % 4 == 0 && HasLetter(m)) || (n % 4 in {2, 3} && InAlphabet(m, FILLER))
  {
    hide Written, DecodedLength;
    forall s: seq<byte> | |s| == n ensures Written(m, s) == DecodedLength(n) <==> WritesAll(m, s) {
      LastWriteEnd(m, s);
    }
    if n == 0 {
      var empty: seq<byte> := [];
      assert WritesAll(m, empty) && |empty| == n;
    } else if n % 4 == 0 && HasLetter(m) {
      var c :| c != PAD && InAlphabet(m, c);
      RepeatedLetter(m, n, c);
    } else if n % 4 in {2, 3} && InAlphabet(m, FILLER) {
      RepeatedLetter(m, n, FILLER);
    } else {
      forall s: seq<byte> | |s| == n ensures !WritesAll(m, s) {
        NotAllWritten(m, s);
      }
    }
  }

  lemma NotAllWritten(m: Maps, s: seq<byte>)
    requires s != []
    ensures WritesAll(m, s) ==> |s| % 4 != 1 && HasLetter(m) && (|s| % 4 != 0 ==> InAlphabet(m, FILLER))
  {
    var t := s[FinalGroup(|s|)..];
    var n := Unpadded(t);
    if WritesAll(m, s) {
      assert InAlphabet(m, t[..n][n - 1]) && t[n - 1] != PAD;
    }
  }

  /** The smallest destination that no source of n characters is written past: a final group of one character never
      needs its three octets. */
  function SafeLength(n: nat): nat
    requires n <= OBJECT_MAX
  {
    DecodedLengthExact(n);
    if n % 4 == 1 then DecodedLength(n) - 3 else DecodedLength(n)
  }

  lemma WithinSafeLength(m: Maps, s: seq<byte>)
    requires |s| <= OBJECT_MAX
    ensures Written(m, s) <= SafeLength(|s|)
  {
    hide Written, WritesAll, DecodedLength;
    LastWriteEnd(m, s);
    if s != [] {
      NotAllWritten(m, s);
    }
  }

  lemma LettersWriteSafeLength(m: Maps, n: nat)
    requires n <= OBJECT_MAX && n % 4 == 1 && InAlphabet(m, FILLER)
    ensures Written(m, Repeat(n, FILLER)) == SafeLength(n)
  {
    hide DecodedBefore, TailOctets, WritesTail, OctetOf;
    var s := Repeat(n, FILLER);
    var p := LoopWrites(m, s);
    AllGroupsInAlphabet(m, s, p, FinalGroup(|s|));
    TailWrites(m, s[FinalGroup(n)..]);
    ShortTail(m, s[FinalGroup(n)..]);
    DecodedLengthExact(n);
    assert |DecodedBefore(m, s)| == p / 4 * 3;
  }

  lemma ShortTail(m: Maps, t: seq<byte>)
    requires |t| <= 1
    ensures !WritesTail(m, t)
  {
  }

  /** With the filler in the alphabet that length is enough for all sources of n characters and needed by one: the decoded
      length is minimal unless n is one more than a multiple of four, and then three octets too long. */
  lemma SafeLengthIsMinimal(m: Maps, n: nat)
    requires n <= OBJECT_MAX && InAlphabet(m, FILLER)
    ensures forall s: seq<byte> | |s| == n :: Written(m, s) <= SafeLength(n)
    ensures SomeSourceWrites(m, n, SafeLength(n))
  {
    hide Written;
    forall s: seq<byte> | |s| == n ensures Written(m, s) <= SafeLength(n) {
      WithinSafeLength(m, s);
    }
    if n % 4 == 1 {
      LettersWriteSafeLength(m, n);
    } else {
      assert n % 4 == 0 || n % 4 in {2, 3};
      TestIsTightIff(m, n);
    }
  }

  /** "AAAA=" decodes to three octets, and only those are written, but six are asked for. */
  lemma AsksForTooMuch(m: Maps)
    requires InAlphabet(m, FILLER)
    ensures var s := [FILLER, FILLER, FILLER, FILLER, PAD];
            Decode(m, s).Success? && Written(m, s) == 3 && DecodedLength(|s|) == 6
  {
    hide DecodeQuartet;
    var s := [FILLER, FILLER, FILLER, FILLER, PAD];
    var q := [FILLER, FILLER, FILLER, FILLER];
    assert s[..4] == q && s[4..] == [PAD] && FinalGroup(5) == 4;
    QuartetByGroup(m, q);
    assert DecodeTail(m, [PAD]) == Success([]) && DecodedBefore(m, [PAD]) == [] && TailOctets(m, [PAD]) == [] by {
      UnpaddedIs([PAD], 0);
      TailCases(m, [PAD]);
    }
  }
}
