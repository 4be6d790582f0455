/** The codec as the source runs it: loops that write caller-supplied buffers in place. */
module Base64InPlace {
  import opened Wrappers
  import opened Bytes
  import opened Base64Maps
  import opened Base64Groups
  import opened Base64
  import opened Base64Lengths

  /** memset. */
  method Fill(dest: array<byte>, at: nat, n: nat, x: byte)
    requires at + n <= dest.Length
    modifies dest
    ensures dest[..] == Splice(old(dest[..]), at, Repeat(n, x))
  {
    forall k | at <= k < at + n {
      dest[k] := x;
    }
  }

  /** Writing z after b was written at the start. */
  lemma SpliceNext(s: seq<byte>, b: seq<byte>, z: seq<byte>)
    requires |b| + |z| <= |s|
    ensures Splice(Splice(s, 0, b), |b|, z) == Splice(s, 0, b + z)
  {
  }

  /** Zero-filling from the middle of what was written last. */
  lemma SpliceDropped(s: seq<byte>, b: seq<byte>, c: seq<byte>, k: nat, n: nat)
    requires k <= |c| && |c| <= k + n && |b| + k + n <= |s|
    ensures Splice(Splice(s, 0, b + c), |b| + k, Repeat(n, 0)) == Splice(s, 0, b + c[..k] + Repeat(n, 0))
  {
  }

  /** base64_encode_triplet_using_maps; all three octets are read before the first write. */
  method EncodeTripletInto(m: Maps, dest: array<byte>, at: nat, src: array<byte>, from: nat)
    requires at + 4 <= dest.Length && from + 3 <= src.Length
    modifies dest
    ensures dest[..] == Splice(old(dest[..]), at, EncodeTriplet(m, old(src[from]), old(src[from + 1]), old(src[from + 2])))
  {
    var a, b, c := src[from], src[from + 1], src[from + 2];
    dest[at] := m.Letter(Sextet0(a));
    dest[at + 1] := m.Letter(Sextet1(a, b));
    dest[at + 2] := m.Letter(Sextet2(b, c));
    dest[at + 3] := m.Letter(Sextet3(c));
  }

  /** base64_encode_tail_using_maps. */
  method EncodeTailInto(m: Maps, dest: array<byte>, at: nat, src: array<byte>, from: nat, srclen: nat)
    requires at + 4 <= dest.Length && from + srclen <= src.Length && srclen <= 3
    modifies dest
    ensures dest[..] == Splice(old(dest[..]), at, EncodeTail(m, old(src[from..from + srclen])))
  {
    hide EncodeTriplet;
    ghost var tail := src[from..from + srclen];
    var longsrc := new byte[3](_ => 0);
    forall k | 0 <= k < srclen {
      longsrc[k] := src[from + k];
    }
    ghost var q := EncodeTriplet(m, OctetAt(tail, 0), OctetAt(tail, 1), OctetAt(tail, 2));
    assert forall k | 0 <= k < 3 :: longsrc[k] == OctetAt(tail, k);
    assert longsrc[0] == OctetAt(tail, 0) && longsrc[1] == OctetAt(tail, 1) && longsrc[2] == OctetAt(tail, 2);
    EncodeTripletInto(m, dest, at, longsrc, 0);
    assert forall k | 0 <= k < 4 :: dest[at + k] == q[k];
    forall k | at + 1 + srclen <= k < at + 4 {
      dest[k] := PAD;
    }
    assert EncodeTail(m, tail) == q[..1 + srclen] + Repeat(3 - srclen, PAD);
    assert forall k | 0 <= k < 4 :: dest[at + k] == EncodeTail(m, tail)[k];
  }

  lemma EncodeUnfolds(m: Maps, b: seq<byte>)
    ensures |b| >= 3 ==> Encode(m, b) == EncodeTriplet(m, b[0], b[1], b[2]) + Encode(m, b[3..])
    ensures 1 <= |b| < 3 ==> Encode(m, b) == EncodeTail(m, b)
    ensures |b| == 0 ==> Encode(m, b) == []
  {
  }

  lemma EncodedLengthOf(m: Maps, b: seq<byte>)
    requires |b| <= OBJECT_MAX
    ensures |Encode(m, b)| == EncodedLength(|b|)
  {
    EncodedLengthExact(|b|);
  }

  lemma OneTripletEncoded(m: Maps, b: seq<byte>, i: nat, done: seq<byte>)
    requires i + 3 <= |b|
    ensures var q := EncodeTriplet(m, b[i], b[i + 1], b[i + 2]);
            && done + Encode(m, b[i..]) == done + q + Encode(m, b[i + 3..])
            && |done| + |q| <= |done + Encode(m, b[i..])|
  {
    hide Encode, EncodeTriplet;
    EncodeUnfolds(m, b[i..]);
    assert b[i..][3..] == b[i + 3..];
  }

  /** base64_encode_using_maps. */
  method EncodeUsingMaps(m: Maps, dest: array<byte>, destlen: nat, src: array<byte>, srclen: nat)
    returns (r: Result<nat, Errno>)
    requires dest != src
    requires destlen <= dest.Length <= OBJECT_MAX && srclen <= src.Length <= OBJECT_MAX
    modifies dest
    ensures r == if destlen < EncodedLength(srclen) then Failure(EOVERFLOW) else Success(EncodedLength(srclen))
    ensures r.Failure? ==> dest[..] == old(dest[..])
    ensures r.Success? ==> |Encode(m, src[..srclen])| == r.value <= destlen
    ensures r.Success? ==>
              dest[..] == Splice(old(dest[..]), 0, Encode(m, src[..srclen]) + Repeat(destlen - r.value, 0))
  {
    hide Encode, EncodeTriplet, EncodeTail, Splice, EncodedLength, Groups, Repeat;
    if destlen < EncodedLength(srclen) {
      return Failure(EOVERFLOW);
    }
    ghost var octets := src[..srclen];
    EncodedLengthOf(m, octets);
    ghost var encoding := Encode(m, octets);
    ghost var done := [];
    var srcOffset, destOffset := 0, 0;
    assert octets[0..] == octets && dest[..] == Splice(old(dest[..]), 0, []);
    while srclen - srcOffset >= 3
      invariant srcOffset <= srclen && destOffset == |done|
      invariant done + Encode(m, octets[srcOffset..]) == encoding
      invariant dest[..] == Splice(old(dest[..]), 0, done)
    {
      OneTripletEncoded(m, octets, srcOffset, done);
      ghost var q := EncodeTriplet(m, octets[srcOffset], octets[srcOffset + 1], octets[srcOffset + 2]);
      SpliceNext(old(dest[..]), done, q);
      EncodeTripletInto(m, dest, destOffset, src, srcOffset);
      done := done + q;
      srcOffset, destOffset := srcOffset + 3, destOffset + 4;
    }
    ghost var rest := octets[srcOffset..];
    EncodeUnfolds(m, rest);
    if srcOffset < srclen {
      PartOfPrefix(src[..], srclen, srcOffset, srclen);
      assert rest == octets[srcOffset..srclen];
      SpliceNext(old(dest[..]), done, EncodeTail(m, rest));
      EncodeTailInto(m, dest, destOffset, src, srcOffset, srclen - srcOffset);
      destOffset := destOffset + 4;
    }
    assert dest[..] == Splice(old(dest[..]), 0, encoding) && destOffset == |encoding|;
    SpliceNext(old(dest[..]), encoding, Repeat(destlen - destOffset, 0));
    Fill(dest, destOffset, destlen - destOffset, 0);
    assert src[..srclen] == octets;
    return Success(destOffset);
  }

  /** base64_decode_quartet_using_maps. */
  method DecodeQuartetInto(m: Maps, dest: array<byte>, at: nat, src: array<byte>, from: nat)
    returns (r: Result<nat, Errno>)
    requires at + 3 <= dest.Length && from + 4 <= src.Length
    modifies dest
    ensures var q := DecodeQuartet(m, old(src[from..from + 4]));
            && r == (if q.Success? then Success(0) else Failure(EDOM))
            && dest[..] == if q.Success? then Splice(old(dest[..]), at, q.value) else old(dest[..])
  {
    hide Octet0, Octet1, Octet2, Splice, RawMaps.Sixbit;
    var a, b, c, d := m.Sixbit(src[from]), m.Sixbit(src[from + 1]), m.Sixbit(src[from + 2]), m.Sixbit(src[from + 3]);
    if a == OUTSIDE || b == OUTSIDE || c == OUTSIDE || d == OUTSIDE {
      return Failure(EDOM);
    }
    dest[at] := Octet0(a, b);
    dest[at + 1] := Octet1(b, c);
    dest[at + 2] := Octet2(c, d);
    return Success(0);
  }

  /** The three octets that decoding a final group writes, of which only the first are kept. */
  function TailOctets(m: Maps, s: seq<byte>): (r: seq<byte>)
    requires |s| <= 4
    ensures |r| == 0 || |r| == 3
    ensures s == [] ==> r == []
    ensures DecodeTail(m, s).Failure? ==> r == []
    ensures DecodeTail(m, s).Success? ==> |DecodeTail(m, s).value| <= |r| && DecodeTail(m, s).value == r[..|DecodeTail(m, s).value|]
  {
    if Unpadded(s) < 2 || DecodeTail(m, s).Failure? then [] else DecodeQuartet(m, Filled(s[..Unpadded(s)])).value
  }

  lemma TailCases(m: Maps, s: seq<byte>)
    requires |s| <= 4
    ensures Unpadded(s) == 0 ==> DecodeTail(m, s) == Success([]) && TailOctets(m, s) == []
    ensures Unpadded(s) == 1 ==> DecodeTail(m, s) == Failure(EINVAL) && TailOctets(m, s) == []
    ensures Unpadded(s) >= 2 ==>
              var q := DecodeQuartet(m, Filled(s[..Unpadded(s)]));
              && (q.Failure? ==> DecodeTail(m, s) == Failure(EDOM) && TailOctets(m, s) == [])
              && (q.Success? ==> DecodeTail(m, s).Success? && |DecodeTail(m, s).value| == Unpadded(s) - 1 && TailOctets(m, s) == q.value)
  {
  }

  /** The loop that throws away padding symbols. */
  method StripPadding(src: array<byte>, from: nat, srclen: nat) returns (insize: nat)
    requires from + srclen <= src.Length
    ensures insize == Unpadded(src[from..from + srclen])
  {
    ghost var s := src[from..from + srclen];
    insize := srclen;
    while insize != 0 && src[from + insize - 1] == PAD
      invariant insize <= srclen
      invariant Unpadded(s) == Unpadded(s[..insize])
    {
      assert s[..insize][..insize - 1] == s[..insize - 1];
      insize := insize - 1;
    }
  }

  lemma FilledIs(t: seq<byte>, q: seq<byte>)
    requires |t| <= 4 && |q| == 4 && forall k | 0 <= k < 4 :: q[k] == LetterAt(t, k)
    ensures Filled(t) == q && q[0..4] == q
  {
  }

  /** base64_decode_tail_using_maps. */
  method DecodeTailInto(m: Maps, dest: array<byte>, at: nat, src: array<byte>, from: nat, srclen: nat)
    returns (r: Result<nat, Errno>)
    requires from + srclen <= src.Length && srclen <= 4
    requires srclen > 0 ==> at + 3 <= dest.Length
    modifies dest
    ensures var s := old(src[from..from + srclen]);
            && r == (if DecodeTail(m, s).Success? then Success(|DecodeTail(m, s).value|) else Failure(DecodeTail(m, s).error))
            && (|TailOctets(m, s)| == 0 ==> dest[..] == old(dest[..]))
            && (|TailOctets(m, s)| > 0 ==> at + 3 <= dest.Length && dest[..] == Splice(old(dest[..]), at, TailOctets(m, s)))
  {
    hide DecodeQuartet, DecodeTail, TailOctets, Filled, Splice;
    ghost var s := src[from..from + srclen];
    var insize := StripPadding(src, from, srclen);
    TailCases(m, s);
    if insize == 0 {
      return Success(0);
    }
    if insize == 1 {
      return Failure(EINVAL);
    }
    var longsrc := new byte[4](_ => FILLER);
    forall k | 0 <= k < insize {
      longsrc[k] := src[from + k];
    }
    assert forall k | 0 <= k < 4 :: longsrc[k] == LetterAt(s[..insize], k);
    FilledIs(s[..insize], longsrc[..]);
    var quartetResult := DecodeQuartetInto(m, dest, at, longsrc, 0);
    if quartetResult.Failure? {
      return quartetResult;
    }
    return Success(insize - 1);
  }

  /** The octets of the groups before the first one that is rejected. */
  function DecodedBefore(m: Maps, s: seq<byte>): (r: seq<byte>)
    ensures |r| <= (|s| + 3) / 4 * 3
  {
    if |s| > 4 && DecodeQuartet(m, s[..4]).Success? then
      DecodeQuartet(m, s[..4]).value + DecodedBefore(m, s[4..])
    else []
  }

  lemma DecodeUnfolds(m: Maps, s: seq<byte>)
    ensures |s| > 4 && DecodeQuartet(m, s[..4]).Failure? ==>
              Decode(m, s) == Failure(EDOM) && DecodedBefore(m, s) == []
    ensures |s| > 4 && DecodeQuartet(m, s[..4]).Success? ==>
              && DecodedBefore(m, s) == DecodeQuartet(m, s[..4]).value + DecodedBefore(m, s[4..])
              && Decode(m, s) == Prepend(DecodeQuartet(m, s[..4]).value, Decode(m, s[4..]))
    ensures |s| <= 4 ==> Decode(m, s) == DecodeTail(m, s) && DecodedBefore(m, s) == []
  {
  }

  lemma RoomForGroup(srclen: size_t, groups: nat)
    requires 4 * groups < srclen && srclen <= OBJECT_MAX
    ensures 3 * groups + 3 <= DecodedLength(srclen)
  {
    DecodedLengthExact(srclen);
  }

  /** The end of base64_decode_using_maps: the final group, then zeros up to destlen. */
  method DecodeTailAndFill(m: Maps, dest: array<byte>, destlen: nat, at: nat, src: array<byte>, from: nat, n: nat,
                           ghost done: seq<byte>, ghost initial: seq<byte>)
    returns (r: Result<nat, Errno>)
    requires n <= 4 && from + n <= src.Length && at <= destlen <= dest.Length && (n > 0 ==> at + 3 <= destlen)
    requires |done| == at && |initial| == dest.Length && dest[..] == Splice(initial, 0, done)
    modifies dest
    ensures var t := DecodeTail(m, old(src[from..from + n]));
            && r == (if t.Success? then Success(|t.value|) else Failure(t.error))
            && (t.Failure? ==> dest[..] == old(dest[..]))
            && (t.Success? ==>
                  && at + |t.value| <= destlen
                  && dest[..] == Splice(initial, 0, done + t.value + Repeat(destlen - (at + |t.value|), 0)))
  {
    hide DecodeTail, TailOctets, Splice, Repeat;
    ghost var tail := TailOctets(m, src[from..from + n]);
    if |tail| > 0 {
      SpliceNext(initial, done, tail);
    }
    assert done + [] == done;
    r := DecodeTailInto(m, dest, at, src, from, n);
    if r.Success? {
      SpliceDropped(initial, done, tail, r.value, destlen - (at + r.value));
      Fill(dest, at + r.value, destlen - (at + r.value), 0);
    }
  }

  datatype Effect = Effect(ret: Result<nat, Errno>, written: seq<byte>)

  /** The return value of base64_decode_using_maps, and what it leaves at the start of its destination:
      a rejected source leaves the octets of the groups before the rejected one. */
  function DecodeEffect(m: Maps, s: seq<byte>, destlen: nat): (e: Effect)
    requires |s| <= OBJECT_MAX
    ensures |e.written| <= destlen && (e.ret.Success? ==> |e.written| == destlen)
  {
    if destlen < DecodedLength(|s|) then Effect(Failure(EOVERFLOW), [])
    else
      DecodedLengthExact(|s|);
      var d := Decode(m, s);
      if d.Failure? then Effect(Failure(d.error), DecodedBefore(m, s))
      else Effect(Success(|d.value|), d.value + Repeat(destlen - |d.value|, 0))
  }

  lemma EffectOfOverflow(m: Maps, s: seq<byte>, destlen: nat)
    requires |s| <= OBJECT_MAX && destlen < DecodedLength(|s|)
    ensures DecodeEffect(m, s, destlen) == Effect(Failure(EOVERFLOW), [])
  {
  }

  lemma EffectOfFailure(m: Maps, s: seq<byte>, destlen: nat, done: seq<byte>, error: Errno)
    requires |s| <= OBJECT_MAX && DecodedLength(|s|) <= destlen
    requires Decode(m, s) == Prepend(done, Failure(error)) && DecodedBefore(m, s) == done + []
    ensures DecodeEffect(m, s, destlen) == Effect(Failure(error), done)
  {
  }

  lemma EffectOfSuccess(m: Maps, s: seq<byte>, destlen: nat, done: seq<byte>, last: seq<byte>)
    requires |s| <= OBJECT_MAX && DecodedLength(|s|) <= destlen
    requires Decode(m, s) == Prepend(done, Success(last))
    ensures var n := |done| + |last|;
            n <= destlen && DecodeEffect(m, s, destlen) == Effect(Success(n), done + last + Repeat(destlen - n, 0))
  {
    DecodedLengthExact(|s|);
  }

  /** After the groups before i the octets in done are decoded, and what remains is to decode the rest. */
  ghost predicate DecodedSoFar(m: Maps, s: seq<byte>, i: nat, done: seq<byte>) {
    && i <= |s|
    && DecodedBefore(m, s) == done + DecodedBefore(m, s[i..])
    && Decode(m, s) == Prepend(done, Decode(m, s[i..]))
  }

  lemma NothingDecoded(m: Maps, s: seq<byte>)
    ensures DecodedSoFar(m, s, 0, [])
  {
    hide Decode, DecodedBefore, Prepend;
    PrependTwice([], [], Decode(m, s));
    assert s[0..] == s;
  }

  lemma OneGroupDecoded(m: Maps, s: seq<byte>, i: nat, done: seq<byte>)
    requires DecodedSoFar(m, s, i, done) && |s| - i > 4
    ensures var q := DecodeQuartet(m, s[i..i + 4]);
            if q.Success? then DecodedSoFar(m, s, i + 4, done + q.value)
            else Decode(m, s) == Prepend(done, Failure(EDOM)) && DecodedBefore(m, s) == done + []
  {
    hide Decode, DecodedBefore, Prepend, DecodeQuartet;
    var rest := s[i..];
    assert rest[..4] == s[i..i + 4] && rest[4..] == s[i + 4..];
    DecodeUnfolds(m, rest);
    var q := DecodeQuartet(m, rest[..4]);
    if q.Success? {
      PrependTwice(done, q.value, Decode(m, rest[4..]));
    }
  }

  lemma OnlyTailLeft(m: Maps, s: seq<byte>, i: nat, done: seq<byte>)
    requires DecodedSoFar(m, s, i, done) && |s| - i <= 4
    ensures Decode(m, s) == Prepend(done, DecodeTail(m, s[i..])) && DecodedBefore(m, s) == done + []
  {
    hide Decode, DecodedBefore, Prepend, DecodeTail;
    DecodeUnfolds(m, s[i..]);
  }

  /** base64_decode_using_maps. */
  method DecodeUsingMaps(m: Maps, dest: array<byte>, destlen: nat, src: array<byte>, srclen: nat)
    returns (r: Result<nat, Errno>)
    requires dest != src
    requires destlen <= dest.Length <= OBJECT_MAX && srclen <= src.Length && srclen <= OBJECT_MAX
    modifies dest
    ensures var effect := DecodeEffect(m, src[..srclen], destlen);
            r == effect.ret && dest[..] == Splice(old(dest[..]), 0, effect.written)
  {
    hide Decode, DecodeQuartet, DecodeTail, TailOctets, DecodedBefore, Splice, DecodedLength, Prepend, DecodeEffect, Repeat;
    hide DecodedSoFar;
    ghost var s := src[..srclen];
    if destlen < DecodedLength(srclen) {
      EffectOfOverflow(m, s, destlen);
      return Failure(EOVERFLOW);
    }
    NothingDecoded(m, s);
    if srclen > 0 {
      RoomForGroup(srclen, 0);
    }
    ghost var done: seq<byte> := [];
    ghost var groups := 0;
    var i, destOffset := 0, 0;
    assert dest[..] == Splice(old(dest[..]), 0, []);
    while srclen - i > 4
      invariant i <= srclen && (srclen > 0 ==> i < srclen) && destOffset == |done|
      invariant i == 4 * groups && destOffset == 3 * groups && destOffset <= destlen
      invariant srclen > 0 ==> destOffset + 3 <= destlen
      invariant DecodedSoFar(m, s, i, done)
      invariant dest[..] == Splice(old(dest[..]), 0, done)
    {
      OneGroupDecoded(m, s, i, done);
      PartOfPrefix(src[..], srclen, i, i + 4);
      ghost var q := DecodeQuartet(m, s[i..i + 4]);
      if q.Success? {
        SpliceNext(old(dest[..]), done, q.value);
      }
      var quartet := DecodeQuartetInto(m, dest, destOffset, src, i);
      if quartet.Failure? {
        EffectOfFailure(m, s, destlen, done, EDOM);
        return quartet;
      }
      done := done + q.value;
      i, destOffset, groups := i + 4, destOffset + 3, groups + 1;
      RoomForGroup(srclen, groups);
    }
    OnlyTailLeft(m, s, i, done);
    PartOfPrefix(src[..], srclen, i, srclen);
    assert s[i..] == s[i..srclen];
    var more := DecodeTailAndFill(m, dest, destlen, destOffset, src, i, srclen - i, done, old(dest[..]));
    if more.Failure? {
      EffectOfFailure(m, s, destlen, done, more.error);
      return more;
    }
    EffectOfSuccess(m, s, destlen, done, DecodeTail(m, s[i..]).value);
    return Success(destOffset + more.value);
  }
}
