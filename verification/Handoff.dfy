/** The address a client encodes is the one the server decodes and connects to. */
module Handoff {
  import opened Wrappers
  import opened Bytes
  import opened Base64Lengths
  import opened Base64Maps
  import opened Base64
  import opened Base64Laws
  import opened Base64InPlace
  import opened Messages
  import Base64Rfc4648

  /** Decoding an encoding into any large enough buffer: the length, every octet, zeros in the rest. */
  lemma BufferRoundTrip(m: Maps, b: seq<byte>, destlen: nat)
    requires Inverse(m) && Fit(m)
    requires |b| <= OBJECT_MAX && |Encode(m, b)| <= OBJECT_MAX && DecodedLength(|Encode(m, b)|) <= destlen
    ensures |b| <= destlen
    ensures DecodeEffect(m, Encode(m, b), destlen) == Effect(Success(|b|), b + Repeat(destlen - |b|, 0))
  {
    hide Encode, Decode, DecodedLength, DecodeEffect, Inverse, Fit;
    RoundTrip(m, b);
    assert [] + b == b;
    EffectOfSuccess(m, Encode(m, b), destlen, [], b);
  }

  lemma HandoffLengths(n: size_t)
    requires n <= OBJECT_MAX
    ensures var pad := Groups(n, 3) * 3 - n;
            && EncodedLength(n) == (n + 2) / 3 * 4
            && 0 <= pad <= 2
            && DecodedLength(EncodedLength(n)) == n + pad
  {
    EncodedLengthExact(n);
    DecodedLengthExact(EncodedLength(n));
  }

  /** The buffer the server fills from the first size characters of addr, if it can. */
  function ServerBuffer(addr: seq<byte>, size: nat): (r: Result<seq<byte>, Errno>)
    requires size <= |addr| && size <= OBJECT_MAX
  {
    var effect := DecodeEffect(Rfc4648(), addr[..size], DecodedLength(size));
    if effect.ret.Failure? then Failure(effect.ret.error) else Success(effect.written)
  }

  lemma Rfc4648Fits()
    ensures Inverse(Rfc4648()) && Fit(Rfc4648())
  {
    Base64Rfc4648.PregeneratedFitsCodec();
  }

  /** For every worker address the server's buffer is that address and 3 * ceil(n / 3) - n zeros, at most two; the NUL
      after the encoding is not decoded. */
  lemma AddressHandoff(addr: seq<byte>, nul: byte)
    requires |addr| <= OBJECT_MAX && EncodedLength(|addr|) < OBJECT_MAX
    ensures var encoded := Encode(Rfc4648(), addr);
            var pad := Groups(|addr|, 3) * 3 - |addr|;
            && |encoded| == EncodedLength(|addr|)
            && 0 <= pad <= 2
            && ServerBuffer(encoded + [nul], |encoded|) == Success(addr + Repeat(pad, 0))
  {
    hide Encode, Decode, DecodedLength, EncodedLength, DecodeEffect, Inverse, Fit, Rfc4648, Groups;
    var encoded := Encode(Rfc4648(), addr);
    Rfc4648Fits();
    HandoffLengths(|addr|);
    assert (encoded + [nul])[..|encoded|] == encoded;
    BufferRoundTrip(Rfc4648(), addr, DecodedLength(|encoded|));
  }
}
