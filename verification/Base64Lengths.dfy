/** The length formulas of the codec in 64-bit unsigned arithmetic. */
module Base64Lengths {

  const WORD: nat := 0x1_0000_0000_0000_0000
  /** The largest object a C implementation with 64-bit pointers provides. */
  const OBJECT_MAX: nat := 0x7fff_ffff_ffff_ffff

  type size_t = n: nat | n < WORD

  /** base64_encoded_length; every intermediate result is reduced modulo 2^64. */
  function EncodedLength(srclen: size_t): size_t {
    (srclen + 2) % WORD / 3 * 4 % WORD
  }

  /** base64_decoded_length. */
  function DecodedLength(srclen: size_t): size_t {
    (srclen + 3) % WORD / 4 * 3 % WORD
  }

  /** The number of groups of k that n things fill, the last one perhaps partly. */
  function Groups(n: nat, k: nat): nat
    requires k > 0
  {
    (n + k - 1) / k
  }

  /** The encoded length is four characters a group exactly up to 3 * (2^62 - 1) octets. */
  lemma EncodedLengthExact(n: size_t)
    ensures EncodedLength(n) == Groups(n, 3) * 4 <==> n <= 3 * (0x4000_0000_0000_0000 - 1)
  {
  }

  /** The decoded length is three octets a group exactly up to 2^64 - 4 characters. */
  lemma DecodedLengthExact(n: size_t)
    ensures DecodedLength(n) == Groups(n, 4) * 3 <==> n <= WORD - 4
  {
  }

  /** A buffer sized for decoding an encoding holds the least multiple of three that is enough. */
  lemma DecodedLengthOfEncoding(n: size_t)
    requires n <= 3 * (0x4000_0000_0000_0000 - 1)
    ensures var d := DecodedLength(EncodedLength(n));
            && d % 3 == 0 && n <= d < n + 3
            && forall e | e % 3 == 0 && n <= e :: d <= e
  {
    EncodedLengthExact(n);
    DecodedLengthExact(EncodedLength(n));
    assert DecodedLength(EncodedLength(n)) == Groups(n, 3) * 3;
  }
}
