/**
 The mnemonic as a number (aether-identity/mnemonic.js): its words, read as digits in the canonical list, spell the
 entropy read as a big-endian number, followed by the checksum and by zeros up to a whole word.
 */
module MnemonicNumber {
  import opened Arithmetic
  import opened Bits
  import opened Wordspace
  import opened Mnemonic
  import opened MnemonicProperties
  import opened Wrappers

  function Number(digits: seq<nat>, base: nat): nat {
    if digits == [] then 0 else Number(digits[..|digits| - 1], base) * base + digits[|digits| - 1]
  }

  /** Bits of a word, and words of the list. */
  function WordSize(mode: Mode): nat {
    match mode case Mode256 => 8 case Mode2048 => 11
  }

  function Base(mode: Mode): nat {
    match mode case Mode256 => 256 case Mode2048 => 2048
  }

  /** The words are the tokens at these places of the list. */
  ghost predicate Spells(words: seq<string>, digits: seq<nat>, mode: Mode) {
    && |words| == |digits|
    && forall k :: 0 <= k < |words| ==> digits[k] < Base(mode) && words[k] == Token(mode, digits[k])
  }

  // ---- Bits as numbers ----

  lemma {:induction false} FromBitsConcat(a: seq<bit>, b: seq<bit>)
    ensures FromBits(a + b) == FromBits(a) * Pow2(|b|) + FromBits(b)
  {
    if b == [] {
      assert a + b == a;
    } else {
      var last := |b| - 1;
      FromBitsConcat(a, b[..last]);
      assert (a + b[..last]) + [b[last]] == a + b;
      FromBitsSnoc(a + b[..last], b[last]);
      Doubled(FromBits(a), Pow2(last));
    }
  }

  lemma Doubled(x: nat, y: nat)
    ensures 2 * (x * y) == x * (2 * y)
  {
  }

  lemma {:induction false} NumberOfBits(values: seq<nat>, width: nat)
    requires forall i :: 0 <= i < |values| ==> values[i] < Pow2(width)
    ensures Number(values, Pow2(width)) == FromBits(Unpack(values, width))
  {
    if values == [] {
    } else {
      var front, last := values[..|values| - 1], values[|values| - 1];
      NumberOfBits(front, width);
      UnpackConcat(front, [last], width);
      assert values == front + [last];
      UnpackFirst(last, [], width);
      assert [last] + [] == [last] && BitsOf(last, width) + [] == BitsOf(last, width);
      FromBitsConcat(Unpack(front, width), BitsOf(last, width));
      FromBitsOf(last, width);
    }
  }

  lemma {:induction false} ZerosAreZero(n: nat)
    ensures FromBits(Zeros(n)) == 0
  {
    if n == 0 {
    } else {
      assert Zeros(n)[..n - 1] == Zeros(n - 1);
      ZerosAreZero(n - 1);
    }
  }

  // ---- Encoding and decoding ----

  /** The entropy, and then the leading bits of its hash, one for every four bytes. */
  function WithChecksum(entropy: seq<byte>, sha: Hash): nat
    requires |sha(entropy)| >= 1
  {
    var room := Pow2(|entropy| / 4);
    Number(entropy, 256) * room + sha(entropy)[0] * room / 256
  }

  lemma PayloadNumber(entropy: seq<byte>, sha: Hash)
    requires |entropy| in SIZES && |sha(entropy)| >= 1
    ensures FromBits(Payload(entropy, sha)) == WithChecksum(entropy, sha)
  {
    var cs, h := |entropy| / 4, sha(entropy)[0];
    assert Pow2(8) == 256;
    NumberOfBits(entropy, 8);
    FromBitsConcat(Unpack(entropy, 8), Checksum(entropy, sha));
    LeadingValue(h, cs);
    TopBits(h, cs);
  }

  lemma TopBits(h: byte, cs: nat)
    requires 4 <= cs <= 8
    ensures h / Pow2(8 - cs) == h * Pow2(cs) / 256
  {
    assert Pow2(0) == 1 && Pow2(1) == 2 && Pow2(2) == 4 && Pow2(3) == 8 && Pow2(4) == 16;
    assert Pow2(5) == 32 && Pow2(6) == 64 && Pow2(7) == 128 && Pow2(8) == 256;
  }

  lemma DigitsOfWords(digits: seq<nat>, mode: Mode)
    requires InList(digits, mode)
    ensures Number(digits, Base(mode)) == FromBits(Unpack(digits, WordSize(mode)))
  {
    hide Unpack, FromBits, Number;
    WordsFit(mode);
    NumberOfBits(digits, WordSize(mode));
  }

  /** Encoding writes the entropy, the leading bits of its hash and fewer zeros than a word has, as one number. */
  lemma MnemonicIsNumber(entropy: seq<byte>, mode: Mode, sha: Hash) returns (digits: seq<nat>)
    requires Encodable(entropy, sha)
    ensures Encoded(entropy, mode, sha).Ok? && Spells(Encoded(entropy, mode, sha).value, digits, mode)
    ensures
      var pad := |digits| * WordSize(mode) - |entropy| * 8 - |entropy| / 4;
      && 0 <= pad < WordSize(mode)
      && Number(digits, Base(mode)) == WithChecksum(entropy, sha) * Pow2(pad)
  {
    hide Indices, Unpack, Payload, Number, FromBits, Token, Pow2, IndicesOf, WordCount, PadLength, WithChecksum,
         Encoded, Padded;
    digits := Indices(entropy, mode, sha);
    EncodedBits(entropy, mode, sha);
    DigitsOfWords(digits, mode);
    PaddedPayload(entropy, mode, sha);
    PayloadNumber(entropy, sha);
  }

  lemma PaddedPayload(entropy: seq<byte>, mode: Mode, sha: Hash)
    requires Encodable(entropy, sha)
    ensures
      var pad := |Indices(entropy, mode, sha)| * WordSize(mode) - |entropy| * 8 - |entropy| / 4;
      && 0 <= pad < WordSize(mode)
      && FromBits(Padded(Payload(entropy, sha), mode)) == FromBits(Payload(entropy, sha)) * Pow2(pad)
  {
    hide Indices, Payload, FromBits, WordCount, Pow2, Zeros;
    PaddedLength(entropy, mode, sha);
    var payload := Payload(entropy, sha);
    var pad := PadLength(|payload|, BitsPerWord(mode));
    hide PadLength;
    FromBitsConcat(payload, Zeros(pad));
    ZerosAreZero(pad);
  }

  /** A number of so many bits begins with the entropy and its checksum. */
  ghost predicate Begins(number: nat, size: nat, entropy: seq<byte>, sha: Hash)
    requires Hashes(sha)
  {
    var extra := size - |entropy| * 8 - |entropy| / 4;
    extra >= 0 && number / Pow2(extra) == WithChecksum(entropy, sha)
  }

  function AllLower(words: seq<string>): seq<string> {
    seq(|words|, k requires 0 <= k < |words| => Lower(words[k]))
  }

  /** What is accepted, in any letter case, is that number with any bits at all after the checksum. */
  lemma AcceptedIsNumber(words: seq<string>, entropy: seq<byte>, mode: Mode, sha: Hash) returns (digits: seq<nat>)
    requires Hashes(sha) && Decoded(words, mode, sha) == Ok(entropy)
    ensures Spells(AllLower(words), digits, mode)
    ensures Begins(Number(digits, Base(mode)), |digits| * WordSize(mode), entropy, sha)
  {
    hide Unpack, Payload, Number, FromBits, Token, Pow2, IndicesOf, Decoded, Lower, Begins;
    DecodeIsSound(words, mode, sha);
    digits := IndicesOf(words, mode).value;
    WordsOfIndices(words, mode);
    DigitsOfWords(digits, mode);
    AcceptedBits(entropy, digits, mode, sha);
  }

  lemma AcceptedBits(entropy: seq<byte>, digits: seq<nat>, mode: Mode, sha: Hash)
    requires Encodable(entropy, sha) && Payload(entropy, sha) <= Unpack(digits, BitsPerWord(mode))
    ensures Begins(FromBits(Unpack(digits, WordSize(mode))), |digits| * WordSize(mode), entropy, sha)
  {
    hide Unpack, Payload, FromBits, Pow2, WithChecksum, TotalBits;
    PayloadNumber(entropy, sha);
    UnpackLength(digits, WordSize(mode));
    PayloadSize(entropy, sha);
    LeadingNumber(Payload(entropy, sha), Unpack(digits, WordSize(mode)));
  }

  lemma PayloadSize(entropy: seq<byte>, sha: Hash)
    requires Encodable(entropy, sha)
    ensures |Payload(entropy, sha)| == |entropy| * 8 + |entropy| / 4
  {
    PaddedLength(entropy, Mode256, sha);
  }

  lemma LeadingNumber(front: seq<bit>, bits: seq<bit>)
    requires front <= bits
    ensures FromBits(bits) / Pow2(|bits| - |front|) == FromBits(front)
  {
    hide FromBits, Pow2;
    var rest := bits[|front|..];
    assert bits == front + rest;
    FromBitsConcat(front, rest);
    FromBitsBound(rest);
    QuotientUnique(FromBits(bits), Pow2(|rest|), FromBits(front), FromBits(rest));
  }

  // ---- What is accepted at all ----

  lemma {:induction false} FirstAccepted(bits: seq<bit>, k: nat, sha: Hash)
    requires Hashes(sha) && k < |SIZES| && Accepts(bits, SIZES[k], sha)
    ensures DecodedFrom(bits, SIZES, sha).Ok? && |DecodedFrom(bits, SIZES, sha).value| >= SIZES[k]
  {
    hide Accepts, EntropyIn;
    if j :| 0 <= j < k && Accepts(bits, SIZES[j], sha) {
      FirstAccepted(bits, j, sha);
    } else {
      RejectedSizesAreSkipped(bits, k, sha);
      AcceptedIsPayload(bits, SIZES[k], sha);
    }
  }

  /** Numbers of as many bits that are equal have the same bits. */
  lemma SameNumberSameBits(a: seq<bit>, b: seq<bit>)
    requires |a| == |b| && FromBits(a) == FromBits(b)
    ensures a == b
  {
    hide FromBits, BitsOf;
    BitsOfFrom(a);
    BitsOfFrom(b);
  }

  lemma BeginsWithPayload(bits: seq<bit>, entropy: seq<byte>, sha: Hash)
    requires Encodable(entropy, sha) && Begins(FromBits(bits), |bits|, entropy, sha)
    ensures Payload(entropy, sha) <= bits
  {
    hide FromBits, Payload, Pow2, WithChecksum;
    PayloadSize(entropy, sha);
    PayloadNumber(entropy, sha);
    var n := |Payload(entropy, sha)|;
    LeadingNumber(bits[..n], bits);
    SameNumberSameBits(bits[..n], Payload(entropy, sha));
  }

  lemma PayloadDecodes(bits: seq<bit>, entropy: seq<byte>, sha: Hash)
    requires Encodable(entropy, sha) && Payload(entropy, sha) <= bits
    ensures DecodedFrom(bits, SIZES, sha).Ok? && |DecodedFrom(bits, SIZES, sha).value| >= |entropy|
  {
    hide Payload, Accepts, DecodedFrom;
    var pad := bits[|Payload(entropy, sha)|..];
    assert bits == Payload(entropy, sha) + pad;
    PayloadIsAccepted(entropy, pad, sha);
    var k :| 0 <= k < |SIZES| && SIZES[k] == |entropy|;
    FirstAccepted(bits, k, sha);
  }

  /** Words whose number begins with some entropy and its checksum are accepted, as that or as a longer one. */
  lemma BeginningIsAccepted(words: seq<string>, entropy: seq<byte>, mode: Mode, sha: Hash)
    requires Encodable(entropy, sha) && IndicesOf(words, mode).Ok?
    requires
      var digits := IndicesOf(words, mode).value;
      Begins(Number(digits, Base(mode)), |digits| * WordSize(mode), entropy, sha)
    ensures Decoded(words, mode, sha).Ok? && |Decoded(words, mode, sha).value| >= |entropy|
  {
    hide Unpack, FromBits, IndicesOf, Begins, Payload, DecodedFrom, Number, Token;
    var digits := IndicesOf(words, mode).value;
    WordsOfIndices(words, mode);
    DigitsOfWords(digits, mode);
    UnpackLength(digits, WordSize(mode));
    BeginsWithPayload(Unpack(digits, WordSize(mode)), entropy, sha);
    PayloadDecodes(Unpack(digits, WordSize(mode)), entropy, sha);
  }
}
