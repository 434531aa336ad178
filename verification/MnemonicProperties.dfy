/** Round trips of the mnemonic codec, what decoding guarantees, and exactly when re-encoding is the identity. */
module MnemonicProperties {
  import opened Bits
  import opened Wordspace
  import opened Mnemonic
  import opened Wrappers

  // ---- Words and indices ----

  lemma TokenIsInjective(mode: Mode, i: nat, j: nat)
    requires i < ListSize(mode) && j < ListSize(mode) && Token(mode, i) == Token(mode, j)
    ensures i == j
  {
    match mode
    case Mode256 => Base256IsInjective(i, j);
    case Mode2048 => Exp2048IsInjective(i, j);
  }

  lemma {:induction false} SearchFindsToken(mode: Mode, i: nat, k: nat)
    requires k <= i < ListSize(mode)
    ensures IndexFrom(Token(mode, i), mode, k) == Ok(i)
    decreases i - k
  {
    hide Token;
    if Token(mode, k) == Token(mode, i) {
      TokenIsInjective(mode, k, i);
    } else {
      SearchFindsToken(mode, i, k + 1);
    }
  }

  lemma {:induction false} SearchIsSound(slug: string, mode: Mode, k: nat)
    requires k <= ListSize(mode) && IndexFrom(slug, mode, k).Ok?
    ensures IndexFrom(slug, mode, k).value < ListSize(mode)
    ensures Token(mode, IndexFrom(slug, mode, k).value) == slug
    decreases ListSize(mode) - k
  {
    hide Token;
    if Token(mode, k) != slug {
      SearchIsSound(slug, mode, k + 1);
    }
  }

  lemma TokenRoundTrip(mode: Mode, i: nat)
    requires i < ListSize(mode)
    ensures TokenIndex(Token(mode, i), mode) == Ok(i)
    ensures Lower(Token(mode, i)) == Token(mode, i)
  {
    var token := Token(mode, i);
    TokenChars(mode, i);
    assert Lower(token) == token;
    SearchFindsToken(mode, i, 0);
  }

  /** `word` is `token` with any of its letters in upper case. */
  ghost predicate CaseVariant(word: string, token: string) {
    && |word| == |token|
    && forall k :: 0 <= k < |word| ==>
         word[k] == token[k] || ('a' <= token[k] <= 'z' && word[k] as int == token[k] as int - 'a' as int + 'A' as int)
  }

  lemma LowerIff(word: string, mode: Mode, i: nat)
    requires i < ListSize(mode)
    ensures Lower(word) == Token(mode, i) <==> CaseVariant(word, Token(mode, i))
  {
    hide Token;
    TokenChars(mode, i);
  }

  /** A word names index `i` exactly when it is that token in some letter case. */
  lemma TokenInAnyCase(word: string, mode: Mode, i: nat)
    requires i < ListSize(mode)
    ensures TokenIndex(word, mode) == Ok(i) <==> Lower(word) == Token(mode, i)
    ensures TokenIndex(word, mode) == Ok(i) <==> CaseVariant(word, Token(mode, i))
  {
    hide Token, Lower, IndexFrom, CaseVariant;
    LowerIff(word, mode, i);
    if Lower(word) == Token(mode, i) {
      TokenChars(mode, i);
      SearchFindsToken(mode, i, 0);
    }
    if TokenIndex(word, mode) == Ok(i) { SearchIsSound(Lower(word), mode, 0); }
  }

  /** A letter, a digit or a separator. */
  predicate Plain(c: char) {
    'a' <= c <= 'z' || 'A' <= c <= 'Z' || '0' <= c <= '9' || c == '~' || c == '-'
  }

  lemma PlainIff(word: string)
    ensures (forall k :: 0 <= k < |word| ==> Plain(word[k]))
       <==> forall k :: 0 <= k < |word| ==> TokenChar(Lower(word)[k])
  {
    forall k | 0 <= k < |word| ensures Plain(word[k]) <==> TokenChar(Lower(word)[k]) {
    }
  }

  /** Why a word is refused: it is empty, or has some other character, or is no token in any letter case. */
  lemma WordErrors(word: string, mode: Mode)
    ensures TokenIndex(word, mode) == Err(EmptyToken) <==> word == []
    ensures TokenIndex(word, mode) == Err(InvalidCharacters) <==> exists k :: 0 <= k < |word| && !Plain(word[k])
    ensures TokenIndex(word, mode).Ok? <==> exists i :: 0 <= i < ListSize(mode) && CaseVariant(word, Token(mode, i))
  {
    hide Token, IndexFrom, CaseVariant;
    PlainIff(word);
    hide Plain, TokenChar, Lower;
    assert |Lower(word)| == |word| by { LowerLength(word); }
    SearchErrors(Lower(word), mode, 0);
    if TokenIndex(word, mode).Ok? {
      SearchIsSound(Lower(word), mode, 0);
      TokenInAnyCase(word, mode, TokenIndex(word, mode).value);
    }
    if i :| 0 <= i < ListSize(mode) && CaseVariant(word, Token(mode, i)) {
      TokenInAnyCase(word, mode, i);
    }
  }

  lemma LowerLength(word: string)
    ensures |Lower(word)| == |word|
  {
  }

  lemma {:induction false} SearchErrors(slug: string, mode: Mode, k: nat)
    requires k <= ListSize(mode)
    ensures IndexFrom(slug, mode, k).Err? ==> IndexFrom(slug, mode, k).error == UnknownToken
    decreases ListSize(mode) - k
  {
    hide Token;
    if k < ListSize(mode) { SearchErrors(slug, mode, k + 1); }
  }

  /** Words are refused for the first bad one among them. */
  lemma {:induction false} FirstBadWord(words: seq<string>, mode: Mode) returns (i: nat)
    requires IndicesOf(words, mode).Err?
    ensures i < |words| && TokenIndex(words[i], mode) == Err(IndicesOf(words, mode).error)
    ensures forall j :: 0 <= j < i ==> TokenIndex(words[j], mode).Ok?
  {
    hide TokenIndex;
    if TokenIndex(words[0], mode).Err? {
      i := 0;
    } else {
      i := FirstBadWord(words[1..], mode);
      i := i + 1;
    }
  }

  lemma TokenChars(mode: Mode, i: nat)
    requires i < ListSize(mode)
    ensures Token(mode, i) != []
    ensures forall k :: 0 <= k < |Token(mode, i)| ==> TokenChar(Token(mode, i)[k])
  {
    match mode
    case Mode256 => Base256Chars(i);
    case Mode2048 => Exp2048Chars(i);
  }

  lemma {:induction false} IndicesOfWords(indices: seq<nat>, mode: Mode)
    requires InList(indices, mode)
    ensures IndicesOf(Words(indices, mode), mode) == Ok(indices)
  {
    hide Token, TokenIndex;
    if indices == [] {
    } else {
      TokenRoundTrip(mode, indices[0]);
      IndicesOfWords(indices[1..], mode);
      assert Words(indices, mode)[1..] == Words(indices[1..], mode);
      assert [indices[0]] + indices[1..] == indices;
    }
  }

  /** Every recognised word is a list token, up to case. */
  lemma {:induction false} WordsOfIndices(words: seq<string>, mode: Mode)
    requires IndicesOf(words, mode).Ok?
    ensures InList(IndicesOf(words, mode).value, mode)
    ensures |IndicesOf(words, mode).value| == |words|
    ensures forall i :: 0 <= i < |words| ==> Token(mode, IndicesOf(words, mode).value[i]) == Lower(words[i])
  {
    hide Token;
    if words == [] {
    } else {
      SearchIsSound(Lower(words[0]), mode, 0);
      WordsOfIndices(words[1..], mode);
    }
  }

  // ---- The checksum ----

  lemma LeadingValue(v: byte, cs: nat)
    requires 4 <= cs <= 8
    ensures v / Pow2(8 - cs) < Pow2(cs)
    ensures BitsOf(v, 8)[..cs] == BitsOf(v / Pow2(8 - cs), cs)
    ensures FromBits(BitsOf(v, 8)[..cs]) == v / Pow2(8 - cs)
  {
    assert Pow2(0) == 1 && Pow2(1) == 2 && Pow2(2) == 4 && Pow2(3) == 8 && Pow2(4) == 16;
    assert Pow2(5) == 32 && Pow2(6) == 64 && Pow2(7) == 128 && Pow2(8) == 256;
    LeadingBits(v, 8, cs);
    FromBitsOf(v / Pow2(8 - cs), cs);
  }

  // ---- Round trip ----

  ghost predicate Encodable(entropy: seq<byte>, sha: Hash) {
    |entropy| in SIZES && Hashes(sha)
  }

  lemma PayloadIsAccepted(entropy: seq<byte>, pad: seq<bit>, sha: Hash)
    requires Encodable(entropy, sha)
    ensures Accepts(Payload(entropy, sha) + pad, |entropy|, sha)
    ensures EntropyIn(Payload(entropy, sha) + pad, |entropy|) == entropy
  {
    hide Pack, Unpack, BitsOf, FromBits;
    var size, cs := |entropy|, ChecksumBits(|entropy|);
    var bits := Payload(entropy, sha) + pad;
    UnpackLength(entropy, 8);
    assert bits[..size * 8] == Unpack(entropy, 8);
    assert Pow2(8) == 256;
    PackUnpack(entropy, 8);
    assert bits[size * 8..size * 8 + cs] == Checksum(entropy, sha);
    LeadingValue(sha(entropy)[0], cs);
  }

  lemma LargerSizesDoNotFit(size: nat, larger: nat, mode: Mode)
    requires size in SIZES && larger in SIZES && larger > size
    ensures TotalBits(larger) > TotalBits(size) + PadLength(TotalBits(size), BitsPerWord(mode))
  {
  }

  lemma {:induction false} RejectedSizesAreSkipped(bits: seq<bit>, k: nat, sha: Hash)
    requires Hashes(sha) && k <= |SIZES|
    requires forall j :: 0 <= j < k ==> !Accepts(bits, SIZES[j], sha)
    ensures DecodedFrom(bits, SIZES, sha) == DecodedFrom(bits, SIZES[k..], sha)
  {
    hide Accepts;
    if k == 0 {
      assert SIZES[0..] == SIZES;
    } else {
      RejectedSizesAreSkipped(bits, k - 1, sha);
      assert SIZES[k - 1..][1..] == SIZES[k..];
    }
  }

  /** The downward search stops at the right size whatever the padding bits are. */
  lemma PaddingIsIgnored(entropy: seq<byte>, mode: Mode, pad: seq<bit>, sha: Hash)
    requires Encodable(entropy, sha)
    requires |pad| == PadLength(TotalBits(|entropy|), BitsPerWord(mode))
    ensures DecodedFrom(Payload(entropy, sha) + pad, SIZES, sha) == Ok(entropy)
  {
    hide Accepts, Unpack;
    var bits := Payload(entropy, sha) + pad;
    UnpackLength(entropy, 8);
    var k :| 0 <= k < |SIZES| && SIZES[k] == |entropy|;
    forall j | 0 <= j < k ensures !Accepts(bits, SIZES[j], sha) {
      LargerSizesDoNotFit(|entropy|, SIZES[j], mode);
      TooShort(bits, SIZES[j], sha);
    }
    RejectedSizesAreSkipped(bits, k, sha);
    PayloadIsAccepted(entropy, pad, sha);
  }

  lemma TooShort(bits: seq<bit>, size: nat, sha: Hash)
    requires Hashes(sha) && size in SIZES && |bits| < TotalBits(size)
    ensures !Accepts(bits, size, sha)
  {
  }

  lemma EncodedBits(entropy: seq<byte>, mode: Mode, sha: Hash)
    requires Encodable(entropy, sha)
    ensures InList(Indices(entropy, mode, sha), mode)
    ensures Encoded(entropy, mode, sha) == Ok(Words(Indices(entropy, mode, sha), mode))
    ensures IndicesOf(Words(Indices(entropy, mode, sha), mode), mode) == Ok(Indices(entropy, mode, sha))
    ensures Unpack(Indices(entropy, mode, sha), BitsPerWord(mode)) == Padded(Payload(entropy, sha), mode)
  {
    hide Pack, Unpack, Payload, IndicesOf, Token;
    IndicesInList(entropy, mode, sha);
    IndicesOfWords(Indices(entropy, mode, sha), mode);
    PaddedLength(entropy, mode, sha);
    UnpackPack(Padded(Payload(entropy, sha), mode), BitsPerWord(mode), WordCount(|entropy|, mode));
  }

  /** Decoding an encoded mnemonic returns the entropy, in both modes and at every allowed size. */
  lemma RoundTrip(entropy: seq<byte>, mode: Mode, sha: Hash)
    requires Encodable(entropy, sha)
    ensures Encoded(entropy, mode, sha).Ok?
    ensures Decoded(Encoded(entropy, mode, sha).value, mode, sha) == Ok(entropy)
  {
    hide Pack, Unpack, Payload, IndicesOf, Token, DecodedFrom, Indices;
    EncodedBits(entropy, mode, sha);
    PaddedLength(entropy, mode, sha);
    PaddingIsIgnored(entropy, mode, Zeros(PadLength(TotalBits(|entropy|), BitsPerWord(mode))), sha);
  }

  /** Re-encoding a generated mnemonic gives the other mode's mnemonic, and re-encoding that gives it back. */
  lemma ReencodeRoundTrip(entropy: seq<byte>, from: Mode, to: Mode, sha: Hash)
    requires Encodable(entropy, sha)
    ensures
      var words := Encoded(entropy, from, sha).value;
      var there := Reencoded(words, from, to, sha);
      && there == Encoded(entropy, to, sha)
      && there.Ok?
      && Reencoded(there.value, to, from, sha) == Ok(words)
  {
    hide Encoded, Decoded;
    RoundTrip(entropy, from, sha);
    RoundTrip(entropy, to, sha);
  }

  // ---- What decoding guarantees of any words at all ----

  lemma AcceptedIsPayload(bits: seq<bit>, size: nat, sha: Hash)
    requires Hashes(sha) && size in SIZES && Accepts(bits, size, sha)
    ensures |EntropyIn(bits, size)| == size
    ensures TotalBits(size) <= |bits|
    ensures bits[..TotalBits(size)] == Payload(EntropyIn(bits, size), sha)
  {
    hide Pack, Unpack, BitsOf, FromBits;
    var entropy, cs := EntropyIn(bits, size), ChecksumBits(size);
    PackLength(bits[..size * 8], 8, size);
    UnpackPack(bits[..size * 8], 8, size);
    var tail := bits[size * 8..size * 8 + cs];
    LeadingValue(sha(entropy)[0], cs);
    BitsOfFrom(tail);
    assert tail == Checksum(entropy, sha);
    assert bits[..TotalBits(size)] == bits[..size * 8] + tail;
  }

  lemma {:induction false} DecodedIsAccepted(bits: seq<bit>, sizes: seq<nat>, sha: Hash)
    requires Hashes(sha) && forall s :: s in sizes ==> s in SIZES
    requires DecodedFrom(bits, sizes, sha).Ok?
    ensures exists size :: size in sizes && Accepts(bits, size, sha)
                        && DecodedFrom(bits, sizes, sha) == Ok(EntropyIn(bits, size))
  {
    hide Accepts;
    if Accepts(bits, sizes[0], sha) {
      assert sizes[0] in sizes;
    } else {
      DecodedIsAccepted(bits, sizes[1..], sha);
    }
  }

  /** Whatever words are accepted, their leading bits are the entropy returned and its checksum. */
  lemma DecodeIsSound(words: seq<string>, mode: Mode, sha: Hash)
    requires Hashes(sha) && Decoded(words, mode, sha).Ok?
    ensures
      var entropy := Decoded(words, mode, sha).value;
      && Encodable(entropy, sha)
      && IndicesOf(words, mode).Ok?
      && Payload(entropy, sha) <= Unpack(IndicesOf(words, mode).value, BitsPerWord(mode))
  {
    hide Payload, EntropyIn, Unpack, IndicesOf;
    var bits := Unpack(IndicesOf(words, mode).value, BitsPerWord(mode));
    DecodedIsAccepted(bits, SIZES, sha);
    var size :| size in SIZES && Accepts(bits, size, sha) && DecodedFrom(bits, SIZES, sha) == Ok(EntropyIn(bits, size));
    AcceptedIsPayload(bits, size, sha);
  }

  /** The words are as the encoder writes them: lower case, no surplus words, zero padding. */
  ghost predicate Canonical(words: seq<string>, size: nat, mode: Mode) {
    && IndicesOf(words, mode).Ok?
    && (forall i :: 0 <= i < |words| ==> Lower(words[i]) == words[i])
    && |words| == WordCount(size, mode)
    && var bits := Unpack(IndicesOf(words, mode).value, BitsPerWord(mode));
       forall i :: TotalBits(size) <= i < |bits| ==> bits[i] == 0
  }

  /**
   An accepted mnemonic re-encodes to itself exactly when it is canonical: the decoder checks neither
   letter case, nor the word count, nor the padding bits.
   */
  lemma ReencodeIsIdentityIffCanonical(words: seq<string>, mode: Mode, sha: Hash)
    requires Hashes(sha) && Decoded(words, mode, sha).Ok?
    ensures Reencoded(words, mode, mode, sha) == Ok(words)
       <==> Canonical(words, |Decoded(words, mode, sha).value|, mode)
  {
    hide Pack, Unpack, Payload, IndicesOf, Token, DecodedFrom, Decoded, Lower, Indices, TokenIndex, WordCount,
        PadLength, BitsPerWord;
    var entropy := Decoded(words, mode, sha).value;
    DecodeIsSound(words, mode, sha);
    EncodedBits(entropy, mode, sha);
    PaddedLength(entropy, mode, sha);
    var expected := Words(Indices(entropy, mode, sha), mode);
    assert Reencoded(words, mode, mode, sha) == Ok(expected);
    if words == expected {
      EncodedIsCanonical(entropy, mode, sha);
    }
    if Canonical(words, |entropy|, mode) {
      CanonicalIsEncoded(words, entropy, mode, sha);
    }
  }

  lemma EncodedIsCanonical(entropy: seq<byte>, mode: Mode, sha: Hash)
    requires Encodable(entropy, sha)
    ensures Encoded(entropy, mode, sha).Ok?
    ensures Canonical(Encoded(entropy, mode, sha).value, |entropy|, mode)
  {
    hide Pack, Unpack, Payload, IndicesOf, Token, Lower, Indices, WordCount, PadLength, BitsPerWord;
    EncodedBits(entropy, mode, sha);
    PaddedLength(entropy, mode, sha);
    var indices := Indices(entropy, mode, sha);
    var words := Words(indices, mode);
    forall i | 0 <= i < |words| ensures Lower(words[i]) == words[i] {
      TokenRoundTrip(mode, indices[i]);
    }
  }

  lemma CanonicalIsEncoded(words: seq<string>, entropy: seq<byte>, mode: Mode, sha: Hash)
    requires Encodable(entropy, sha) && Canonical(words, |entropy|, mode)
    requires Payload(entropy, sha) <= Unpack(IndicesOf(words, mode).value, BitsPerWord(mode))
    ensures Encoded(entropy, mode, sha) == Ok(words)
  {
    hide Pack, Unpack, Payload, IndicesOf, Token, Lower, WordCount, PadLength, BitsPerWord;
    var indices := IndicesOf(words, mode).value;
    var bits := Unpack(indices, BitsPerWord(mode));
    WordsOfIndices(words, mode);
    WordsFit(mode);
    UnpackLength(indices, BitsPerWord(mode));
    PaddedLength(entropy, mode, sha);
    assert bits == Padded(Payload(entropy, sha), mode);
    PackUnpack(indices, BitsPerWord(mode));
    EncodedBits(entropy, mode, sha);
    assert Indices(entropy, mode, sha) == indices;
    assert Words(indices, mode) == words;
  }
}
