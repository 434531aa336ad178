/**
 The mnemonic codec (aether-identity/mnemonic.js). SHA-256 is a parameter: nothing is assumed of it
 beyond returning at least one byte. Normalisation is modelled on ASCII tokens, where it only lowers case.
 */
module Mnemonic {
  import opened Arithmetic
  import opened Bits
  import opened Wordspace
  import opened Wrappers

  datatype Mode = Mode256 | Mode2048

  datatype Error = InvalidEntropyLength | EmptyToken | InvalidCharacters | UnknownToken | ChecksumMismatch

  type Hash = seq<byte> -> seq<byte>

  ghost predicate Hashes(sha: Hash) {
    forall data :: |sha(data)| >= 1
  }

  function BitsPerWord(mode: Mode): nat {
    match mode case Mode256 => 8 case Mode2048 => 11
  }

  function ListSize(mode: Mode): nat {
    match mode case Mode256 => 256 case Mode2048 => 2048
  }

  function Token(mode: Mode, i: nat): string
    requires i < ListSize(mode)
  {
    match mode case Mode256 => Base256(i) case Mode2048 => Exp2048(i)
  }

  /** The allowed entropy sizes in bytes, largest first, as the decoder tries them. */
  const SIZES: seq<nat> := [32, 28, 24, 20, 16]

  /** One checksum bit per 32 bits of entropy. */
  function ChecksumBits(size: nat): nat { size / 4 }

  // ---- Specification ----

  function Checksum(entropy: seq<byte>, sha: Hash): seq<bit>
    requires |entropy| in SIZES && |sha(entropy)| >= 1
  {
    BitsOf(sha(entropy)[0], 8)[..ChecksumBits(|entropy|)]
  }

  function Payload(entropy: seq<byte>, sha: Hash): seq<bit>
    requires |entropy| in SIZES && |sha(entropy)| >= 1
  {
    Unpack(entropy, 8) + Checksum(entropy, sha)
  }

  function PadLength(total: nat, bitsPerWord: nat): nat
    requires bitsPerWord > 0
  {
    (bitsPerWord - total % bitsPerWord) % bitsPerWord
  }

  function Padded(bits: seq<bit>, mode: Mode): seq<bit> {
    bits + Zeros(PadLength(|bits|, BitsPerWord(mode)))
  }

  function Indices(entropy: seq<byte>, mode: Mode, sha: Hash): seq<nat>
    requires |entropy| in SIZES && |sha(entropy)| >= 1
  {
    Pack(Padded(Payload(entropy, sha), mode), BitsPerWord(mode))
  }

  predicate InList(indices: seq<nat>, mode: Mode) {
    forall i :: 0 <= i < |indices| ==> indices[i] < ListSize(mode)
  }

  function Words(indices: seq<nat>, mode: Mode): seq<string>
    requires InList(indices, mode)
  {
    seq(|indices|, i requires 0 <= i < |indices| => Token(mode, indices[i]))
  }

  function Encoded(entropy: seq<byte>, mode: Mode, sha: Hash): Result<seq<string>, Error>
    requires |sha(entropy)| >= 1
  {
    if |entropy| !in SIZES then Err(InvalidEntropyLength)
    else
      IndicesInList(entropy, mode, sha);
      Ok(Words(Indices(entropy, mode, sha), mode))
  }

  function Lower(w: string): string {
    seq(|w|, i requires 0 <= i < |w| => if 'A' <= w[i] <= 'Z' then w[i] + ' ' else w[i])
  }

  /** Position of the first list entry from `k` on that equals `slug`. */
  function IndexFrom(slug: string, mode: Mode, k: nat): Result<nat, Error>
    requires k <= ListSize(mode)
    decreases ListSize(mode) - k
  {
    if k == ListSize(mode) then Err(UnknownToken)
    else if Token(mode, k) == slug then Ok(k)
    else IndexFrom(slug, mode, k + 1)
  }

  function TokenIndex(word: string, mode: Mode): Result<nat, Error> {
    var slug := Lower(word);
    if slug == [] then Err(EmptyToken)
    else if exists i :: 0 <= i < |slug| && !TokenChar(slug[i]) then Err(InvalidCharacters)
    else IndexFrom(slug, mode, 0)
  }

  function IndicesOf(words: seq<string>, mode: Mode): Result<seq<nat>, Error> {
    if words == [] then Ok([])
    else
      match TokenIndex(words[0], mode)
      case Err(e) => Err(e)
      case Ok(i) =>
        match IndicesOf(words[1..], mode)
        case Err(e) => Err(e)
        case Ok(rest) => Ok([i] + rest)
  }

  /** Does `size` bytes of entropy fit, and does the checksum that follows it agree? */
  predicate Accepts(bits: seq<bit>, size: nat, sha: Hash)
    requires size in SIZES && Hashes(sha)
  {
    var cs := ChecksumBits(size);
    size * 8 + cs <= |bits| &&
    FromBits(bits[size * 8..size * 8 + cs]) == sha(EntropyIn(bits, size))[0] / Pow2(8 - cs)
  }

  function EntropyIn(bits: seq<bit>, size: nat): seq<byte>
    requires size * 8 <= |bits|
  {
    ByteWords(bits[..size * 8]);
    Pack(bits[..size * 8], 8)
  }

  function DecodedFrom(bits: seq<bit>, sizes: seq<nat>, sha: Hash): Result<seq<byte>, Error>
    requires Hashes(sha) && forall s :: s in sizes ==> s in SIZES
  {
    if sizes == [] then Err(ChecksumMismatch)
    else if Accepts(bits, sizes[0], sha) then Ok(EntropyIn(bits, sizes[0]))
    else DecodedFrom(bits, sizes[1..], sha)
  }

  function Decoded(words: seq<string>, mode: Mode, sha: Hash): Result<seq<byte>, Error>
    requires Hashes(sha)
  {
    match IndicesOf(words, mode)
    case Err(e) => Err(e)
    case Ok(indices) => DecodedFrom(Unpack(indices, BitsPerWord(mode)), SIZES, sha)
  }

  function Reencoded(words: seq<string>, from: Mode, to: Mode, sha: Hash): Result<seq<string>, Error>
    requires Hashes(sha)
  {
    match Decoded(words, from, sha)
    case Err(e) => Err(e)
    case Ok(entropy) => Encoded(entropy, to, sha)
  }

  lemma ByteWords(bits: seq<bit>)
    ensures forall i :: 0 <= i < |Pack(bits, 8)| ==> Pack(bits, 8)[i] < 256
  {
    forall i | 0 <= i < |Pack(bits, 8)| ensures Pack(bits, 8)[i] < 256 {
      PackBound(bits, 8, i);
      assert Pow2(8) == 256;
    }
  }

  lemma WordsFit(mode: Mode)
    ensures Pow2(BitsPerWord(mode)) == ListSize(mode)
  {
    assert Pow2(8) == 256;
    assert Pow2(11) == 8 * Pow2(8);
  }

  lemma IndicesInList(entropy: seq<byte>, mode: Mode, sha: Hash)
    requires |entropy| in SIZES && |sha(entropy)| >= 1
    ensures InList(Indices(entropy, mode, sha), mode)
  {
    WordsFit(mode);
    var bits := Padded(Payload(entropy, sha), mode);
    forall i | 0 <= i < |Indices(entropy, mode, sha)| ensures Indices(entropy, mode, sha)[i] < ListSize(mode) {
      PackBound(bits, BitsPerWord(mode), i);
    }
  }

  function TotalBits(size: nat): nat { size * 8 + ChecksumBits(size) }

  function WordCount(size: nat, mode: Mode): nat {
    (TotalBits(size) + PadLength(TotalBits(size), BitsPerWord(mode))) / BitsPerWord(mode)
  }

  lemma WordCountExact(size: nat, mode: Mode)
    requires size in SIZES
    ensures WordCount(size, mode) * BitsPerWord(mode)
         == TotalBits(size) + PadLength(TotalBits(size), BitsPerWord(mode))
    ensures WordCount(size, Mode2048) * 11 == TotalBits(size)
  {
    PadFills(TotalBits(size), BitsPerWord(mode));
    WholeWords(size);
  }

  /** Eight bits a byte and one more for every four bytes are whole words of eleven. */
  lemma WholeWords(size: nat)
    requires size in SIZES
    ensures WordCount(size, Mode2048) * 11 == TotalBits(size)
  {
    var fours := size / 4;
    assert size == 4 * fours;
    Elevens(TotalBits(size), 3 * fours);
  }

  lemma Elevens(total: nat, words: nat)
    requires total == 11 * words
    ensures (total + PadLength(total, 11)) / 11 * 11 == total
  {
  }

  lemma PaddedLength(entropy: seq<byte>, mode: Mode, sha: Hash)
    requires |entropy| in SIZES && |sha(entropy)| >= 1
    ensures |Payload(entropy, sha)| == TotalBits(|entropy|)
    ensures |Padded(Payload(entropy, sha), mode)| == WordCount(|entropy|, mode) * BitsPerWord(mode)
    ensures |Indices(entropy, mode, sha)| == WordCount(|entropy|, mode)
  {
    hide BitsOf, Unpack, Pack, WordCount, PadLength;
    UnpackLength(entropy, 8);
    assert |Checksum(entropy, sha)| == ChecksumBits(|entropy|);
    WordCountExact(|entropy|, mode);
    PackLength(Padded(Payload(entropy, sha), mode), BitsPerWord(mode), WordCount(|entropy|, mode));
  }

  // ---- The codec's methods ----

  /** Pushes the `width` low bits of `v`, most significant first. */
  method PushBits(bits: seq<bit>, v: nat, width: nat, count: nat) returns (r: seq<bit>)
    requires count <= width
    ensures r == bits + BitsOf(v, width)[..count]
  {
    r := bits;
    for i := width downto width - count
      invariant r == bits + BitsOf(v, width)[..width - i]
    {
      BitsOfAt(v, width, width - 1 - i);
      r := r + [Bit(v, i)];
    }
  }

  method ReadWord(bits: seq<bit>, start: nat, width: nat) returns (v: nat)
    requires start + width <= |bits|
    ensures v == FromBits(bits[start..start + width])
  {
    v := 0;
    for j := 0 to width
      invariant v == FromBits(bits[start..start + j])
    {
      assert bits[start..start + j + 1] == bits[start..start + j] + [bits[start + j]];
      FromBitsSnoc(bits[start..start + j], bits[start + j]);
      v := 2 * v + bits[start + j];
    }
  }

  method ReadWords(bits: seq<bit>, width: nat, ghost count: nat) returns (words: seq<nat>)
    requires width > 0 && |bits| == count * width
    ensures words == Pack(bits, width)
  {
    words := [];
    var i := 0;
    ghost var left := count;
    assert InWords(|bits|, width, left);
    hide InWords;
    assert bits[0..] == bits;
    while i < |bits|
      invariant i <= |bits| && InWords(|bits| - i, width, left)
      invariant words + Pack(bits[i..], width) == Pack(bits, width)
    {
      OneWordFewer(|bits| - i, width, left);
      var v := ReadWord(bits, i, width);
      PackStep(bits, i, width);
      assert words + ([v] + Pack(bits[i + width..], width)) == (words + [v]) + Pack(bits[i + width..], width);
      words := words + [v];
      i := i + width;
      left := left - 1;
    }
  }

  lemma PackStep(bits: seq<bit>, i: nat, width: nat)
    requires width > 0 && i + width <= |bits|
    ensures Pack(bits[i..], width) == [FromBits(bits[i..i + width])] + Pack(bits[i + width..], width)
  {
    hide FromBits, Pack;
    PackFirst(bits[i..], width);
    assert bits[i..][..width] == bits[i..i + width] && bits[i..][width..] == bits[i + width..];
  }

  /** The entropy's bits, then the checksum's. */
  method PayloadBits(entropy: seq<byte>, sha: Hash) returns (bits: seq<bit>)
    requires |entropy| in SIZES && Hashes(sha)
    ensures bits == Payload(entropy, sha)
  {
    hide BitsOf, Pow2;
    var hash := sha(entropy);
    var csBits := ChecksumBits(|entropy|);
    bits := [];
    for k := 0 to |entropy|
      invariant bits == Unpack(entropy[..k], 8)
    {
      UnpackConcat(entropy[..k], [entropy[k]], 8);
      assert entropy[..k + 1] == entropy[..k] + [entropy[k]];
      bits := PushBits(bits, entropy[k], 8, 8);
    }
    assert entropy[..|entropy|] == entropy;
    bits := PushBits(bits, hash[0], 8, csBits);
  }

  /** Zeros up to a whole number of words. */
  method PadBits(payload: seq<bit>, mode: Mode) returns (bits: seq<bit>)
    ensures bits == Padded(payload, mode)
  {
    var bitsPerWord := BitsPerWord(mode);
    var total := |payload|;
    var pad := (bitsPerWord - total % bitsPerWord) % bitsPerWord;
    bits := payload;
    for i := 0 to pad
      invariant bits == payload + Zeros(i)
    {
      bits := bits + [0];
    }
  }

  method EntropyToMnemonic(entropy: seq<byte>, mode: Mode, sha: Hash) returns (r: Result<seq<string>, Error>)
    requires Hashes(sha)
    ensures r == Encoded(entropy, mode, sha)
  {
    hide Payload, Padded, Pack, WordCount, Words, TotalBits;
    if |entropy| !in SIZES {
      return Err(InvalidEntropyLength);
    }
    var bits := PayloadBits(entropy, sha);
    bits := PadBits(bits, mode);
    PaddedLength(entropy, mode, sha);
    var indices := ReadWords(bits, BitsPerWord(mode), WordCount(|entropy|, mode));
    IndicesInList(entropy, mode, sha);
    r := Ok(Words(indices, mode));
  }

  method MnemonicToEntropy(words: seq<string>, mode: Mode, sha: Hash) returns (r: Result<seq<byte>, Error>)
    requires Hashes(sha)
    ensures r == Decoded(words, mode, sha)
  {
    hide BitsOf, Accepts, EntropyIn, IndicesOf;
    var looked := IndicesOf(words, mode);
    if looked.Err? {
      return Err(looked.error);
    }
    var bitsPerWord := BitsPerWord(mode);
    var bits := [];
    for k := 0 to |looked.value|
      invariant bits == Unpack(looked.value[..k], bitsPerWord)
    {
      UnpackConcat(looked.value[..k], [looked.value[k]], bitsPerWord);
      assert looked.value[..k + 1] == looked.value[..k] + [looked.value[k]];
      bits := PushBits(bits, looked.value[k], bitsPerWord, bitsPerWord);
    }
    assert looked.value[..|looked.value|] == looked.value;
    assert SIZES[0..] == SIZES;
    for k := 0 to |SIZES|
      invariant DecodedFrom(bits, SIZES, sha) == DecodedFrom(bits, SIZES[k..], sha)
    {
      assert SIZES[k..][1..] == SIZES[k + 1..];
      var found, bytes := TrySize(bits, SIZES[k], sha);
      if found {
        return Ok(bytes);
      }
    }
    r := Err(ChecksumMismatch);
  }

  method TrySize(bits: seq<bit>, size: nat, sha: Hash) returns (found: bool, bytes: seq<byte>)
    requires Hashes(sha) && size in SIZES
    ensures found == Accepts(bits, size, sha)
    ensures found ==> bytes == EntropyIn(bits, size)
  {
    found, bytes := false, [];
    var csBits := ChecksumBits(size);
    if size * 8 + csBits <= |bits| {
      var words := ReadWords(bits[..size * 8], 8, size);
      ByteWords(bits[..size * 8]);
      bytes := words;
      var expected := sha(bytes)[0] / Pow2(8 - csBits);
      var got := ReadWord(bits, size * 8, csBits);
      found := got == expected;
    }
  }

  method ReencodeMnemonic(words: seq<string>, from: Mode, to: Mode, sha: Hash) returns (r: Result<seq<string>, Error>)
    requires Hashes(sha)
    ensures r == Reencoded(words, from, to, sha)
  {
    var entropy := MnemonicToEntropy(words, from, sha);
    if entropy.Err? {
      return Err(entropy.error);
    }
    r := EntropyToMnemonic(entropy.value, to, sha);
  }
}
