/**
 The 25-word encoding of a secret share (frost_backup/src/share_backup.rs).

 A backup is 275 bits: the scalar, an 8-bit polynomial checksum and an 11-bit checksum of the rest.
 Machine words are naturals; `Shr`, `Mask` and `SetBit` say what `>>`, `& ((1 << n) - 1)` and
 `|= 1 << n` do to them, and shifting in zeros followed by an or of smaller bits is written as a
 product and a sum.
 */
module ShareBackup {
  import opened Common
  import opened Bits

  const NUM_WORDS := 25
  const SCALAR_BITS := 256
  const WORDS_CHECKSUM_START := 264
  const TOTAL_BITS := 275

  // The order of the group: scalars are the naturals below it.
  const GROUP_ORDER: nat := 0xFFFFFFFF_FFFFFFFF_FFFFFFFF_FFFFFFFE_BAAEDCE6_AF48A03B_BFD25E8C_D0364141

  type Word = x: nat | x < 2048

  // index, scalar, polynomial checksum: the first 11 bits of their hash
  type Checksum = (nat, nat, nat) -> Word

  datatype Backup = Backup(index: nat, scalar: nat, polyChecksum: nat)

  datatype BackupError = InvalidBip39Word(wordIndex: nat, word: string) | WordsChecksumFailed | InvalidShareIndex

  datatype Result = Ok(backup: Backup) | Err(error: BackupError)

  // A canonical scalar, an 8-bit checksum and a non-zero u32 index.
  ghost predicate ValidBackup(b: Backup) {
    0 < b.index <= U32_MAX && b.scalar < GROUP_ORDER && b.polyChecksum < 256
  }

  // ---------------------------------------------------------------------------------------------
  // Words and bytes as strings of bits

  function WordBits(words: seq<nat>): (b: seq<nat>)
    ensures |b| == 11 * |words| && AreBits(b)
  {
    if words == [] then [] else WordBits(words[..|words| - 1]) + BitsOf(words[|words| - 1], 11)
  }

  function ByteBits(bytes: seq<nat>): (b: seq<nat>)
    ensures |b| == 8 * |bytes| && AreBits(b)
  {
    if bytes == [] then [] else ByteBits(bytes[..|bytes| - 1]) + BitsOf(bytes[|bytes| - 1], 8)
  }

  lemma Appended(words: seq<nat>, x: nat)
    ensures WordBits(words + [x]) == WordBits(words) + BitsOf(x, 11)
    ensures ByteBits(words + [x]) == ByteBits(words) + BitsOf(x, 8)
  {
    assert (words + [x])[..|words|] == words;
  }

  lemma {:induction false} WordBitAt(words: seq<nat>, w: nat, i: nat)
    requires w < |words| && i < 11
    ensures WordBits(words)[11 * w + i] == BitsOf(words[w], 11)[i]
  {
    if w < |words| - 1 {
      WordBitAt(words[..|words| - 1], w, i);
    }
  }

  lemma {:induction false} WordBitsAreInjective(a: seq<nat>, b: seq<nat>)
    requires |a| == |b| && WordBits(a) == WordBits(b)
    requires forall i :: 0 <= i < |a| ==> a[i] < 2048 && b[i] < 2048
    ensures a == b
  {
    if a != [] {
      var n := |a| - 1;
      LastWordBits(a);
      LastWordBits(b);
      WordBitsAreInjective(a[..n], b[..n]);
      WordIsItsBits(a[n], b[n]);
      assert a == a[..n] + [a[n]] && b == b[..n] + [b[n]];
    }
  }

  lemma WordIsItsBits(x: nat, y: nat)
    requires x < 2048 && y < 2048 && BitsOf(x, 11) == BitsOf(y, 11)
    ensures x == y
  {
    Widths();
    ValueOfBits(x, 11);
    ValueOfBits(y, 11);
  }

  lemma LastWordBits(a: seq<nat>)
    requires a != []
    ensures var n := |a| - 1;
            WordBits(a)[..11 * n] == WordBits(a[..n]) && WordBits(a)[11 * n..] == BitsOf(a[n], 11)
  {
  }

  lemma Widths()
    ensures Pow2(3) == 8 && Pow2(8) == 256 && Pow2(11) == 2048
  {
    assert Pow2(4) == 16;
    assert Pow2(8) == 256;
  }

  lemma GroupOrderFits()
    ensures GROUP_ORDER < Pow2(256)
  {
    Widths();
    PowSplits(8, 8);
    assert Pow2(16) == 0x1_0000;
    PowSplits(16, 16);
    assert Pow2(32) == 0x1_0000_0000;
    PowSplits(32, 32);
    assert Pow2(64) == 0x1_0000_0000_0000_0000;
    PowSplits(64, 64);
    assert Pow2(128) == 0x1_0000_0000_0000_0000_0000_0000_0000_0000;
    PowSplits(128, 128);
  }

  // The i-th group of eight bits.
  function EightBits(bits: seq<nat>, i: nat): (b: seq<nat>)
    requires 8 * i + 8 <= |bits|
    ensures |b| == 8
  {
    bits[8 * i..8 * i + 8]
  }

  // The big-endian bytes of a number.
  function ToBytes(x: nat, n: nat): (b: seq<nat>)
    ensures |b| == n
  {
    seq(n, i requires 0 <= i < n => Value(EightBits(BitsOf(x, 8 * n), i)))
  }

  lemma ByteOfBits(b: seq<nat>)
    requires AreBits(b) && |b| == 8
    ensures BitsOf(Value(b), 8) == b && Value(b) < 256
  {
    Widths();
    BitsOfValue(b);
  }

  lemma {:induction false} ByteSlices(bits: seq<nat>, bytes: seq<nat>)
    requires AreBits(bits) && |bits| == 8 * |bytes|
    requires forall i :: 0 <= i < |bytes| ==> bytes[i] == Value(EightBits(bits, i))
    ensures ByteBits(bytes) == bits
  {
    if bytes != [] {
      var n := |bytes| - 1;
      var init, last := bits[..8 * n], EightBits(bits, n);
      forall i | 0 <= i < n ensures bytes[..n][i] == Value(EightBits(init, i)) {
        assert EightBits(init, i) == EightBits(bits, i);
      }
      ByteSlices(init, bytes[..n]);
      ByteOfBits(last);
      Appended(bytes[..n], bytes[n]);
      assert bytes == bytes[..n] + [bytes[n]];
      assert bits == init + last;
    }
  }

  lemma BytesAreBits(x: nat, n: nat)
    ensures ByteBits(ToBytes(x, n)) == BitsOf(x, 8 * n)
    ensures forall i :: 0 <= i < n ==> ToBytes(x, n)[i] < 256
  {
    var bits := BitsOf(x, 8 * n);
    ByteSlices(bits, ToBytes(x, n));
    forall i | 0 <= i < n ensures ToBytes(x, n)[i] < 256 {
      ByteOfBits(EightBits(bits, i));
    }
  }

  // ---------------------------------------------------------------------------------------------
  // Encoding

  // What the words of a backup spell.
  function BackupBits(c: Checksum, b: Backup): (r: seq<nat>)
    ensures |r| == TOTAL_BITS
  {
    BitsOf(b.scalar, 256) + BitsOf(b.polyChecksum, 8) + BitsOf(c(b.index, b.scalar, b.polyChecksum), 11)
  }

  // The words so far and the accumulator hold the bits of the bytes so far.
  ghost predicate Holds(words: seq<nat>, acc: nat, bits: nat, bytes: seq<nat>) {
    && acc < Pow2(bits) && 11 * |words| + bits == 8 * |bytes|
    && (forall i :: 0 <= i < |words| ==> words[i] < 2048)
    && WordBits(words) + BitsOf(acc, bits) == ByteBits(bytes)
  }

  /** `to_word_indices`: the words are exactly the 11-bit slices of scalar, checksum, words checksum. */
  method ToWordIndices(c: Checksum, b: Backup) returns (words: seq<nat>)
    requires ValidBackup(b)
    ensures |words| == NUM_WORDS && forall i :: 0 <= i < NUM_WORDS ==> words[i] < 2048
    ensures WordBits(words) == BackupBits(c, b)
  {
    BytesAreBits(b.scalar, 32);
    var wordsChecksum := c(b.index, b.scalar, b.polyChecksum);
    var wordIndices := new nat[NUM_WORDS](_ => 0);
    var accumulator := ScalarWords(wordIndices, ToBytes(b.scalar, 32));
    ghost var emitted := wordIndices[..23];
    LastWords(emitted, accumulator, b, c);
    accumulator := accumulator * 256 + b.polyChecksum;
    wordIndices[23] := accumulator;
    wordIndices[24] := wordsChecksum;
    words := wordIndices[..];
    assert words == emitted + [accumulator] + [wordsChecksum];
  }

  // The loop over the scalar's bytes. Three bits of it are left in the accumulator.
  method ScalarWords(wordIndices: array<nat>, scalarBytes: seq<nat>) returns (accumulator: nat)
    requires wordIndices.Length == NUM_WORDS && |scalarBytes| == 32
    requires forall i :: 0 <= i < 32 ==> scalarBytes[i] < 256
    modifies wordIndices
    ensures Holds(wordIndices[..23], accumulator, 3, scalarBytes)
  {
    var wordIdx: nat := 0;
    var bitsInAcc: nat := 0;
    accumulator := 0;
    assert scalarBytes[..0] == [] && wordIndices[..0] == [];
    for j := 0 to 32
      invariant wordIdx <= 23 && bitsInAcc < 11
      invariant Holds(wordIndices[..wordIdx], accumulator, bitsInAcc, scalarBytes[..j])
    {
      wordIdx, accumulator, bitsInAcc :=
        TakeScalarByte(wordIndices, wordIdx, accumulator, bitsInAcc, scalarBytes[j], scalarBytes[..j]);
      assert scalarBytes[..j + 1] == scalarBytes[..j] + [scalarBytes[j]];
    }
    assert scalarBytes[..32] == scalarBytes;
  }

  // One byte of the scalar goes into the accumulator, and the words it completes come out.
  method TakeScalarByte(wordIndices: array<nat>, wordIdx0: nat, accumulator0: nat, bitsInAcc0: nat, byte: nat, ghost bytes: seq<nat>)
    returns (wordIdx: nat, accumulator: nat, bitsInAcc: nat)
    requires wordIndices.Length == NUM_WORDS && |bytes| < 32 && wordIdx0 <= 23 && byte < 256
    requires Holds(wordIndices[..wordIdx0], accumulator0, bitsInAcc0, bytes)
    modifies wordIndices
    ensures wordIdx <= 23 && bitsInAcc < 11
    ensures Holds(wordIndices[..wordIdx], accumulator, bitsInAcc, bytes + [byte])
  {
    PushByte(wordIndices[..wordIdx0], accumulator0, bitsInAcc0, bytes, byte);
    wordIdx, accumulator, bitsInAcc :=
      ExtractWords(wordIndices, wordIdx0, accumulator0 * 256 + byte, bitsInAcc0 + 8, bytes + [byte]);
  }

  // Extract 11-bit words while there are enough bits.
  method ExtractWords(wordIndices: array<nat>, wordIdx0: nat, accumulator0: nat, bitsInAcc0: nat, ghost bytes: seq<nat>)
    returns (wordIdx: nat, accumulator: nat, bitsInAcc: nat)
    requires wordIndices.Length == NUM_WORDS && |bytes| <= 32 && wordIdx0 <= 23
    requires Holds(wordIndices[..wordIdx0], accumulator0, bitsInAcc0, bytes)
    modifies wordIndices
    ensures wordIdx <= 23 && bitsInAcc < 11
    ensures Holds(wordIndices[..wordIdx], accumulator, bitsInAcc, bytes)
  {
    wordIdx, accumulator, bitsInAcc := wordIdx0, accumulator0, bitsInAcc0;
    while bitsInAcc >= 11 && wordIdx < NUM_WORDS
      invariant wordIdx <= 23
      invariant Holds(wordIndices[..wordIdx], accumulator, bitsInAcc, bytes)
      decreases bitsInAcc
    {
      var shift := bitsInAcc - 11;
      ghost var before := wordIndices[..wordIdx];
      PopWord(before, accumulator, shift, bytes);
      wordIndices[wordIdx] := Shr(accumulator, shift);
      assert wordIndices[..wordIdx + 1] == before + [wordIndices[wordIdx]];
      accumulator := Mask(accumulator, shift);
      bitsInAcc := shift;
      wordIdx := wordIdx + 1;
    }
  }

  lemma PushByte(words: seq<nat>, acc: nat, bits: nat, bytes: seq<nat>, byte: nat)
    requires Holds(words, acc, bits, bytes) && byte < 256
    ensures Holds(words, acc * 256 + byte, bits + 8, bytes + [byte])
  {
    Widths();
    BitsConcat(acc, bits, byte, 8);
    Appended(bytes, byte);
    PowSplits(bits, 8);
  }

  lemma PopWord(words: seq<nat>, acc: nat, shift: nat, bytes: seq<nat>)
    requires Holds(words, acc, shift + 11, bytes)
    ensures Holds(words + [Shr(acc, shift)], Mask(acc, shift), shift, bytes)
  {
    Widths();
    TopIsSmall(acc, 11, shift);
    assert BitsOf(acc, shift + 11) == BitsOf(acc, 11 + shift);
    BitsSplit(acc, 11, shift);
    Appended(words, Shr(acc, shift));
  }

  lemma LastWords(emitted: seq<nat>, rest: nat, b: Backup, c: Checksum)
    requires ValidBackup(b) && |emitted| == 23 && Holds(emitted, rest, 3, ToBytes(b.scalar, 32))
    ensures rest * 256 + b.polyChecksum < 2048
    ensures WordBits(emitted + [rest * 256 + b.polyChecksum] + [c(b.index, b.scalar, b.polyChecksum)]) == BackupBits(c, b)
  {
    Widths();
    var w23, w24 := rest * 256 + b.polyChecksum, c(b.index, b.scalar, b.polyChecksum);
    BitsConcat(rest, 3, b.polyChecksum, 8);
    Appended(emitted, w23);
    Appended(emitted + [w23], w24);
    BytesAreBits(b.scalar, 32);
  }

  /** The encoding is determined: no other 25 words spell the backup. */
  lemma EncodingIsUnique(c: Checksum, b: Backup, a: seq<nat>, w: seq<nat>)
    requires |a| == |w| == NUM_WORDS
    requires forall i :: 0 <= i < NUM_WORDS ==> a[i] < 2048 && w[i] < 2048
    requires WordBits(a) == BackupBits(c, b) == WordBits(w)
    ensures a == w
  {
    Widths();
    WordBitsAreInjective(a, w);
  }

  // ---------------------------------------------------------------------------------------------
  // Decoding

  // What 275 bits decode to.
  function Decoded(c: Checksum, index: nat, bits: seq<nat>): Result
    requires |bits| == TOTAL_BITS
  {
    var scalar := Value(bits[..256]) % GROUP_ORDER;
    var polyChecksum := Value(bits[256..264]);
    if c(index, scalar, polyChecksum) != Value(bits[264..]) then Err(WordsChecksumFailed)
    else if index == 0 then Err(InvalidShareIndex)
    else Ok(Backup(index, scalar, polyChecksum))
  }

  // `bits[from..from + len]` as far as the first `done` bits go, and zeros after.
  ghost function Upto(bits: seq<nat>, from: nat, len: nat, done: nat): (r: seq<nat>)
    requires from + len <= |bits|
    ensures |r| == len
  {
    seq(len, i requires 0 <= i < len => if from + i < done then bits[from + i] else 0)
  }

  lemma UptoStep(bits: seq<nat>, from: nat, len: nat, done: nat)
    requires from + len <= |bits| && done < |bits|
    ensures Upto(bits, from, len, done + 1) ==
            if from <= done < from + len then Upto(bits, from, len, done)[done - from := bits[done]] else Upto(bits, from, len, done)
    ensures from <= done < from + len ==> Upto(bits, from, len, done)[done - from] == 0
  {
  }

  lemma UptoAll(bits: seq<nat>, from: nat, len: nat)
    requires from + len <= |bits|
    ensures Upto(bits, from, len, |bits|) == bits[from..from + len]
  {
  }

  lemma {:induction false} ByteSetBit(bytes: seq<nat>, j: nat, i: nat)
    requires j < |bytes| && i < 8 && bytes[j] < 256
    ensures SetBit(bytes[j], 8, i) < 256
    ensures 8 * j + i < 8 * |bytes|
    ensures ByteBits(bytes[j := SetBit(bytes[j], 8, i)]) == ByteBits(bytes)[8 * j + i := 1]
  {
    Widths();
    SetBitSetsBit(bytes[j], 8, i);
    var n := |bytes| - 1;
    var set_ := bytes[j := SetBit(bytes[j], 8, i)];
    if j == n {
      assert set_[..n] == bytes[..n];
      assert ByteBits(bytes)[8 * j + i := 1] == ByteBits(bytes[..n]) + BitsOf(bytes[n], 8)[i := 1];
    } else {
      ByteSetBit(bytes[..n], j, i);
      assert set_[..n] == bytes[..n][j := SetBit(bytes[j], 8, i)];
      assert ByteBits(bytes)[8 * j + i := 1] == ByteBits(bytes[..n])[8 * j + i := 1] + BitsOf(bytes[n], 8);
    }
  }

  lemma {:induction false} ZeroBytes(n: nat)
    ensures ByteBits(seq(n, _ => 0)) == seq(8 * n, _ => 0)
  {
    if n > 0 {
      ZeroBytes(n - 1);
      ZeroBits(8);
      assert seq(n, _ => 0)[..n - 1] == seq(n - 1, _ => 0);
    }
  }

  // The words read as numbers, if they are all in the list.
  predicate KnownWords(list: seq<string>, words: seq<string>) {
    forall i :: 0 <= i < |words| ==> words[i] in list
  }

  function WordToIndex(list: seq<string>, word: string): (r: Option<nat>)
    ensures r.None? <==> word !in list
    ensures r.Some? ==> r.value < |list| && list[r.value] == word
  {
    if list == [] then None
    else if list[|list| - 1] == word then Some(|list| - 1)
    else WordToIndex(list[..|list| - 1], word)
  }

  ghost function IndicesOf(list: seq<string>, words: seq<string>): (r: seq<nat>)
    requires KnownWords(list, words)
    ensures |r| == |words|
  {
    seq(|words|, i requires 0 <= i < |words| => WordToIndex(list, words[i]).value)
  }

  // BIP39: 2048 different words.
  ghost predicate IsWordList(list: seq<string>) {
    |list| == 2048 && forall i, j :: 0 <= i < j < |list| ==> list[i] != list[j]
  }

  // What the bit loop has collected after `done` bits.
  ghost predicate Collected(bits: seq<nat>, done: nat, bytes: seq<nat>, poly: nat, words: nat) {
    && |bits| == TOTAL_BITS && |bytes| == 32 && (forall i :: 0 <= i < 32 ==> bytes[i] < 256)
    && poly < 256 && words < 2048
    && ByteBits(bytes) == Upto(bits, 0, 256, done)
    && BitsOf(poly, 8) == Upto(bits, 256, 8, done)
    && BitsOf(words, 11) == Upto(bits, 264, 11, done)
  }

  lemma CollectedNothing(bits: seq<nat>)
    requires |bits| == TOTAL_BITS
    ensures Collected(bits, 0, seq(32, _ => 0), 0, 0)
  {
    ZeroBytes(32);
    ZeroBits(8);
    ZeroBits(11);
    assert Upto(bits, 0, 256, 0) == seq(256, _ => 0);
  }

  lemma CollectZero(bits: seq<nat>, done: nat, bytes: seq<nat>, poly: nat, words: nat)
    requires Collected(bits, done, bytes, poly, words) && done < TOTAL_BITS && bits[done] == 0
    ensures Collected(bits, done + 1, bytes, poly, words)
  {
    UptoStep(bits, 0, 256, done);
    UptoStep(bits, 256, 8, done);
    UptoStep(bits, 264, 11, done);
  }

  lemma CollectScalarBit(bits: seq<nat>, done: nat, bytes: seq<nat>, poly: nat, words: nat)
    requires Collected(bits, done, bytes, poly, words) && done < 256 && bits[done] == 1
    ensures Collected(bits, done + 1, bytes[done / 8 := SetBit(bytes[done / 8], 8, done % 8)], poly, words)
  {
    UptoStep(bits, 0, 256, done);
    UptoStep(bits, 256, 8, done);
    UptoStep(bits, 264, 11, done);
    ByteSetBit(bytes, done / 8, done % 8);
  }

  lemma CollectChecksumBit(bits: seq<nat>, done: nat, bytes: seq<nat>, poly: nat, words: nat)
    requires Collected(bits, done, bytes, poly, words) && 256 <= done < TOTAL_BITS && bits[done] == 1
    ensures done < 264 ==> Collected(bits, done + 1, bytes, SetBit(poly, 8, done - 256), words)
    ensures done >= 264 ==> Collected(bits, done + 1, bytes, poly, SetBit(words, 11, done - 264))
  {
    Widths();
    UptoStep(bits, 0, 256, done);
    UptoStep(bits, 256, 8, done);
    UptoStep(bits, 264, 11, done);
    if done < 264 {
      SetBitSetsBit(poly, 8, done - 256);
    } else {
      SetBitSetsBit(words, 11, done - 264);
    }
  }

  // The big-endian number of 32 bytes.
  function BytesValue(bytes: seq<nat>): nat {
    Value(ByteBits(bytes))
  }

  /** The bit loop of `from_words`. */
  method CollectBits(wordIndices: array<nat>) returns (scalarBytes: seq<nat>, polyChecksum: nat, wordsChecksum: nat)
    requires wordIndices.Length == NUM_WORDS && forall i :: 0 <= i < NUM_WORDS ==> wordIndices[i] < 2048
    ensures var bits := WordBits(wordIndices[..]);
            BytesValue(scalarBytes) == Value(bits[..256]) && polyChecksum == Value(bits[256..264]) && wordsChecksum == Value(bits[264..])
  {
    ghost var bits := WordBits(wordIndices[..]);
    var bytes := new nat[32](_ => 0);
    polyChecksum, wordsChecksum := 0, 0;
    var totalBitsProcessed: nat := 0;
    CollectedNothing(bits);
    assert bytes[..] == seq(32, _ => 0);
    for w := 0 to NUM_WORDS
      invariant totalBitsProcessed == 11 * w && bytes.Length == 32
      invariant Collected(bits, totalBitsProcessed, bytes[..], polyChecksum, wordsChecksum)
    {
      var wordIdx := wordIndices[w];
      var bitOffset: nat := 11;
      while bitOffset > 0
        invariant bitOffset <= 11 && totalBitsProcessed == 11 * w + (11 - bitOffset)
        invariant Collected(bits, totalBitsProcessed, bytes[..], polyChecksum, wordsChecksum)
      {
        bitOffset := bitOffset - 1;
        var bit := Shr(wordIdx, bitOffset) % 2;
        WordBitAt(wordIndices[..], w, 10 - bitOffset);
        assert bit == bits[totalBitsProcessed];
        if bit != 0 {
          if totalBitsProcessed < SCALAR_BITS {
            CollectScalarBit(bits, totalBitsProcessed, bytes[..], polyChecksum, wordsChecksum);
            var byteIndex := totalBitsProcessed / 8;
            var bitInByte := totalBitsProcessed % 8;
            ghost var before := bytes[..];
            bytes[byteIndex] := SetBit(bytes[byteIndex], 8, bitInByte);
            assert bytes[..] == before[byteIndex := SetBit(before[byteIndex], 8, bitInByte)];
          } else {
            CollectChecksumBit(bits, totalBitsProcessed, bytes[..], polyChecksum, wordsChecksum);
            if totalBitsProcessed < WORDS_CHECKSUM_START {
              polyChecksum := SetBit(polyChecksum, 8, totalBitsProcessed - SCALAR_BITS);
            } else {
              wordsChecksum := SetBit(wordsChecksum, 11, totalBitsProcessed - WORDS_CHECKSUM_START);
            }
          }
        } else {
          CollectZero(bits, totalBitsProcessed, bytes[..], polyChecksum, wordsChecksum);
        }
        totalBitsProcessed := totalBitsProcessed + 1;
      }
    }
    scalarBytes := bytes[..];
    CollectedAll(bits, scalarBytes, polyChecksum, wordsChecksum);
  }

  lemma CollectedAll(bits: seq<nat>, bytes: seq<nat>, poly: nat, words: nat)
    requires Collected(bits, TOTAL_BITS, bytes, poly, words)
    ensures BytesValue(bytes) == Value(bits[..256]) && poly == Value(bits[256..264]) && words == Value(bits[264..])
  {
    Widths();
    UptoAll(bits, 0, 256);
    UptoAll(bits, 256, 8);
    UptoAll(bits, 264, 11);
    ValueOfBits(poly, 8);
    ValueOfBits(words, 11);
    assert bits[264..264 + 11] == bits[264..];
    assert bits[0..256] == bits[..256];
  }

  /** `from_words`: the first unknown word is reported; otherwise the bits decide. */
  method FromWords(list: seq<string>, c: Checksum, index: nat, words: seq<string>) returns (r: Result)
    requires IsWordList(list) && |words| == NUM_WORDS
    ensures KnownWords(list, words) ==> r == Decoded(c, index, WordBits(IndicesOf(list, words)))
    ensures !KnownWords(list, words) ==>
              exists i :: 0 <= i < |words| && words[i] !in list && KnownWords(list, words[..i]) && r == Err(InvalidBip39Word(i, words[i]))
  {
    var wordIndices := new nat[NUM_WORDS](_ => 0);
    for i := 0 to NUM_WORDS
      invariant forall k :: 0 <= k < i ==> words[k] in list && wordIndices[k] == WordToIndex(list, words[k]).value
    {
      var found := WordToIndex(list, words[i]);
      if found.None? {
        return Err(InvalidBip39Word(i, words[i]));
      }
      wordIndices[i] := found.value;
    }
    assert KnownWords(list, words);
    assert wordIndices[..] == IndicesOf(list, words);
    var scalarBytes, polyChecksum, wordsChecksum := CollectBits(wordIndices);
    var scalar := BytesValue(scalarBytes) % GROUP_ORDER;
    var expectedWordsChecksum := c(index, scalar, polyChecksum);
    if expectedWordsChecksum != wordsChecksum {
      return Err(WordsChecksumFailed);
    }
    if index == 0 {
      return Err(InvalidShareIndex);
    }
    return Ok(Backup(index, scalar, polyChecksum));
  }

  /** `to_words`. */
  method ToWords(list: seq<string>, c: Checksum, b: Backup) returns (words: seq<string>)
    requires IsWordList(list) && ValidBackup(b)
    ensures |words| == NUM_WORDS && KnownWords(list, words)
    ensures WordBits(IndicesOf(list, words)) == BackupBits(c, b)
  {
    var wordIndices := ToWordIndices(c, b);
    words := seq(NUM_WORDS, i requires 0 <= i < NUM_WORDS => list[wordIndices[i]]);
    assert IndicesOf(list, words) == wordIndices;
  }

  // ---------------------------------------------------------------------------------------------
  // Round trips

  /** Decoding 275 bits: the words checksum is looked at first, then the index. What comes out has the first 256 bits, reduced,
      as its scalar and the next 8 as its polynomial checksum. */
  lemma DecodingIs(c: Checksum, index: nat, bits: seq<nat>)
    requires |bits| == TOTAL_BITS
    ensures var r, scalar, poly := Decoded(c, index, bits), Value(bits[..256]) % GROUP_ORDER, Value(bits[256..264]);
            && (r == Err(WordsChecksumFailed) <==> Value(bits[264..275]) != c(index, scalar, poly))
            && (r == Err(InvalidShareIndex) <==> Value(bits[264..275]) == c(index, scalar, poly) && index == 0)
            && (r.Ok? <==> Value(bits[264..275]) == c(index, scalar, poly) && index != 0)
            && (r.Ok? ==> r.backup.index == index && r.backup.scalar == scalar && r.backup.polyChecksum == poly)
  {
    assert bits[264..275] == bits[264..];
  }

  /** Decoding what a backup's words spell gives the backup back. */
  lemma DecodeEncode(c: Checksum, b: Backup)
    requires ValidBackup(b)
    ensures Decoded(c, b.index, BackupBits(c, b)) == Ok(b)
  {
    Widths();
    GroupOrderFits();
    BackupParts(c, b);
    ValueOfBits(b.scalar, 256);
    ValueOfBits(b.polyChecksum, 8);
    ValueOfBits(c(b.index, b.scalar, b.polyChecksum), 11);
  }

  lemma BackupParts(c: Checksum, b: Backup)
    ensures var bits := BackupBits(c, b);
            && bits[..256] == BitsOf(b.scalar, 256) && bits[256..264] == BitsOf(b.polyChecksum, 8)
            && bits[264..] == BitsOf(c(b.index, b.scalar, b.polyChecksum), 11)
  {
  }

  /** The other way round fails for some words: a scalar at or above the group order is reduced. Words
      that decode are the words of their backup exactly when their first 256 bits are below it. */
  lemma EncodeDecode(c: Checksum, index: nat, bits: seq<nat>)
    requires |bits| == TOTAL_BITS && AreBits(bits) && Decoded(c, index, bits).Ok?
    ensures BackupBits(c, Decoded(c, index, bits).backup) == bits <==> Value(bits[..256]) < GROUP_ORDER
    ensures index <= U32_MAX ==> ValidBackup(Decoded(c, index, bits).backup)
  {
    var b := Decoded(c, index, bits).backup;
    SameScalarBits(bits[..256]);
    ByteOfBits(bits[256..264]);
    BitsOfValue(bits[264..]);
    BackupParts(c, b);
    ThreeParts(bits, BackupBits(c, b));
  }

  lemma ThreeParts(x: seq<nat>, y: seq<nat>)
    requires |x| == |y| == TOTAL_BITS
    ensures x == y <==> x[..256] == y[..256] && x[256..264] == y[256..264] && x[264..] == y[264..]
  {
    assert x == x[..256] + x[256..264] + x[264..] && y == y[..256] + y[256..264] + y[264..];
  }

  // Reducing 256 bits keeps them exactly if their value is below the group order.
  lemma SameScalarBits(bits: seq<nat>)
    requires AreBits(bits) && |bits| == 256
    ensures BitsOf(Value(bits) % GROUP_ORDER, 256) == bits <==> Value(bits) < GROUP_ORDER
  {
    GroupOrderFits();
    ReducedBits(bits, 256, GROUP_ORDER);
  }

  // Bits with any 256-bit value in front, and the checksum that makes them decode.
  function BitsWith(c: Checksum, index: nat, raw: nat, polyChecksum: nat): (bits: seq<nat>)
    ensures |bits| == TOTAL_BITS && AreBits(bits)
  {
    BitsOf(raw, 256) + BitsOf(polyChecksum, 8) + BitsOf(c(index, raw % GROUP_ORDER, polyChecksum), 11)
  }

  /** The words that fail the round trip exist for every checksum function: any 256-bit value at or above
      the group order can be completed to bits that decode, and the backup they decode to spells others. */
  lemma OversizedScalarDecodes(c: Checksum, index: nat, raw: nat, polyChecksum: nat)
    requires 0 < index && GROUP_ORDER <= raw < Pow2(256) && polyChecksum < 256
    ensures var bits := BitsWith(c, index, raw, polyChecksum);
            && Decoded(c, index, bits) == Ok(Backup(index, raw % GROUP_ORDER, polyChecksum))
            && BackupBits(c, Backup(index, raw % GROUP_ORDER, polyChecksum)) != bits
  {
    var bits := BitsWith(c, index, raw, polyChecksum);
    Widths();
    ValueOfBits(raw, 256);
    ValueOfBits(polyChecksum, 8);
    ValueOfBits(c(index, raw % GROUP_ORDER, polyChecksum), 11);
    assert bits[..256] == BitsOf(raw, 256) && bits[256..264] == BitsOf(polyChecksum, 8);
    assert bits[264..] == BitsOf(c(index, raw % GROUP_ORDER, polyChecksum), 11);
    EncodeDecode(c, index, bits);
  }

  // The i-th group of eleven bits.
  function ElevenBits(bits: seq<nat>, i: nat): (b: seq<nat>)
    requires 11 * i + 11 <= |bits|
    ensures |b| == 11
  {
    bits[11 * i..11 * i + 11]
  }

  lemma {:induction false} WordSlices(bits: seq<nat>, words: seq<nat>)
    requires AreBits(bits) && |bits| == 11 * |words|
    requires forall i :: 0 <= i < |words| ==> words[i] == Value(ElevenBits(bits, i))
    ensures WordBits(words) == bits
  {
    if words != [] {
      var n := |words| - 1;
      var init, last := bits[..11 * n], ElevenBits(bits, n);
      forall i | 0 <= i < n ensures words[..n][i] == Value(ElevenBits(init, i)) {
        assert ElevenBits(init, i) == ElevenBits(bits, i);
      }
      WordSlices(init, words[..n]);
      BitsOfValue(last);
      assert bits == init + last;
      assert words == words[..n] + [words[n]];
      Appended(words[..n], words[n]);
    }
  }

  /** An instance: 25 words whose scalar is the group order itself decode to a backup of the zero scalar,
      which is written with other words. */
  lemma GroupOrderDecodesToZero(c: Checksum) returns (words: seq<nat>)
    ensures |words| == NUM_WORDS && forall i :: 0 <= i < NUM_WORDS ==> words[i] < 2048
    ensures Decoded(c, 1, WordBits(words)) == Ok(Backup(1, 0, 0))
    ensures ValidBackup(Backup(1, 0, 0)) && WordBits(words) != BackupBits(c, Backup(1, 0, 0))
  {
    GroupOrderFits();
    Widths();
    OversizedScalarDecodes(c, 1, GROUP_ORDER, 0);
    var bits := BitsWith(c, 1, GROUP_ORDER, 0);
    words := seq(NUM_WORDS, i requires 0 <= i < NUM_WORDS => Value(ElevenBits(bits, i)));
    forall i | 0 <= i < NUM_WORDS ensures words[i] < 2048 {
      BitsOfValue(ElevenBits(bits, i));
    }
    WordSlices(bits, words);
  }
}
