// The browser's incremental SHA-256 (UI/src/helpers/sha256.ts): a 64-byte buffer of bytes not
// yet compressed, the eight-word hash value, and the count of bytes taken in. Update buffers
// bytes and compresses whole blocks; finalize pads the buffered rest and returns the digest as
// lower-case hex.
module BrowserSha256 {
  import opened Sha256Spec
  import opened Hex

  const BlockSizeInBytes: nat := 64
  const MessageSizeBytePosition: nat := 56

  // The rotations as the source writes them, with a left shift or'ed into a logical right shift.
  function Sigma0Shifts(x: Word): (r: Word)
    ensures r == BigSigma0(x)
  {
    ((x << 30) | (x >> 2)) ^ ((x << 19) | (x >> 13)) ^ ((x << 10) | (x >> 22))
  }

  function Sigma1Shifts(x: Word): (r: Word)
    ensures r == BigSigma1(x)
  {
    ((x << 26) | (x >> 6)) ^ ((x << 21) | (x >> 11)) ^ ((x << 7) | (x >> 25))
  }

  function Gamma0Shifts(x: Word): (r: Word)
    ensures r == SmallSigma0(x)
  {
    ((x << 25) | (x >> 7)) ^ ((x << 14) | (x >> 18)) ^ (x >> 3)
  }

  function Gamma1Shifts(x: Word): (r: Word)
    ensures r == SmallSigma1(x)
  {
    ((x << 15) | (x >> 17)) ^ ((x << 13) | (x >> 19)) ^ (x >> 10)
  }

  /** The source's inline Ch and Maj, with ~ as bitwise complement, are those of section 4.1.2. */
  lemma BitFunctions(a: Word, b: Word, c: Word, e: Word, f: Word, g: Word)
    ensures (e & f) ^ (!e & g) == Ch(e, f, g)
    ensures (a & b) ^ (a & c) ^ (b & c) == Maj(a, b, c)
  { }

  /** Uint8Array.prototype.set(src, offset). */
  method CopyInto(dest: array<Byte>, offset: nat, src: seq<Byte>)
    requires offset + |src| <= dest.Length
    modifies dest
    ensures dest[..offset] == old(dest[..offset])
    ensures dest[offset..offset + |src|] == src
    ensures dest[offset + |src|..] == old(dest[offset + |src|..])
  {
    for i := 0 to |src|
      invariant forall j :: 0 <= j < dest.Length ==>
        dest[j] == if offset <= j < offset + i then src[j - offset] else old(dest[j])
    {
      dest[offset + i] := src[i];
    }
  }

  /** Uint8Array.prototype.fill(value, from). */
  method Fill(dest: array<Byte>, from: nat, value: Byte)
    requires from <= dest.Length
    modifies dest
    ensures dest[..from] == old(dest[..from])
    ensures forall j :: from <= j < dest.Length ==> dest[j] == value
  {
    for i := from to dest.Length
      invariant forall j :: 0 <= j < dest.Length ==> dest[j] == if from <= j < i then value else old(dest[j])
    {
      dest[i] := value;
    }
  }

  /** DataView.prototype.setBigUint64(offset, value, false): eight bytes, big-endian. */
  method SetBigUint64(dest: array<Byte>, offset: nat, value: nat)
    requires offset + 8 <= dest.Length
    modifies dest
    ensures dest[..offset] == old(dest[..offset])
    ensures dest[offset..offset + 8] == BigEndian(value % TwoTo64, 8)
    ensures dest[offset + 8..] == old(dest[offset + 8..])
  {
    CopyInto(dest, offset, BigEndian(value % TwoTo64, 8));
  }

  /** Sums and differences of whole numbers of blocks are whole numbers of blocks. */
  lemma BlockMultiples(x: int, y: int)
    requires x % 64 == 0 && y % 64 == 0
    ensures (x + y) % 64 == 0 && (x - y) % 64 == 0
  {
    var i, j := x / 64, y / 64;
    assert x + y == 64 * (i + j) && x - y == 64 * (i - j);
  }

  /** Compressing whole blocks and then one more block. */
  lemma HashBlocksAppend(hv: seq<Word>, p: seq<Byte>, block: seq<Byte>)
    requires |hv| == 8 && |p| % 64 == 0 && |block| == 64
    ensures HashBlocks(hv, p + block) == Compress(HashBlocks(hv, p), block)
  {
    hide Compress;
    var q := p + block;
    assert q[..|q| - 64] == p;
    assert q[|q| - 64..] == block;
  }

  /** convertToHex: every word as lower-case hex zero-padded to eight digits, in word order. */
  method ConvertToHex(numbers: array<Word>) returns (output: string)
    ensures output == WordsHex(numbers[..])
    ensures |output| == 8 * numbers.Length && IsLowerHex(output)
  {
    output := "";
    for i := 0 to numbers.Length
      invariant output == WordsHex(numbers[..i])
    {
      assert numbers[..i + 1][..i] == numbers[..i];
      output := output + WordHex(numbers[i]);
    }
    assert numbers[..numbers.Length] == numbers[..];
  }

  /**
   * The buffer once finalize has zero-filled it behind the tail and written the 0x80 marker. With a
   * full buffer the write lands past the end, throws, and the catch block drops the marker.
   */
  function MarkedBlock(tail: seq<Byte>): (b: seq<Byte>)
    requires |tail| <= 64
    ensures |b| == 64 && b[..|tail|] == tail
    ensures |tail| < 64 ==> b[|tail|] == 0x80 && forall i :: |tail| < i < 64 ==> b[i] == 0
  {
    if |tail| < 64 then tail + [0x80] + Zeros(63 - |tail|) else tail
  }

  /** The blocks finalize compresses after the whole blocks of the message, as the source decides. */
  function AsWrittenFinalBlocks(tail: seq<Byte>, length: nat): (r: seq<Byte>)
    requires |tail| <= 64
    ensures |r| % 64 == 0 && |tail| < |r| && r[..|tail|] == tail
  {
    if |tail| + 1 >= MessageSizeBytePosition then MarkedBlock(tail) + (Zeros(56) + LengthField(length))
    else MarkedBlock(tail)[..56] + LengthField(length)
  }

  /** The corrected decision: a second block only when the marker leaves no room for the length. */
  function FinalBlocks(tail: seq<Byte>, length: nat): (r: seq<Byte>)
    requires |tail| < 64
    ensures |r| % 64 == 0 && |tail| < |r| && r[..|tail|] == tail
  {
    if |tail| + 1 > MessageSizeBytePosition then MarkedBlock(tail) + (Zeros(56) + LengthField(length))
    else MarkedBlock(tail)[..56] + LengthField(length)
  }

  /** The corrected final blocks are the padded rest of section 5.1.1 of FIPS 180-4. */
  lemma FinalBlocksArePadding(tail: seq<Byte>, length: nat)
    requires |tail| < 64 && length % 64 == |tail|
    ensures FinalBlocks(tail, length) == PadTail(tail, length)
  {
    if |tail| + 1 > MessageSizeBytePosition {
      assert PadZeros(length) == 119 - |tail|;
      assert Zeros(63 - |tail|) + Zeros(56) == Zeros(119 - |tail|);
    } else {
      assert PadZeros(length) == 55 - |tail|;
      assert MarkedBlock(tail)[..56] == tail + [0x80] + Zeros(55 - |tail|);
    }
  }

  /** Compressing whole blocks and then two more blocks. */
  lemma HashBlocksAppend2(hv: seq<Word>, p: seq<Byte>, b1: seq<Byte>, b2: seq<Byte>)
    requires |hv| == 8 && |p| % 64 == 0 && |b1| == 64 && |b2| == 64
    ensures HashBlocks(hv, p + (b1 + b2)) == Compress(Compress(HashBlocks(hv, p), b1), b2)
  {
    hide Compress, HashBlocks;
    BlockMultiples(|p|, 64);
    HashBlocksAppend(hv, p, b1);
    HashBlocksAppend(hv, p + b1, b2);
    assert p + (b1 + b2) == (p + b1) + b2;
  }

  /** The whole input the as-written finalize compresses, when `buffered` bytes are pending. */
  function AsWrittenPadded(m: seq<Byte>, buffered: nat): (p: seq<Byte>)
    requires buffered <= 64 && buffered <= |m| && (|m| - buffered) % 64 == 0
    ensures |p| % 64 == 0 && |m| < |p| && p[..|m|] == m
  {
    var r := AsWrittenFinalBlocks(m[|m| - buffered..], |m|);
    var p := m[..|m| - buffered] + r;
    BlockMultiples(|m| - buffered, |r|);
    assert p[..|m|] == m;
    p
  }

  /** The whole input the corrected finalize compresses. */
  function Padded(m: seq<Byte>, buffered: nat): (p: seq<Byte>)
    requires buffered < 64 && buffered <= |m| && (|m| - buffered) % 64 == 0
    ensures |p| % 64 == 0
  {
    var r := FinalBlocks(m[|m| - buffered..], |m|);
    BlockMultiples(|m| - buffered, |r|);
    m[..|m| - buffered] + r
  }

  lemma PendingIsLengthMod64(length: nat, buffered: nat)
    requires buffered < 64 && buffered <= length && (length - buffered) % 64 == 0
    ensures length % 64 == buffered
  {
    var q := (length - buffered) / 64;
    assert length == 64 * q + buffered;
  }

  /** The corrected finalize pads as section 5.1.1 of FIPS 180-4 does, whatever is pending. */
  lemma PaddedIsPad(m: seq<Byte>, buffered: nat)
    requires buffered < 64 && buffered <= |m| && (|m| - buffered) % 64 == 0
    ensures Padded(m, buffered) == Pad(m)
  {
    PendingIsLengthMod64(|m|, buffered);
    FinalBlocksArePadding(m[|m| - buffered..], |m|);
    PadSplits(m, buffered);
  }

  /** The as-written finalize pads correctly unless 55 or 64 bytes are pending. */
  lemma AsWrittenPaddingAgrees(m: seq<Byte>, buffered: nat)
    requires buffered < 64 && buffered != 55 && buffered <= |m| && (|m| - buffered) % 64 == 0
    ensures AsWrittenPadded(m, buffered) == Pad(m)
  {
    PaddedIsPad(m, buffered);
  }

  /** With 55 bytes pending the `>=` test compresses one block more than the padding has. */
  lemma AsWrittenExtraBlock(m: seq<Byte>)
    requires |m| % 64 == 55
    ensures (|m| - 55) % 64 == 0
    ensures |AsWrittenPadded(m, 55)| == |Pad(m)| + 64
  {
    var q := |m| / 64;
    assert |m| == 64 * q + 55;
    assert |m| - 55 == 64 * q;
  }

  /** With a full block pending the 0x80 marker is lost: a zero byte follows the message instead. */
  lemma AsWrittenLosesMarker(m: seq<Byte>)
    requires |m| >= 64 && |m| % 64 == 0
    ensures AsWrittenPadded(m, 64)[|m|] == 0 && Pad(m)[|m|] == 0x80
  {
    hide LengthField;
    BlockMultiples(|m|, 64);
    var prefix, tail := m[..|m| - 64], m[|m| - 64..];
    var rest := Zeros(56) + LengthField(|m|);
    assert MarkedBlock(tail) == tail;
    assert AsWrittenFinalBlocks(tail, |m|) == tail + rest;
    assert AsWrittenPadded(m, 64) == prefix + (tail + rest);
    assert (prefix + (tail + rest))[|m|] == rest[0];
  }

  /** Whether an update of n bytes leaves a full, uncompressed block in the buffer. */
  predicate KeepsFullBlock(buffered: nat, n: nat)
  {
    n > 0 && if buffered > 0 then buffered + n == 128 else n == 64
  }

  /**
   * The number of bytes _process leaves in the buffer. Line 108 only enters the block loop when
   * more than a block is left, so exactly one block left stays in the buffer uncompressed.
   */
  function ProcessedRemaining(buffered: nat, n: nat): (r: nat)
    requires buffered <= 64
    ensures r <= 64
    ensures r == 64 <==> (n == 0 && buffered == 64) || KeepsFullBlock(buffered, n)
    ensures r < 64 ==> r == (buffered + n) % 64
    ensures r <= buffered + n && (buffered + n - r) % 64 == 0
  {
    if n == 0 then buffered
    else if 0 < buffered && buffered + n < 64 then buffered + n
    else
      var start := if buffered > 0 then 64 - buffered else 0;
      assert (buffered + n) % 64 == (n - start) % 64 by {
        assert buffered + n == (n - start) + (if buffered > 0 then 64 else 0);
      }
      if start + 64 < n then (n - start) % 64 else n - start
  }

  /** A remainder modulo 64 is the one value below 64 that differs from x by whole blocks. */
  lemma ModBlocks(x: int, r: int)
    requires 0 <= r < 64 && (x - r) % 64 == 0
    ensures x % 64 == r
  {
    var q := (x - r) / 64;
    assert x == 64 * q + r;
  }

  /** The count _process leaves in the buffer, from where its loop starts and stops. */
  lemma RemainingAfterProcess(buffered: nat, n: nat, from: nat, start: nat)
    requires buffered <= 64 && n > 0 && !(0 < buffered && buffered + n < 64)
    requires from == (if buffered > 0 then 64 - buffered else 0)
    requires from <= start <= n && (start - from) % 64 == 0
    requires if from + 64 < n then n < start + 64 else start == from
    ensures ProcessedRemaining(buffered, n) == n - start
  {
    if from + 64 < n {
      ModBlocks(n - from, n - start);
    }
  }

  /** The count the corrected _process leaves in the buffer. */
  lemma RemainingAfterFixedProcess(buffered: nat, n: nat, from: nat, start: nat)
    requires buffered < 64 && n > 0 && !(0 < buffered && buffered + n < 64)
    requires from == (if buffered > 0 then 64 - buffered else 0)
    requires from <= start <= n < start + 64 && (start - from) % 64 == 0
    ensures (buffered + n) % 64 == n - start
  {
    BlockMultiples(start - from, buffered + from);
    assert (buffered + n) - (n - start) == (start - from) + (buffered + from);
    ModBlocks(buffered + n, n - start);
  }

  /** How the update calls are split changes what finalize compresses. */
  lemma SplitChangesPadding(m: seq<Byte>)
    requires |m| == 64
    ensures ProcessedRemaining(0, 64) == 64 && ProcessedRemaining(ProcessedRemaining(0, 32), 32) == 0
    ensures AsWrittenPadded(m, 64) != AsWrittenPadded(m, 0)
  {
    AsWrittenLosesMarker(m);
    AsWrittenPaddingAgrees(m, 0);
  }

  class Sha256 {
    const remaining: array<Byte>
    var remainingBytes: nat
    const hash: array<Word>
    var totalBytesProcessed: nat
    /** Every byte passed to update so far. */
    ghost var message: seq<Byte>

    /** The buffer holds the bytes after the last compressed block; the hash covers the rest. */
    ghost predicate Buffered()
      reads this, remaining, hash
    {
      remaining.Length == BlockSizeInBytes && hash.Length == 8
      && remainingBytes <= 64 && remainingBytes <= |message|
      && (|message| - remainingBytes) % 64 == 0
      && remaining[..remainingBytes] == message[|message| - remainingBytes..]
      && hash[..] == HashBlocks(H0, message[..|message| - remainingBytes])
    }

    ghost predicate Valid()
      reads this, remaining, hash
    {
      Buffered() && totalBytesProcessed == |message|
    }

    constructor()
      ensures Valid() && message == [] && remainingBytes == 0
      ensures fresh(remaining) && fresh(hash)
    {
      remaining := new Byte[BlockSizeInBytes](_ => 0);
      var h := new Word[8];
      h[0], h[1], h[2], h[3] := H0[0], H0[1], H0[2], H0[3];
      h[4], h[5], h[6], h[7] := H0[4], H0[5], H0[6], H0[7];
      hash := h;
      remainingBytes := 0;
      totalBytesProcessed := 0;
      message := [];
      new;
      assert hash[..] == H0;
    }

    /** The static hash: a fresh hasher, one update, finalize. */
    static method Hash(data: seq<Byte>) returns (digest: string)
      ensures digest == WordsHex(HashBlocks(H0, AsWrittenPadded(data, ProcessedRemaining(0, |data|))))
    {
      var sha := new Sha256();
      sha.Update(data);
      assert sha.message == data;
      digest := sha.Finalize();
    }

    /** The static hash built from the corrected update and finalize. */
    static method HashFixed(data: seq<Byte>) returns (digest: string)
      ensures digest == WordsHex(Digest(data))
    {
      var sha := new Sha256();
      sha.UpdateFixed(data);
      assert sha.message == data;
      digest := sha.FinalizeFixed();
    }

    /** update: the bytes go through _process and are counted. */
    method Update(data: seq<Byte>)
      requires Valid()
      modifies this, remaining, hash
      ensures Valid() && message == old(message) + data
      ensures remainingBytes == ProcessedRemaining(old(remainingBytes), |data|)
    {
      hide Compress;
      Process(data);
      totalBytesProcessed := totalBytesProcessed + |data|;
    }

    /** update over the corrected _process. */
    method UpdateFixed(data: seq<Byte>)
      requires Valid() && remainingBytes < 64
      modifies this, remaining, hash
      ensures Valid() && message == old(message) + data
      ensures remainingBytes == (old(remainingBytes) + |data|) % 64
    {
      hide Compress;
      ProcessFixed(data);
      totalBytesProcessed := totalBytesProcessed + |data|;
    }

    /** finalize, as written: the digest of the as-written padding of everything passed to update. */
    method Finalize() returns (digest: string)
      requires Valid()
      modifies this, remaining, hash
      ensures digest == WordsHex(HashBlocks(H0, AsWrittenPadded(old(message), old(remainingBytes))))
    {
      hide Compress, LengthField;
      ghost var m, rb := message, remainingBytes;
      ghost var prefix, tail := m[..|m| - rb], remaining[..rb];
      assert AsWrittenPadded(m, rb) == prefix + AsWrittenFinalBlocks(tail, |m|);
      MarkEnd();
      if remainingBytes >= MessageSizeBytePosition {
        DoProcessBlock(remaining[..]);
        Fill(remaining, 0, 0);
        assert remaining[..56] == Zeros(56);
        digest := CompressLengthBlock();
        HashBlocksAppend2(H0, prefix, MarkedBlock(tail), Zeros(56) + LengthField(|m|));
      } else {
        digest := CompressLengthBlock();
        HashBlocksAppend(H0, prefix, MarkedBlock(tail)[..56] + LengthField(|m|));
      }
    }

    /** finalize with the test at line 69 corrected to `>`; the corrected _process never leaves 64 bytes. */
    method FinalizeFixed() returns (digest: string)
      requires Valid() && remainingBytes < 64
      modifies this, remaining, hash
      ensures digest == WordsHex(Digest(old(message)))
    {
      hide Compress, LengthField;
      ghost var m, rb := message, remainingBytes;
      ghost var prefix, tail := m[..|m| - rb], remaining[..rb];
      assert Padded(m, rb) == prefix + FinalBlocks(tail, |m|);
      MarkEnd();
      if remainingBytes > MessageSizeBytePosition {
        DoProcessBlock(remaining[..]);
        Fill(remaining, 0, 0);
        assert remaining[..56] == Zeros(56);
        digest := CompressLengthBlock();
        HashBlocksAppend2(H0, prefix, MarkedBlock(tail), Zeros(56) + LengthField(|m|));
      } else {
        digest := CompressLengthBlock();
        HashBlocksAppend(H0, prefix, MarkedBlock(tail)[..56] + LengthField(|m|));
      }
      PaddedIsPad(m, rb);
    }

    /** Lines 60-67: zero the buffer behind the tail, try to write the marker, count it. */
    method MarkEnd()
      requires remaining.Length == BlockSizeInBytes && remainingBytes <= 64
      modifies this`remainingBytes, remaining
      ensures remainingBytes == old(remainingBytes) + 1
      ensures remaining[..] == MarkedBlock(old(remaining[..remainingBytes]))
    {
      Fill(remaining, remainingBytes, 0);
      if remainingBytes < BlockSizeInBytes {
        remaining[remainingBytes] := 0x80;
      }
      remainingBytes := remainingBytes + 1;
    }

    /** Lines 74-84: the bit length into bytes 56-63, one last block, the hex digest. */
    method CompressLengthBlock() returns (digest: string)
      requires remaining.Length == BlockSizeInBytes && hash.Length == 8
      modifies remaining, hash
      ensures hash[..] == Compress(old(hash[..]), old(remaining[..56]) + LengthField(totalBytesProcessed))
      ensures digest == WordsHex(hash[..])
    {
      SetBigUint64(remaining, MessageSizeBytePosition, totalBytesProcessed * 8);
      assert remaining[56..] == LengthField(totalBytesProcessed);
      assert remaining[..] == remaining[..56] + remaining[56..];
      DoProcessBlock(remaining[..]);
      digest := ConvertToHex(hash);
    }

    /** _process, as written, for data whose byteOffset is 0. */
    method Process(data: seq<Byte>)
      requires Buffered()
      modifies this, remaining, hash
      ensures Buffered() && message == old(message) + data
      ensures remainingBytes == ProcessedRemaining(old(remainingBytes), |data|)
      ensures totalBytesProcessed == old(totalBytesProcessed)
    {
      hide Compress;
      if |data| == 0 {
        assert message + data == message;
        return;
      }
      ghost var m, base, rb := message + data, |message|, remainingBytes;
      var start := 0;
      if remainingBytes > 0 {
        var nowAvailable := remainingBytes + |data|;
        if nowAvailable < BlockSizeInBytes {
          Buffer(data);
          return;
        }
        start := CompleteBuffer(data);
      } else {
        assert m[..base] == message == message[..|message| - remainingBytes];
      }
      assert m[base..] == data;
      ghost var from := start;
      if start + BlockSizeInBytes < |data| {
        start := ProcessWholeBlocks(data, start, m, base);
      }
      assert |m| - (|data| - start) == base + start;
      KeepRest(data, start, m);
      RemainingAfterProcess(rb, |data|, from, start);
    }

    /** _process with the test at line 108 removed: the loop alone compresses every whole block. */
    method ProcessFixed(data: seq<Byte>)
      requires Buffered() && remainingBytes < 64
      modifies this, remaining, hash
      ensures Buffered() && message == old(message) + data
      ensures remainingBytes == (old(remainingBytes) + |data|) % 64
      ensures totalBytesProcessed == old(totalBytesProcessed)
    {
      hide Compress;
      if |data| == 0 {
        assert message + data == message;
        return;
      }
      ghost var m, base, rb := message + data, |message|, remainingBytes;
      var start := 0;
      if remainingBytes > 0 {
        var nowAvailable := remainingBytes + |data|;
        if nowAvailable < BlockSizeInBytes {
          Buffer(data);
          return;
        }
        start := CompleteBuffer(data);
      } else {
        assert m[..base] == message == message[..|message| - remainingBytes];
      }
      assert m[base..] == data;
      ghost var from := start;
      start := ProcessWholeBlocks(data, start, m, base);
      assert |m| - (|data| - start) == base + start;
      KeepRest(data, start, m);
      RemainingAfterFixedProcess(rb, |data|, from, start);
    }

    /** Lines 95-99: too few bytes for a block, so they join the buffer. */
    method Buffer(data: seq<Byte>)
      requires Buffered() && 0 < remainingBytes && remainingBytes + |data| < BlockSizeInBytes
      modifies this`remainingBytes, this`message, remaining
      ensures Buffered() && message == old(message) + data
      ensures remainingBytes == old(remainingBytes) + |data|
    {
      hide Compress;
      ghost var rb, m := remainingBytes, message + data;
      CopyInto(remaining, remainingBytes, data);
      assert remaining[..rb + |data|] == remaining[..rb] + remaining[rb..rb + |data|];
      remainingBytes := remainingBytes + |data|;
      message := m;
      assert m[..|m| - remainingBytes] == old(message)[..|old(message)| - rb];
      assert m[|m| - remainingBytes..] == old(message)[|old(message)| - rb..] + data;
    }

    /** Lines 102-105: the buffer is topped up to a whole block, which is compressed. */
    method CompleteBuffer(data: seq<Byte>) returns (start: nat)
      requires Buffered() && 0 < remainingBytes && remainingBytes + |data| >= BlockSizeInBytes
      modifies remaining, hash
      ensures start == BlockSizeInBytes - remainingBytes && start <= |data|
      ensures (|message| + start) % 64 == 0
      ensures hash[..] == HashBlocks(H0, (message + data)[..|message| + start])
    {
      hide Compress;
      ghost var m, k := message + data, |message| - remainingBytes;
      start := BlockSizeInBytes - remainingBytes;
      ghost var rb := remainingBytes;
      CopyInto(remaining, remainingBytes, data[..start]);
      assert remaining[..] == m[k..k + 64] by {
        assert remaining[..rb] == message[k..];
        assert remaining[rb..64] == data[..start];
        assert m[k..k + 64] == message[k..] + data[..start];
        assert remaining[..] == remaining[..rb] + remaining[rb..64];
      }
      assert m[..k] == message[..k];
      HashBlocksSnoc(H0, m, k);
      BlockMultiples(k, 64);
      DoProcessBlock(remaining[..]);
    }

    /** Lines 116-117: the bytes after the last compressed block go to the front of the buffer. */
    method KeepRest(data: seq<Byte>, start: nat, ghost m: seq<Byte>)
      requires remaining.Length == BlockSizeInBytes && hash.Length == 8
      requires start <= |data| <= start + 64 && |data| - start <= |m|
      requires m[|m| - (|data| - start)..] == data[start..]
      requires (|m| - (|data| - start)) % 64 == 0
      requires hash[..] == HashBlocks(H0, m[..|m| - (|data| - start)])
      modifies this`remainingBytes, this`message, remaining
      ensures Buffered() && message == m && remainingBytes == |data| - start
    {
      hide Compress;
      remainingBytes := |data| - start;
      CopyInto(remaining, 0, data[start..]);
      message := m;
    }

    /** Lines 110-113: compresses the whole blocks of data from `from` on. */
    method ProcessWholeBlocks(data: seq<Byte>, from: nat, ghost m: seq<Byte>, ghost base: nat) returns (start: nat)
      requires hash.Length == 8 && from <= |data| && |m| == base + |data| && m[base..] == data
      requires (base + from) % 64 == 0 && hash[..] == HashBlocks(H0, m[..base + from])
      modifies hash
      ensures from <= start <= |data| < start + 64 && (start - from) % 64 == 0
      ensures (base + start) % 64 == 0 && hash[..] == HashBlocks(H0, m[..base + start])
    {
      hide Compress;
      start := from;
      while start + BlockSizeInBytes <= |data|
        invariant from <= start <= |data| && (start - from) % 64 == 0
        invariant (base + start) % 64 == 0 && hash[..] == HashBlocks(H0, m[..base + start])
        decreases |data| - start
      {
        CompressBlockAt(data, start, m, base);
        BlockMultiples(base + start, 64);
        BlockMultiples(start - from, 64);
        start := start + BlockSizeInBytes;
      }
    }

    /** Line 111: the block of data at `start` is compressed into the hash value. */
    method CompressBlockAt(data: seq<Byte>, start: nat, ghost m: seq<Byte>, ghost base: nat)
      requires hash.Length == 8 && start + 64 <= |data| && |m| == base + |data| && m[base..] == data
      requires (base + start) % 64 == 0 && hash[..] == HashBlocks(H0, m[..base + start])
      modifies hash
      ensures hash[..] == HashBlocks(H0, m[..base + start + 64])
    {
      hide Compress;
      HashBlocksSnoc(H0, m, base + start);
      assert m[base + start..base + start + 64] == m[base..][start..start + 64];
      DoProcessBlock(data[start..start + 64]);
    }

    /** Lines 167-176: the working variables added into the hash value. */
    method AddInto(s: State)
      requires hash.Length == 8
      modifies hash
      ensures hash[..] == AddState(old(hash[..]), s)
    {
      hide Add;
      AddWord(0, s.a);
      AddWord(1, s.b);
      AddWord(2, s.c);
      AddWord(3, s.d);
      AddWord(4, s.e);
      AddWord(5, s.f);
      AddWord(6, s.g);
      AddWord(7, s.h);
    }

    /** One line of 168-176: a working variable added into one word of the hash value. */
    method AddWord(i: nat, x: Word)
      requires i < hash.Length
      modifies hash
      ensures hash[..] == old(hash[..])[i := Add(old(hash[i]), x)]
    {
      hash[i] := Add(hash[i], x);
    }

    /** _doProcessBlock: compresses one 64-byte block into the hash value (section 6.2.2). */
    method DoProcessBlock(block: seq<Byte>)
      requires hash.Length == 8 && |block| == 64
      modifies hash
      ensures hash[..] == Compress(old(hash[..]), block)
    {
      hide Rounds, Add;
      var w := new Word[64];
      ghost var m := MessageWords(block);
      for i := 0 to 16
        modifies w
        invariant forall j :: 0 <= j < i ==> w[j] == m[j]
      {
        w[i] := WordAt(block, i);
      }
      var s := CompressRounds(w, m, State(hash[0], hash[1], hash[2], hash[3], hash[4], hash[5], hash[6], hash[7]));
      AddInto(s);
    }

    /** Lines 133-147: schedule word i from the four earlier words. */
    static method ExtendSchedule(w: array<Word>, i: nat, ghost m: seq<Word>)
      requires w.Length == 64 && |m| == 16 && 16 <= i < 64
      requires forall j :: 0 <= j < i ==> w[j] == ScheduleWord(m, j)
      modifies w
      ensures w[i] == ScheduleWord(m, i)
      ensures forall j :: 0 <= j < 64 && j != i ==> w[j] == old(w[j])
    {
      hide Add, SmallSigma0, SmallSigma1;
      var gamma0 := Gamma0Shifts(w[i - 15]);
      var gamma1 := Gamma1Shifts(w[i - 2]);
      w[i] := Add(Add(Add(w[i - 7], gamma0), w[i - 16]), gamma1);
    }

    /** Lines 132-166: the 64 rounds over the working variables, extending the schedule as they go. */
    static method CompressRounds(w: array<Word>, ghost m: seq<Word>, init: State) returns (s: State)
      requires w.Length == 64 && |m| == 16 && forall j :: 0 <= j < 16 ==> w[j] == m[j]
      modifies w
      ensures s == Rounds(init, m, 64)
    {
      hide Add, Ch, Maj, BigSigma0, BigSigma1, SmallSigma0, SmallSigma1;
      var a, b, c, d, e, f, g, h := init.a, init.b, init.c, init.d, init.e, init.f, init.g, init.h;
      for i := 0 to 64
        invariant forall j :: 0 <= j < 64 && (j < 16 || j < i) ==> w[j] == ScheduleWord(m, j)
        invariant State(a, b, c, d, e, f, g, h) == Rounds(init, m, i)
      {
        if i > 15 {
          ExtendSchedule(w, i, m);
        }
        ghost var next := Round(State(a, b, c, d, e, f, g, h), K(i), w[i]);
        assert next == Rounds(init, m, i + 1);
        var ch := (e & f) ^ (!e & g);
        var maj := (a & b) ^ (a & c) ^ (b & c);
        BitFunctions(a, b, c, e, f, g);
        var sigma0 := Sigma0Shifts(a);
        var sigma1 := Sigma1Shifts(e);
        var t1 := Add(Add(Add(Add(h, sigma1), ch), K(i)), w[i]);
        var t2 := Add(sigma0, maj);
        h := g;
        g := f;
        f := e;
        e := Add(d, t1);
        d := c;
        c := b;
        b := a;
        a := Add(t1, t2);
        assert State(a, b, c, d, e, f, g, h) == next;
      }
      s := State(a, b, c, d, e, f, g, h);
    }
  }
}
