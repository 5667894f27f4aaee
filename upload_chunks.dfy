// The browser's chunked upload loop (UI/src/services/upload/upload-chunks.ts): the file is cut
// into 10 MiB slices, each slice is hashed, and a slice the server already holds under the same
// position and hash is skipped instead of sent. The HTTP request that sends a slice is left out;
// the loop records what it would send.
module UploadChunks {
  import opened Wrappers
  import opened Text
  import opened Sha256Spec
  import opened Hex
  import opened BrowserSha256
  import opened UploadRules

  /** CHUNK_SIZE: 10 MiB. */
  const ChunkSize: nat := 10 * 1024 * 1024

  /** ChunkSlice: the bytes [start, end) of the file. */
  datatype ChunkSlice = ChunkSlice(start: nat, end: nat)

  /** What the loop does with slice `position`: report progress after skipping it, or send it. */
  datatype UploadStep =
    | Skipped(position: nat, progress: nat)
    | Sent(position: nat, chunkSha256Hash: string, chunk: seq<Byte>)

  // ---------------------------------------------------------------- slicing

  /** The number of slices of a file of `total` bytes: total / CHUNK_SIZE rounded up. */
  function SliceCount(total: nat): (n: nat)
  {
    (total + ChunkSize - 1) / ChunkSize
  }

  /** Slice i: it starts at i * CHUNK_SIZE and ends a chunk later or at the end of the file. */
  function SliceAt(total: nat, i: nat): (s: ChunkSlice)
    ensures s.start == i * ChunkSize
  {
    ChunkSlice(i * ChunkSize, Min(i * ChunkSize + ChunkSize, total))
  }

  lemma SliceCountBounds(total: nat)
    ensures SliceCount(total) * ChunkSize >= total
    ensures SliceCount(total) == 0 || (SliceCount(total) - 1) * ChunkSize < total
  {
  }

  /** calculateSlices: a loop that pushes a slice per chunk-size step below the total. */
  method CalculateSlices(total: nat) returns (slices: seq<ChunkSlice>)
    ensures |slices| == SliceCount(total)
    ensures forall i | 0 <= i < |slices| :: slices[i] == SliceAt(total, i)
  {
    slices := [];
    var start := 0;
    while start < total
      invariant start == |slices| * ChunkSize
      invariant |slices| == 0 || (|slices| - 1) * ChunkSize < total
      invariant forall i | 0 <= i < |slices| :: slices[i] == SliceAt(total, i)
      decreases total - start
    {
      slices := slices + [ChunkSlice(start, Min(start + ChunkSize, total))];
      start := start + ChunkSize;
    }
    SliceCountExact(|slices|, total);
  }

  lemma SliceCountExact(n: nat, total: nat)
    requires n * ChunkSize >= total
    requires n == 0 || (n - 1) * ChunkSize < total
    ensures n == SliceCount(total)
  {
    SliceCountBounds(total);
  }

  /**
   * The slices cut the file into contiguous, non-empty pieces from 0 to the total; every piece
   * but the last is a full chunk; an empty file has none.
   */
  lemma SlicesPartition(total: nat)
    ensures SliceCount(total) == 0 <==> total == 0
    ensures SliceCount(total) > 0 ==> SliceAt(total, 0).start == 0 && SliceAt(total, SliceCount(total) - 1).end == total
    ensures forall i | 0 <= i < SliceCount(total) :: SliceAt(total, i).start < SliceAt(total, i).end <= total
    ensures forall i | 0 <= i < SliceCount(total) - 1 ::
      SliceAt(total, i).end == SliceAt(total, i + 1).start && SliceAt(total, i).end - SliceAt(total, i).start == ChunkSize
    ensures forall i | 0 <= i < SliceCount(total) :: SliceAt(total, i).end - SliceAt(total, i).start <= ChunkSize
  {
    SliceCountBounds(total);
    var n := SliceCount(total);
    forall i | 0 <= i < n
      ensures SliceAt(total, i).start < SliceAt(total, i).end <= total
    {
      assert i * ChunkSize <= (n - 1) * ChunkSize;
    }
    forall i | 0 <= i < n - 1
      ensures SliceAt(total, i).end == i * ChunkSize + ChunkSize
    {
      assert (i + 1) * ChunkSize <= (n - 1) * ChunkSize;
    }
    if n > 0 {
      assert (n - 1) * ChunkSize + ChunkSize == n * ChunkSize;
    }
  }

  /** The bytes of the first n slices, one after the other. */
  function SlicedBytes(file: seq<Byte>, n: nat): (bytes: seq<Byte>)
    requires n <= SliceCount(|file|)
  {
    if n == 0 then []
    else
      SlicesPartition(|file|);
      var s := SliceAt(|file|, n - 1);
      SlicedBytes(file, n - 1) + file[s.start..s.end]
  }

  /** Joined in order, the first n slices are the file up to the end of slice n - 1: no gap, no overlap. */
  lemma {:induction false} SlicedBytesArePrefix(file: seq<Byte>, n: nat)
    requires 0 < n <= SliceCount(|file|)
    ensures SlicedBytes(file, n) == file[..SliceAt(|file|, n - 1).end]
  {
    SlicesPartition(|file|);
    if n > 1 {
      SlicedBytesArePrefix(file, n - 1);
      var s := SliceAt(|file|, n - 1);
      assert file[..s.start] + file[s.start..s.end] == file[..s.end];
    }
  }

  /** All the slices together are the whole file. */
  lemma SlicesCoverFile(file: seq<Byte>)
    ensures SlicedBytes(file, SliceCount(|file|)) == file
  {
    SlicesPartition(|file|);
    if |file| > 0 {
      SlicedBytesArePrefix(file, SliceCount(|file|));
    }
  }

  /** The progress counter after n slices: the sum of their sizes. */
  function SizeSum(total: nat, n: nat): (sum: nat)
    requires n <= SliceCount(total)
  {
    if n == 0 then 0
    else
      SlicesPartition(total);
      SizeSum(total, n - 1) + (SliceAt(total, n - 1).end - SliceAt(total, n - 1).start)
  }

  /** After slice n - 1 the progress is where that slice ends; after the last it is the total. */
  lemma {:induction false} SizeSumIsEnd(total: nat, n: nat)
    requires 0 < n <= SliceCount(total)
    ensures SizeSum(total, n) == SliceAt(total, n - 1).end
    ensures n == SliceCount(total) ==> SizeSum(total, n) == total
  {
    SlicesPartition(total);
    if n > 1 {
      SizeSumIsEnd(total, n - 1);
    }
  }

  // ---------------------------------------------------------------- the skip decision

  /** uploadedChunks.find(c => c.position === i): the first reported chunk at the position. */
  function FindChunk(chunks: seq<UploadChunkResponse>, position: nat): (r: Option<UploadChunkResponse>)
    ensures r.Some? <==> exists k | 0 <= k < |chunks| :: chunks[k].position == position
    ensures r.Some? ==> r.value in chunks && r.value.position == position
    ensures r.Some? ==> exists k | 0 <= k < |chunks| ::
      (chunks[k] == r.value && forall j | 0 <= j < k :: chunks[j].position != position)
  {
    if chunks == [] then None
    else if chunks[0].position == position then Some(chunks[0])
    else
      var r := FindChunk(chunks[1..], position);
      assert r.Some? ==> exists k | 0 <= k < |chunks[1..]| ::
        (chunks[1..][k] == r.value && forall j | 0 <= j < k :: chunks[1..][j].position != position);
      assert r.Some? ==> exists k | 1 <= k < |chunks| ::
        (chunks[k] == r.value && forall j | 1 <= j < k :: chunks[j].position != position);
      r
  }

  /** Line 28 as written: a chunk at the position whose hash string is exactly equal. */
  predicate SkipsChunk(chunks: seq<UploadChunkResponse>, position: nat, chunkHash: string)
  {
    var existing := FindChunk(chunks, position);
    existing.Some? && existing.value.sha256Hash == chunkHash
  }

  /** The comparison evidently intended: the same hexadecimal digest, whatever the letter case. */
  predicate SkipsChunkFixed(chunks: seq<UploadChunkResponse>, position: nat, chunkHash: string)
  {
    var existing := FindChunk(chunks, position);
    existing.Some? && EqualsIgnoreCase(existing.value.sha256Hash, chunkHash)
  }

  /** SHA256.hash as written, or with the corrected padding and buffering. */
  function ClientHash(data: seq<Byte>, fixed: bool): (h: string)
    ensures |h| == 64 && IsLowerHex(h)
  {
    if fixed then WordsHex(Digest(data))
    else WordsHex(HashBlocks(H0, AsWrittenPadded(data, ProcessedRemaining(0, |data|))))
  }

  /** The bytes of slice i: file.slice(start, end). */
  function SliceBytes(file: seq<Byte>, i: nat): (bytes: seq<Byte>)
    requires i < SliceCount(|file|)
    ensures 0 < |bytes| <= ChunkSize
  {
    SlicesPartition(|file|);
    file[SliceAt(|file|, i).start..SliceAt(|file|, i).end]
  }

  /** What the loop does with slice i of the file. */
  function StepAt(file: seq<Byte>, chunks: seq<UploadChunkResponse>, fixed: bool, i: nat): (step: UploadStep)
    requires i < SliceCount(|file|)
    ensures step.position == i
  {
    var h := ClientHash(SliceBytes(file, i), fixed);
    if (if fixed then SkipsChunkFixed(chunks, i, h) else SkipsChunk(chunks, i, h)) then Skipped(i, SliceAt(|file|, i).end)
    else Sent(i, h, SliceBytes(file, i))
  }

  lemma StepAtParts(file: seq<Byte>, chunks: seq<UploadChunkResponse>, fixed: bool, i: nat)
    requires i < SliceCount(|file|)
    ensures SliceAt(|file|, i).start <= SliceAt(|file|, i).end <= |file|
    ensures SliceBytes(file, i) == file[SliceAt(|file|, i).start..SliceAt(|file|, i).end]
    ensures var h := ClientHash(SliceBytes(file, i), fixed);
      StepAt(file, chunks, fixed, i) ==
        if (if fixed then SkipsChunkFixed(chunks, i, h) else SkipsChunk(chunks, i, h)) then Skipped(i, SliceAt(|file|, i).end)
        else Sent(i, h, SliceBytes(file, i))
  {
    SlicesPartition(|file|);
  }

  /** SHA256.hash of a slice's bytes. */
  method HashSlice(bytes: seq<Byte>, fixed: bool) returns (chunkHash: string)
    ensures chunkHash == ClientHash(bytes, fixed)
  {
    if fixed {
      chunkHash := Sha256.HashFixed(bytes);
    } else {
      chunkHash := Sha256.Hash(bytes);
    }
  }

  /**
   * uploadChunks: slices handled in order, one at a time. `fixed` selects the corrected hash and
   * comparison. Each step is the one StepAt describes, and the progress ends at the file size.
   */
  method UploadChunks(file: seq<Byte>, uploadInfo: StartVideoUploadResponse, fixed: bool)
    returns (steps: seq<UploadStep>, progress: nat)
    ensures |steps| == SliceCount(|file|)
    ensures forall i | 0 <= i < |steps| :: steps[i] == StepAt(file, uploadInfo.uploadedChunks, fixed, i)
    ensures progress == |file|
  {
    hide ClientHash, SkipsChunk, SkipsChunkFixed, StepAt, SliceCount;
    var total := |file|;
    var slices := CalculateSlices(total);
    SlicesPartition(total);
    progress := 0;
    steps := [];
    for i := 0 to |slices|
      invariant |steps| == i
      invariant forall k | 0 <= k < i :: steps[k] == StepAt(file, uploadInfo.uploadedChunks, fixed, k)
      invariant progress == SizeSum(total, i)
    {
      var slice := slices[i];
      var bytes := file[slice.start..slice.end];
      var chunkHash := HashSlice(bytes, fixed);
      var skip := if fixed then SkipsChunkFixed(uploadInfo.uploadedChunks, i, chunkHash)
                  else SkipsChunk(uploadInfo.uploadedChunks, i, chunkHash);
      progress := progress + |bytes|;
      SizeSumIsEnd(total, i + 1);
      StepAtParts(file, uploadInfo.uploadedChunks, fixed, i);
      if skip {
        steps := steps + [Skipped(i, progress)];
      } else {
        steps := steps + [Sent(i, chunkHash, bytes)];
      }
    }
    if total > 0 {
      SizeSumIsEnd(total, |slices|);
    }
  }

  /** Every slice is either skipped or sent, at its own position, with the hash of its own bytes. */
  lemma SentSlicesCarryTheirHash(file: seq<Byte>, chunks: seq<UploadChunkResponse>, fixed: bool, i: nat)
    requires i < SliceCount(|file|)
    ensures var step := StepAt(file, chunks, fixed, i);
      step.Sent? ==> step.chunk == SliceBytes(file, i) && step.chunkSha256Hash == ClientHash(step.chunk, fixed)
    ensures var step, h := StepAt(file, chunks, fixed, i), ClientHash(SliceBytes(file, i), fixed);
      step.Skipped? <==>
        (FindChunk(chunks, i).Some? &&
         if fixed then EqualsIgnoreCase(FindChunk(chunks, i).value.sha256Hash, h)
         else FindChunk(chunks, i).value.sha256Hash == h)
    ensures var step := StepAt(file, chunks, fixed, i);
      step.Skipped? ==> step.progress == SizeSum(|file|, i + 1)
  {
    SizeSumIsEnd(|file|, i + 1);
  }

  // ---------------------------------------------------------------- the hash comparison

  /** A lower-case hex string is its own upper-case form exactly when it has no letter. */
  lemma LowerHexUpperEqual(h: string)
    requires IsLowerHex(h)
    ensures h == ToUpper(h) <==> forall k | 0 <= k < |h| :: '0' <= h[k] <= '9'
  {
    if h != ToUpper(h) {
      var k :| 0 <= k < |h| && h[k] != ToUpper(h)[k];
      assert 'a' <= h[k] <= 'f';
    }
  }

  /**
   * As written: the server reports the upper-case digest of the chunk it holds, the browser
   * compares its lower-case digest exactly, so an unchanged chunk is skipped only when its
   * digest's hex has no letter a-f.
   */
  lemma UnchangedChunkSkippedOnlyWithoutLetters(chunks: seq<UploadChunkResponse>, position: nat, bytes: seq<Byte>)
    requires FindChunk(chunks, position) == Some(UploadChunkResponse(position, ServerHash(bytes)))
    ensures SkipsChunk(chunks, position, ClientHash(bytes, true)) <==>
      forall k | 0 <= k < 64 :: '0' <= ClientHash(bytes, true)[k] <= '9'
  {
    LowerHexUpperEqual(ClientHash(bytes, true));
  }

  /** Corrected: an unchanged chunk is always skipped. */
  lemma UnchangedChunkSkippedFixed(chunks: seq<UploadChunkResponse>, position: nat, bytes: seq<Byte>)
    requires FindChunk(chunks, position) == Some(UploadChunkResponse(position, ServerHash(bytes)))
    ensures SkipsChunkFixed(chunks, position, ClientHash(bytes, true))
  {
    hide WordsHex, Digest, HashBlocks, AsWrittenPadded, ServerHash;
    var h := ClientHash(bytes, true);
    assert ServerHash(bytes) == ToUpper(h);
    forall k | 0 <= k < |h|
      ensures ToLowerAscii(ToUpper(h)[k]) == ToLowerAscii(h[k])
    {
    }
  }

  /** Corrected: a skip still needs a chunk at the position whose hash matches up to letter case. */
  lemma FixedSkipNeedsMatchingChunk(chunks: seq<UploadChunkResponse>, position: nat, chunkHash: string)
    requires SkipsChunkFixed(chunks, position, chunkHash)
    ensures exists k | 0 <= k < |chunks| ::
      (chunks[k].position == position && ToUpper(chunks[k].sha256Hash) == ToUpper(chunkHash))
  {
    var existing := FindChunk(chunks, position).value;
    var k :| 0 <= k < |chunks| && chunks[k] == existing;
    hide FindChunk, ToUpper;
    var a, b := ToUpper(existing.sha256Hash), ToUpper(chunkHash);
    forall j | 0 <= j < |chunkHash|
      ensures a[j] == b[j]
    {
      SameLowerSameUpper(existing.sha256Hash[j], chunkHash[j]);
    }
  }

  /** Two characters equal once lowered are equal once raised. */
  lemma SameLowerSameUpper(c: char, d: char)
    requires ToLowerAscii(c) == ToLowerAscii(d)
    ensures ToUpperAscii(c) == ToUpperAscii(d)
  {
  }
}
