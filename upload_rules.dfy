// The value-level rules of the chunked upload (UploadVideoController.cs): request validation,
// the hash the server records for a chunk, the start response, the storage keys of an
// upload's chunks and the bytes the finished upload assembles from them.
module UploadRules {
  import opened Wrappers
  import opened Guids
  import opened Text
  import opened Sha256Spec
  import opened Hex
  import opened Database
  import Paths = ApiStorageStructure

  datatype StartVideoUploadRequest = StartVideoUploadRequest(sha256Hash: string, channelId: Guid, fileName: string, fileSize: int)

  datatype UploadChunkResponse = UploadChunkResponse(position: int, sha256Hash: string)

  datatype StartVideoUploadResponse = StartVideoUploadResponse(uploadId: Guid, uploadedChunks: seq<UploadChunkResponse>)

  /** The `[Range(0, 10000)]` bound on a chunk position. */
  const MaxPosition: int := 10000

  predicate ValidPosition(position: int) { 0 <= position <= MaxPosition }

  /** `[FileExtensions(Extensions = "mp4")]`: the extension of the file name is ".mp4", in any case. */
  predicate HasMp4Extension(fileName: string)
  {
    |fileName| >= 4 && EqualsIgnoreCase(fileName[|fileName| - 4..], ".mp4")
  }

  /**
   * The hash the server records for a chunk: .NET's SHA-256 of the bytes, written by
   * Convert.ToHexString. It is the browser's lower-case digest string in upper case.
   */
  function ServerHash(data: seq<Byte>): (h: string)
    ensures |h| == 64
    ensures h == ToUpper(WordsHex(Digest(data)))
  {
    BrowserAndServerHexAgree(Digest(data));
    UpperHex(WordsToBytes(Digest(data)))
  }

  /** The object a chunk row's bytes are stored under. */
  function ChunkKey(upload: Upload, chunk: UploadChunk): string
  {
    Paths.GetSourceChunkPath(upload.channelId, upload.id, chunk.id)
  }

  /** The object the assembled upload is stored under. */
  function SourceKey(upload: Upload): string
  {
    Paths.GetSourcePath(upload.channelId, upload.id)
  }

  /** Chunk keys name their upload and chunk: two chunk rows never share an object. */
  lemma ChunkKeyInjective(u1: Upload, c1: UploadChunk, u2: Upload, c2: UploadChunk)
    ensures ChunkKey(u1, c1) == ChunkKey(u2, c2) ==> u1.channelId == u2.channelId && u1.id == u2.id && c1.id == c2.id
  {
    Paths.ChunkPathInjective(u1.channelId, u1.id, c1.id, u2.channelId, u2.id, c2.id);
  }

  /** A chunk's key depends on its row's id only, not on the hash recorded in it. */
  lemma ChunkKeyIgnoresHash(u: Upload, c: UploadChunk, h: Option<string>)
    ensures ChunkKey(u, c.(sha256Hash := h)) == ChunkKey(u, c)
  {
  }

  /** No upload's source object is the object of a chunk. */
  lemma SourceKeyIsNotAChunkKey(u1: Upload, u2: Upload, c: UploadChunk)
    ensures SourceKey(u1) != ChunkKey(u2, c)
  {
    Paths.SourceIsNotAChunk(u1.channelId, u1.id, u2.channelId, u2.id, c.id);
  }

  function CreateUploadChunkResponse(chunk: UploadChunk): UploadChunkResponse
    requires chunk.sha256Hash.Some?
  {
    UploadChunkResponse(chunk.position, chunk.sha256Hash.value)
  }

  /** The chunks of an upload whose bytes are stored, as (position, hash), in enumeration order. */
  function HashedChunks(chunks: seq<UploadChunk>): (rs: seq<UploadChunkResponse>)
    ensures |rs| <= |chunks|
    ensures forall x :: x in rs <==>
      exists c | c in chunks :: c.sha256Hash.Some? && x == UploadChunkResponse(c.position, c.sha256Hash.value)
  {
    if chunks == [] then []
    else
      var rest := HashedChunks(chunks[1..]);
      assert forall c | c in chunks[1..] :: c in chunks;
      if chunks[0].sha256Hash.Some? then [CreateUploadChunkResponse(chunks[0])] + rest else rest
  }

  function CreateStartResponse(upload: Upload, chunks: seq<UploadChunk>): StartVideoUploadResponse
  {
    StartVideoUploadResponse(upload.id, HashedChunks(chunks))
  }

  /** Every chunk of the sequence has its object in the store. */
  ghost predicate ChunksStored(upload: Upload, chunks: seq<UploadChunk>, blobs: map<string, seq<Byte>>)
  {
    forall c | c in chunks :: ChunkKey(upload, c) in blobs
  }

  /** The bytes of the chunk objects, concatenated in the order of the sequence. */
  function SourceBlob(upload: Upload, chunks: seq<UploadChunk>, blobs: map<string, seq<Byte>>): seq<Byte>
    requires ChunksStored(upload, chunks, blobs)
  {
    if chunks == [] then []
    else SourceBlob(upload, chunks[..|chunks| - 1], blobs) + blobs[ChunkKey(upload, chunks[|chunks| - 1])]
  }

  /** The keys of the chunk objects, in the order of the sequence. */
  function ChunkKeys(upload: Upload, chunks: seq<UploadChunk>): (keys: seq<string>)
    ensures |keys| == |chunks| && forall i | 0 <= i < |chunks| :: keys[i] == ChunkKey(upload, chunks[i])
  {
    if chunks == [] then [] else ChunkKeys(upload, chunks[..|chunks| - 1]) + [ChunkKey(upload, chunks[|chunks| - 1])]
  }

  /**
   * The finished file is the concatenation of the slices the client cut: when the chunk at
   * index i of the sequence holds slice i, the assembled source is the whole file.
   */
  lemma {:induction false} SourceBlobOfSlices(upload: Upload, chunks: seq<UploadChunk>, blobs: map<string, seq<Byte>>,
                                               slices: seq<seq<Byte>>)
    requires ChunksStored(upload, chunks, blobs) && |slices| == |chunks|
    requires forall i | 0 <= i < |chunks| :: blobs[ChunkKey(upload, chunks[i])] == slices[i]
    ensures SourceBlob(upload, chunks, blobs) == ConcatBytes(slices)
    decreases |chunks|
  {
    if chunks != [] {
      var n := |chunks| - 1;
      assert ChunksStored(upload, chunks[..n], blobs) by {
        forall c | c in chunks[..n] ensures ChunkKey(upload, c) in blobs { assert c in chunks; }
      }
      SourceBlobOfSlices(upload, chunks[..n], blobs, slices[..n]);
    }
  }

  function ConcatBytes(parts: seq<seq<Byte>>): seq<Byte>
  {
    if parts == [] then [] else ConcatBytes(parts[..|parts| - 1]) + parts[|parts| - 1]
  }

  // Ordering chunks by position.

  predicate SortedByPosition(cs: seq<UploadChunk>)
  {
    forall i, j | 0 <= i < j < |cs| :: cs[i].position <= cs[j].position
  }

  /** No two different chunks of the sequence share a position, as in the rows of one upload. */
  predicate PositionsIdentify(cs: seq<UploadChunk>)
  {
    forall i, j | 0 <= i < |cs| && 0 <= j < |cs| && cs[i].position == cs[j].position :: cs[i] == cs[j]
  }

  function InsertByPosition(c: UploadChunk, cs: seq<UploadChunk>): (r: seq<UploadChunk>)
    requires SortedByPosition(cs)
    ensures |r| == |cs| + 1 && SortedByPosition(r) && multiset(r) == multiset(cs) + multiset{c}
    ensures r[0] == c || (|cs| > 0 && r[0] == cs[0])
    ensures forall y | y in r :: y == c || y in cs
  {
    if cs == [] then [c]
    else if c.position <= cs[0].position then
      PrependSorted(c, cs);
      [c] + cs
    else
      var rest := InsertByPosition(c, cs[1..]);
      InsertBehindHead(c, cs, rest);
      [cs[0]] + rest
  }

  /** Keeping the head of a sorted sequence in front of the insertion into its tail. */
  lemma InsertBehindHead(c: UploadChunk, cs: seq<UploadChunk>, rest: seq<UploadChunk>)
    requires cs != [] && SortedByPosition(cs) && cs[0].position < c.position
    requires |rest| == |cs| && SortedByPosition(rest) && multiset(rest) == multiset(cs[1..]) + multiset{c}
    requires rest[0] == c || (|cs| > 1 && rest[0] == cs[1])
    requires forall y | y in rest :: y == c || y in cs[1..]
    ensures SortedByPosition([cs[0]] + rest) && multiset([cs[0]] + rest) == multiset(cs) + multiset{c}
    ensures forall y | y in [cs[0]] + rest :: y == c || y in cs
  {
    assert cs == [cs[0]] + cs[1..];
    PrependSorted(cs[0], rest);
  }

  /** A chunk whose position is no later than the first of a sorted sequence can go in front of it. */
  lemma PrependSorted(y: UploadChunk, t: seq<UploadChunk>)
    requires SortedByPosition(t) && (t == [] || y.position <= t[0].position)
    ensures SortedByPosition([y] + t)
  {
    forall a, b | 0 <= a < b < |t| + 1 ensures ([y] + t)[a].position <= ([y] + t)[b].position {
      assert ([y] + t)[b] == t[b - 1];
      if a > 0 {
        assert ([y] + t)[a] == t[a - 1];
      }
    }
  }



  /** OrderBy(c => c.Position): the chunks sorted by position. */
  function SortByPosition(cs: seq<UploadChunk>): (r: seq<UploadChunk>)
    ensures SortedByPosition(r) && multiset(r) == multiset(cs)
  {
    if cs == [] then []
    else
      assert cs == [cs[0]] + cs[1..];
      InsertByPosition(cs[0], SortByPosition(cs[1..]))
  }

  /** Sorting keeps the chunks: every chunk of the sorted sequence is one of the input's. */
  lemma SortedMembers(cs: seq<UploadChunk>)
    ensures forall c | c in SortByPosition(cs) :: c in cs
  {
    var sorted := SortByPosition(cs);
    forall c | c in sorted ensures c in cs {
      assert c in multiset(sorted);
    }
  }

  /** The first chunk of a sequence sorted by position has the least position of all. */
  lemma SortedHeadIsLeast(a: seq<UploadChunk>, x: UploadChunk)
    requires SortedByPosition(a) && x in multiset(a)
    ensures a[0].position <= x.position
  {
    var i :| 0 <= i < |a| && a[i] == x;
  }

  lemma PositionsIdentifyTail(a: seq<UploadChunk>)
    requires a != [] && PositionsIdentify(a)
    ensures PositionsIdentify(a[1..])
  {
    forall x, y | 0 <= x < |a[1..]| && 0 <= y < |a[1..]| && a[1..][x].position == a[1..][y].position
      ensures a[1..][x] == a[1..][y]
    {
      assert a[1..][x] == a[x + 1] && a[1..][y] == a[y + 1];
    }
  }

  lemma SortedTail(a: seq<UploadChunk>)
    requires a != [] && SortedByPosition(a)
    ensures SortedByPosition(a[1..])
  {
  }

  /** Sorted sequences holding the same chunks, no two sharing a position, start alike. */
  lemma SortedHeadsAgree(a: seq<UploadChunk>, b: seq<UploadChunk>)
    requires a != [] && b != [] && SortedByPosition(a) && SortedByPosition(b) && multiset(a) == multiset(b)
    requires PositionsIdentify(a)
    ensures a[0] == b[0]
  {
    assert b[0] in multiset(b);
    SortedHeadIsLeast(a, b[0]);
    assert a[0] in multiset(a);
    SortedHeadIsLeast(b, a[0]);
    var j :| 0 <= j < |a| && a[j] == b[0];
  }

  /**
   * Two sequences sorted by position that hold the same chunks are equal when no two
   * different chunks share a position: position order leaves no choice.
   */
  lemma {:induction false} SortedIsUnique(a: seq<UploadChunk>, b: seq<UploadChunk>)
    requires SortedByPosition(a) && SortedByPosition(b) && multiset(a) == multiset(b)
    requires PositionsIdentify(a)
    ensures a == b
    decreases |a|
  {
    assert |a| == |multiset(a)| == |multiset(b)| == |b|;
    if a != [] {
      SortedHeadsAgree(a, b);
      SortedTail(a);
      SortedTail(b);
      PositionsIdentifyTail(a);
      hide SortedByPosition, PositionsIdentify;
      SameHeadSameTails(a, b);
      SortedIsUnique(a[1..], b[1..]);
    }
  }

  /** Two sequences with the same elements and the same head have tails with the same elements. */
  lemma SameHeadSameTails(a: seq<UploadChunk>, b: seq<UploadChunk>)
    requires a != [] && b != [] && a[0] == b[0] && multiset(a) == multiset(b)
    ensures multiset(a[1..]) == multiset(b[1..])
  {
    assert a == [a[0]] + a[1..] && b == [b[0]] + b[1..];
    assert multiset(a[1..]) == multiset(a) - multiset{a[0]};
    assert multiset(b[1..]) == multiset(b) - multiset{b[0]};
  }

  /**
   * Sorting by position makes the assembled source independent of the order in which the
   * database enumerates the chunks.
   */
  lemma SortIgnoresEnumeration(e1: seq<UploadChunk>, e2: seq<UploadChunk>)
    requires multiset(e1) == multiset(e2) && PositionsIdentify(e1)
    ensures SortByPosition(e1) == SortByPosition(e2)
  {
    var s1, s2 := SortByPosition(e1), SortByPosition(e2);
    assert PositionsIdentify(s1) by {
      forall x, y | 0 <= x < |s1| && 0 <= y < |s1| && s1[x].position == s1[y].position ensures s1[x] == s1[y] {
        assert s1[x] in multiset(e1) && s1[y] in multiset(e1);
        var i :| 0 <= i < |e1| && e1[i] == s1[x];
        var j :| 0 <= j < |e1| && e1[j] == s1[y];
      }
    }
    SortedIsUnique(s1, s2);
  }

  // The order the finished upload concatenates in.

  lemma SourceBlobOfTwo(upload: Upload, a: UploadChunk, b: UploadChunk, blobs: map<string, seq<Byte>>)
    requires ChunkKey(upload, a) in blobs && ChunkKey(upload, b) in blobs
    ensures SourceBlob(upload, [a, b], blobs) == blobs[ChunkKey(upload, a)] + blobs[ChunkKey(upload, b)]
  {
    assert [a, b][..1] == [a];
    assert SourceBlob(upload, [a], blobs) == blobs[ChunkKey(upload, a)] by {
      assert [a][..0] == [];
    }
  }

  /**
   * Concatenating in enumeration order is not concatenating in position order: when the
   * database returns the chunk at the later position first, the finished file starts with
   * its bytes, while ordering by position puts them second. Chunks holding [1] at position 0
   * and [2] at position 1 then assemble to [2, 1] instead of [1, 2].
   */
  lemma EnumerationOrderReachesSource(upload: Upload, first: UploadChunk, second: UploadChunk,
                                      blobs: map<string, seq<Byte>>)
    requires first.position < second.position
    requires ChunkKey(upload, first) in blobs && ChunkKey(upload, second) in blobs
    ensures SourceBlob(upload, [second, first], blobs) == blobs[ChunkKey(upload, second)] + blobs[ChunkKey(upload, first)]
    ensures SourceBlob(upload, SortByPosition([second, first]), blobs) ==
            blobs[ChunkKey(upload, first)] + blobs[ChunkKey(upload, second)]
  {
    assert SortByPosition([second, first]) == [first, second] by {
      assert [second, first][1..] == [first];
      assert SortByPosition([first]) == [first];
    }
    SourceBlobOfTwo(upload, second, first, blobs);
    SourceBlobOfTwo(upload, first, second, blobs);
  }
}
