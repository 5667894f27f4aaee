// UploadVideoController: the three actions of a resumable upload (start, upload one chunk,
// finish) over the Uploads and UploadChunks tables and the object store.
module UploadVideoController {
  import opened Wrappers
  import opened Guids
  import opened Errors
  import opened Sha256Spec
  import opened Streams
  import opened TeeReader
  import opened Database
  import opened UploadRules
  import Paths = ApiStorageStructure

  /** Every chunk row that has a hash has its bytes stored under its key, and the hash is theirs. */
  ghost predicate StoredChunksMatch(uploads: map<Guid, Upload>, chunks: map<Guid, UploadChunk>,
                                    blobs: map<string, seq<Byte>>)
  {
    forall id | id in chunks && chunks[id].uploadId in uploads && chunks[id].sha256Hash.Some? ::
      ChunkKey(uploads[chunks[id].uploadId], chunks[id]) in blobs &&
      chunks[id].sha256Hash.value == ServerHash(blobs[ChunkKey(uploads[chunks[id].uploadId], chunks[id])])
  }

  /** An upload of the channel with this content hash exists. */
  predicate HasUploadFor(uploads: map<Guid, Upload>, channelId: Guid, sha256Hash: string)
  {
    exists id | id in uploads :: uploads[id].channelId == channelId && uploads[id].sha256Hash == sha256Hash
  }

  /** A chunk row of the upload at this position exists. */
  predicate HasChunkAt(chunks: map<Guid, UploadChunk>, uploadId: Guid, position: int)
  {
    exists id | id in chunks :: chunks[id].uploadId == uploadId && chunks[id].position == position
  }

  /** Some chunk of the upload has been reserved but its bytes have not been stored. */
  predicate HasUnfinishedChunk(chunks: map<Guid, UploadChunk>, uploadId: Guid)
  {
    exists id | id in chunks :: chunks[id].uploadId == uploadId && chunks[id].sha256Hash.None?
  }

  /** `order` lists each chunk row of the upload exactly once. */
  ghost predicate Enumerates(order: seq<UploadChunk>, chunks: map<Guid, UploadChunk>, uploadId: Guid)
  {
    (forall c | c in order :: c.id in chunks && chunks[c.id] == c && c.uploadId == uploadId) &&
    (forall id | id in chunks && chunks[id].uploadId == uploadId :: chunks[id] in order) &&
    (forall i, j | 0 <= i < j < |order| :: order[i].id != order[j].id)
  }

  /** `listed` holds (position, hash) of exactly the upload's chunk rows that have a hash. */
  ghost predicate ListsStoredChunks(listed: seq<UploadChunkResponse>, chunks: map<Guid, UploadChunk>, uploadId: Guid)
  {
    forall x :: x in listed <==>
      exists id | id in chunks && chunks[id].uploadId == uploadId && chunks[id].sha256Hash.Some? ::
        x == UploadChunkResponse(chunks[id].position, chunks[id].sha256Hash.value)
  }

  /** The chunk rows left once an upload's rows are deleted with it (the foreign key cascades). */
  function ChunksWithout(chunks: map<Guid, UploadChunk>, uploadId: Guid): (left: map<Guid, UploadChunk>)
    ensures forall id :: id in left <==> id in chunks && chunks[id].uploadId != uploadId
    ensures forall id | id in left :: left[id] == chunks[id]
  {
    map id | id in chunks && chunks[id].uploadId != uploadId :: chunks[id]
  }

  /** The keys and indexes the upload actions rely on. */
  lemma TablesFacts(channels: map<Guid, Channel>, uploads: map<Guid, Upload>, chunks: map<Guid, UploadChunk>,
                    videos: map<Guid, Video>)
    requires TablesValid(channels, uploads, chunks, videos)
    ensures ChannelsKeyed(channels) && UploadsKeyed(uploads) && ChunksKeyed(chunks)
    ensures UniqueChunkPositions(chunks) && ChunksReferenceUploads(chunks, uploads)
  {
  }

  /** Inserting a new upload of a channel keeps every key, index and stored hash. */
  lemma InsertUploadKeepsValid(channels: map<Guid, Channel>, uploads: map<Guid, Upload>, chunks: map<Guid, UploadChunk>,
                               videos: map<Guid, Video>, blobs: map<string, seq<Byte>>, u: Upload)
    requires TablesValid(channels, uploads, chunks, videos) && StoredChunksMatch(uploads, chunks, blobs)
    requires u.id !in uploads && u.channelId in channels && !HasUploadFor(uploads, u.channelId, u.sha256Hash)
    ensures TablesValid(channels, uploads[u.id := u], chunks, videos)
    ensures StoredChunksMatch(uploads[u.id := u], chunks, blobs)
    ensures forall id | id in chunks :: chunks[id].uploadId != u.id
  {
    hide Format, Paths.GetSourceChunkPath, Paths.GetSourcePath, ChunkKey, ServerHash;
    var uploads' := uploads[u.id := u];
    assert UniqueUploadHashes(uploads') by {
      forall a, b | a in uploads' && b in uploads' && a != b
        ensures uploads'[a].channelId != uploads'[b].channelId || uploads'[a].sha256Hash != uploads'[b].sha256Hash
      {
        if a == u.id { assert b in uploads; } else if b == u.id { assert a in uploads; }
      }
    }
  }

  /** Reserving a new chunk row, with no hash yet, at a free position keeps every key, index and stored hash. */
  lemma ReserveChunkKeepsValid(channels: map<Guid, Channel>, uploads: map<Guid, Upload>, chunks: map<Guid, UploadChunk>,
                               videos: map<Guid, Video>, blobs: map<string, seq<Byte>>, c: UploadChunk)
    requires TablesValid(channels, uploads, chunks, videos) && StoredChunksMatch(uploads, chunks, blobs)
    requires c.id !in chunks && c.uploadId in uploads && c.sha256Hash.None? && !HasChunkAt(chunks, c.uploadId, c.position)
    ensures TablesValid(channels, uploads, chunks[c.id := c], videos)
    ensures StoredChunksMatch(uploads, chunks[c.id := c], blobs)
  {
    hide Format, Paths.GetSourceChunkPath, Paths.GetSourcePath, ChunkKey, ServerHash;
    var chunks' := chunks[c.id := c];
    assert UniqueChunkPositions(chunks') by {
      forall a, b | a in chunks' && b in chunks' && a != b
        ensures chunks'[a].uploadId != chunks'[b].uploadId || chunks'[a].position != chunks'[b].position
      {
        if a == c.id { assert b in chunks; } else if b == c.id { assert a in chunks; }
      }
    }
  }

  /** Recording a hash in a chunk row keeps every key and index. */
  lemma RecordChunkKeepsTables(channels: map<Guid, Channel>, uploads: map<Guid, Upload>, chunks: map<Guid, UploadChunk>,
                               videos: map<Guid, Video>, c: UploadChunk, hash: string)
    requires TablesValid(channels, uploads, chunks, videos)
    requires c.id in chunks && chunks[c.id] == c
    ensures TablesValid(channels, uploads, chunks[c.id := c.(sha256Hash := Some(hash))], videos)
  {
    var chunks' := chunks[c.id := c.(sha256Hash := Some(hash))];
    assert UniqueChunkPositions(chunks') by {
      forall a, b | a in chunks' && b in chunks' && a != b
        ensures chunks'[a].uploadId != chunks'[b].uploadId || chunks'[a].position != chunks'[b].position
      {
        assert chunks[a].uploadId != chunks[b].uploadId || chunks[a].position != chunks[b].position;
      }
    }
  }

  /** Storing a chunk's bytes under its key and recording their hash keeps every recorded hash true. */
  lemma RecordChunkKeepsHashes(uploads: map<Guid, Upload>, chunks: map<Guid, UploadChunk>,
                               blobs: map<string, seq<Byte>>, c: UploadChunk, content: seq<Byte>)
    requires UploadsKeyed(uploads) && ChunksKeyed(chunks) && StoredChunksMatch(uploads, chunks, blobs)
    requires c.id in chunks && c.uploadId in uploads
    ensures StoredChunksMatch(uploads, chunks[c.id := c.(sha256Hash := Some(ServerHash(content)))],
                              blobs[ChunkKey(uploads[c.uploadId], c) := content])
  {
    hide Format, Paths.GetSourceChunkPath, Paths.GetSourcePath, ChunkKey, ServerHash;
    var key := ChunkKey(uploads[c.uploadId], c);
    var c' := c.(sha256Hash := Some(ServerHash(content)));
    var chunks', blobs' := chunks[c.id := c'], blobs[key := content];
    ChunkKeyIgnoresHash(uploads[c.uploadId], c, Some(ServerHash(content)));
    forall id | id in chunks' && chunks'[id].uploadId in uploads && chunks'[id].sha256Hash.Some?
      ensures ChunkKey(uploads[chunks'[id].uploadId], chunks'[id]) in blobs'
      ensures chunks'[id].sha256Hash.value == ServerHash(blobs'[ChunkKey(uploads[chunks'[id].uploadId], chunks'[id])])
    {
      if id != c.id {
        assert chunks'[id] == chunks[id] && chunks[id].id == id;
        ChunkKeyInjective(uploads[chunks[id].uploadId], chunks[id], uploads[c.uploadId], c);
      }
    }
  }

  /** Deleting an upload's row with its chunk rows keeps every key and index. */
  lemma RemoveUploadKeepsTables(channels: map<Guid, Channel>, uploads: map<Guid, Upload>, chunks: map<Guid, UploadChunk>,
                                videos: map<Guid, Video>, uploadId: Guid)
    requires TablesValid(channels, uploads, chunks, videos)
    ensures TablesValid(channels, uploads - {uploadId}, ChunksWithout(chunks, uploadId), videos)
  {
  }

  /**
   * Writing an upload's source object, deleting its chunk objects and deleting its row with its
   * chunk rows keeps every other upload's recorded hashes true.
   */
  lemma RemoveUploadKeepsHashes(uploads: map<Guid, Upload>, chunks: map<Guid, UploadChunk>,
                                blobs: map<string, seq<Byte>>, upload: Upload, assembled: seq<UploadChunk>,
                                content: seq<Byte>)
    requires StoredChunksMatch(uploads, chunks, blobs) && UploadsKeyed(uploads)
    requires upload.id in uploads && uploads[upload.id] == upload
    ensures StoredChunksMatch(uploads - {upload.id}, ChunksWithout(chunks, upload.id),
                              blobs[SourceKey(upload) := content] - set k | k in ChunkKeys(upload, assembled))
  {
    hide Format, Paths.GetSourceChunkPath, Paths.GetSourcePath, ChunkKey, SourceKey, ServerHash;
    var keys := ChunkKeys(upload, assembled);
    var uploads', chunks' := uploads - {upload.id}, ChunksWithout(chunks, upload.id);
    var written, removed := blobs[SourceKey(upload) := content], set k | k in keys;
    var blobs' := written - removed;
    forall id | id in chunks' && chunks'[id].uploadId in uploads' && chunks'[id].sha256Hash.Some?
      ensures ChunkKey(uploads'[chunks'[id].uploadId], chunks'[id]) in blobs'
      ensures chunks'[id].sha256Hash.value == ServerHash(blobs'[ChunkKey(uploads'[chunks'[id].uploadId], chunks'[id])])
    {
      var c := chunks[id];
      assert chunks'[id] == c && c.uploadId != upload.id;
      var u := uploads[c.uploadId];
      assert uploads'[c.uploadId] == u;
      var key := ChunkKey(u, c);
      assert key in blobs && c.sha256Hash.value == ServerHash(blobs[key]);
      SourceKeyIsNotAChunkKey(upload, u, c);
      assert key in written && written[key] == blobs[key];
      assert key !in removed by {
        if key in keys {
          var i :| 0 <= i < |keys| && keys[i] == key;
          ChunkKeyInjective(u, c, upload, assembled[i]);
        }
      }
      assert key in blobs' && blobs'[key] == blobs[key];
    }
  }

  /** The chunks of an upload whose hashes are recorded all have their objects in the store. */
  lemma HashedChunksStored(uploads: map<Guid, Upload>, chunks: map<Guid, UploadChunk>,
                           blobs: map<string, seq<Byte>>, upload: Upload, order: seq<UploadChunk>)
    requires StoredChunksMatch(uploads, chunks, blobs) && upload.id in uploads && uploads[upload.id] == upload
    requires forall c | c in order :: c.id in chunks && chunks[c.id] == c && c.uploadId == upload.id && c.sha256Hash.Some?
    ensures ChunksStored(upload, order, blobs)
  {
    hide Format, Paths.GetSourceChunkPath, Paths.GetSourcePath, ChunkKey, ServerHash;
    forall c | c in order ensures ChunkKey(upload, c) in blobs {
      assert chunks[c.id].uploadId in uploads;
    }
  }

  /** Chunk rows of one upload that are at the same position are the same row. */
  lemma EnumerationIdentifiesPositions(chunks: map<Guid, UploadChunk>, uploadId: Guid, order: seq<UploadChunk>)
    requires ChunksKeyed(chunks) && UniqueChunkPositions(chunks)
    requires forall c | c in order :: c.id in chunks && chunks[c.id] == c && c.uploadId == uploadId
    ensures PositionsIdentify(order)
  {
    forall i, j | 0 <= i < |order| && 0 <= j < |order| && order[i].position == order[j].position
      ensures order[i] == order[j]
    {
      assert order[i] in order && order[j] in order;
    }
  }

  /** A sequence of rows with distinct ids holds each row once. */
  lemma {:induction false} DistinctRowsOnce(s: seq<UploadChunk>)
    requires forall i, j | 0 <= i < j < |s| :: s[i].id != s[j].id
    ensures forall x :: multiset(s)[x] == if x in s then 1 else 0
  {
    if s != [] {
      DistinctRowsOnce(s[1..]);
      assert s == [s[0]] + s[1..];
      forall x ensures multiset(s)[x] == if x in s then 1 else 0 {
        assert multiset(s)[x] == multiset{s[0]}[x] + multiset(s[1..])[x];
      }
    }
  }

  /**
   * Two enumerations of an upload's chunk rows, in whatever orders the database returns
   * them, sort by position to the same sequence: the corrected finish assembles the same
   * source object whichever order it is handed.
   */
  lemma SortedEnumerationsAgree(chunks: map<Guid, UploadChunk>, uploadId: Guid, e1: seq<UploadChunk>, e2: seq<UploadChunk>)
    requires ChunksKeyed(chunks) && UniqueChunkPositions(chunks)
    requires Enumerates(e1, chunks, uploadId) && Enumerates(e2, chunks, uploadId)
    ensures SortByPosition(e1) == SortByPosition(e2)
  {
    DistinctRowsOnce(e1);
    DistinctRowsOnce(e2);
    forall x ensures multiset(e1)[x] == multiset(e2)[x] {
      if x in e1 {
        assert chunks[x.id] in e2;
      }
      if x in e2 {
        assert chunks[x.id] in e1;
      }
    }
    assert multiset(e1) == multiset(e2);
    EnumerationIdentifiesPositions(chunks, uploadId, e1);
    SortIgnoresEnumeration(e1, e2);
  }

  /** An enumeration of an upload's rows holds an unfinished row exactly when the upload has one. */
  lemma EnumerationShowsUnfinished(chunks: map<Guid, UploadChunk>, uploadId: Guid, order: seq<UploadChunk>)
    requires Enumerates(order, chunks, uploadId)
    ensures HasUnfinishedChunk(chunks, uploadId) <==> exists c | c in order :: c.sha256Hash.None?
  {
    if exists c | c in order :: c.sha256Hash.None? {
      var c :| c in order && c.sha256Hash.None?;
      assert chunks[c.id] == c;
    }
    if HasUnfinishedChunk(chunks, uploadId) {
      var id :| id in chunks && chunks[id].uploadId == uploadId && chunks[id].sha256Hash.None?;
      assert chunks[id] in order;
    }
  }

  /** The start response built from an enumeration lists exactly the upload's stored chunks. */
  lemma ListedChunks(chunks: map<Guid, UploadChunk>, uploadId: Guid, order: seq<UploadChunk>)
    requires Enumerates(order, chunks, uploadId)
    ensures ListsStoredChunks(HashedChunks(order), chunks, uploadId)
  {
    var listed := HashedChunks(order);
    forall x ensures x in listed ==>
      exists id | id in chunks && chunks[id].uploadId == uploadId && chunks[id].sha256Hash.Some? ::
        x == UploadChunkResponse(chunks[id].position, chunks[id].sha256Hash.value)
    {
      if x in listed {
        var c :| c in order && c.sha256Hash.Some? && x == UploadChunkResponse(c.position, c.sha256Hash.value);
        assert chunks[c.id] == c;
      }
    }
    forall x ensures (exists id | id in chunks && chunks[id].uploadId == uploadId && chunks[id].sha256Hash.Some? ::
        x == UploadChunkResponse(chunks[id].position, chunks[id].sha256Hash.value)) ==> x in listed
    {
      if exists id | id in chunks && chunks[id].uploadId == uploadId && chunks[id].sha256Hash.Some? ::
        x == UploadChunkResponse(chunks[id].position, chunks[id].sha256Hash.value)
      {
        var id :| id in chunks && chunks[id].uploadId == uploadId && chunks[id].sha256Hash.Some? &&
          x == UploadChunkResponse(chunks[id].position, chunks[id].sha256Hash.value);
        assert chunks[id] in order;
      }
    }
  }

  class UploadVideoController {
    const db: VideoApplicationDb
    const storage: BlobStore

    ghost predicate Valid()
      reads this, db, storage
    {
      db.Valid() && StoredChunksMatch(db.uploads, db.uploadChunks, storage.blobs)
    }

    constructor (db: VideoApplicationDb, storage: BlobStore)
      requires db.Valid() && StoredChunksMatch(db.uploads, db.uploadChunks, storage.blobs)
      ensures Valid() && this.db == db && this.storage == storage
    {
      this.db := db;
      this.storage := storage;
    }

    /**
     * Starts, or resumes, the upload of a file to a channel the caller owns. A file already
     * being uploaded to the channel (same content hash) gets its existing upload back, with
     * the chunks stored so far; otherwise a new upload row is created under `newId`.
     */
    method StartVideoUpload(userId: Guid, request: StartVideoUploadRequest, newId: Guid)
        returns (r: Result<StartVideoUploadResponse, ApiError>)
      requires Valid()
      modifies db
      ensures Valid()
      ensures db.channels == old(db.channels) && db.uploadChunks == old(db.uploadChunks) && db.videos == old(db.videos)
      ensures db.audioTracks == old(db.audioTracks) && db.videoTracks == old(db.videoTracks)
      ensures !HasMp4Extension(request.fileName) ==> r == Failure(ValidationFailed("FileName"))
      ensures HasMp4Extension(request.fileName) && request.channelId !in old(db.channels) ==>
        r == Failure(ChannelNotFound)
      ensures (HasMp4Extension(request.fileName) && request.channelId in old(db.channels) &&
               old(db.channels)[request.channelId].ownerId != userId) ==> r == Failure(NotChannelOwner)
      ensures r.Failure? || HasUploadFor(old(db.uploads), request.channelId, request.sha256Hash) ==>
        db.uploads == old(db.uploads)
      ensures (HasMp4Extension(request.fileName) && request.channelId in old(db.channels) &&
               old(db.channels)[request.channelId].ownerId == userId) ==>
        (HasUploadFor(old(db.uploads), request.channelId, request.sha256Hash) ==> r.Success?) &&
        (!HasUploadFor(old(db.uploads), request.channelId, request.sha256Hash) && newId !in old(db.uploads) ==>
          r == Success(StartVideoUploadResponse(newId, [])) &&
          db.uploads == old(db.uploads)[newId := Upload(newId, request.channelId, request.sha256Hash,
                                                        request.fileSize, request.fileName)]) &&
        (!HasUploadFor(old(db.uploads), request.channelId, request.sha256Hash) && newId in old(db.uploads) ==>
          r.Failure? && r.error.Unhandled?)
      ensures r.Success? ==>
        r.value.uploadId in db.uploads && db.uploads[r.value.uploadId].channelId == request.channelId &&
        db.uploads[r.value.uploadId].sha256Hash == request.sha256Hash &&
        ListsStoredChunks(r.value.uploadedChunks, db.uploadChunks, r.value.uploadId)
    {
      hide Format, Paths.GetSourceChunkPath, Paths.GetSourcePath, ChunkKey, SourceKey, ServerHash;
      hide TablesValid, StoredChunksMatch;
      TablesFacts(db.channels, db.uploads, db.uploadChunks, db.videos);
      if !HasMp4Extension(request.fileName) {
        return Failure(ValidationFailed("FileName"));
      }
      if request.channelId !in db.channels {
        return Failure(ChannelNotFound);
      }
      var channel := db.channels[request.channelId];
      if channel.ownerId != userId {
        return Failure(NotChannelOwner);
      }
      if HasUploadFor(db.uploads, channel.id, request.sha256Hash) {
        var id :| id in db.uploads && db.uploads[id].channelId == channel.id && db.uploads[id].sha256Hash == request.sha256Hash;
        var existing := db.uploads[id];
        var chunks := db.ChunksOfUpload(id);
        ListedChunks(db.uploadChunks, id, chunks);
        return Success(CreateStartResponse(existing, chunks));
      }
      if newId in db.uploads {
        // The insert breaks the primary key; the re-read of the upload by channel and hash
        // then finds nothing and throws.
        return Failure(Unhandled("Sequence contains no elements"));
      }
      var upload := Upload(newId, channel.id, request.sha256Hash, request.fileSize, request.fileName);
      InsertUploadKeepsValid(db.channels, db.uploads, db.uploadChunks, db.videos, storage.blobs, upload);
      db.uploads := db.uploads[newId := upload];
      r := Success(CreateStartResponse(upload, []));
    }
    /**
     * Streams the request body into the chunk's object through the tee and returns the
     * upper-case hex SHA-256 of exactly the bytes that reached the object. An unreadable body
     * makes the tee's constructor throw before anything is stored.
     */
    method DoUpload(upload: Upload, chunk: UploadChunk, body: ReadStream) returns (r: Result<string, ApiError>)
      requires body.Valid()
      modifies storage, body
      ensures body.Valid()
      ensures body.canRead ==>
        storage.blobs == old(storage.blobs)[ChunkKey(upload, chunk) := old(body.content[body.position..])] &&
        r == Success(ServerHash(old(body.content[body.position..])))
      ensures !body.canRead ==>
        r.Failure? && r.error.Unhandled? && storage.blobs == old(storage.blobs) && body.position == old(body.position)
    {
      hide Format, Paths.GetSourceChunkPath, Paths.GetSourcePath, ChunkKey, SourceKey, ServerHash;
      var key := ChunkKey(upload, chunk);
      var pipe := new WriteStream(true);
      var tee := TeeReaderStream.Create(body, pipe);
      if tee.Failure? {
        return Failure(Unhandled("ArgumentException"));
      }
      var buffer := new Byte[4096];
      var hashed := ReadToEnd(tee.value, buffer);
      assert pipe.written == hashed;
      storage.UploadBlob(key, pipe.written);
      return Success(ServerHash(hashed));
    }

    /**
     * The chunk row of the upload at the position: the existing one, or else a new row
     * reserved under `newChunkId`, with no hash yet. A `newChunkId` that is already taken
     * breaks the primary key when the reservation is saved.
     */
    method FindOrReserveChunk(uploadId: Guid, position: int, newChunkId: Guid) returns (r: Result<UploadChunk, ApiError>)
      requires Valid() && uploadId in db.uploads
      modifies db
      ensures Valid()
      ensures db.channels == old(db.channels) && db.uploads == old(db.uploads) && db.videos == old(db.videos)
      ensures db.audioTracks == old(db.audioTracks) && db.videoTracks == old(db.videoTracks)
      ensures HasChunkAt(old(db.uploadChunks), uploadId, position) ==> r.Success? && db.uploadChunks == old(db.uploadChunks)
      ensures !HasChunkAt(old(db.uploadChunks), uploadId, position) && newChunkId in old(db.uploadChunks) ==>
        r.Failure? && r.error.Unhandled? && db.uploadChunks == old(db.uploadChunks)
      ensures !HasChunkAt(old(db.uploadChunks), uploadId, position) && newChunkId !in old(db.uploadChunks) ==>
        r == Success(Database.UploadChunk.UploadChunk(newChunkId, uploadId, position, None)) &&
        db.uploadChunks == old(db.uploadChunks)[newChunkId := r.value]
      ensures r.Success? ==>
        r.value.id in db.uploadChunks && db.uploadChunks[r.value.id] == r.value &&
        r.value.uploadId == uploadId && r.value.position == position
    {
      hide Format, Paths.GetSourceChunkPath, Paths.GetSourcePath, ChunkKey, SourceKey, ServerHash;
      hide TablesValid, StoredChunksMatch;
      TablesFacts(db.channels, db.uploads, db.uploadChunks, db.videos);
      if HasChunkAt(db.uploadChunks, uploadId, position) {
        var id :| id in db.uploadChunks && db.uploadChunks[id].uploadId == uploadId && db.uploadChunks[id].position == position;
        return Success(db.uploadChunks[id]);
      }
      if newChunkId in db.uploadChunks {
        return Failure(Unhandled("duplicate key value violates unique constraint"));
      }
      var chunk := Database.UploadChunk.UploadChunk(newChunkId, uploadId, position, None);
      ReserveChunkKeepsValid(db.channels, db.uploads, db.uploadChunks, db.videos, storage.blobs, chunk);
      db.uploadChunks := db.uploadChunks[newChunkId := chunk];
      r := Success(chunk);
    }

    /**
     * Stores one chunk of an upload the caller owns. The row for (upload, position) is reused
     * when it exists, otherwise a row is reserved first (under `newChunkId`, with no hash);
     * then the body is stored under the row's key and its hash recorded. `chunkId` names the
     * row used.
     */
    method UploadChunk(userId: Guid, uploadId: Guid, position: int, body: ReadStream, newChunkId: Guid)
        returns (r: Result<UploadChunkResponse, ApiError>, ghost chunkId: Guid)
      requires Valid() && body.Valid()
      modifies db, storage, body
      ensures Valid() && body.Valid()
      ensures db.channels == old(db.channels) && db.uploads == old(db.uploads) && db.videos == old(db.videos)
      ensures db.audioTracks == old(db.audioTracks) && db.videoTracks == old(db.videoTracks)
      ensures !ValidPosition(position) ==> r == Failure(ValidationFailed("position"))
      ensures ValidPosition(position) && !OwnsUpload(old(db.uploads), old(db.channels), userId, uploadId) ==>
        r == Failure(UploadNotFound)
      ensures r == Failure(ValidationFailed("position")) || r == Failure(UploadNotFound) ==>
        db.uploadChunks == old(db.uploadChunks) && storage.blobs == old(storage.blobs) && body.position == old(body.position)
      ensures ValidPosition(position) && OwnsUpload(old(db.uploads), old(db.channels), userId, uploadId) ==>
        var chunks := old(db.uploadChunks);
        var reuse := HasChunkAt(chunks, uploadId, position);
        var bytes := old(body.content[body.position..]);
        var reserved := Database.UploadChunk.UploadChunk(chunkId, uploadId, position, None);
        (reuse ==> chunkId in chunks && chunks[chunkId].uploadId == uploadId && chunks[chunkId].position == position) &&
        (!reuse ==> chunkId == newChunkId) &&
        (!reuse && newChunkId in chunks ==>
          r.Failure? && r.error.Unhandled? && db.uploadChunks == chunks && storage.blobs == old(storage.blobs)) &&
        ((reuse || newChunkId !in chunks) && !body.canRead ==>
          r.Failure? && r.error.Unhandled? && storage.blobs == old(storage.blobs) &&
          db.uploadChunks == (if reuse then chunks else chunks[chunkId := reserved])) &&
        ((reuse || newChunkId !in chunks) && body.canRead ==>
          r == Success(UploadChunkResponse(position, ServerHash(bytes))) &&
          db.uploadChunks == chunks[chunkId := reserved.(sha256Hash := Some(ServerHash(bytes)))] &&
          storage.blobs == old(storage.blobs)[ChunkKey(db.uploads[uploadId], reserved) := bytes])
    {
      hide Format, Paths.GetSourceChunkPath, Paths.GetSourcePath, ChunkKey, SourceKey, ServerHash;
      hide TablesValid, StoredChunksMatch, HasChunkAt;
      TablesFacts(db.channels, db.uploads, db.uploadChunks, db.videos);
      chunkId := newChunkId;
      if !ValidPosition(position) {
        return Failure(ValidationFailed("position")), chunkId;
      }
      if !OwnsUpload(db.uploads, db.channels, userId, uploadId) {
        return Failure(UploadNotFound), chunkId;
      }
      var upload := db.uploads[uploadId];
      var found := FindOrReserveChunk(uploadId, position, newChunkId);
      if found.Failure? {
        return Failure(found.error), chunkId;
      }
      chunkId := found.value.id;
      ChunkKeyIgnoresHash(upload, found.value, None);
      r := StoreChunk(upload, found.value, body);
    }

    /** Stores the body as the chunk's object and records its hash in the chunk's row. */
    method StoreChunk(upload: Upload, chunk: UploadChunk, body: ReadStream) returns (r: Result<UploadChunkResponse, ApiError>)
      requires Valid() && body.Valid()
      requires upload.id in db.uploads && db.uploads[upload.id] == upload
      requires chunk.id in db.uploadChunks && db.uploadChunks[chunk.id] == chunk && chunk.uploadId == upload.id
      modifies db, storage, body
      ensures Valid() && body.Valid()
      ensures db.channels == old(db.channels) && db.uploads == old(db.uploads) && db.videos == old(db.videos)
      ensures db.audioTracks == old(db.audioTracks) && db.videoTracks == old(db.videoTracks)
      ensures !body.canRead ==>
        r.Failure? && r.error.Unhandled? && storage.blobs == old(storage.blobs) && db.uploadChunks == old(db.uploadChunks)
      ensures body.canRead ==>
        var hash := ServerHash(old(body.content[body.position..]));
        r == Success(UploadChunkResponse(chunk.position, hash)) &&
        db.uploadChunks == old(db.uploadChunks)[chunk.id := chunk.(sha256Hash := Some(hash))] &&
        storage.blobs == old(storage.blobs)[ChunkKey(upload, chunk) := old(body.content[body.position..])]
    {
      hide Format, Paths.GetSourceChunkPath, Paths.GetSourcePath, ChunkKey, SourceKey, ServerHash;
      hide TablesValid, StoredChunksMatch;
      TablesFacts(db.channels, db.uploads, db.uploadChunks, db.videos);
      ghost var blobs, bytes := storage.blobs, body.content[body.position..];
      var hash := DoUpload(upload, chunk, body);
      if hash.Failure? {
        return Failure(hash.error);
      }
      RecordChunkKeepsTables(db.channels, db.uploads, db.uploadChunks, db.videos, chunk, hash.value);
      RecordChunkKeepsHashes(db.uploads, db.uploadChunks, blobs, chunk, bytes);
      var recorded := chunk.(sha256Hash := Some(hash.value));
      db.uploadChunks := db.uploadChunks[chunk.id := recorded];
      r := Success(CreateUploadChunkResponse(recorded));
    }
    /**
     * Writes the source object as the concatenation of the given chunks' objects, deletes the
     * chunk objects, and deletes the upload row with its chunk rows.
     */
    method CompleteUpload(upload: Upload, assembled: seq<UploadChunk>)
      requires Valid() && upload.id in db.uploads && db.uploads[upload.id] == upload
      requires forall c | c in assembled ::
        c.id in db.uploadChunks && db.uploadChunks[c.id] == c && c.uploadId == upload.id && c.sha256Hash.Some?
      modifies db, storage
      ensures Valid()
      ensures ChunksStored(upload, assembled, old(storage.blobs))
      ensures storage.blobs == old(storage.blobs)[SourceKey(upload) := SourceBlob(upload, assembled, old(storage.blobs))]
                               - set k | k in ChunkKeys(upload, assembled)
      ensures db.uploads == old(db.uploads) - {upload.id}
      ensures db.uploadChunks == ChunksWithout(old(db.uploadChunks), upload.id)
      ensures db.channels == old(db.channels) && db.videos == old(db.videos)
      ensures db.audioTracks == old(db.audioTracks) && db.videoTracks == old(db.videoTracks)
    {
      hide Format, Paths.GetSourceChunkPath, Paths.GetSourcePath, ChunkKey, SourceKey, ServerHash;
      hide TablesValid, StoredChunksMatch;
      HashedChunksStored(db.uploads, db.uploadChunks, storage.blobs, upload, assembled);
      var blobs := storage.blobs;
      var content: seq<Byte> := [];
      var chunkKeys: seq<string> := [];
      var i := 0;
      while i < |assembled|
        invariant i <= |assembled| && ChunksStored(upload, assembled[..i], blobs)
        invariant content == SourceBlob(upload, assembled[..i], blobs)
        invariant chunkKeys == ChunkKeys(upload, assembled[..i])
      {
        assert assembled[..i + 1][..i] == assembled[..i];
        assert assembled[i] in assembled;
        content := content + blobs[ChunkKey(upload, assembled[i])];
        chunkKeys := chunkKeys + [ChunkKey(upload, assembled[i])];
        i := i + 1;
      }
      assert assembled[..i] == assembled;
      TablesFacts(db.channels, db.uploads, db.uploadChunks, db.videos);
      RemoveUploadKeepsTables(db.channels, db.uploads, db.uploadChunks, db.videos, upload.id);
      RemoveUploadKeepsHashes(db.uploads, db.uploadChunks, blobs, upload, assembled, content);
      storage.UploadBlob(SourceKey(upload), content);
      storage.DeleteBlobs(chunkKeys);
      db.uploads := db.uploads - {upload.id};
      db.uploadChunks := ChunksWithout(db.uploadChunks, upload.id);
    }

    /**
     * Finishes an upload the caller owns whose chunks are all stored: the source object is
     * the chunk objects concatenated in the order the database enumerates the chunk rows
     * (`order`), which no ORDER BY fixes.
     */
    method FinishUpload(userId: Guid, uploadId: Guid) returns (r: Result<(), ApiError>, ghost order: seq<UploadChunk>)
      requires Valid()
      modifies db, storage
      ensures Valid()
      ensures db.channels == old(db.channels) && db.videos == old(db.videos)
      ensures db.audioTracks == old(db.audioTracks) && db.videoTracks == old(db.videoTracks)
      ensures !OwnsUpload(old(db.uploads), old(db.channels), userId, uploadId) ==> r == Failure(UploadNotFound)
      ensures (OwnsUpload(old(db.uploads), old(db.channels), userId, uploadId) &&
               HasUnfinishedChunk(old(db.uploadChunks), uploadId)) ==> r == Failure(UploadChunksNotFinished)
      ensures r.Failure? ==>
        db.uploads == old(db.uploads) && db.uploadChunks == old(db.uploadChunks) && storage.blobs == old(storage.blobs)
      ensures (OwnsUpload(old(db.uploads), old(db.channels), userId, uploadId) &&
               !HasUnfinishedChunk(old(db.uploadChunks), uploadId)) ==>
        var upload := old(db.uploads)[uploadId];
        r.Success? && Enumerates(order, old(db.uploadChunks), uploadId) &&
        ChunksStored(upload, order, old(storage.blobs)) &&
        storage.blobs == old(storage.blobs)[SourceKey(upload) := SourceBlob(upload, order, old(storage.blobs))]
                         - set k | k in ChunkKeys(upload, order) &&
        db.uploads == old(db.uploads) - {uploadId} &&
        db.uploadChunks == ChunksWithout(old(db.uploadChunks), uploadId)
    {
      hide Format, Paths.GetSourceChunkPath, Paths.GetSourcePath, ChunkKey, SourceKey, ServerHash;
      hide TablesValid, StoredChunksMatch;
      TablesFacts(db.channels, db.uploads, db.uploadChunks, db.videos);
      order := [];
      if !OwnsUpload(db.uploads, db.channels, userId, uploadId) {
        return Failure(UploadNotFound), order;
      }
      var upload := db.uploads[uploadId];
      var chunks := db.ChunksOfUpload(uploadId);
      order := chunks;
      EnumerationShowsUnfinished(db.uploadChunks, uploadId, chunks);
      if exists c | c in chunks :: c.sha256Hash.None? {
        return Failure(UploadChunksNotFinished), order;
      }
      CompleteUpload(upload, chunks);
      r := Success(());
    }

    /**
     * FinishUpload with the chunk rows ordered by position before they are concatenated, so
     * that the source object is the chunks in position order whatever order the database
     * enumerates them in.
     */
    method FinishUploadFixed(userId: Guid, uploadId: Guid) returns (r: Result<(), ApiError>, ghost order: seq<UploadChunk>)
      requires Valid()
      modifies db, storage
      ensures Valid()
      ensures db.channels == old(db.channels) && db.videos == old(db.videos)
      ensures db.audioTracks == old(db.audioTracks) && db.videoTracks == old(db.videoTracks)
      ensures !OwnsUpload(old(db.uploads), old(db.channels), userId, uploadId) ==> r == Failure(UploadNotFound)
      ensures (OwnsUpload(old(db.uploads), old(db.channels), userId, uploadId) &&
               HasUnfinishedChunk(old(db.uploadChunks), uploadId)) ==> r == Failure(UploadChunksNotFinished)
      ensures r.Failure? ==>
        db.uploads == old(db.uploads) && db.uploadChunks == old(db.uploadChunks) && storage.blobs == old(storage.blobs)
      ensures (OwnsUpload(old(db.uploads), old(db.channels), userId, uploadId) &&
               !HasUnfinishedChunk(old(db.uploadChunks), uploadId)) ==>
        var upload := old(db.uploads)[uploadId];
        var sorted := SortByPosition(order);
        r.Success? && Enumerates(order, old(db.uploadChunks), uploadId) && PositionsIdentify(order) &&
        ChunksStored(upload, sorted, old(storage.blobs)) &&
        storage.blobs == old(storage.blobs)[SourceKey(upload) := SourceBlob(upload, sorted, old(storage.blobs))]
                         - set k | k in ChunkKeys(upload, sorted) &&
        db.uploads == old(db.uploads) - {uploadId} &&
        db.uploadChunks == ChunksWithout(old(db.uploadChunks), uploadId)
    {
      hide Format, Paths.GetSourceChunkPath, Paths.GetSourcePath, ChunkKey, SourceKey, ServerHash;
      hide TablesValid, StoredChunksMatch, SortByPosition, InsertByPosition, SortedByPosition, PositionsIdentify;
      TablesFacts(db.channels, db.uploads, db.uploadChunks, db.videos);
      order := [];
      if !OwnsUpload(db.uploads, db.channels, userId, uploadId) {
        return Failure(UploadNotFound), order;
      }
      var upload := db.uploads[uploadId];
      var chunks := db.ChunksOfUpload(uploadId);
      order := chunks;
      EnumerationShowsUnfinished(db.uploadChunks, uploadId, chunks);
      if exists c | c in chunks :: c.sha256Hash.None? {
        return Failure(UploadChunksNotFinished), order;
      }
      EnumerationIdentifiesPositions(db.uploadChunks, uploadId, chunks);
      SortedMembers(chunks);
      var sorted := SortByPosition(chunks);
      CompleteUpload(upload, sorted);
      r := Success(());
    }
  }
}
