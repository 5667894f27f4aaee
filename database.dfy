// The API's relational state (the rows of the Channels, Uploads, UploadChunks, Videos and
// track tables) and the object store, with the keys and unique indexes the schema declares, and
// one rule the schema does not declare: at most one chunk row per (upload, position).
module Database {
  import opened Wrappers
  import opened Guids
  import opened Sha256Spec

  /** A point in time (NodaTime Instant), as ticks. */
  type Instant = int

  datatype Channel = Channel(
    id: Guid,
    identifierName: string,
    displayName: string,
    description: string,
    ownerId: Guid,
    markedForDeletion: bool,
    createdAt: Instant)

  datatype Upload = Upload(id: Guid, channelId: Guid, sha256Hash: string, fileSize: int, fileName: string)

  /** A chunk row; a `None` hash marks a chunk whose bytes have not been stored yet. */
  datatype UploadChunk = UploadChunk(id: Guid, uploadId: Guid, position: int, sha256Hash: Option<string>)

  datatype VideoProcessingState = Processing | Ready

  /** A video row; durations are whole time units. */
  datatype Video = Video(
    id: Guid,
    channelId: Guid,
    name: string,
    uploadDate: Instant,
    publishDate: Option<Instant>,
    duration: int,
    processedDuration: int,
    processingState: VideoProcessingState)

  datatype VideoAudioTrack = VideoAudioTrack(id: Guid, videoId: Guid, name: string, index: int)

  datatype VideoVideoTrack = VideoVideoTrack(id: Guid, videoId: Guid, height: int, frameRate: int)

  // Primary keys: every row is stored under its own id.

  ghost predicate ChannelsKeyed(channels: map<Guid, Channel>)
  {
    forall id | id in channels :: channels[id].id == id
  }

  ghost predicate UploadsKeyed(uploads: map<Guid, Upload>)
  {
    forall id | id in uploads :: uploads[id].id == id
  }

  ghost predicate ChunksKeyed(chunks: map<Guid, UploadChunk>)
  {
    forall id | id in chunks :: chunks[id].id == id
  }

  ghost predicate VideosKeyed(videos: map<Guid, Video>)
  {
    forall id | id in videos :: videos[id].id == id
  }

  // Unique indexes.

  /** IX_Channels_IdentifierName and IX_Channels_DisplayName. */
  ghost predicate UniqueChannelNames(channels: map<Guid, Channel>)
  {
    forall a, b | a in channels && b in channels && a != b ::
      channels[a].identifierName != channels[b].identifierName &&
      channels[a].displayName != channels[b].displayName
  }

  /** IX_Uploads_ChannelId_Sha256Hash. */
  ghost predicate UniqueUploadHashes(uploads: map<Guid, Upload>)
  {
    forall a, b | a in uploads && b in uploads && a != b ::
      uploads[a].channelId != uploads[b].channelId || uploads[a].sha256Hash != uploads[b].sha256Hash
  }

  /**
   * At most one chunk row per (upload, position). No index enforces this (the chunk table has
   * only a non-unique index on UploadId); it holds because the upload actions, run one after
   * another, look the position up before inserting.
   */
  ghost predicate UniqueChunkPositions(chunks: map<Guid, UploadChunk>)
  {
    forall a, b | a in chunks && b in chunks && a != b ::
      chunks[a].uploadId != chunks[b].uploadId || chunks[a].position != chunks[b].position
  }

  // Foreign keys.

  ghost predicate UploadsReferenceChannels(uploads: map<Guid, Upload>, channels: map<Guid, Channel>)
  {
    forall id | id in uploads :: uploads[id].channelId in channels
  }

  ghost predicate ChunksReferenceUploads(chunks: map<Guid, UploadChunk>, uploads: map<Guid, Upload>)
  {
    forall id | id in chunks :: chunks[id].uploadId in uploads
  }

  ghost predicate VideosReferenceChannels(videos: map<Guid, Video>, channels: map<Guid, Channel>)
  {
    forall id | id in videos :: videos[id].channelId in channels
  }

  /** The channel owning an upload belongs to `userId`. */
  predicate OwnsUpload(uploads: map<Guid, Upload>, channels: map<Guid, Channel>, userId: Guid, uploadId: Guid)
  {
    uploadId in uploads && uploads[uploadId].channelId in channels &&
    channels[uploads[uploadId].channelId].ownerId == userId
  }

  /**
   * Every key, unique index and foreign key the schema declares holds, and so does the
   * one-chunk-per-position rule that the sequential upload actions keep.
   */
  ghost predicate TablesValid(channels: map<Guid, Channel>, uploads: map<Guid, Upload>,
                              uploadChunks: map<Guid, UploadChunk>, videos: map<Guid, Video>)
  {
    ChannelsKeyed(channels) && UniqueChannelNames(channels) &&
    UploadsKeyed(uploads) && UniqueUploadHashes(uploads) && UploadsReferenceChannels(uploads, channels) &&
    ChunksKeyed(uploadChunks) && UniqueChunkPositions(uploadChunks) &&
    ChunksReferenceUploads(uploadChunks, uploads) &&
    VideosKeyed(videos) && VideosReferenceChannels(videos, channels)
  }

  /** The rows of the tables the API owns. */
  class VideoApplicationDb {
    var channels: map<Guid, Channel>
    var uploads: map<Guid, Upload>
    var uploadChunks: map<Guid, UploadChunk>
    var videos: map<Guid, Video>
    var audioTracks: seq<VideoAudioTrack>
    var videoTracks: seq<VideoVideoTrack>

    ghost predicate Valid()
      reads this
    {
      TablesValid(channels, uploads, uploadChunks, videos)
    }

    constructor ()
      ensures Valid()
      ensures channels == map[] && uploads == map[] && uploadChunks == map[] && videos == map[]
      ensures audioTracks == [] && videoTracks == []
    {
      channels, uploads, uploadChunks, videos := map[], map[], map[], map[];
      audioTracks, videoTracks := [], [];
    }

    /**
     * The chunk rows of an upload, each once, in the order the database returns them; no
     * ORDER BY is given, so that order is left open.
     */
    method ChunksOfUpload(uploadId: Guid) returns (cs: seq<UploadChunk>)
      requires ChunksKeyed(uploadChunks)
      ensures forall c | c in cs :: c.id in uploadChunks && uploadChunks[c.id] == c && c.uploadId == uploadId
      ensures forall id | id in uploadChunks && uploadChunks[id].uploadId == uploadId :: uploadChunks[id] in cs
      ensures forall i, j | 0 <= i < j < |cs| :: cs[i].id != cs[j].id
    {
      var left := set id | id in uploadChunks && uploadChunks[id].uploadId == uploadId;
      cs := [];
      while left != {}
        invariant left <= uploadChunks.Keys
        invariant forall id | id in left :: uploadChunks[id].uploadId == uploadId
        invariant forall c | c in cs :: c.id in uploadChunks && uploadChunks[c.id] == c && c.uploadId == uploadId
        invariant forall c | c in cs :: c.id !in left
        invariant forall id | id in uploadChunks && uploadChunks[id].uploadId == uploadId ::
          id in left || uploadChunks[id] in cs
        invariant forall i, j | 0 <= i < j < |cs| :: cs[i].id != cs[j].id
        decreases |left|
      {
        var id :| id in left;
        assert uploadChunks[id].id == id;
        cs := cs + [uploadChunks[id]];
        left := left - {id};
      }
    }
  }

  /**
   * The video rows of a channel, each once, in the order the database returns them; no
   * ORDER BY is given, so that order is left open.
   */
  method VideosOfChannel(videos: map<Guid, Video>, channelId: Guid) returns (vs: seq<Video>)
    requires VideosKeyed(videos)
    ensures forall v | v in vs :: v.id in videos && videos[v.id] == v && v.channelId == channelId
    ensures forall id | id in videos && videos[id].channelId == channelId :: videos[id] in vs
    ensures forall i, j | 0 <= i < j < |vs| :: vs[i].id != vs[j].id
  {
    var left: set<Guid> := set id | id in videos && videos[id].channelId == channelId;
    vs := [];
    while left != {}
      invariant forall id | id in left :: id in videos && videos[id].channelId == channelId
      invariant forall v | v in vs :: v.id in videos && videos[v.id] == v && v.channelId == channelId && v.id !in left
      invariant forall id | id in videos && videos[id].channelId == channelId :: id in left || videos[id] in vs
      invariant forall i, j | 0 <= i < j < |vs| :: vs[i].id != vs[j].id
      decreases |left|
    {
      var id :| id in left;
      vs := vs + [videos[id]];
      left := left - {id};
    }
  }

  /** The object store: blobs by key. */
  class BlobStore {
    var blobs: map<string, seq<Byte>>

    constructor ()
      ensures blobs == map[]
    {
      blobs := map[];
    }

    method UploadBlob(key: string, content: seq<Byte>)
      modifies this
      ensures blobs == old(blobs)[key := content]
    {
      blobs := blobs[key := content];
    }

    method DeleteBlobs(keys: seq<string>)
      modifies this
      ensures blobs == old(blobs) - set k | k in keys
    {
      blobs := blobs - set k | k in keys;
    }
  }
}
