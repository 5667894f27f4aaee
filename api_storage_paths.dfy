// Object-storage keys the API writes: the assembled source file of an upload and the
// individual chunk objects it is assembled from (Api/Services/StorageStructureHelper.cs).
module ApiStorageStructure {
  import opened Guids

  /** "channels/{channel}/videos/{video}/", the folder every key of one video lives in. */
  function VideoFolder(channelId: Guid, videoId: Guid): (p: string)
    ensures |p| == 90
  {
    "channels/" + Format(channelId) + "/videos/" + Format(videoId) + "/"
  }

  function GetSourcePath(channelId: Guid, videoId: Guid): (key: string)
    ensures |key| == 96 && key[..90] == VideoFolder(channelId, videoId)
  {
    "channels/" + Format(channelId) + "/videos/" + Format(videoId) + "/source"
  }

  function GetSourceChunkPath(channelId: Guid, videoId: Guid, chunkId: Guid): (key: string)
    ensures |key| == 133 && key[..90] == VideoFolder(channelId, videoId)
  {
    "channels/" + Format(channelId) + "/videos/" + Format(videoId) + "/chunks/" + Format(chunkId)
  }

  /** The folder names its channel and video: different videos never share a folder. */
  lemma VideoFolderInjective(c1: Guid, v1: Guid, c2: Guid, v2: Guid)
    ensures VideoFolder(c1, v1) == VideoFolder(c2, v2) ==> c1 == c2 && v1 == v2
  {
    if VideoFolder(c1, v1) == VideoFolder(c2, v2) {
      var p1, p2 := VideoFolder(c1, v1), VideoFolder(c2, v2);
      assert p1[9..45] == Format(c1) && p2[9..45] == Format(c2);
      assert p1[53..89] == Format(v1) && p2[53..89] == Format(v2);
      FormatInjective(c1, c2);
      FormatInjective(v1, v2);
    }
  }

  /** Each chunk row gets its own object: the key determines channel, upload and chunk. */
  lemma ChunkPathInjective(c1: Guid, v1: Guid, k1: Guid, c2: Guid, v2: Guid, k2: Guid)
    ensures GetSourceChunkPath(c1, v1, k1) == GetSourceChunkPath(c2, v2, k2) ==> c1 == c2 && v1 == v2 && k1 == k2
  {
    var p1, p2 := GetSourceChunkPath(c1, v1, k1), GetSourceChunkPath(c2, v2, k2);
    if p1 == p2 {
      VideoFolderInjective(c1, v1, c2, v2);
      assert p1[97..] == Format(k1) && p2[97..] == Format(k2);
      FormatInjective(k1, k2);
    }
  }

  lemma SourcePathInjective(c1: Guid, v1: Guid, c2: Guid, v2: Guid)
    ensures GetSourcePath(c1, v1) == GetSourcePath(c2, v2) ==> c1 == c2 && v1 == v2
  {
    VideoFolderInjective(c1, v1, c2, v2);
  }

  /** Assembling a source file never overwrites a chunk object, of this or any other upload. */
  lemma SourceIsNotAChunk(c1: Guid, v1: Guid, c2: Guid, v2: Guid, k: Guid)
    ensures GetSourcePath(c1, v1) != GetSourceChunkPath(c2, v2, k)
  {
  }
}
