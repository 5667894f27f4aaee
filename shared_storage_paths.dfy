// Object-storage keys the transcoding worker reads and writes
// (Shared/Storage/StorageStructureHelper.cs).
module SharedStorageStructure {
  import opened Guids
  import opened Text
  import Api = ApiStorageStructure

  function GetSourcePath(channelId: Guid, videoId: Guid): (key: string)
    ensures |key| == 96
  {
    "channels/" + Format(channelId) + "/videos/" + Format(videoId) + "/source"
  }

  /** Key of one transcoded output file; Windows separators in the relative path become '/'. */
  function GetVideoStreamPath(channelId: Guid, videoId: Guid, relativePath: string): (key: string)
    ensures |key| == 98 + |relativePath|
    ensures key[..90] == Api.VideoFolder(channelId, videoId)
    ensures key[90..98] == "streams/"
    ensures key[98..] == ReplaceChar(relativePath, '\\', '/')
  {
    "channels/" + Format(channelId) + "/videos/" + Format(videoId) + "/streams/"
      + ReplaceChar(relativePath, '\\', '/')
  }

  /** The worker downloads the very object the API assembled the upload into. */
  lemma SourcePathMatchesApi(channelId: Guid, videoId: Guid)
    ensures GetSourcePath(channelId, videoId) == Api.GetSourcePath(channelId, videoId)
  {
  }

  /**
   * Uploading transcoded files never overwrites the source object or a chunk object,
   * whatever the relative path of the file.
   */
  lemma StreamPathIsNotSourceOrChunk(c1: Guid, v1: Guid, relativePath: string, c2: Guid, v2: Guid, k: Guid)
    ensures GetVideoStreamPath(c1, v1, relativePath) != Api.GetSourcePath(c2, v2)
    ensures GetVideoStreamPath(c1, v1, relativePath) != Api.GetSourceChunkPath(c2, v2, k)
  {
    var key := GetVideoStreamPath(c1, v1, relativePath);
    assert key[90] == 's';
    assert Api.GetSourceChunkPath(c2, v2, k)[90] == 'c';
  }

  /** A stream key never contains a backslash. */
  lemma StreamPathHasNoBackslash(channelId: Guid, videoId: Guid, relativePath: string)
    ensures forall i :: 98 <= i < |GetVideoStreamPath(channelId, videoId, relativePath)| ==>
      GetVideoStreamPath(channelId, videoId, relativePath)[i] != '\\'
  {
  }

  /** Replacing backslashes is idempotent: a relative path already written with '/' is kept. */
  lemma BackslashReplacementIdempotent(s: string)
    ensures ReplaceChar(ReplaceChar(s, '\\', '/'), '\\', '/') == ReplaceChar(s, '\\', '/')
    ensures (forall i | 0 <= i < |s| :: s[i] != '\\') ==> ReplaceChar(s, '\\', '/') == s
  {
  }

  /**
   * Output files of one video with different relative paths (written with '/') land on
   * different keys, and outputs of different videos never share a key.
   */
  lemma StreamPathInjective(c1: Guid, v1: Guid, r1: string, c2: Guid, v2: Guid, r2: string)
    requires forall i :: 0 <= i < |r1| ==> r1[i] != '\\'
    requires forall i :: 0 <= i < |r2| ==> r2[i] != '\\'
    ensures GetVideoStreamPath(c1, v1, r1) == GetVideoStreamPath(c2, v2, r2) ==> c1 == c2 && v1 == v2 && r1 == r2
  {
    var p1, p2 := GetVideoStreamPath(c1, v1, r1), GetVideoStreamPath(c2, v2, r2);
    if p1 == p2 {
      Api.VideoFolderInjective(c1, v1, c2, v2);
      BackslashReplacementIdempotent(r1);
      BackslashReplacementIdempotent(r2);
    }
  }
}
