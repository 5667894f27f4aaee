// The API's VideoTranscodeFinishedHandler: applies the worker's three pipeline events to the
// addressed video row and to the audio and video track tables.
module VideoTranscodeFinishedHandler {
  import opened Wrappers
  import opened Guids
  import opened WorkerEvents
  import opened Database

  /** VideoNotFoundException. */
  datatype HandlerError = VideoNotFound(videoId: Guid)

  /** FirstOrDefault(v => v.Id == videoId) over the keyed video rows, or VideoNotFound. */
  function FindVideo(videos: map<Guid, Video>, videoId: Guid): (r: Result<Video, HandlerError>)
    requires VideosKeyed(videos)
    ensures r.Success? <==> exists id | id in videos :: videos[id].id == videoId
    ensures r.Success? ==> r.value in videos.Values && r.value.id == videoId
    ensures r.Failure? ==> r.error == VideoNotFound(videoId)
  {
    if videoId in videos then Success(videos[videoId]) else Failure(VideoNotFound(videoId))
  }

  // ---------------------------------------------------------------- the row updates

  /** TranscodingFinished: the video is ready and fully processed. */
  function Finished(video: Video): (r: Video)
  {
    video.(processingState := Ready, processedDuration := video.duration)
  }

  /** TranscodingsIdentified: the video takes the probed duration. */
  function Identified(video: Video, duration: int): (r: Video)
  {
    video.(duration := duration)
  }

  /** TranscodeProgress: the processed duration becomes the reported time, whatever it was. */
  function Progressed(video: Video, time: int): (r: Video)
  {
    video.(processedDuration := time)
  }

  /** The audio track rows for the audio transcodings; row k takes the k-th new id from `first` on. */
  function AudioTracksOf(videoId: Guid, audio: seq<QueuedAudioTranscoding>, newId: nat -> Guid, first: nat)
    : (tracks: seq<VideoAudioTrack>)
    ensures |tracks| == |audio|
    ensures forall k | 0 <= k < |audio| ::
      tracks[k] == VideoAudioTrack(newId(first + k), videoId, audio[k].name, audio[k].streamIndex)
  {
    seq(|audio|, k requires 0 <= k < |audio| => VideoAudioTrack(newId(first + k), videoId, audio[k].name, audio[k].streamIndex))
  }

  /** The video track rows for the video transcodings; row k takes the k-th new id from `first` on. */
  function VideoTracksOf(videoId: Guid, video: seq<QueuedVideoTranscoding>, newId: nat -> Guid, first: nat)
    : (tracks: seq<VideoVideoTrack>)
    ensures |tracks| == |video|
    ensures forall k | 0 <= k < |video| ::
      tracks[k] == VideoVideoTrack(newId(first + k), videoId, video[k].height, video[k].frameRate)
  {
    seq(|video|, k requires 0 <= k < |video| => VideoVideoTrack(newId(first + k), videoId, video[k].height, video[k].frameRate))
  }

  /**
   * The handler over the database context. Guid.NewGuid is the parameter `newId`: the audio
   * tracks take ids 0, 1, ... and the video tracks the ones after them.
   */
  class VideoTranscodeFinishedHandler {
    const context: VideoApplicationDb

    constructor (context: VideoApplicationDb)
      ensures this.context == context
    {
      this.context := context;
    }

    method GetVideo(videoId: Guid) returns (r: Result<Video, HandlerError>)
      requires context.Valid()
      ensures r == FindVideo(context.videos, videoId)
    {
      if videoId in context.videos {
        r := Success(context.videos[videoId]);
      } else {
        r := Failure(VideoNotFound(videoId));
      }
    }

    method HandleTranscodingFinished(message: WorkerEvent) returns (r: Result<(), HandlerError>)
      requires message.VideoTranscodingFinished? && context.Valid()
      modifies context
      ensures context.channels == old(context.channels) && context.uploads == old(context.uploads)
      ensures context.uploadChunks == old(context.uploadChunks)
      ensures context.audioTracks == old(context.audioTracks) && context.videoTracks == old(context.videoTracks)
      ensures message.videoId !in old(context.videos) ==>
        r == Failure(VideoNotFound(message.videoId)) && context.videos == old(context.videos)
      ensures message.videoId in old(context.videos) ==>
        r == Success(()) &&
        context.videos == old(context.videos)[message.videoId := Finished(old(context.videos)[message.videoId])]
      ensures context.Valid()
    {
      var video := GetVideo(message.videoId);
      if video.Failure? {
        return Failure(video.error);
      }
      UpdateKeepsTables(context.channels, context.uploads, context.uploadChunks, context.videos,
        Finished(video.value));
      context.videos := context.videos[message.videoId := Finished(video.value)];
      r := Success(());
    }

    method HandleTranscodingsIdentified(message: WorkerEvent, newId: nat -> Guid) returns (r: Result<(), HandlerError>)
      requires message.VideoTranscodingsIdentified? && context.Valid()
      modifies context
      ensures context.channels == old(context.channels) && context.uploads == old(context.uploads)
      ensures context.uploadChunks == old(context.uploadChunks)
      ensures message.videoId !in old(context.videos) ==>
        r == Failure(VideoNotFound(message.videoId)) && context.videos == old(context.videos) &&
        context.audioTracks == old(context.audioTracks) && context.videoTracks == old(context.videoTracks)
      ensures message.videoId in old(context.videos) ==>
        var audio := AudioTranscodings(message.transcodings);
        r == Success(()) &&
        context.videos == old(context.videos)[message.videoId := Identified(old(context.videos)[message.videoId], message.duration)] &&
        context.audioTracks == old(context.audioTracks) + AudioTracksOf(message.videoId, audio, newId, 0) &&
        context.videoTracks == old(context.videoTracks) +
          VideoTracksOf(message.videoId, VideoTranscodings(message.transcodings), newId, |audio|)
      ensures context.Valid()
    {
      var video := GetVideo(message.videoId);
      if video.Failure? {
        return Failure(video.error);
      }
      var updated := Identified(video.value, message.duration);
      UpdateKeepsTables(context.channels, context.uploads, context.uploadChunks, context.videos, updated);
      context.videos := context.videos[message.videoId := updated];
      var audio := AudioTranscodings(message.transcodings);
      context.audioTracks := context.audioTracks + AudioTracksOf(message.videoId, audio, newId, 0);
      context.videoTracks := context.videoTracks +
        VideoTracksOf(message.videoId, VideoTranscodings(message.transcodings), newId, |audio|);
      r := Success(());
    }

    method HandleTranscodeProgress(message: WorkerEvent) returns (r: Result<(), HandlerError>)
      requires message.VideoTranscodeProgress? && context.Valid()
      modifies context
      ensures context.channels == old(context.channels) && context.uploads == old(context.uploads)
      ensures context.uploadChunks == old(context.uploadChunks)
      ensures context.audioTracks == old(context.audioTracks) && context.videoTracks == old(context.videoTracks)
      ensures message.videoId !in old(context.videos) ==>
        r == Failure(VideoNotFound(message.videoId)) && context.videos == old(context.videos)
      ensures message.videoId in old(context.videos) ==>
        r == Success(()) &&
        context.videos == old(context.videos)[message.videoId := Progressed(old(context.videos)[message.videoId], message.time)]
      ensures context.Valid()
    {
      var video := GetVideo(message.videoId);
      if video.Failure? {
        return Failure(video.error);
      }
      UpdateKeepsTables(context.channels, context.uploads, context.uploadChunks, context.videos,
        Progressed(video.value, message.time));
      context.videos := context.videos[message.videoId := Progressed(video.value, message.time)];
      r := Success(());
    }
  }

  // ---------------------------------------------------------------- properties

  /**
   * Replacing a video row by one with the same id and channel keeps every key, unique index
   * and foreign key of the schema.
   */
  lemma UpdateKeepsTables(channels: map<Guid, Channel>, uploads: map<Guid, Upload>, uploadChunks: map<Guid, UploadChunk>,
                          videos: map<Guid, Video>, updated: Video)
    requires TablesValid(channels, uploads, uploadChunks, videos)
    requires updated.id in videos && videos[updated.id].channelId == updated.channelId
    ensures TablesValid(channels, uploads, uploadChunks, videos[updated.id := updated])
  {
  }

  /** The three updates keep the row's id and channel, so each keeps the tables valid. */
  lemma UpdatesKeepIdentity(video: Video, duration: int, time: int)
    ensures Finished(video).id == Identified(video, duration).id == Progressed(video, time).id == video.id
    ensures Finished(video).channelId == Identified(video, duration).channelId ==
      Progressed(video, time).channelId == video.channelId
  {
  }

  /** Identified, then finished: the video is ready, fully processed at the identified duration. */
  lemma IdentifiedThenFinished(video: Video, duration: int)
    ensures Finished(Identified(video, duration)).processingState == Ready
    ensures Finished(Identified(video, duration)).processedDuration == duration
    ensures Finished(Identified(video, duration)).duration == duration
  {
  }

  /**
   * A progress report that arrives after the finish (they are published outside the
   * message transaction) leaves the video ready but with a processed duration below its
   * duration: the update takes the reported time even when it goes backwards.
   */
  lemma LateProgressAfterFinished(video: Video, time: int)
    requires time < video.duration
    ensures Progressed(Finished(video), time).processingState == Ready
    ensures Progressed(Finished(video), time).processedDuration == time < Progressed(Finished(video), time).duration
  {
  }

  /** The number of audio track rows of a video. */
  function AudioTrackCount(tracks: seq<VideoAudioTrack>, videoId: Guid): (n: nat)
    ensures n <= |tracks|
  {
    if tracks == [] then 0
    else AudioTrackCount(tracks[..|tracks| - 1], videoId) + (if tracks[|tracks| - 1].videoId == videoId then 1 else 0)
  }

  lemma {:induction false} AudioTrackCountAppend(a: seq<VideoAudioTrack>, b: seq<VideoAudioTrack>, videoId: Guid)
    ensures AudioTrackCount(a + b, videoId) == AudioTrackCount(a, videoId) + AudioTrackCount(b, videoId)
    decreases |b|
  {
    if b == [] {
      assert a + b == a;
    } else {
      var n := |b| - 1;
      AudioTrackCountAppend(a, b[..n], videoId);
      assert (a + b)[..|a + b| - 1] == a + b[..n];
    }
  }

  /** Every row of the new tracks belongs to the video, so it adds exactly their number. */
  lemma {:induction false} AudioTracksCount(videoId: Guid, audio: seq<QueuedAudioTranscoding>, newId: nat -> Guid, first: nat)
    ensures AudioTrackCount(AudioTracksOf(videoId, audio, newId, first), videoId) == |audio|
    decreases |audio|
  {
    if audio != [] {
      var n := |audio| - 1;
      AudioTracksCount(videoId, audio[..n], newId, first);
      assert AudioTracksOf(videoId, audio, newId, first)[..n] == AudioTracksOf(videoId, audio[..n], newId, first);
    }
  }

  /**
   * TranscodingsIdentified is not idempotent: delivering it twice gives the video two rows
   * for each of its audio streams.
   */
  lemma RedeliveryDuplicatesTracks(tracks: seq<VideoAudioTrack>, videoId: Guid, audio: seq<QueuedAudioTranscoding>,
                                   newId1: nat -> Guid, newId2: nat -> Guid)
    ensures AudioTrackCount(tracks + AudioTracksOf(videoId, audio, newId1, 0) + AudioTracksOf(videoId, audio, newId2, 0), videoId) ==
      AudioTrackCount(tracks, videoId) + 2 * |audio|
  {
    AudioTrackCountAppend(tracks + AudioTracksOf(videoId, audio, newId1, 0), AudioTracksOf(videoId, audio, newId2, 0), videoId);
    AudioTrackCountAppend(tracks, AudioTracksOf(videoId, audio, newId1, 0), videoId);
    AudioTracksCount(videoId, audio, newId1, 0);
    AudioTracksCount(videoId, audio, newId2, 0);
  }

  /**
   * The identified tracks mirror the plan: one audio row per audio transcoding with its name
   * and index, then one video row per video transcoding with its height and frame rate.
   */
  lemma IdentifiedTracksMirrorPlan(audio: seq<QueuedAudioTranscoding>, video: seq<QueuedVideoTranscoding>, videoId: Guid,
                                   newId: nat -> Guid)
    ensures var ts := AudioParts(audio) + VideoParts(video);
      AudioTracksOf(videoId, AudioTranscodings(ts), newId, 0) ==
        seq(|audio|, k requires 0 <= k < |audio| => VideoAudioTrack(newId(k), videoId, audio[k].name, audio[k].streamIndex)) &&
      VideoTracksOf(videoId, VideoTranscodings(ts), newId, |AudioTranscodings(ts)|) ==
        seq(|video|, k requires 0 <= k < |video| => VideoVideoTrack(newId(|audio| + k), videoId, video[k].height, video[k].frameRate))
  {
    TranscodingsOfParts(audio, video);
  }
}
