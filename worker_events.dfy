// The records the API and the worker exchange about a video's transcoding, and the stream
// description the transcode planner works from.
module WorkerEvents {
  import opened Guids

  /** StreamType; the constructors carry a suffix so as not to clash with the Video row. */
  datatype StreamType = VideoStream | AudioStream

  /** One stream of the source, as the planner reads it. */
  datatype StreamInfo = StreamInfo(
    title: string,
    streamType: StreamType,
    codecName: string,
    width: int,
    height: int,
    streamIndex: int,
    frameRate: int)

  /** An audio stream of the source to carry into the renditions. */
  datatype QueuedAudioTranscoding = QueuedAudioTranscoding(name: string, streamIndex: int)

  /** A video rendition to produce. */
  datatype QueuedVideoTranscoding = QueuedVideoTranscoding(height: int, frameRate: int)

  /** The QueuedTranscoding record hierarchy: one of the two kinds above. */
  datatype QueuedTranscoding =
    | AudioTranscoding(audio: QueuedAudioTranscoding)
    | VideoTranscoding(video: QueuedVideoTranscoding)

  /** Published by the API once an upload has been assembled into its source object. */
  datatype VideoUploadFinished = VideoUploadFinished(channelId: Guid, videoId: Guid, originalFileExtension: string)

  /** The events the worker publishes; durations and times are whole time units. */
  datatype WorkerEvent =
    | VideoTranscodingsIdentified(channelId: Guid, videoId: Guid, originalFileExtension: string,
                                  duration: int, transcodings: seq<QueuedTranscoding>)
    | VideoTranscodingFinished(channelId: Guid, videoId: Guid)
    | VideoTranscodeProgress(videoId: Guid, time: int)

  /** OfType<QueuedAudioTranscoding>(): the audio entries, in order. */
  function AudioTranscodings(ts: seq<QueuedTranscoding>): (r: seq<QueuedAudioTranscoding>)
    ensures |r| <= |ts|
  {
    if ts == [] then []
    else if ts[0].AudioTranscoding? then [ts[0].audio] + AudioTranscodings(ts[1..])
    else AudioTranscodings(ts[1..])
  }

  /** OfType<QueuedVideoTranscoding>(): the video entries, in order. */
  function VideoTranscodings(ts: seq<QueuedTranscoding>): (r: seq<QueuedVideoTranscoding>)
    ensures |r| <= |ts|
  {
    if ts == [] then []
    else if ts[0].VideoTranscoding? then [ts[0].video] + VideoTranscodings(ts[1..])
    else VideoTranscodings(ts[1..])
  }

  function AudioParts(audio: seq<QueuedAudioTranscoding>): (r: seq<QueuedTranscoding>)
    ensures |r| == |audio| && forall k | 0 <= k < |r| :: r[k] == AudioTranscoding(audio[k])
  {
    seq(|audio|, k requires 0 <= k < |audio| => AudioTranscoding(audio[k]))
  }

  function VideoParts(video: seq<QueuedVideoTranscoding>): (r: seq<QueuedTranscoding>)
    ensures |r| == |video| && forall k | 0 <= k < |r| :: r[k] == VideoTranscoding(video[k])
  {
    seq(|video|, k requires 0 <= k < |video| => VideoTranscoding(video[k]))
  }

  /** Every entry is of one kind or the other, so the two filters share the list out between them. */
  lemma {:induction false} TranscodingsSplit(ts: seq<QueuedTranscoding>)
    ensures |AudioTranscodings(ts)| + |VideoTranscodings(ts)| == |ts|
  {
    if ts != [] {
      TranscodingsSplit(ts[1..]);
    }
  }

  /** A list of video entries only has no audio entries, and its video entries are itself. */
  lemma {:induction false} OnlyVideo(video: seq<QueuedVideoTranscoding>)
    ensures AudioTranscodings(VideoParts(video)) == []
    ensures VideoTranscodings(VideoParts(video)) == video
  {
    if video != [] {
      OnlyVideo(video[1..]);
      assert VideoParts(video)[1..] == VideoParts(video[1..]);
    }
  }

  /**
   * On a list made of audio entries followed by video entries, the filters give back the two
   * parts unchanged.
   */
  lemma {:induction false} TranscodingsOfParts(audio: seq<QueuedAudioTranscoding>, video: seq<QueuedVideoTranscoding>)
    ensures AudioTranscodings(AudioParts(audio) + VideoParts(video)) == audio
    ensures VideoTranscodings(AudioParts(audio) + VideoParts(video)) == video
  {
    if audio != [] {
      TranscodingsOfParts(audio[1..], video);
      assert (AudioParts(audio) + VideoParts(video))[1..] == AudioParts(audio[1..]) + VideoParts(video);
    } else {
      OnlyVideo(video);
      assert AudioParts(audio) + VideoParts(video) == VideoParts(video);
    }
  }
}
