// The worker's TranscodeVideoHandler. Stage one plans the renditions of an uploaded video
// from its probed streams and announces them; stage two runs the conversion and uploads the
// produced files to the object store, then announces that transcoding has finished.
module TranscodeVideoHandler {
  import opened Wrappers
  import opened Guids
  import opened Text
  import opened WorkerEvents
  import opened Database
  import opened Bus
  import opened Sha256Spec
  import Converter = FfmpegConverter
  import Storage = SharedStorageStructure

  /** The rendition ladder, ascending. */
  const Resolutions: seq<int> := [480, 720, 1080, 1440, 2160, 4320]

  /** The rungs whose frame rate is halved when it exceeds LowFpsThreshold. */
  const LowFpsResolutions: seq<int> := [480]

  const LowFpsThreshold: int := 30

  /** What stops a handler: a missing source object, Max over no streams, or a failed conversion. */
  datatype HandlerError =
    | SourceNotFound(key: string)
    | EmptySequence
    | ConversionFailed(error: Converter.ConvertError)

  // ---------------------------------------------------------------- the plan

  /** Where(s => s.StreamType == StreamType.Audio): the audio streams, in probe order. */
  function AudioStreams(streams: seq<StreamInfo>): (r: seq<StreamInfo>)
    ensures |r| <= |streams|
    ensures forall s | s in r :: s in streams && s.streamType == AudioStream
    ensures forall s | s in streams && s.streamType == AudioStream :: s in r
  {
    if streams == [] then []
    else
      var init := AudioStreams(streams[..|streams| - 1]);
      var last := streams[|streams| - 1];
      assert streams == streams[..|streams| - 1] + [last];
      if last.streamType == AudioStream then init + [last] else init
  }

  /** One audio transcoding per audio stream, with the stream's title and index. */
  function AudioPlan(audioStreams: seq<StreamInfo>): (r: seq<QueuedAudioTranscoding>)
    ensures |r| == |audioStreams|
    ensures forall k | 0 <= k < |r| ::
      r[k] == QueuedAudioTranscoding(audioStreams[k].title, audioStreams[k].streamIndex)
  {
    if audioStreams == [] then []
    else
      var last := audioStreams[|audioStreams| - 1];
      AudioPlan(audioStreams[..|audioStreams| - 1]) + [QueuedAudioTranscoding(last.title, last.streamIndex)]
  }

  /** Max(s => s.Height) over a non-empty stream list. */
  function MaxHeight(streams: seq<StreamInfo>): (m: int)
    requires |streams| > 0
    ensures forall k | 0 <= k < |streams| :: streams[k].height <= m
    ensures exists k | 0 <= k < |streams| :: streams[k].height == m
  {
    if |streams| == 1 then streams[0].height
    else
      var rest := MaxHeight(streams[1..]);
      assert forall k | 1 <= k < |streams| :: streams[k] == streams[1..][k - 1];
      if streams[0].height < rest then rest else streams[0].height
  }

  /** Max(s => s.FrameRate) over a non-empty stream list. */
  function MaxFrameRate(streams: seq<StreamInfo>): (m: int)
    requires |streams| > 0
    ensures forall k | 0 <= k < |streams| :: streams[k].frameRate <= m
    ensures exists k | 0 <= k < |streams| :: streams[k].frameRate == m
  {
    if |streams| == 1 then streams[0].frameRate
    else
      var rest := MaxFrameRate(streams[1..]);
      assert forall k | 1 <= k < |streams| :: streams[k] == streams[1..][k - 1];
      if streams[0].frameRate < rest then rest else streams[0].frameRate
  }

  /** TakeWhile(r => r <= bound): the longest prefix of rungs not above the bound. */
  function TakeWhileAtMost(rungs: seq<int>, bound: int): (r: seq<int>)
    ensures |r| <= |rungs| && r == rungs[..|r|]
    ensures forall k | 0 <= k < |r| :: r[k] <= bound
    ensures |r| < |rungs| ==> rungs[|r|] > bound
  {
    if rungs == [] || rungs[0] > bound then []
    else
      var rest := TakeWhileAtMost(rungs[1..], bound);
      assert rungs[1..][..|rest|] == rungs[1..|rest| + 1];
      [rungs[0]] + rest
  }

  /** Where(r => r <= bound): every rung not above the bound, in order. */
  function AtMost(rungs: seq<int>, bound: int): (r: seq<int>)
    ensures forall h :: h in r <==> h in rungs && h <= bound
  {
    if rungs == [] then []
    else if rungs[0] <= bound then [rungs[0]] + AtMost(rungs[1..], bound)
    else
      assert rungs == [rungs[0]] + rungs[1..];
      AtMost(rungs[1..], bound)
  }

  predicate Ascending(s: seq<int>)
  {
    forall i, j | 0 <= i < j < |s| :: s[i] < s[j]
  }

  /** The frame rate of a rung: the source's, halved (integer division) on low rungs above the threshold. */
  function RungFrameRate(height: int, maxFrameRate: int): (frameRate: int)
  {
    if height in LowFpsResolutions && maxFrameRate > LowFpsThreshold then maxFrameRate / 2 else maxFrameRate
  }

  /** One video transcoding per rung. */
  function VideoPlan(heights: seq<int>, maxFrameRate: int): (r: seq<QueuedVideoTranscoding>)
    ensures |r| == |heights|
    ensures forall k | 0 <= k < |r| :: r[k] == QueuedVideoTranscoding(heights[k], RungFrameRate(heights[k], maxFrameRate))
  {
    if heights == [] then []
    else
      var last := heights[|heights| - 1];
      VideoPlan(heights[..|heights| - 1], maxFrameRate) + [QueuedVideoTranscoding(last, RungFrameRate(last, maxFrameRate))]
  }

  /** The video transcodings of the plan. */
  function PlannedRenditions(streams: seq<StreamInfo>): seq<QueuedVideoTranscoding>
    requires |streams| > 0
  {
    VideoTranscodings(Plan(streams).value)
  }

  /** The transcodings Handle(VideoUploadFinished) announces for a stream list. */
  function Plan(streams: seq<StreamInfo>): (r: Result<seq<QueuedTranscoding>, HandlerError>)
    ensures r.Success? <==> |streams| > 0
    ensures r.Failure? ==> r.error == EmptySequence
  {
    if |streams| == 0 then Failure(EmptySequence)
    else
      var heights := TakeWhileAtMost(Resolutions, MaxHeight(streams));
      Success(AudioParts(AudioPlan(AudioStreams(streams))) + VideoParts(VideoPlan(heights, MaxFrameRate(streams))))
  }

  /** The planning part of Handle(VideoUploadFinished), with its two loops over the list it builds. */
  method PlanTranscodings(streams: seq<StreamInfo>) returns (r: Result<seq<QueuedTranscoding>, HandlerError>)
    ensures r == Plan(streams)
  {
    hide AudioStreams, AudioPlan, AudioParts, VideoPlan, VideoParts, MaxHeight, MaxFrameRate, TakeWhileAtMost;
    var transcodingsToCreate: seq<QueuedTranscoding> := [];
    var audioStreams := AudioStreams(streams);
    for i := 0 to |audioStreams|
      invariant transcodingsToCreate == AudioParts(AudioPlan(audioStreams[..i]))
    {
      var audioStream := audioStreams[i];
      assert audioStreams[..i + 1] == audioStreams[..i] + [audioStream];
      AudioPlanSnoc(audioStreams[..i], audioStream);
      transcodingsToCreate := transcodingsToCreate + [AudioTranscoding(QueuedAudioTranscoding(audioStream.title, audioStream.streamIndex))];
    }
    assert audioStreams[..|audioStreams|] == audioStreams;
    if |streams| == 0 {
      return Failure(EmptySequence);
    }
    var maxHeight := MaxHeight(streams);
    var maxFrameRate := MaxFrameRate(streams);
    var heights := TakeWhileAtMost(Resolutions, maxHeight);
    ghost var audioPart := transcodingsToCreate;
    for i := 0 to |heights|
      invariant transcodingsToCreate == audioPart + VideoParts(VideoPlan(heights[..i], maxFrameRate))
    {
      var height := heights[i];
      var frameRate := maxFrameRate;
      if height in LowFpsResolutions && frameRate > LowFpsThreshold {
        frameRate := frameRate / 2;
      }
      assert heights[..i + 1] == heights[..i] + [height];
      VideoPlanSnoc(heights[..i], height, maxFrameRate);
      transcodingsToCreate := transcodingsToCreate + [VideoTranscoding(QueuedVideoTranscoding(height, frameRate))];
    }
    assert heights[..|heights|] == heights;
    r := Success(transcodingsToCreate);
  }

  lemma AudioPlanSnoc(audioStreams: seq<StreamInfo>, s: StreamInfo)
    ensures AudioParts(AudioPlan(audioStreams + [s])) ==
      AudioParts(AudioPlan(audioStreams)) + [AudioTranscoding(QueuedAudioTranscoding(s.title, s.streamIndex))]
  {
    hide AudioPlan;
    assert (audioStreams + [s])[..|audioStreams|] == audioStreams;
  }

  lemma VideoPlanSnoc(heights: seq<int>, h: int, maxFrameRate: int)
    ensures VideoParts(VideoPlan(heights + [h], maxFrameRate)) ==
      VideoParts(VideoPlan(heights, maxFrameRate)) + [VideoTranscoding(QueuedVideoTranscoding(h, RungFrameRate(h, maxFrameRate)))]
  {
    hide VideoPlan;
    assert (heights + [h])[..|heights|] == heights;
  }

  // ---------------------------------------------------------------- properties of the plan

  /** Above a rung that exceeds the bound, an ascending ladder has nothing at or below it. */
  lemma {:induction false} AtMostOfHigher(rungs: seq<int>, bound: int)
    requires Ascending(rungs) && |rungs| > 0 && rungs[0] > bound
    ensures AtMost(rungs, bound) == []
  {
    if |rungs| > 1 {
      assert rungs[1..][0] == rungs[1];
      AtMostOfHigher(rungs[1..], bound);
    }
  }

  /** On an ascending ladder, TakeWhile and Where agree. */
  lemma {:induction false} TakeWhileIsFilter(rungs: seq<int>, bound: int)
    requires Ascending(rungs)
    ensures TakeWhileAtMost(rungs, bound) == AtMost(rungs, bound)
  {
    if rungs != [] {
      if rungs[0] > bound {
        AtMostOfHigher(rungs, bound);
      } else {
        TakeWhileIsFilter(rungs[1..], bound);
      }
    }
  }

  /** The video part of the plan is the rung list with each rung's frame rate. */
  lemma PlannedRenditionsAre(streams: seq<StreamInfo>)
    requires |streams| > 0
    ensures PlannedRenditions(streams) == VideoPlan(TakeWhileAtMost(Resolutions, MaxHeight(streams)), MaxFrameRate(streams))
  {
    hide AudioParts, VideoParts, VideoTranscodings, AudioTranscodings, AudioStreams, AudioPlan, VideoPlan,
      TakeWhileAtMost, MaxHeight, MaxFrameRate;
    TranscodingsOfParts(AudioPlan(AudioStreams(streams)),
      VideoPlan(TakeWhileAtMost(Resolutions, MaxHeight(streams)), MaxFrameRate(streams)));
  }

  /** The planned heights are exactly the ladder rungs not above the tallest stream. */
  lemma PlannedHeights(streams: seq<StreamInfo>)
    requires |streams| > 0
    ensures forall h :: (exists k | 0 <= k < |PlannedRenditions(streams)| :: PlannedRenditions(streams)[k].height == h) <==>
                        h in Resolutions && h <= MaxHeight(streams)
    ensures forall k | 0 <= k < |PlannedRenditions(streams)| :: PlannedRenditions(streams)[k].height in Resolutions
  {
    hide PlannedRenditions, VideoPlan, TakeWhileAtMost, AtMost, MaxHeight, MaxFrameRate;
    var heights := TakeWhileAtMost(Resolutions, MaxHeight(streams));
    var vplan := VideoPlan(heights, MaxFrameRate(streams));
    PlannedRenditionsAre(streams);
    ResolutionsAscending();
    TakeWhileIsFilter(Resolutions, MaxHeight(streams));
    forall h ensures (exists k | 0 <= k < |vplan| :: vplan[k].height == h) <==> h in heights {
      if h in heights {
        var k :| 0 <= k < |heights| && heights[k] == h;
        assert vplan[k].height == h;
      }
    }
  }

  /** The planned heights ascend, as the ladder does. */
  lemma PlannedHeightsAscend(streams: seq<StreamInfo>)
    requires |streams| > 0
    ensures forall i, j | 0 <= i < j < |PlannedRenditions(streams)| ::
      PlannedRenditions(streams)[i].height < PlannedRenditions(streams)[j].height
  {
    hide PlannedRenditions, VideoPlan, TakeWhileAtMost, MaxHeight, MaxFrameRate;
    var heights := TakeWhileAtMost(Resolutions, MaxHeight(streams));
    var vplan := VideoPlan(heights, MaxFrameRate(streams));
    PlannedRenditionsAre(streams);
    ResolutionsAscending();
    forall i, j | 0 <= i < j < |vplan| ensures vplan[i].height < vplan[j].height {
      assert vplan[i].height == Resolutions[i] && vplan[j].height == Resolutions[j];
    }
  }

  /**
   * Every rendition has the highest frame rate of the source, except the 480 rung, which
   * gets half of it (rounded down) when it is above 30.
   */
  lemma PlannedFrameRates(streams: seq<StreamInfo>)
    requires |streams| > 0
    ensures forall k | 0 <= k < |PlannedRenditions(streams)| ::
      PlannedRenditions(streams)[k].frameRate ==
        if PlannedRenditions(streams)[k].height == 480 && MaxFrameRate(streams) > 30
        then MaxFrameRate(streams) / 2 else MaxFrameRate(streams)
  {
    hide PlannedRenditions, VideoPlan, TakeWhileAtMost, MaxHeight, MaxFrameRate;
    PlannedRenditionsAre(streams);
  }

  lemma ResolutionsAscending()
    ensures Ascending(Resolutions)
  {
  }

  /** One audio transcoding per audio stream, in probe order, with its title and index. */
  lemma PlannedAudio(streams: seq<StreamInfo>)
    requires |streams| > 0
    ensures var audio := AudioTranscodings(Plan(streams).value);
      audio == AudioPlan(AudioStreams(streams)) &&
      (forall a | a in audio :: exists s | s in streams :: s.streamType == AudioStream && a == QueuedAudioTranscoding(s.title, s.streamIndex)) &&
      (forall s | s in streams && s.streamType == AudioStream :: QueuedAudioTranscoding(s.title, s.streamIndex) in audio)
  {
    hide AudioParts, VideoParts, VideoTranscodings, AudioTranscodings, AudioStreams, VideoPlan,
      TakeWhileAtMost, MaxHeight, MaxFrameRate;
    var audioStreams := AudioStreams(streams);
    var aplan := AudioPlan(audioStreams);
    TranscodingsOfParts(aplan, VideoPlan(TakeWhileAtMost(Resolutions, MaxHeight(streams)), MaxFrameRate(streams)));
    forall a | a in aplan ensures exists s | s in streams :: s.streamType == AudioStream && a == QueuedAudioTranscoding(s.title, s.streamIndex) {
      var k :| 0 <= k < |aplan| && aplan[k] == a;
      assert audioStreams[k] in audioStreams;
    }
    forall s | s in streams && s.streamType == AudioStream ensures QueuedAudioTranscoding(s.title, s.streamIndex) in aplan {
      var k :| 0 <= k < |audioStreams| && audioStreams[k] == s;
      assert aplan[k] == QueuedAudioTranscoding(s.title, s.streamIndex);
    }
  }

  /** In the plan every audio transcoding comes before every video transcoding. */
  lemma AudioBeforeVideo(streams: seq<StreamInfo>)
    requires |streams| > 0
    ensures var plan := Plan(streams).value;
      forall i, j | 0 <= i < j < |plan| :: plan[i].VideoTranscoding? ==> plan[j].VideoTranscoding?
  {
    var aparts := AudioParts(AudioPlan(AudioStreams(streams)));
    var plan := Plan(streams).value;
    forall i, j | 0 <= i < j < |plan| && plan[i].VideoTranscoding? ensures plan[j].VideoTranscoding? {
      assert i >= |aparts|;
    }
  }

  /** A source shorter than the lowest rung gets no video rendition at all. */
  lemma BelowLowestRungNoVideo(streams: seq<StreamInfo>)
    requires |streams| > 0 && forall k | 0 <= k < |streams| :: streams[k].height < 480
    ensures VideoTranscodings(Plan(streams).value) == []
  {
    TranscodingsOfParts(AudioPlan(AudioStreams(streams)), VideoPlan(TakeWhileAtMost(Resolutions, MaxHeight(streams)), MaxFrameRate(streams)));
  }

  /** An empty stream list fails: Max has no element to return. */
  lemma EmptyStreamsFail()
    ensures Plan([]) == Failure(EmptySequence)
  {
  }

  /**
   * Every planned height has an audio bit rate, so the converter's table lookup cannot fail
   * on a plan: converting a plan always yields a command line.
   */
  lemma PlanAlwaysConverts(streams: seq<StreamInfo>, inputFile: string, outputDirectory: string)
    requires |streams| > 0
    ensures forall v | v in VideoTranscodings(Plan(streams).value) :: v.height in Converter.AudioBitRatesForResolution
    ensures Converter.ConvertArguments(inputFile, outputDirectory, Plan(streams).value).Success?
  {
    hide Plan, VideoTranscodings, MaxHeight;
    PlannedHeights(streams);
    var video := PlannedRenditions(streams);
    forall v | v in video ensures v.height in Converter.AudioBitRatesForResolution {
      var k :| 0 <= k < |video| && video[k] == v;
      assert v.height in Resolutions;
    }
    Converter.ConvertDefined(inputFile, outputDirectory, Plan(streams).value);
  }

  /**
   * A 1080p source at 60 frames per second with one audio stream gets that audio stream, a
   * 480p rendition at 30 frames per second and 720p and 1080p renditions at 60.
   */
  lemma PlanOf1080p60(video: StreamInfo, audio: StreamInfo)
    requires video.streamType == VideoStream && video.height == 1080 && video.frameRate == 60
    requires audio.streamType == AudioStream && audio.height == 0 && audio.frameRate == 0
    ensures Plan([video, audio]) == Success([
      AudioTranscoding(QueuedAudioTranscoding(audio.title, audio.streamIndex)),
      VideoTranscoding(QueuedVideoTranscoding(480, 30)),
      VideoTranscoding(QueuedVideoTranscoding(720, 60)),
      VideoTranscoding(QueuedVideoTranscoding(1080, 60))])
  {
    hide AudioStreams, AudioPlan, AudioParts, VideoPlan, VideoParts, TakeWhileAtMost;
    var streams := [video, audio];
    AudioStreamsOfPair(video, audio);
    assert MaxHeight(streams) == 1080 && MaxFrameRate(streams) == 60;
    assert TakeWhileAtMost(Resolutions, 1080) == [480, 720, 1080] by {
      LadderUpTo1080();
    }
    var aplan := [QueuedAudioTranscoding(audio.title, audio.streamIndex)];
    var vplan := [QueuedVideoTranscoding(480, 30), QueuedVideoTranscoding(720, 60), QueuedVideoTranscoding(1080, 60)];
    assert AudioPlan([audio]) == aplan;
    assert VideoPlan([480, 720, 1080], 60) == vplan;
    assert AudioParts(aplan) + VideoParts(vplan) == [
      AudioTranscoding(QueuedAudioTranscoding(audio.title, audio.streamIndex)),
      VideoTranscoding(QueuedVideoTranscoding(480, 30)),
      VideoTranscoding(QueuedVideoTranscoding(720, 60)),
      VideoTranscoding(QueuedVideoTranscoding(1080, 60))];
  }

  lemma AudioStreamsOfPair(video: StreamInfo, audio: StreamInfo)
    requires video.streamType == VideoStream && audio.streamType == AudioStream
    ensures AudioStreams([video, audio]) == [audio]
  {
    assert [video, audio][..1] == [video];
    assert AudioStreams([video]) == [];
  }

  lemma LadderUpTo1080()
    ensures TakeWhileAtMost(Resolutions, 1080) == [480, 720, 1080]
  {
    assert Resolutions[1..][1..][1..][0] == 1440;
  }

  // ---------------------------------------------------------------- the handler

  /** A file the conversion left in the output directory: its full path and its bytes. */
  datatype OutputFile = OutputFile(path: string, content: seq<Byte>)

  /** The storage key of an output file: its path below the output directory, under the video's streams folder. */
  function OutputKey(channelId: Guid, videoId: Guid, outputDirectoryPath: string, file: OutputFile): (key: string)
    requires |outputDirectoryPath| < |file.path|
    ensures key == Storage.GetVideoStreamPath(channelId, videoId, file.path[|outputDirectoryPath| + 1..])
  {
    Storage.GetVideoStreamPath(channelId, videoId, file.path[|outputDirectoryPath| + 1..])
  }

  /** Every file lies below the directory, as Directory.EnumerateFiles reports them. */
  predicate InDirectory(outputDirectoryPath: string, files: seq<OutputFile>)
  {
    forall k | 0 <= k < |files| :: |outputDirectoryPath| < |files[k].path|
  }

  /** The object store after uploading the files in order. */
  function Uploaded(blobs: map<string, seq<Byte>>, channelId: Guid, videoId: Guid, outputDirectoryPath: string,
                    files: seq<OutputFile>): (r: map<string, seq<Byte>>)
    requires InDirectory(outputDirectoryPath, files)
    decreases |files|
  {
    if files == [] then blobs
    else
      var last := files[|files| - 1];
      Uploaded(blobs, channelId, videoId, outputDirectoryPath, files[..|files| - 1])
        [OutputKey(channelId, videoId, outputDirectoryPath, last) := last.content]
  }

  class TranscodeVideoHandler {
    const bus: Outbox<WorkerEvent>
    const storage: BlobStore

    constructor (bus: Outbox<WorkerEvent>, storage: BlobStore)
      ensures this.bus == bus && this.storage == storage
    {
      this.bus := bus;
      this.storage := storage;
    }

    /**
     * Handle(VideoUploadFinished): the source object must exist to be downloaded; its probed
     * streams and duration are parameters. The plan is published as VideoTranscodingsIdentified.
     */
    method HandleVideoUploadFinished(message: VideoUploadFinished, streams: seq<StreamInfo>, duration: int)
      returns (r: Result<(), HandlerError>)
      modifies bus
      ensures bus.sent == old(bus.sent)
      ensures Storage.GetSourcePath(message.channelId, message.videoId) !in storage.blobs ==>
        r == Failure(SourceNotFound(Storage.GetSourcePath(message.channelId, message.videoId))) &&
        bus.published == old(bus.published)
      ensures Storage.GetSourcePath(message.channelId, message.videoId) in storage.blobs && Plan(streams).Failure? ==>
        r == Failure(Plan(streams).error) && bus.published == old(bus.published)
      ensures Storage.GetSourcePath(message.channelId, message.videoId) in storage.blobs && Plan(streams).Success? ==>
        r == Success(()) &&
        bus.published == old(bus.published) + [VideoTranscodingsIdentified(message.channelId, message.videoId,
          message.originalFileExtension, duration, Plan(streams).value)]
    {
      var sourceStoragePath := Storage.GetSourcePath(message.channelId, message.videoId);
      if sourceStoragePath !in storage.blobs {
        return Failure(SourceNotFound(sourceStoragePath));
      }
      var transcodingsToCreate := PlanTranscodings(streams);
      if transcodingsToCreate.Failure? {
        return Failure(transcodingsToCreate.error);
      }
      bus.Publish(VideoTranscodingsIdentified(message.channelId, message.videoId, message.originalFileExtension,
        duration, transcodingsToCreate.value));
      r := Success(());
    }

    /**
     * Handle(VideoTranscodingsIdentified): downloads the source, converts it into
     * `outputDirectoryPath`, uploads every file found there under the video's streams folder
     * and only then publishes VideoTranscodingFinished. The files ffmpeg writes are a parameter.
     */
    method HandleTranscodingsIdentified(message: WorkerEvent, sourceDownloadPath: string, outputDirectoryPath: string,
                                        files: seq<OutputFile>)
      returns (r: Result<(), HandlerError>)
      requires message.VideoTranscodingsIdentified?
      requires InDirectory(outputDirectoryPath, files)
      modifies bus, storage
      ensures bus.sent == old(bus.sent)
      ensures Storage.GetSourcePath(message.channelId, message.videoId) !in old(storage.blobs) ==>
        r == Failure(SourceNotFound(Storage.GetSourcePath(message.channelId, message.videoId))) &&
        bus.published == old(bus.published) && storage.blobs == old(storage.blobs)
      ensures (Storage.GetSourcePath(message.channelId, message.videoId) in old(storage.blobs) &&
               Converter.ConvertArguments(sourceDownloadPath, outputDirectoryPath, message.transcodings).Failure?) ==>
        r == Failure(ConversionFailed(Converter.ConvertArguments(sourceDownloadPath, outputDirectoryPath, message.transcodings).error)) &&
        bus.published == old(bus.published) && storage.blobs == old(storage.blobs)
      ensures (Storage.GetSourcePath(message.channelId, message.videoId) in old(storage.blobs) &&
               Converter.ConvertArguments(sourceDownloadPath, outputDirectoryPath, message.transcodings).Success?) ==>
        r == Success(()) &&
        storage.blobs == Uploaded(old(storage.blobs), message.channelId, message.videoId, outputDirectoryPath, files) &&
        bus.published == old(bus.published) + [VideoTranscodingFinished(message.channelId, message.videoId)]
    {
      var sourceStoragePath := Storage.GetSourcePath(message.channelId, message.videoId);
      if sourceStoragePath !in storage.blobs {
        return Failure(SourceNotFound(sourceStoragePath));
      }
      var arguments := Converter.Convert(sourceDownloadPath, outputDirectoryPath, message.transcodings);
      if arguments.Failure? {
        return Failure(ConversionFailed(arguments.error));
      }
      for i := 0 to |files|
        invariant storage.blobs == Uploaded(old(storage.blobs), message.channelId, message.videoId, outputDirectoryPath, files[..i])
        invariant bus.published == old(bus.published) && bus.sent == old(bus.sent)
      {
        var file := files[i];
        var relativeName := file.path[|outputDirectoryPath| + 1..];
        var storageKey := Storage.GetVideoStreamPath(message.channelId, message.videoId, relativeName);
        assert files[..i + 1][..i] == files[..i];
        storage.UploadBlob(storageKey, file.content);
      }
      assert files[..|files|] == files;
      bus.Publish(VideoTranscodingFinished(message.channelId, message.videoId));
      r := Success(());
    }
  }

  // ---------------------------------------------------------------- properties of the uploads

  /**
   * After the uploads every output file has an object under its stream key, holding the
   * bytes of the last file uploaded to that key.
   */
  lemma {:induction false} UploadedHasEveryFile(blobs: map<string, seq<Byte>>, channelId: Guid, videoId: Guid,
                                                 outputDirectoryPath: string, files: seq<OutputFile>, k: nat)
    requires InDirectory(outputDirectoryPath, files) && k < |files|
    ensures var key := OutputKey(channelId, videoId, outputDirectoryPath, files[k]);
      key in Uploaded(blobs, channelId, videoId, outputDirectoryPath, files) &&
      exists m | k <= m < |files| :: OutputKey(channelId, videoId, outputDirectoryPath, files[m]) == key &&
        Uploaded(blobs, channelId, videoId, outputDirectoryPath, files)[key] == files[m].content
    decreases |files|
  {
    var n := |files| - 1;
    var key := OutputKey(channelId, videoId, outputDirectoryPath, files[k]);
    if OutputKey(channelId, videoId, outputDirectoryPath, files[n]) != key {
      assert k < n;
      assert files[..n][k] == files[k];
      UploadedHasEveryFile(blobs, channelId, videoId, outputDirectoryPath, files[..n], k);
      var m :| k <= m < n && OutputKey(channelId, videoId, outputDirectoryPath, files[..n][m]) == key &&
        Uploaded(blobs, channelId, videoId, outputDirectoryPath, files[..n])[key] == files[..n][m].content;
      assert files[..n][m] == files[m];
    }
  }

  /** A key that is no output file's stream key keeps its object, or its absence. */
  lemma {:induction false} UploadedKeepsOtherKeys(blobs: map<string, seq<Byte>>, channelId: Guid, videoId: Guid,
                                                   outputDirectoryPath: string, files: seq<OutputFile>, key: string)
    requires InDirectory(outputDirectoryPath, files)
    requires forall k | 0 <= k < |files| :: OutputKey(channelId, videoId, outputDirectoryPath, files[k]) != key
    ensures key in Uploaded(blobs, channelId, videoId, outputDirectoryPath, files) <==> key in blobs
    ensures key in blobs ==> Uploaded(blobs, channelId, videoId, outputDirectoryPath, files)[key] == blobs[key]
    decreases |files|
  {
    if files != [] {
      var n := |files| - 1;
      assert forall k | 0 <= k < n :: files[..n][k] == files[k];
      UploadedKeepsOtherKeys(blobs, channelId, videoId, outputDirectoryPath, files[..n], key);
    }
  }

  /**
   * The uploads never touch a source object or a chunk object of any video, so the source
   * the worker converted is still there afterwards.
   */
  lemma UploadsKeepSources(blobs: map<string, seq<Byte>>, channelId: Guid, videoId: Guid, outputDirectoryPath: string,
                           files: seq<OutputFile>, otherChannel: Guid, otherVideo: Guid, chunkId: Guid)
    requires InDirectory(outputDirectoryPath, files)
    ensures var after := Uploaded(blobs, channelId, videoId, outputDirectoryPath, files);
      var source := Storage.GetSourcePath(otherChannel, otherVideo);
      var chunk := Storage.Api.GetSourceChunkPath(otherChannel, otherVideo, chunkId);
      (source in after <==> source in blobs) && (source in blobs ==> after[source] == blobs[source]) &&
      (chunk in after <==> chunk in blobs) && (chunk in blobs ==> after[chunk] == blobs[chunk])
  {
    var source := Storage.GetSourcePath(otherChannel, otherVideo);
    var chunk := Storage.Api.GetSourceChunkPath(otherChannel, otherVideo, chunkId);
    Storage.SourcePathMatchesApi(otherChannel, otherVideo);
    forall k | 0 <= k < |files|
      ensures OutputKey(channelId, videoId, outputDirectoryPath, files[k]) != source
      ensures OutputKey(channelId, videoId, outputDirectoryPath, files[k]) != chunk
    {
      Storage.StreamPathIsNotSourceOrChunk(channelId, videoId, files[k].path[|outputDirectoryPath| + 1..],
        otherChannel, otherVideo, chunkId);
    }
    UploadedKeepsOtherKeys(blobs, channelId, videoId, outputDirectoryPath, files, source);
    UploadedKeepsOtherKeys(blobs, channelId, videoId, outputDirectoryPath, files, chunk);
  }
}
