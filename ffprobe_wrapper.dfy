// FfprobeWrapper.GetVideoInformation: checks the file, runs ffprobe on it and turns the
// deserialised probe record into the stream list and duration of the source.
module FfprobeWrapper {
  import opened Wrappers
  import opened Text
  import opened WorkerEvents

  datatype ProbeTags = ProbeTags(title: Option<string>)

  /** A stream of the probe output; `duration` is 0 when the output gives none. */
  datatype ProbeStream = ProbeStream(
    index: int,
    codecName: string,
    codecType: string,
    width: int,
    height: int,
    duration: int,
    tags: Option<ProbeTags>)

  datatype ProbeFormat = ProbeFormat(duration: int)

  /** The deserialised probe output; a missing member is None. */
  datatype FfProbeResult = FfProbeResult(streams: Option<seq<ProbeStream>>, format: Option<ProbeFormat>)

  /**
   * What running ffprobe gives back: a failure (a non-zero exit, or output that is not JSON),
   * or the deserialised document, where None stands for the JSON literal null.
   */
  datatype ProbeOutput = ProgramFailed | Parsed(result: Option<FfProbeResult>)

  /** The three-field stream record this wrapper builds. */
  datatype ProbedStream = ProbedStream(title: string, streamType: StreamType, codecName: string)

  datatype VideoInfo = VideoInfo(streams: seq<ProbedStream>, duration: int)

  /** The exceptions GetVideoInformation lets out. */
  datatype ProbeError =
    | FileNotFound(path: string)
    | ExternalProgramFailed
    | ArgumentNull(paramName: string)
    | UnknownStreamType(value: string)

  /** The ffprobe command line for a file. */
  function ProbeArguments(filePath: string): (args: seq<string>)
    ensures |args| == 8 && args[6] == "-i" && args[7] == filePath
  {
    ["-v", "quiet", "-print_format", "json", "-show_streams", "-show_format", "-i", filePath]
  }

  /** Enum.Parse<StreamType>(value, ignoreCase: true) over the two member names. */
  function ParseStreamType(value: string): (r: Option<StreamType>)
    ensures r == Some(VideoStream) <==> EqualsIgnoreCase(value, "Video")
    ensures r == Some(AudioStream) <==> EqualsIgnoreCase(value, "Audio")
    ensures r.None? <==> !EqualsIgnoreCase(value, "Video") && !EqualsIgnoreCase(value, "Audio")
  {
    assert EqualsIgnoreCase(value, "Video") ==> ToLowerAscii(value[0]) == 'v' != ToLowerAscii('A');
    if EqualsIgnoreCase(value, "Video") then Some(VideoStream)
    else if EqualsIgnoreCase(value, "Audio") then Some(AudioStream)
    else None
  }

  /** The stream's title tag, or else "{codec_type}-stream-{index}". */
  function StreamTitle(s: ProbeStream): (title: string)
  {
    if s.tags.Some? && s.tags.value.title.Some? then s.tags.value.title.value
    else s.codecType + "-stream-" + IntToString(s.index)
  }

  /** The Select over the probe streams; the first stream of an unknown type makes it throw. */
  function MapStreams(streams: seq<ProbeStream>): (r: Result<seq<ProbedStream>, ProbeError>)
    ensures r.Success? <==> forall k | 0 <= k < |streams| :: ParseStreamType(streams[k].codecType).Some?
    ensures r.Success? ==> (|r.value| == |streams| &&
      forall k | 0 <= k < |streams| ::
        r.value[k] == ProbedStream(StreamTitle(streams[k]), ParseStreamType(streams[k].codecType).value,
                                   streams[k].codecName))
    ensures r.Failure? ==> exists k | 0 <= k < |streams| ::
      ParseStreamType(streams[k].codecType).None? && r.error == UnknownStreamType(streams[k].codecType)
  {
    if streams == [] then Success([])
    else
      match ParseStreamType(streams[0].codecType)
      case None => Failure(UnknownStreamType(streams[0].codecType))
      case Some(streamType) =>
        var rest :- MapStreams(streams[1..]);
        assert forall k | 1 <= k < |streams| :: streams[k] == streams[1..][k - 1];
        Success([ProbedStream(StreamTitle(streams[0]), streamType, streams[0].codecName)] + rest)
  }

  /** Max(s => s.Duration) over a non-empty stream list. */
  function MaxDuration(streams: seq<ProbeStream>): (d: int)
    requires |streams| > 0
    ensures forall k | 0 <= k < |streams| :: streams[k].duration <= d
    ensures exists k | 0 <= k < |streams| :: streams[k].duration == d
  {
    if |streams| == 1 then streams[0].duration
    else
      var rest := MaxDuration(streams[1..]);
      assert forall k | 1 <= k < |streams| :: streams[k] == streams[1..][k - 1];
      if streams[0].duration < rest then rest else streams[0].duration
  }

  /**
   * The source's streams and duration. A missing file is refused before ffprobe runs; a null
   * document, or one with no or an empty stream list, is an error; the duration is the
   * format's whenever the format is present, and otherwise the longest stream's.
   */
  function GetVideoInformation(fileExists: bool, filePath: string, output: ProbeOutput): (r: Result<VideoInfo, ProbeError>)
  {
    if !fileExists then Failure(FileNotFound(filePath))
    else if output.ProgramFailed? then Failure(ExternalProgramFailed)
    else if output.result.None? then Failure(ArgumentNull("ffProbeResult"))
    else
      var probe := output.result.value;
      if probe.streams.None? || |probe.streams.value| == 0 then Failure(ArgumentNull("Streams"))
      else
        var streams :- MapStreams(probe.streams.value);
        var duration := if probe.format.Some? then probe.format.value.duration else MaxDuration(probe.streams.value);
        Success(VideoInfo(streams, duration))
  }

  /** A missing file fails the same way whatever ffprobe would have said: it never runs. */
  lemma MissingFileNeverProbed(filePath: string, o1: ProbeOutput, o2: ProbeOutput)
    ensures GetVideoInformation(false, filePath, o1) == GetVideoInformation(false, filePath, o2) == Failure(FileNotFound(filePath))
  {
  }

  /** Exactly when the probe yields a stream list, of known stream types, there is a result. */
  lemma InformationDefined(filePath: string, output: ProbeOutput)
    ensures GetVideoInformation(true, filePath, output).Success? <==>
      output.Parsed? && output.result.Some? && output.result.value.streams.Some? &&
      |output.result.value.streams.value| > 0 &&
      forall k | 0 <= k < |output.result.value.streams.value| ::
        ParseStreamType(output.result.value.streams.value[k].codecType).Some?
  {
    hide ParseStreamType, MaxDuration, StreamTitle;
    if output.Parsed? && output.result.Some? {
      var probe := output.result.value;
      if probe.streams.Some? && |probe.streams.value| > 0 {
        var mapped := MapStreams(probe.streams.value);
        assert GetVideoInformation(true, filePath, output).Success? <==> mapped.Success?;
      }
    }
  }

  /**
   * A successful probe always has at least one stream, so the planner's Max over the streams
   * never meets an empty list coming from here.
   */
  lemma ProbedStreamsNonEmpty(filePath: string, output: ProbeOutput)
    requires GetVideoInformation(true, filePath, output).Success?
    ensures |GetVideoInformation(true, filePath, output).value.streams| > 0
  {
  }

  /**
   * A successful probe describes each stream once, in probe order, with its title (the tag,
   * or the generated fallback), its type and its codec.
   */
  lemma OneInfoPerStream(filePath: string, probe: FfProbeResult)
    requires GetVideoInformation(true, filePath, Parsed(Some(probe))).Success?
    ensures probe.streams.Some?
    ensures var info := GetVideoInformation(true, filePath, Parsed(Some(probe))).value;
      |info.streams| == |probe.streams.value| &&
      forall k | 0 <= k < |info.streams| ::
        info.streams[k].codecName == probe.streams.value[k].codecName &&
        (probe.streams.value[k].tags.Some? && probe.streams.value[k].tags.value.title.Some? ==>
           info.streams[k].title == probe.streams.value[k].tags.value.title.value) &&
        (probe.streams.value[k].tags.None? ==>
           info.streams[k].title == probe.streams.value[k].codecType + "-stream-" + IntToString(probe.streams.value[k].index))
  {
  }

  /**
   * The duration is the format's whenever a format is present, even a zero one, and
   * otherwise the longest stream's.
   */
  lemma DurationRule(filePath: string, probe: FfProbeResult)
    requires GetVideoInformation(true, filePath, Parsed(Some(probe))).Success?
    ensures probe.format.Some? ==>
      GetVideoInformation(true, filePath, Parsed(Some(probe))).value.duration == probe.format.value.duration
    ensures probe.format.None? ==>
      var d := GetVideoInformation(true, filePath, Parsed(Some(probe))).value.duration;
      (forall k | 0 <= k < |probe.streams.value| :: probe.streams.value[k].duration <= d) &&
      (exists k | 0 <= k < |probe.streams.value| :: probe.streams.value[k].duration == d)
  {
  }

  /** A subtitle stream, which is neither video nor audio, makes the whole probe fail. */
  lemma SubtitleStreamRejected(filePath: string, video: ProbeStream, subtitle: ProbeStream)
    requires video.codecType == "video" && subtitle.codecType == "subtitle"
    ensures GetVideoInformation(true, filePath, Parsed(Some(FfProbeResult(Some([video, subtitle]), None)))) ==
      Failure(UnknownStreamType("subtitle"))
  {
    assert ParseStreamType("video") == Some(VideoStream);
    assert !EqualsIgnoreCase("subtitle", "Video");
    assert ParseStreamType("subtitle").None?;
  }
}
