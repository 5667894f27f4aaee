// FfmpegConverter's reading of ffmpeg's "-progress -" output: key=value lines, where every
// "progress" line reports the latest "out_time", and a blank line, the end of the output or
// "progress=end" stops the reading. Each report is published as a VideoTranscodeProgress.
module FfmpegProgress {
  import opened Wrappers
  import opened Text
  import opened Guids
  import opened WorkerEvents
  import opened Bus

  /** The exceptions the reader lets out: a line without '=' and an unparsable out_time. */
  datatype ProgressError = MissingSeparator(line: string) | BadTime(value: string)

  /** The times reported before the reading stopped, and the error that stopped it, if any. */
  datatype ProgressRun = ProgressRun(times: seq<int>, error: Option<ProgressError>)

  /** TextReader.ReadLine over the lines ffmpeg wrote: None (null) once they are used up. */
  function ReadLine(lines: seq<string>, i: nat): (line: Option<string>)
    ensures line.Some? <==> i < |lines|
    ensures line.Some? ==> line.value == lines[i]
  {
    if i < |lines| then Some(lines[i]) else None
  }

  /** The position of the first occurrence of c in s at or after from. */
  function FindFrom(s: string, c: char, from: nat): (r: Option<nat>)
    ensures r.Some? ==> (from <= r.value < |s| && s[r.value] == c &&
                         forall k | from <= k < r.value :: s[k] != c)
    ensures r.None? ==> forall k | from <= k < |s| :: s[k] != c
    decreases |s| - from
  {
    if from >= |s| then None
    else if s[from] == c then Some(from)
    else FindFrom(s, c, from + 1)
  }

  /**
   * line.Split('=', 2) where it has two parts: the key before the first '=' and the value
   * after it, which may hold further '='; None where the line has no '='.
   */
  function SplitKeyValue(line: string): (r: Option<(string, string)>)
    ensures r.None? <==> forall k | 0 <= k < |line| :: line[k] != '='
    ensures r.Some? ==> line == r.value.0 + "=" + r.value.1 && forall k | 0 <= k < |r.value.0| :: r.value.0[k] != '='
  {
    match FindFrom(line, '=', 0)
    case None => None
    case Some(p) =>
      assert line == line[..p] + "=" + line[p + 1..];
      Some((line[..p], line[p + 1..]))
  }

  /** A key and a value without '=' in the key are split back apart. */
  lemma SplitKeyValueOf(key: string, value: string)
    requires forall k | 0 <= k < |key| :: key[k] != '='
    ensures SplitKeyValue(key + "=" + value) == Some((key, value))
  {
    var line := key + "=" + value;
    assert line[|key|] == '=';
    assert line[..|key|] == key && line[|key| + 1..] == value;
    var r := SplitKeyValue(line);
    assert r.Some?;
    var k2 := r.value.0;
    assert line == k2 + "=" + r.value.1;
    assert k2 == line[..|k2|];
    assert r.value.1 == line[|k2| + 1..];
  }

  /** The reports and error of reading `lines` with `time` as the latest out_time so far. */
  function ProgressRunOf(lines: seq<string>, time: int, parseTime: string -> Option<int>): (run: ProgressRun)
    decreases |lines|
  {
    if IsNullOrWhiteSpace(ReadLine(lines, 0)) then ProgressRun([], None)
    else
      match SplitKeyValue(lines[0])
      case None => ProgressRun([], Some(MissingSeparator(lines[0])))
      case Some((key, value)) =>
        if key == "out_time" then
          match parseTime(value)
          case None => ProgressRun([], Some(BadTime(value)))
          case Some(t) => ProgressRunOf(lines[1..], t, parseTime)
        else if key == "progress" then
          if value == "end" then ProgressRun([time], None)
          else Reported(time, ProgressRunOf(lines[1..], time, parseTime))
        else ProgressRunOf(lines[1..], time, parseTime)
  }

  /** A run preceded by one more report. */
  function Reported(time: int, run: ProgressRun): (r: ProgressRun)
    ensures r.times == [time] + run.times && r.error == run.error
  {
    ProgressRun([time] + run.times, run.error)
  }

  /**
   * ParseProgressOutput as a loop over the lines, starting from a zero time; TimeSpan.Parse
   * is the parameter `parseTime`, giving a time in ticks or None where it would throw.
   */
  method ParseProgressOutput(lines: seq<string>, parseTime: string -> Option<int>)
    returns (times: seq<int>, error: Option<ProgressError>)
    ensures ProgressRun(times, error) == ProgressRunOf(lines, 0, parseTime)
  {
    var time := 0;
    var i := 0;
    times, error := [], None;
    while true
      invariant 0 <= i <= |lines| && error == None
      invariant ProgressRunOf(lines, 0, parseTime) == After(times, ProgressRunOf(lines[i..], time, parseTime))
      decreases |lines| - i
    {
      RunStep(lines, i, time, parseTime);
      hide ProgressRunOf, SplitKeyValue;
      var line := ReadLine(lines, i);
      if IsNullOrWhiteSpace(line) {
        AfterStop(times, [], None);
        return;
      }
      var parts := SplitKeyValue(line.value);
      if parts.None? {
        error := Some(MissingSeparator(line.value));
        AfterStop(times, [], error);
        return;
      }
      var (key, value) := parts.value;
      if key == "out_time" {
        var parsed := parseTime(value);
        if parsed.None? {
          error := Some(BadTime(value));
          AfterStop(times, [], error);
          return;
        }
        time := parsed.value;
      } else if key == "progress" {
        if value == "end" {
          AfterStop(times, [time], None);
          times := times + [time];
          return;
        }
        AfterReported(times, time, ProgressRunOf(lines[i + 1..], time, parseTime));
        times := times + [time];
      }
      i := i + 1;
    }
  }

  /** The run of the rest of the lines after the reports made so far. */
  function After(times: seq<int>, run: ProgressRun): (r: ProgressRun)
    ensures |r.times| == |times| + |run.times| && r.times[..|times|] == times && r.error == run.error
  {
    ProgressRun(times + run.times, run.error)
  }

  lemma AfterStop(times: seq<int>, last: seq<int>, error: Option<ProgressError>)
    ensures After(times, ProgressRun(last, error)) == ProgressRun(times + last, error)
    ensures last == [] ==> times + last == times
  {
  }

  lemma AfterReported(times: seq<int>, time: int, run: ProgressRun)
    ensures After(times, Reported(time, run)) == After(times + [time], run)
  {
    assert times + ([time] + run.times) == times + [time] + run.times;
  }

  /** What reading from line i on gives, one line at a time. */
  lemma RunStep(lines: seq<string>, i: nat, time: int, parseTime: string -> Option<int>)
    requires i <= |lines|
    ensures var run, line := ProgressRunOf(lines[i..], time, parseTime), ReadLine(lines, i);
      if IsNullOrWhiteSpace(line) then run == ProgressRun([], None)
      else
        match SplitKeyValue(line.value)
        case None => run == ProgressRun([], Some(MissingSeparator(line.value)))
        case Some((key, value)) =>
          if key == "out_time" then
            (match parseTime(value)
             case None => run == ProgressRun([], Some(BadTime(value)))
             case Some(t) => run == ProgressRunOf(lines[i + 1..], t, parseTime))
          else if key == "progress" then
            (if value == "end" then run == ProgressRun([time], None)
             else run == Reported(time, ProgressRunOf(lines[i + 1..], time, parseTime)))
          else run == ProgressRunOf(lines[i + 1..], time, parseTime)
  {
    if i < |lines| {
      assert lines[i..][0] == lines[i] && lines[i..][1..] == lines[i + 1..];
    }
  }

  /** A blank line, or the end of the output, ends the reading with nothing more to report. */
  lemma BlankLineStops(line: string, rest: seq<string>, time: int, parseTime: string -> Option<int>)
    requires forall k | 0 <= k < |line| :: IsWhiteSpace(line[k])
    ensures ProgressRunOf([line] + rest, time, parseTime) == ProgressRun([], None)
    ensures ProgressRunOf([], time, parseTime) == ProgressRun([], None)
  {
  }

  /** "out_time=v" sets the time the next reports carry, or fails when v is not a time. */
  lemma OutTimeUpdates(value: string, rest: seq<string>, time: int, parseTime: string -> Option<int>)
    ensures parseTime(value).Some? ==>
      ProgressRunOf(["out_time=" + value] + rest, time, parseTime) == ProgressRunOf(rest, parseTime(value).value, parseTime)
    ensures parseTime(value).None? ==>
      ProgressRunOf(["out_time=" + value] + rest, time, parseTime) == ProgressRun([], Some(BadTime(value)))
  {
    var line := "out_time=" + value;
    var lines := [line] + rest;
    SplitKeyValueOf("out_time", value);
    assert "out_time" + "=" + value == line;
    assert line[0] == 'o' && !IsWhiteSpace(line[0]);
    assert ReadLine(lines, 0) == Some(line);
    assert SplitKeyValue(lines[0]) == Some(("out_time", value));
    assert lines[1..] == rest;
  }

  /**
   * "progress=v" reports the current time; "progress=end" then stops, leaving the lines
   * after it unread, and any other value goes on reading.
   */
  lemma ProgressReports(value: string, rest: seq<string>, time: int, parseTime: string -> Option<int>)
    ensures value == "end" ==>
      ProgressRunOf(["progress=" + value] + rest, time, parseTime) == ProgressRun([time], None)
    ensures value != "end" ==>
      ProgressRunOf(["progress=" + value] + rest, time, parseTime) == Reported(time, ProgressRunOf(rest, time, parseTime))
  {
    var line := "progress=" + value;
    var lines := [line] + rest;
    SplitKeyValueOf("progress", value);
    assert "progress" + "=" + value == line;
    assert line[0] == 'p' && !IsWhiteSpace(line[0]);
    assert ReadLine(lines, 0) == Some(line);
    assert SplitKeyValue(lines[0]) == Some(("progress", value));
    assert "progress"[0] != "out_time"[0];
    assert lines[1..] == rest;
  }

  /** Any other key (frame, fps, bitrate, speed, ...) is skipped. */
  lemma OtherKeysIgnored(key: string, value: string, rest: seq<string>, time: int, parseTime: string -> Option<int>)
    requires |key| > 0 && !IsWhiteSpace(key[0])
    requires forall k | 0 <= k < |key| :: key[k] != '='
    requires key != "out_time" && key != "progress"
    ensures ProgressRunOf([key + "=" + value] + rest, time, parseTime) == ProgressRunOf(rest, time, parseTime)
  {
    SplitKeyValueOf(key, value);
    assert (key + "=" + value)[0] == key[0];
    assert ([key + "=" + value] + rest)[1..] == rest;
  }

  /** A line that is not blank and has no '=' fails the reading. */
  lemma MissingSeparatorFails(line: string, rest: seq<string>, time: int, parseTime: string -> Option<int>)
    requires exists k | 0 <= k < |line| :: !IsWhiteSpace(line[k])
    requires forall k | 0 <= k < |line| :: line[k] != '='
    ensures ProgressRunOf([line] + rest, time, parseTime) == ProgressRun([], Some(MissingSeparator(line)))
  {
    assert ([line] + rest)[0] == line;
  }

  /** The out_time lines' values that parse to t. */
  ghost predicate ParsedOutTime(lines: seq<string>, t: int, parseTime: string -> Option<int>)
  {
    exists k, v | 0 <= k < |lines| :: lines[k] == "out_time=" + v && parseTime(v) == Some(t)
  }

  /**
   * Every reported time is either the starting time (a report before any out_time) or the
   * parsed value of an out_time line; there are never more reports than lines.
   */
  lemma {:induction false} ReportedTimesComeFromOutTime(lines: seq<string>, time: int, parseTime: string -> Option<int>)
    ensures |ProgressRunOf(lines, time, parseTime).times| <= |lines|
    ensures forall t | t in ProgressRunOf(lines, time, parseTime).times :: t == time || ParsedOutTime(lines, t, parseTime)
    decreases |lines|
  {
    if !IsNullOrWhiteSpace(ReadLine(lines, 0)) && SplitKeyValue(lines[0]).Some? {
      var (key, value) := SplitKeyValue(lines[0]).value;
      var rest := lines[1..];
      assert forall k | 0 <= k < |rest| :: rest[k] == lines[k + 1];
      if key == "out_time" && parseTime(value).Some? {
        var t0 := parseTime(value).value;
        ReportedTimesComeFromOutTime(rest, t0, parseTime);
        assert lines[0] == "out_time=" + value;
        assert ParsedOutTime(lines, t0, parseTime);
        forall t | ParsedOutTime(rest, t, parseTime) ensures ParsedOutTime(lines, t, parseTime) {
          var k, v :| 0 <= k < |rest| && rest[k] == "out_time=" + v && parseTime(v) == Some(t);
          assert lines[k + 1] == "out_time=" + v;
        }
      } else if key != "out_time" {
        ReportedTimesComeFromOutTime(rest, time, parseTime);
        forall t | ParsedOutTime(rest, t, parseTime) ensures ParsedOutTime(lines, t, parseTime) {
          var k, v :| 0 <= k < |rest| && rest[k] == "out_time=" + v && parseTime(v) == Some(t);
          assert lines[k + 1] == "out_time=" + v;
        }
      }
    }
  }

  /** The progress events for one video, one per report, in order. */
  function ProgressEvents(videoId: Guid, times: seq<int>): (events: seq<WorkerEvent>)
    ensures |events| == |times| && forall k | 0 <= k < |times| :: events[k] == VideoTranscodeProgress(videoId, times[k])
  {
    seq(|times|, k requires 0 <= k < |times| => VideoTranscodeProgress(videoId, times[k]))
  }

  /**
   * CreateOutputHandler: each report is published as the video's progress, in order, as it
   * is read; the error that stops the reading, if any, is returned to the program runner.
   */
  method PublishProgress(bus: Outbox<WorkerEvent>, videoId: Guid, lines: seq<string>, parseTime: string -> Option<int>)
    returns (error: Option<ProgressError>)
    modifies bus
    ensures bus.published == old(bus.published) + ProgressEvents(videoId, ProgressRunOf(lines, 0, parseTime).times)
    ensures bus.sent == old(bus.sent)
    ensures error == ProgressRunOf(lines, 0, parseTime).error
  {
    var times;
    times, error := ParseProgressOutput(lines, parseTime);
    for k := 0 to |times|
      invariant bus.published == old(bus.published) + ProgressEvents(videoId, times[..k])
      invariant bus.sent == old(bus.sent)
    {
      bus.Publish(VideoTranscodeProgress(videoId, times[k]));
      assert ProgressEvents(videoId, times[..k + 1]) == ProgressEvents(videoId, times[..k]) + [VideoTranscodeProgress(videoId, times[k])];
    }
    assert times[..|times|] == times;
  }
}
