// FfmpegConverter: the single ffmpeg invocation that turns the source into an HLS ladder (one
// variant per video rendition, each carrying every audio stream), and the reader of ffmpeg's
// key=value progress output.
module FfmpegConverter {
  import opened Wrappers
  import opened Text
  import opened WorkerEvents

  /** The AAC bit rate, in kbit/s, of the audio that goes with a video rendition of each height. */
  const AudioBitRatesForResolution: map<int, int> :=
    map[480 := 48, 720 := 64, 1080 := 96, 1440 := 128, 2160 := 192, 4320 := 192]

  /** HLS segment length in seconds, which is also the keyframe interval in seconds. */
  const SecondsPerFileSplit: int := 10

  /** The KeyNotFoundException of the audio bit-rate lookup. */
  datatype ConvertError = KeyNotFound(height: int)

  // ---------------------------------------------------------------- bit rates and widths

  /**
   * GetBitRate: 0.3 bit per pixel of a 16:9 frame of the height. The width is truncated
   * (integer `height * 16 / 9`), and so is the product with 0.3.
   */
  function GetBitRate(height: int): (bitRate: int)
    ensures height >= 0 ==>
      var width := height * 16 / 9;
      9 * width <= 16 * height < 9 * width + 9 &&
      10 * bitRate <= 3 * (width * height) < 10 * bitRate + 10
  {
    var width := TruncDiv(height * 16, 9);
    var pixelCount := width * height;
    TruncDiv(pixelCount * 3, 10)
  }

  /** The "{kbit/s}k" value of the four video rate options. */
  function VideoBitRateArgument(height: int): string
  {
    IntToString(TruncDiv(GetBitRate(height), 1000)) + "k"
  }

  /** Math.Ceiling(height * 16 / 9d): the width of the padded 16:9 frame, rounded up. */
  function PaddedWidth(height: int): (width: int)
    ensures 9 * (width - 1) < 16 * height <= 9 * width
  {
    CeilDiv(height * 16, 9)
  }

  /**
   * The bit rate's width and the padded width agree exactly when the height is a multiple
   * of 9; otherwise the padded width is one more.
   */
  lemma WidthsDiffer(height: int)
    requires height >= 0
    ensures height % 9 == 0 ==> PaddedWidth(height) == height * 16 / 9
    ensures height % 9 != 0 ==> PaddedWidth(height) == height * 16 / 9 + 1
  {
    var w := height * 16 / 9;
    assert 9 * w <= 16 * height < 9 * w + 9;
    if height % 9 == 0 {
      var q := height / 9;
      assert height == 9 * q;
      assert 16 * height == 9 * (16 * q);
    }
  }

  /** The video rates, in kbit/s, and the padded widths of the ladder's heights. */
  lemma LadderRates()
    ensures TruncDiv(GetBitRate(480), 1000) == 122 && PaddedWidth(480) == 854
    ensures TruncDiv(GetBitRate(720), 1000) == 276 && PaddedWidth(720) == 1280
    ensures TruncDiv(GetBitRate(1080), 1000) == 622 && PaddedWidth(1080) == 1920
    ensures TruncDiv(GetBitRate(1440), 1000) == 1105 && PaddedWidth(1440) == 2560
    ensures TruncDiv(GetBitRate(2160), 1000) == 2488 && PaddedWidth(2160) == 3840
    ensures TruncDiv(GetBitRate(4320), 1000) == 9953 && PaddedWidth(4320) == 7680
  {
  }

  // ---------------------------------------------------------------- filter graph

  /** The label a split output carries: "[v{h}p]". */
  function SplitLabel(height: int): string
  {
    "[v" + IntToString(height) + "p]"
  }

  /** The label of a scaled and padded rendition: "[v{h}pOut]". */
  function OutLabel(height: int): string
  {
    "[v" + IntToString(height) + "pOut]"
  }

  /** The filter clause that scales split output [v{h}p] into a W x h box and pads it to exactly W x h. */
  function ScaleAndPad(part: QueuedVideoTranscoding): (clause: string)
  {
    SplitLabel(part.height) + ScaleAndPadFilters(part.height) + OutLabel(part.height)
  }

  /** "scale=w=W:h=h:force_original_aspect_ratio=decrease,pad=W:h:(ow-iw)/2:(oh-ih)/2", W the padded width. */
  function ScaleAndPadFilters(height: int): string
  {
    var w := IntToString(PaddedWidth(height));
    var h := IntToString(height);
    "scale=w=" + w + ":h=" + h + ":force_original_aspect_ratio=decrease,pad=" + w + ":" + h + ":(ow-iw)/2:(oh-ih)/2"
  }

  function SplitLabels(parts: seq<QueuedVideoTranscoding>): (labels: seq<string>)
    ensures |labels| == |parts| && forall i | 0 <= i < |parts| :: labels[i] == SplitLabel(parts[i].height)
  {
    seq(|parts|, i requires 0 <= i < |parts| => SplitLabel(parts[i].height))
  }

  function Clauses(parts: seq<QueuedVideoTranscoding>): (clauses: seq<string>)
    ensures |clauses| == |parts| && forall i | 0 <= i < |parts| :: clauses[i] == ScaleAndPad(parts[i])
  {
    seq(|parts|, i requires 0 <= i < |parts| => ScaleAndPad(parts[i]))
  }

  /** The "[0]split=N[v{h}p]...; " head of the filter graph. */
  function SplitClause(parts: seq<QueuedVideoTranscoding>): string
  {
    "[0]split=" + IntToString(|parts|) + Concat(SplitLabels(parts)) + "; "
  }

  /**
   * The -filter_complex graph: input 0 split into one copy per rendition, then one
   * scale-and-pad clause per rendition, the clauses separated by "; " with none after the last.
   */
  function FilterCommand(parts: seq<QueuedVideoTranscoding>): string
  {
    SplitClause(parts) + Join("; ", Clauses(parts))
  }

  /** BuildFilterCommand, which appends the graph to a StringBuilder piece by piece. */
  method BuildFilterCommand(videoParts: seq<QueuedVideoTranscoding>) returns (s: string)
    ensures s == FilterCommand(videoParts)
  {
    hide IntToString, SplitLabel, ScaleAndPadFilters, OutLabel, Concat, Join;
    EmptyJoins();
    var labels := SplitLabels(videoParts);
    var sb := "[0]" + "split=" + IntToString(|videoParts|);
    for i := 0 to |videoParts|
      invariant sb == "[0]split=" + IntToString(|videoParts|) + Concat(labels[..i])
    {
      assert labels[..i + 1] == labels[..i] + [labels[i]];
      ConcatAppend(labels[..i], labels[i]);
      sb := sb + SplitLabel(videoParts[i].height);
    }
    assert labels[..|videoParts|] == labels;
    sb := sb + "; ";
    var head := sb;
    var clauses := Clauses(videoParts);
    for index := 0 to |videoParts|
      invariant sb == head + Join("; ", clauses[..index]) + (if 0 < index < |videoParts| then "; " else "")
    {
      var part := videoParts[index];
      ghost var before := sb;
      sb := sb + SplitLabel(part.height) + ScaleAndPadFilters(part.height) + OutLabel(part.height);
      assert sb == before + clauses[index];
      assert clauses[..index + 1] == clauses[..index] + [clauses[index]];
      if index > 0 {
        JoinAppend("; ", clauses[..index], clauses[index]);
      } else {
        assert Join("; ", clauses[..1]) == clauses[0];
      }
      if index < |videoParts| - 1 {
        sb := sb + "; ";
      }
    }
    assert clauses[..|videoParts|] == clauses;
    s := sb;
  }

  lemma EmptyJoins()
    ensures Concat([]) == "" && Join("; ", []) == ""
  {
  }

  /** With no rendition at all the graph is a split into zero copies and nothing else. */
  lemma EmptyFilterCommand()
    ensures FilterCommand([]) == "[0]split=0; "
  {
  }

  /**
   * Rendition i's clause reads the i-th split output and produces the label that the i-th
   * video output maps; distinct heights give distinct labels, so no two outputs share one.
   */
  lemma FilterLabelsMatch(parts: seq<QueuedVideoTranscoding>, i: int, j: int)
    requires 0 <= i < |parts| && 0 <= j < |parts|
    requires parts[i].height >= 0 && parts[j].height >= 0
    ensures |SplitLabels(parts)[i]| <= |Clauses(parts)[i]|
    ensures SplitLabels(parts)[i] == Clauses(parts)[i][..|SplitLabels(parts)[i]|]
    ensures |OutLabel(parts[i].height)| <= |Clauses(parts)[i]|
    ensures OutLabel(parts[i].height) == Clauses(parts)[i][|Clauses(parts)[i]| - |OutLabel(parts[i].height)|..]
    ensures OutLabel(parts[i].height) == OutLabel(parts[j].height) ==> parts[i].height == parts[j].height
  {
    var c := Clauses(parts)[i];
    var l, m, o := SplitLabel(parts[i].height), ScaleAndPadFilters(parts[i].height), OutLabel(parts[i].height);
    assert c == l + m + o;
    assert c[..|l|] == l;
    assert c[|c| - |o|..] == o;
    var a, b := IntToString(parts[i].height), IntToString(parts[j].height);
    if OutLabel(parts[i].height) == OutLabel(parts[j].height) {
      assert |a| == |b|;
      assert OutLabel(parts[i].height)[2..2 + |a|] == a;
      assert OutLabel(parts[j].height)[2..2 + |b|] == b;
      NatToStringInjective(parts[i].height, parts[j].height);
    }
  }

  // ---------------------------------------------------------------- rendition order

  predicate SortedByHeightDescending(vs: seq<QueuedVideoTranscoding>)
  {
    forall i, j | 0 <= i < j < |vs| :: vs[i].height >= vs[j].height
  }

  /** Inserts before the first rendition that is not taller, so that equal heights keep their order. */
  function InsertByHeight(x: QueuedVideoTranscoding, s: seq<QueuedVideoTranscoding>): (r: seq<QueuedVideoTranscoding>)
    requires SortedByHeightDescending(s)
    ensures |r| == |s| + 1 && SortedByHeightDescending(r) && multiset(r) == multiset(s) + multiset{x}
    ensures r[0] == x || (|s| > 0 && r[0] == s[0])
  {
    if s == [] then [x]
    else if s[0].height <= x.height then
      PrependSorted(x, s);
      [x] + s
    else
      var rest := InsertByHeight(x, s[1..]);
      InsertBehindHead(x, s, rest);
      [s[0]] + rest
  }

  /** Keeping the head of a sorted sequence in front of the insertion into its tail. */
  lemma InsertBehindHead(x: QueuedVideoTranscoding, s: seq<QueuedVideoTranscoding>, rest: seq<QueuedVideoTranscoding>)
    requires s != [] && SortedByHeightDescending(s) && x.height < s[0].height
    requires |rest| == |s| && SortedByHeightDescending(rest) && multiset(rest) == multiset(s[1..]) + multiset{x}
    requires rest[0] == x || (|s| > 1 && rest[0] == s[1])
    ensures SortedByHeightDescending([s[0]] + rest) && multiset([s[0]] + rest) == multiset(s) + multiset{x}
  {
    assert s == [s[0]] + s[1..];
    PrependSorted(s[0], rest);
  }

  /** A rendition at least as tall as the first of a sorted sequence can go in front of it. */
  lemma PrependSorted(y: QueuedVideoTranscoding, t: seq<QueuedVideoTranscoding>)
    requires SortedByHeightDescending(t) && (t == [] || y.height >= t[0].height)
    ensures SortedByHeightDescending([y] + t)
  {
    forall a, b | 0 <= a < b < |t| + 1 ensures ([y] + t)[a].height >= ([y] + t)[b].height {
      assert ([y] + t)[b] == t[b - 1];
      if a > 0 {
        assert ([y] + t)[a] == t[a - 1];
      }
    }
  }


  /** OrderByDescending(v => v.Height): a permutation, tallest first. */
  function SortByHeightDescending(s: seq<QueuedVideoTranscoding>): (r: seq<QueuedVideoTranscoding>)
    ensures |r| == |s| && SortedByHeightDescending(r) && multiset(r) == multiset(s)
  {
    if s == [] then []
    else
      assert s == [s[0]] + s[1..];
      InsertByHeight(s[0], SortByHeightDescending(s[1..]))
  }

  /** The renditions of one height, in the order they come. */
  function WithHeight(s: seq<QueuedVideoTranscoding>, h: int): (r: seq<QueuedVideoTranscoding>)
    ensures forall v | v in r :: v in s && v.height == h
  {
    if s == [] then [] else (if s[0].height == h then [s[0]] else []) + WithHeight(s[1..], h)
  }

  lemma WithHeightCons(v: QueuedVideoTranscoding, s: seq<QueuedVideoTranscoding>, h: int)
    ensures WithHeight([v] + s, h) == (if v.height == h then [v] else []) + WithHeight(s, h)
  {
    assert ([v] + s)[1..] == s;
  }

  /** Inserting puts the new rendition in front of the others of its height. */
  lemma {:induction false} InsertByHeightStable(x: QueuedVideoTranscoding, s: seq<QueuedVideoTranscoding>, h: int)
    requires SortedByHeightDescending(s)
    ensures WithHeight(InsertByHeight(x, s), h) == (if x.height == h then [x] else []) + WithHeight(s, h)
    decreases |s|
  {
    if s == [] {
      assert InsertByHeight(x, s) == [x] + [];
      WithHeightCons(x, [], h);
    } else if s[0].height <= x.height {
      assert InsertByHeight(x, s) == [x] + s;
      WithHeightCons(x, s, h);
    } else {
      var rest := InsertByHeight(x, s[1..]);
      assert InsertByHeight(x, s) == [s[0]] + rest;
      InsertByHeightStable(x, s[1..], h);
      StableBehindHead(x, s, rest, h);
    }
  }

  /** The selection of one height commutes with keeping the head in front of the insertion into the tail. */
  lemma StableBehindHead(x: QueuedVideoTranscoding, s: seq<QueuedVideoTranscoding>, rest: seq<QueuedVideoTranscoding>, h: int)
    requires s != [] && x.height < s[0].height
    requires WithHeight(rest, h) == (if x.height == h then [x] else []) + WithHeight(s[1..], h)
    ensures WithHeight([s[0]] + rest, h) == (if x.height == h then [x] else []) + WithHeight(s, h)
  {
    var front: seq<QueuedVideoTranscoding> := if x.height == h then [x] else [];
    var kept: seq<QueuedVideoTranscoding> := if s[0].height == h then [s[0]] else [];
    var below := WithHeight(s[1..], h);
    WithHeightCons(s[0], rest, h);
    assert WithHeight(s, h) == kept + below;
    hide WithHeight;
    SwapAroundEmpty(kept, front, below);
  }

  /** Two prefixes of which one is empty can be put in either order. */
  lemma SwapAroundEmpty<T>(a: seq<T>, b: seq<T>, c: seq<T>)
    requires a == [] || b == []
    ensures a + (b + c) == b + (a + c)
  {
    if a == [] {
      assert [] + (b + c) == b + c;
      assert [] + c == c;
    } else {
      assert [] + (a + c) == a + c;
      assert [] + c == c;
    }
  }

  /** OrderByDescending is a stable sort: renditions of equal height keep their input order. */
  lemma {:induction false} SortByHeightStable(s: seq<QueuedVideoTranscoding>, h: int)
    ensures WithHeight(SortByHeightDescending(s), h) == WithHeight(s, h)
    decreases |s|
  {
    if s != [] {
      var sorted := SortByHeightDescending(s[1..]);
      SortByHeightStable(s[1..], h);
      InsertByHeightStable(s[0], sorted, h);
    }
  }

  // ---------------------------------------------------------------- audio outputs

  /** The k-th audio output stream: which input audio stream it carries, and at what bit rate. */
  datatype AudioOutput = AudioOutput(outputIndex: int, streamIndex: int, bitRate: int)

  /** The output audio indexes that go with video output i: the block i*A .. i*A + A - 1. */
  function GroupIndexes(videoIndex: int, audioCount: nat): (indexes: seq<int>)
    ensures |indexes| == audioCount
    ensures forall j | 0 <= j < audioCount :: indexes[j] == videoIndex * audioCount + j
  {
    seq(audioCount, j requires 0 <= j < audioCount => videoIndex * audioCount + j)
  }

  /** The audio outputs of video output i, one per input audio stream, all at one bit rate. */
  function AudioGroup(videoIndex: int, audio: seq<QueuedAudioTranscoding>, bitRate: int): (group: seq<AudioOutput>)
    ensures |group| == |audio|
    ensures forall j | 0 <= j < |audio| ::
      group[j] == AudioOutput(GroupIndexes(videoIndex, |audio|)[j], audio[j].streamIndex, bitRate)
  {
    seq(|audio|, j requires 0 <= j < |audio| => AudioOutput(videoIndex * |audio| + j, audio[j].streamIndex, bitRate))
  }

  /**
   * The audio outputs of the nested loop over renditions and audio streams. Each rendition's
   * bit rate is looked up once per audio stream, so a height missing from the table fails
   * only when there is audio to encode; the first such rendition is the one reported.
   */
  function AudioOutputs(vs: seq<QueuedVideoTranscoding>, audio: seq<QueuedAudioTranscoding>): (r: Result<seq<AudioOutput>, ConvertError>)
    decreases |vs|
  {
    if vs == [] then Success([])
    else
      var before :- AudioOutputs(vs[..|vs| - 1], audio);
      var v := vs[|vs| - 1];
      if audio == [] then Success(before)
      else if v.height !in AudioBitRatesForResolution then Failure(KeyNotFound(v.height))
      else Success(before + AudioGroup(|vs| - 1, audio, AudioBitRatesForResolution[v.height]))
  }

  /** Once a prefix of the renditions fails, the whole list fails the same way. */
  lemma {:induction false} AudioOutputsFailureExtends(vs: seq<QueuedVideoTranscoding>, audio: seq<QueuedAudioTranscoding>, n: nat)
    requires n <= |vs| && AudioOutputs(vs[..n], audio).Failure?
    ensures AudioOutputs(vs, audio) == AudioOutputs(vs[..n], audio)
    decreases |vs| - n
  {
    if n < |vs| {
      assert vs[..n + 1][..n] == vs[..n];
      assert AudioOutputs(vs[..n + 1], audio) == AudioOutputs(vs[..n], audio);
      AudioOutputsFailureExtends(vs, audio, n + 1);
    } else {
      assert vs[..n] == vs;
    }
  }

  /**
   * The audio outputs exist exactly when there is no audio, or when every rendition's height
   * has an audio bit rate.
   */
  lemma {:induction false} AudioOutputsDefined(vs: seq<QueuedVideoTranscoding>, audio: seq<QueuedAudioTranscoding>)
    ensures AudioOutputs(vs, audio).Success? <==>
      audio == [] || forall i | 0 <= i < |vs| :: vs[i].height in AudioBitRatesForResolution
    decreases |vs|
  {
    if vs != [] {
      var n := |vs| - 1;
      AudioOutputsDefined(vs[..n], audio);
      assert forall i | 0 <= i < n :: vs[..n][i] == vs[i];
    }
  }

  /** There are V*A audio outputs. */
  lemma {:induction false} AudioOutputsLength(vs: seq<QueuedVideoTranscoding>, audio: seq<QueuedAudioTranscoding>)
    requires AudioOutputs(vs, audio).Success?
    ensures |AudioOutputs(vs, audio).value| == |vs| * |audio|
    decreases |vs|
  {
    if vs != [] {
      var n := |vs| - 1;
      AudioOutputsLength(vs[..n], audio);
      assert |vs| * |audio| == n * |audio| + |audio|;
    }
  }

  /** Output i*A + j carries audio stream j at the bit rate of rendition i. */
  lemma {:induction false} AudioOutputAt(vs: seq<QueuedVideoTranscoding>, audio: seq<QueuedAudioTranscoding>, i: int, j: int)
    requires AudioOutputs(vs, audio).Success?
    requires 0 <= i < |vs| && 0 <= j < |audio|
    ensures 0 <= i * |audio| + j < |AudioOutputs(vs, audio).value|
    ensures vs[i].height in AudioBitRatesForResolution
    ensures AudioOutputs(vs, audio).value[i * |audio| + j] ==
      AudioOutput(i * |audio| + j, audio[j].streamIndex, AudioBitRatesForResolution[vs[i].height])
    decreases |vs|
  {
    var n := |vs| - 1;
    var init := vs[..n];
    var before := AudioOutputs(init, audio).value;
    var group := AudioGroup(n, audio, AudioBitRatesForResolution[vs[n].height]);
    assert AudioOutputs(vs, audio).value == before + group;
    AudioOutputsLength(init, audio);
    var k := i * |audio| + j;
    if i < n {
      AudioOutputAt(init, audio, i, j);
      assert init[i] == vs[i];
      BlockBelow(i, n, |audio|, j);
    } else {
      assert k == |before| + j;
      assert group[j] == AudioOutput(GroupIndexes(n, |audio|)[j], audio[j].streamIndex, AudioBitRatesForResolution[vs[n].height]);
    }
  }

  /** Entry j of block i lies before block n when i < n. */
  lemma BlockBelow(i: nat, n: nat, width: nat, j: nat)
    requires i < n && j < width
    ensures i * width + j < n * width
  {
    var rest: nat := n - i - 1;
    assert n * width == i * width + rest * width + width;
    assert rest * width >= 0;
  }

  /** The audio outputs are numbered 0 .. V*A - 1 in order. */
  lemma {:induction false} AudioOutputsNumbered(vs: seq<QueuedVideoTranscoding>, audio: seq<QueuedAudioTranscoding>)
    requires AudioOutputs(vs, audio).Success?
    ensures forall k | 0 <= k < |AudioOutputs(vs, audio).value| :: AudioOutputs(vs, audio).value[k].outputIndex == k
    decreases |vs|
  {
    if vs != [] {
      var n := |vs| - 1;
      AudioOutputsNumbered(vs[..n], audio);
      if audio != [] {
        var before := AudioOutputs(vs[..n], audio).value;
        var group := AudioGroup(n, audio, AudioBitRatesForResolution[vs[n].height]);
        var outs := AudioOutputs(vs, audio).value;
        assert outs == before + group;
        AudioOutputsLength(vs[..n], audio);
        forall k | 0 <= k < |outs| ensures outs[k].outputIndex == k {
          if k >= |before| {
            assert outs[k] == group[k - |before|];
          }
        }
      }
    }
  }

  lemma {:induction false} AudioOutputsEmptyAudio(vs: seq<QueuedVideoTranscoding>, audio: seq<QueuedAudioTranscoding>)
    requires audio == []
    ensures AudioOutputs(vs, audio) == Success([])
    decreases |vs|
  {
    if vs != [] {
      AudioOutputsEmptyAudio(vs[..|vs| - 1], audio);
    }
  }

  // ---------------------------------------------------------------- variant stream map

  /** ",a:k" for each output audio index k of a group. */
  function AudioRefs(indexes: seq<int>): (refs: seq<string>)
    ensures |refs| == |indexes| && forall j | 0 <= j < |indexes| :: refs[j] == ",a:" + IntToString(indexes[j])
  {
    seq(|indexes|, j requires 0 <= j < |indexes| => ",a:" + IntToString(indexes[j]))
  }

  /** ",name:{h}p", with "{fps}fps" after it for a rendition above 30 frames per second. */
  function VariantName(v: QueuedVideoTranscoding): string
  {
    ",name:" + IntToString(v.height) + "p" + (if v.frameRate > 30 then IntToString(v.frameRate) + "fps" else "")
  }

  /** Variant i of the -var_stream_map value: video i, its block of audio outputs, its name, a space. */
  function StreamGroup(videoIndex: int, v: QueuedVideoTranscoding, audioCount: nat): string
  {
    "v:" + IntToString(videoIndex) + Concat(AudioRefs(GroupIndexes(videoIndex, audioCount))) + VariantName(v) + " "
  }

  function StreamGroups(vs: seq<QueuedVideoTranscoding>, audioCount: nat): (groups: seq<string>)
    ensures |groups| == |vs| && forall i | 0 <= i < |vs| :: groups[i] == StreamGroup(i, vs[i], audioCount)
  {
    seq(|vs|, i requires 0 <= i < |vs| => StreamGroup(i, vs[i], audioCount))
  }

  /** The -var_stream_map value: one variant per rendition, in output order. */
  function StreamMap(vs: seq<QueuedVideoTranscoding>, audioCount: nat): string
  {
    Concat(StreamGroups(vs, audioCount))
  }

  /** BuildStreamMap: a StringBuilder filled by nested loops with a running audio output counter. */
  method BuildStreamMap(videoTranscodings: seq<QueuedVideoTranscoding>, audioTranscodings: seq<QueuedAudioTranscoding>)
    returns (s: string)
    ensures s == StreamMap(videoTranscodings, |audioTranscodings|)
  {
    hide IntToString, VariantName, StreamGroup, Concat, AudioRefs, GroupIndexes;
    EmptyJoins();
    var audioCount := |audioTranscodings|;
    var groups := StreamGroups(videoTranscodings, audioCount);
    var sb := "";
    var audioIndex := 0;
    for videoIndex := 0 to |videoTranscodings|
      invariant audioIndex == videoIndex * audioCount
      invariant sb == Concat(groups[..videoIndex])
    {
      var start := sb;
      sb := sb + "v:" + IntToString(videoIndex);
      sb, audioIndex := AppendAudioRefs(sb, videoIndex, audioCount, audioIndex);
      sb := sb + VariantName(videoTranscodings[videoIndex]) + " ";
      assert sb == start + groups[videoIndex] by {
        StreamGroupParts(videoIndex, videoTranscodings[videoIndex], audioCount);
      }
      assert groups[..videoIndex + 1] == groups[..videoIndex] + [groups[videoIndex]];
      ConcatAppend(groups[..videoIndex], groups[videoIndex]);
    }
    assert groups[..|videoTranscodings|] == groups;
    s := sb;
  }

  /** The inner loop of BuildStreamMap: ",a:k" for each audio output of the variant, counting k up. */
  method AppendAudioRefs(sb: string, videoIndex: nat, audioCount: nat, audioIndex: int) returns (r: string, next: int)
    requires audioIndex == videoIndex * audioCount
    ensures r == sb + Concat(AudioRefs(GroupIndexes(videoIndex, audioCount)))
    ensures next == (videoIndex + 1) * audioCount
  {
    hide IntToString, Concat, AudioRefs, GroupIndexes;
    EmptyJoins();
    var refs := AudioRefs(GroupIndexes(videoIndex, audioCount));
    r, next := sb, audioIndex;
    for j := 0 to audioCount
      invariant next == videoIndex * audioCount + j
      invariant r == sb + Concat(refs[..j])
    {
      assert refs[..j + 1] == refs[..j] + [refs[j]];
      ConcatAppend(refs[..j], refs[j]);
      r := r + ",a:" + IntToString(next);
      next := next + 1;
    }
    assert refs[..audioCount] == refs;
  }

  lemma StreamGroupParts(videoIndex: int, v: QueuedVideoTranscoding, audioCount: nat)
    ensures StreamGroup(videoIndex, v, audioCount) ==
      "v:" + IntToString(videoIndex) + Concat(AudioRefs(GroupIndexes(videoIndex, audioCount))) + VariantName(v) + " "
  {
  }

  /** Flattening the groups' index blocks gives 0 .. V*A - 1, each once and in order. */
  function FlattenIndexes(blocks: seq<seq<int>>): seq<int>
  {
    if blocks == [] then [] else FlattenIndexes(blocks[..|blocks| - 1]) + blocks[|blocks| - 1]
  }

  function IndexBlocks(videoCount: nat, audioCount: nat): (blocks: seq<seq<int>>)
    ensures |blocks| == videoCount && forall i | 0 <= i < videoCount :: blocks[i] == GroupIndexes(i, audioCount)
  {
    seq(videoCount, i requires 0 <= i < videoCount => GroupIndexes(i, audioCount))
  }

  /** Every audio output index 0 .. V*A - 1 is named by exactly one variant, the groups in order. */
  lemma {:induction false} StreamMapCoversAudioOutputs(videoCount: nat, audioCount: nat)
    ensures FlattenIndexes(IndexBlocks(videoCount, audioCount)) ==
      seq(videoCount * audioCount, k requires 0 <= k < videoCount * audioCount => k)
  {
    if videoCount > 0 {
      var n := videoCount - 1;
      StreamMapCoversAudioOutputs(n, audioCount);
      var blocks := IndexBlocks(videoCount, audioCount);
      assert blocks[..n] == IndexBlocks(n, audioCount);
      var total := videoCount * audioCount;
      assert total == n * audioCount + audioCount;
      var flat := FlattenIndexes(blocks);
      assert flat == FlattenIndexes(IndexBlocks(n, audioCount)) + GroupIndexes(n, audioCount);
      assert |flat| == total;
      forall k | 0 <= k < total ensures flat[k] == k {
        if k >= n * audioCount {
          assert flat[k] == GroupIndexes(n, audioCount)[k - n * audioCount];
        }
      }
    }
  }

  /**
   * Variant i names exactly the audio outputs encoded at rendition i's bit rate: the j-th
   * index in its group is the output that carries audio stream j for rendition i.
   */
  lemma StreamMapMatchesAudioOutputs(vs: seq<QueuedVideoTranscoding>, audio: seq<QueuedAudioTranscoding>, i: int, j: int)
    requires AudioOutputs(vs, audio).Success?
    requires 0 <= i < |vs| && 0 <= j < |audio|
    ensures var k := GroupIndexes(i, |audio|)[j];
      var outs := AudioOutputs(vs, audio).value;
      0 <= k < |outs| && outs[k].outputIndex == k && outs[k].streamIndex == audio[j].streamIndex &&
      vs[i].height in AudioBitRatesForResolution &&
      outs[k].bitRate == AudioBitRatesForResolution[vs[i].height]
  {
    AudioOutputAt(vs, audio, i, j);
    AudioOutputsNumbered(vs, audio);
  }

  // ---------------------------------------------------------------- the ffmpeg command line

  /** Path.Join of two non-rooted parts on a system whose separator is '/'. */
  function PathJoin(first: string, second: string): (path: string)
  {
    if first == [] then second
    else if second == [] then first
    else if first[|first| - 1] == '/' || second[0] == '/' then first + second
    else first + "/" + second
  }

  /** The global options and the input. */
  function ConvertPrefix(inputFile: string): (args: seq<string>)
    ensures |args| == 7 && args[5] == "-i" && args[6] == inputFile
  {
    ["-hide_banner", "-nostats", "-nostdin", "-progress", "-", "-i", inputFile]
  }

  /**
   * The twenty arguments of video output i: the filter output it maps, constant-bit-rate x264,
   * the four rate options at one value, and a minimum keyframe interval of
   * SecondsPerFileSplit seconds of frames.
   */
  function VideoOutputArguments(i: int, v: QueuedVideoTranscoding): (args: seq<string>)
    ensures |args| == 20
  {
    var index := IntToString(i);
    var bitRate := VideoBitRateArgument(v.height);
    ["-map", OutLabel(v.height), "-c:v", "libx264", "-x264-params", "nal-hrd=cbr:force-cfr=1",
     "-b:v:" + index, bitRate, "-maxrate:v:" + index, bitRate, "-minrate:v:" + index, bitRate,
     "-bufsize:v:" + index, bitRate, "-preset", "slow", "-sc_threshold", "0",
     "-keyint_min", IntToString(v.frameRate * SecondsPerFileSplit)]
  }

  /** The video outputs of the first n renditions, in order. */
  function VideoArguments(vs: seq<QueuedVideoTranscoding>, n: nat): (args: seq<string>)
    requires n <= |vs|
    ensures |args| == 20 * n
  {
    if n == 0 then [] else VideoArguments(vs, n - 1) + VideoOutputArguments(n - 1, vs[n - 1])
  }

  /** The eight arguments of one audio output: its input stream, AAC at its bit rate, stereo. */
  function AudioOutputArguments(o: AudioOutput): (args: seq<string>)
    ensures |args| == 8
  {
    ["-map", "a:" + IntToString(o.streamIndex), "-c:a:" + IntToString(o.outputIndex), "aac",
     "-b:a:" + IntToString(o.outputIndex), IntToString(o.bitRate) + "k", "-ac", "2"]
  }

  function AudioArguments(outs: seq<AudioOutput>): (args: seq<string>)
    ensures |args| == 8 * |outs|
  {
    if outs == [] then [] else AudioArguments(outs[..|outs| - 1]) + AudioOutputArguments(outs[|outs| - 1])
  }

  /** The HLS muxer options, the variant map and the playlist pattern. */
  function HlsArguments(outputDirectory: string, streamMap: string): (args: seq<string>)
    ensures |args| == 17
    ensures args[2] == "-hls_time" && args[3] == IntToString(SecondsPerFileSplit)
    ensures args[14] == "-var_stream_map" && args[15] == streamMap
  {
    ["-f", "hls", "-hls_time", IntToString(SecondsPerFileSplit), "-hls_playlist_type", "vod",
     "-hls_flags", "independent_segments", "-hls_segment_type", "mpegts",
     "-hls_segment_filename", PathJoin(outputDirectory, "stream_%v/data%04d.ts"),
     "-master_pl_name", "master.m3u8", "-var_stream_map", streamMap,
     PathJoin(outputDirectory, "stream_%v/info.m3u8")]
  }

  /**
   * The ffmpeg arguments of Convert: the renditions tallest first, the filter graph, the video
   * outputs, the audio outputs (every audio stream once per rendition) and the HLS options.
   */
  function ConvertArguments(inputFile: string, outputDirectory: string, queued: seq<QueuedTranscoding>)
    : (r: Result<seq<string>, ConvertError>)
  {
    var vs := SortByHeightDescending(VideoTranscodings(queued));
    var audio := AudioTranscodings(queued);
    var outs :- AudioOutputs(vs, audio);
    Success(CommandLine(inputFile, outputDirectory, vs, |audio|, outs))
  }

  /** The command line for renditions in their final order and their audio outputs. */
  function CommandLine(inputFile: string, outputDirectory: string, vs: seq<QueuedVideoTranscoding>, audioCount: nat,
                       outs: seq<AudioOutput>): (args: seq<string>)
  {
    ConvertPrefix(inputFile) + ["-filter_complex", FilterCommand(vs)] + VideoArguments(vs, |vs|) +
    AudioArguments(outs) + HlsArguments(outputDirectory, StreamMap(vs, audioCount))
  }

  /**
   * Convert's argument list, built as the source builds it: a list grown by loops, with a
   * running audio output counter. The output directory is the fresh temporary directory the
   * source asks for; running ffmpeg is not part of this model.
   */
  method Convert(inputFile: string, outputDirectory: string, queuedTranscodings: seq<QueuedTranscoding>)
    returns (r: Result<seq<string>, ConvertError>)
    ensures r == ConvertArguments(inputFile, outputDirectory, queuedTranscodings)
  {
    hide FilterCommand, StreamMap, VideoOutputArguments, AudioOutputArguments, HlsArguments, IntToString;
    var arguments := ConvertPrefix(inputFile);
    var videoTranscodings := SortByHeightDescending(VideoTranscodings(queuedTranscodings));
    var audioTranscodings := AudioTranscodings(queuedTranscodings);
    var filter := BuildFilterCommand(videoTranscodings);
    arguments := arguments + ["-filter_complex", filter];
    var videoArguments := AppendVideoOutputs(videoTranscodings);
    arguments := arguments + videoArguments;
    var audioArguments := AppendAudioOutputs(videoTranscodings, audioTranscodings);
    if audioArguments.Failure? {
      return Failure(audioArguments.error);
    }
    arguments := arguments + audioArguments.value;
    var streamMap := BuildStreamMap(videoTranscodings, audioTranscodings);
    arguments := arguments + HlsArguments(outputDirectory, streamMap);
    r := Success(arguments);
  }

  /** The loop over renditions of Convert: twenty arguments per video output. */
  method AppendVideoOutputs(videoTranscodings: seq<QueuedVideoTranscoding>) returns (arguments: seq<string>)
    ensures arguments == VideoArguments(videoTranscodings, |videoTranscodings|)
  {
    hide VideoOutputArguments;
    arguments := [];
    for i := 0 to |videoTranscodings|
      invariant arguments == VideoArguments(videoTranscodings, i)
    {
      var transcoding := videoTranscodings[i];
      var bitRate := VideoBitRateArgument(transcoding.height);
      var index := IntToString(i);
      arguments := arguments + ["-map", OutLabel(transcoding.height), "-c:v", "libx264", "-x264-params",
        "nal-hrd=cbr:force-cfr=1", "-b:v:" + index, bitRate, "-maxrate:v:" + index, bitRate,
        "-minrate:v:" + index, bitRate, "-bufsize:v:" + index, bitRate, "-preset", "slow",
        "-sc_threshold", "0", "-keyint_min", IntToString(transcoding.frameRate * SecondsPerFileSplit)];
      VideoOutputArgumentsParts(i, transcoding);
    }
  }

  lemma VideoOutputArgumentsParts(i: int, v: QueuedVideoTranscoding)
    ensures VideoOutputArguments(i, v) ==
      ["-map", OutLabel(v.height), "-c:v", "libx264", "-x264-params", "nal-hrd=cbr:force-cfr=1",
       "-b:v:" + IntToString(i), VideoBitRateArgument(v.height), "-maxrate:v:" + IntToString(i),
       VideoBitRateArgument(v.height), "-minrate:v:" + IntToString(i), VideoBitRateArgument(v.height),
       "-bufsize:v:" + IntToString(i), VideoBitRateArgument(v.height), "-preset", "slow", "-sc_threshold", "0",
       "-keyint_min", IntToString(v.frameRate * SecondsPerFileSplit)]
  {
  }

  /**
   * The nested loops of Convert over renditions and audio streams, numbering the audio outputs
   * with a running counter; the bit-rate lookup throws on a height the table does not have.
   */
  method AppendAudioOutputs(videoTranscodings: seq<QueuedVideoTranscoding>, audioTranscodings: seq<QueuedAudioTranscoding>)
    returns (r: Result<seq<string>, ConvertError>)
    ensures AudioOutputs(videoTranscodings, audioTranscodings).Failure? ==>
      r == Failure(AudioOutputs(videoTranscodings, audioTranscodings).error)
    ensures AudioOutputs(videoTranscodings, audioTranscodings).Success? ==>
      r == Success(AudioArguments(AudioOutputs(videoTranscodings, audioTranscodings).value))
  {
    hide AudioArguments, AudioGroup;
    var vs, audio := videoTranscodings, audioTranscodings;
    var arguments: seq<string> := [];
    var audioIndex := 0;
    ghost var outs: seq<AudioOutput> := [];
    AudioArgumentsAppend([], []);
    for i := 0 to |vs|
      invariant AudioOutputs(vs[..i], audio) == Success(outs)
      invariant audioIndex == i * |audio|
      invariant arguments == AudioArguments(outs)
    {
      var videoTranscoding := vs[i];
      assert vs[..i + 1][..i] == vs[..i] && vs[..i + 1][i] == videoTranscoding;
      var group;
      group, audioIndex := AppendAudioGroup(i, videoTranscoding, audio, audioIndex);
      if group.Failure? {
        assert AudioOutputs(vs[..i + 1], audio) == Failure(KeyNotFound(videoTranscoding.height));
        AudioOutputsFailureExtends(vs, audio, i + 1);
        return Failure(group.error);
      }
      arguments := arguments + group.value;
      if audio != [] {
        ghost var g := AudioGroup(i, audio, AudioBitRatesForResolution[videoTranscoding.height]);
        AudioArgumentsAppend(outs, g);
        outs := outs + g;
      }
      assert audioIndex == (i + 1) * |audio|;
    }
    assert vs[..|vs|] == vs;
    r := Success(arguments);
  }

  /** The inner loop: the audio outputs of one rendition. */
  method AppendAudioGroup(videoIndex: nat, videoTranscoding: QueuedVideoTranscoding, audio: seq<QueuedAudioTranscoding>,
                          firstIndex: int)
    returns (r: Result<seq<string>, ConvertError>, audioIndex: int)
    requires firstIndex == videoIndex * |audio|
    ensures audioIndex == firstIndex + |audio|
    ensures audio == [] ==> r == Success([])
    ensures audio != [] && videoTranscoding.height !in AudioBitRatesForResolution ==>
      r == Failure(KeyNotFound(videoTranscoding.height))
    ensures audio != [] && videoTranscoding.height in AudioBitRatesForResolution ==>
      r == Success(AudioArguments(AudioGroup(videoIndex, audio, AudioBitRatesForResolution[videoTranscoding.height])))
  {
    hide AudioOutputArguments, IntToString, AudioGroup, AudioArguments;
    var arguments: seq<string> := [];
    AudioArgumentsAppend([], []);
    audioIndex := firstIndex;
    ghost var group: seq<AudioOutput> := [];
    for j := 0 to |audio|
      invariant audioIndex == firstIndex + j
      invariant |group| == j
      invariant j > 0 ==> videoTranscoding.height in AudioBitRatesForResolution
      invariant j > 0 ==> group == AudioGroup(videoIndex, audio, AudioBitRatesForResolution[videoTranscoding.height])[..j]
      invariant arguments == AudioArguments(group)
    {
      if videoTranscoding.height !in AudioBitRatesForResolution {
        return Failure(KeyNotFound(videoTranscoding.height)), audioIndex + |audio| - j;
      }
      var bitRate := AudioBitRatesForResolution[videoTranscoding.height];
      var audioTranscoding := audio[j];
      arguments := arguments + ["-map", "a:" + IntToString(audioTranscoding.streamIndex),
        "-c:a:" + IntToString(audioIndex), "aac", "-b:a:" + IntToString(audioIndex),
        IntToString(bitRate) + "k", "-ac", "2"];
      ghost var o := AudioOutput(audioIndex, audioTranscoding.streamIndex, bitRate);
      assert o == AudioGroup(videoIndex, audio, bitRate)[j] by {
        assert GroupIndexes(videoIndex, |audio|)[j] == videoIndex * |audio| + j;
      }
      AudioArgumentsSnoc(group, o);
      AudioOutputArgumentsParts(o);
      group := group + [o];
      audioIndex := audioIndex + 1;
    }
    if audio != [] {
      assert group == AudioGroup(videoIndex, audio, AudioBitRatesForResolution[videoTranscoding.height]);
    }
    r := Success(arguments);
  }

  lemma {:induction false} AudioArgumentsAppend(a: seq<AudioOutput>, b: seq<AudioOutput>)
    ensures AudioArguments(a + b) == AudioArguments(a) + AudioArguments(b)
    decreases |b|
  {
    hide AudioOutputArguments, AudioArguments;
    if b == [] {
      assert a + b == a;
    } else {
      var n := |b| - 1;
      AudioArgumentsAppend(a, b[..n]);
      AudioArgumentsSnoc(a + b[..n], b[n]);
      AudioArgumentsSnoc(b[..n], b[n]);
      assert a + b == a + b[..n] + [b[n]];
      assert b == b[..n] + [b[n]];
    }
  }

  lemma AudioArgumentsSnoc(s: seq<AudioOutput>, o: AudioOutput)
    ensures AudioArguments(s + [o]) == AudioArguments(s) + AudioOutputArguments(o)
  {
    hide AudioOutputArguments;
    assert (s + [o])[..|s|] == s;
  }

  lemma AudioOutputArgumentsParts(o: AudioOutput)
    ensures AudioOutputArguments(o) ==
      ["-map", "a:" + IntToString(o.streamIndex), "-c:a:" + IntToString(o.outputIndex), "aac",
       "-b:a:" + IntToString(o.outputIndex), IntToString(o.bitRate) + "k", "-ac", "2"]
  {
  }

  // ---------------------------------------------------------------- the command line as a whole

  /** Video output i occupies the twenty arguments from 20*i on. */
  lemma {:induction false} VideoArgumentsAt(vs: seq<QueuedVideoTranscoding>, n: nat, i: nat)
    requires i < n <= |vs|
    ensures 20 * i + 20 <= 20 * n
    ensures VideoArguments(vs, n)[20 * i..20 * i + 20] == VideoOutputArguments(i, vs[i])
  {
    hide VideoOutputArguments, VideoArguments;
    var before, last := VideoArguments(vs, n - 1), VideoOutputArguments(n - 1, vs[n - 1]);
    VideoArgumentsStep(vs, n);
    var whole := VideoArguments(vs, n);
    var lo := 20 * i;
    if i < n - 1 {
      VideoArgumentsAt(vs, n - 1, i);
      SliceOfPrefix(before, last, lo, lo + 20);
      assert whole[lo..lo + 20] == before[lo..lo + 20] == VideoOutputArguments(i, vs[i]);
    } else {
      SliceOfSuffix(before, last);
      assert lo == |before| && whole[lo..lo + 20] == last == VideoOutputArguments(i, vs[i]);
    }
  }

  lemma VideoArgumentsStep(vs: seq<QueuedVideoTranscoding>, n: nat)
    requires 0 < n <= |vs|
    ensures VideoArguments(vs, n) == VideoArguments(vs, n - 1) + VideoOutputArguments(n - 1, vs[n - 1])
  {
  }

  lemma SliceOfPrefix(a: seq<string>, b: seq<string>, lo: nat, hi: nat)
    requires lo <= hi <= |a|
    ensures (a + b)[lo..hi] == a[lo..hi]
  {
  }

  lemma SliceOfSuffix(a: seq<string>, b: seq<string>)
    ensures (a + b)[|a|..|a| + |b|] == b
  {
  }

  /** Audio output k occupies the eight arguments from 8*k on. */
  lemma {:induction false} AudioArgumentsAt(outs: seq<AudioOutput>, k: nat)
    requires k < |outs|
    ensures AudioArguments(outs)[8 * k..8 * k + 8] == AudioOutputArguments(outs[k])
    decreases |outs|
  {
    hide AudioOutputArguments;
    var n := |outs| - 1;
    var before := AudioArguments(outs[..n]);
    assert AudioArguments(outs) == before + AudioOutputArguments(outs[n]);
    if k < n {
      AudioArgumentsAt(outs[..n], k);
      assert outs[..n][k] == outs[k];
      assert AudioArguments(outs)[8 * k..8 * k + 8] == before[8 * k..8 * k + 8];
    } else {
      assert |before| == 8 * k;
    }
  }

  /**
   * Convert fails exactly when there is audio to encode and some rendition's height has no
   * audio bit rate; the failure names such a height.
   */
  lemma ConvertDefined(inputFile: string, outputDirectory: string, queued: seq<QueuedTranscoding>)
    ensures ConvertArguments(inputFile, outputDirectory, queued).Success? <==>
      AudioTranscodings(queued) == [] ||
      forall v | v in VideoTranscodings(queued) :: v.height in AudioBitRatesForResolution
    ensures ConvertArguments(inputFile, outputDirectory, queued).Failure? ==>
      exists v | v in VideoTranscodings(queued) ::
        ConvertArguments(inputFile, outputDirectory, queued).error == KeyNotFound(v.height) &&
        v.height !in AudioBitRatesForResolution
  {
    hide FilterCommand, StreamMap, VideoArguments, AudioArguments, HlsArguments;
    var vs := SortByHeightDescending(VideoTranscodings(queued));
    var audio := AudioTranscodings(queued);
    AudioOutputsDefined(vs, audio);
    assert forall v :: v in vs <==> v in VideoTranscodings(queued) by {
      forall v ensures v in vs <==> v in VideoTranscodings(queued) {
        assert v in vs <==> v in multiset(vs);
        assert v in VideoTranscodings(queued) <==> v in multiset(VideoTranscodings(queued));
      }
    }
    if AudioOutputs(vs, audio).Failure? {
      AudioOutputsFailure(vs, audio);
    }
  }

  /** A failure of the audio outputs names a rendition whose height has no bit rate. */
  lemma {:induction false} AudioOutputsFailure(vs: seq<QueuedVideoTranscoding>, audio: seq<QueuedAudioTranscoding>)
    requires AudioOutputs(vs, audio).Failure?
    ensures exists i | 0 <= i < |vs| ::
      AudioOutputs(vs, audio).error == KeyNotFound(vs[i].height) && vs[i].height !in AudioBitRatesForResolution
    decreases |vs|
  {
    var n := |vs| - 1;
    if AudioOutputs(vs[..n], audio).Failure? {
      AudioOutputsFailure(vs[..n], audio);
      var i :| 0 <= i < n && AudioOutputs(vs[..n], audio).error == KeyNotFound(vs[..n][i].height) &&
        vs[..n][i].height !in AudioBitRatesForResolution;
      assert vs[..n][i] == vs[i];
    } else {
      assert AudioOutputs(vs, audio).error == KeyNotFound(vs[n].height);
    }
  }

  /** A successful Convert is the command line of the sorted renditions and their audio outputs. */
  lemma ConvertArgumentsParts(inputFile: string, outputDirectory: string, queued: seq<QueuedTranscoding>, args: seq<string>)
    requires ConvertArguments(inputFile, outputDirectory, queued) == Success(args)
    ensures var vs := SortByHeightDescending(VideoTranscodings(queued));
      var audio := AudioTranscodings(queued);
      AudioOutputs(vs, audio).Success? &&
      args == CommandLine(inputFile, outputDirectory, vs, |audio|, AudioOutputs(vs, audio).value)
  {
    hide CommandLine, AudioOutputs;
  }

  /**
   * The layout of a successful command: the seven global and input arguments, the filter
   * graph, twenty arguments per rendition, eight per audio output and the seventeen HLS
   * arguments, whose segment length is SecondsPerFileSplit and whose variant map is StreamMap.
   */
  lemma ConvertLayout(inputFile: string, outputDirectory: string, queued: seq<QueuedTranscoding>, args: seq<string>)
    requires ConvertArguments(inputFile, outputDirectory, queued) == Success(args)
    ensures var vs := SortByHeightDescending(VideoTranscodings(queued));
      var audio := AudioTranscodings(queued);
      |args| == 9 + 20 * |vs| + 8 * (|vs| * |audio|) + 17 &&
      args[..7] == ConvertPrefix(inputFile) && args[5] == "-i" && args[6] == inputFile &&
      args[7] == "-filter_complex" && args[8] == FilterCommand(vs) &&
      args[|args| - 17..] == HlsArguments(outputDirectory, StreamMap(vs, |audio|)) &&
      args[|args| - 15] == "-hls_time" && args[|args| - 14] == IntToString(SecondsPerFileSplit) &&
      args[|args| - 3] == "-var_stream_map" && args[|args| - 2] == StreamMap(vs, |audio|)
  {
    hide ConvertArguments, FilterCommand, StreamMap, VideoArguments, AudioArguments, IntToString, PathJoin,
      ConvertPrefix, HlsArguments, VideoTranscodings, AudioTranscodings, SortByHeightDescending, AudioOutputs;
    var vs := SortByHeightDescending(VideoTranscodings(queued));
    var audio := AudioTranscodings(queued);
    ConvertArgumentsParts(inputFile, outputDirectory, queued, args);
    AudioOutputsLength(vs, audio);
    var hls := HlsArguments(outputDirectory, StreamMap(vs, |audio|));
    assert args[|args| - 17..] == hls;
    assert args[|args| - 14] == hls[3] && args[|args| - 15] == hls[2];
    assert args[|args| - 2] == hls[15] && args[|args| - 3] == hls[14];
  }

  /**
   * Rendition i of the command (tallest first) is encoded from the filter output of its
   * height, at its bit rate for all four rate options, with a minimum keyframe interval of
   * SecondsPerFileSplit seconds of its frames, the HLS segment length.
   */
  lemma ConvertVideoOutput(inputFile: string, outputDirectory: string, queued: seq<QueuedTranscoding>, args: seq<string>, i: nat)
    requires ConvertArguments(inputFile, outputDirectory, queued) == Success(args)
    requires i < |VideoTranscodings(queued)|
    ensures var vs := SortByHeightDescending(VideoTranscodings(queued));
      9 + 20 * i + 20 <= |args| && args[9 + 20 * i..9 + 20 * i + 20] == VideoOutputArguments(i, vs[i])
  {
    hide ConvertArguments, FilterCommand, StreamMap, VideoArguments, AudioArguments, HlsArguments,
      VideoOutputArguments, IntToString, ConvertPrefix, VideoTranscodings, AudioTranscodings, SortByHeightDescending,
      AudioOutputs;
    var vs := SortByHeightDescending(VideoTranscodings(queued));
    var audio := AudioTranscodings(queued);
    ConvertArgumentsParts(inputFile, outputDirectory, queued, args);
    var outs := AudioOutputs(vs, audio).value;
    var head := ConvertPrefix(inputFile) + ["-filter_complex", FilterCommand(vs)];
    assert args == head + VideoArguments(vs, |vs|) + (AudioArguments(outs) + HlsArguments(outputDirectory, StreamMap(vs, |audio|)));
    VideoArgumentsAt(vs, |vs|, i);
    assert args[9 + 20 * i..9 + 20 * i + 20] == VideoArguments(vs, |vs|)[20 * i..20 * i + 20];
  }

  /**
   * Audio output i*A + j of the command carries input audio stream j at the audio bit rate of
   * rendition i; the stream map puts it beside video output i.
   */
  lemma ConvertAudioOutput(inputFile: string, outputDirectory: string, queued: seq<QueuedTranscoding>, args: seq<string>,
                           i: nat, j: nat)
    requires ConvertArguments(inputFile, outputDirectory, queued) == Success(args)
    requires i < |VideoTranscodings(queued)| && j < |AudioTranscodings(queued)|
    ensures var vs := SortByHeightDescending(VideoTranscodings(queued));
      var audio := AudioTranscodings(queued);
      var k := i * |audio| + j;
      0 <= k < |vs| * |audio| && vs[i].height in AudioBitRatesForResolution &&
      9 + 20 * |vs| + 8 * k + 8 <= |args| &&
      args[9 + 20 * |vs| + 8 * k..9 + 20 * |vs| + 8 * k + 8] ==
        AudioOutputArguments(AudioOutput(k, audio[j].streamIndex, AudioBitRatesForResolution[vs[i].height]))
  {
    hide ConvertArguments, FilterCommand, StreamMap, VideoArguments, AudioArguments, HlsArguments,
      AudioOutputArguments, AudioOutputs, ConvertPrefix, VideoTranscodings, AudioTranscodings, SortByHeightDescending;
    var vs := SortByHeightDescending(VideoTranscodings(queued));
    var audio := AudioTranscodings(queued);
    ConvertArgumentsParts(inputFile, outputDirectory, queued, args);
    var outs := AudioOutputs(vs, audio).value;
    var head := ConvertPrefix(inputFile) + ["-filter_complex", FilterCommand(vs)] + VideoArguments(vs, |vs|);
    assert args == head + AudioArguments(outs) + HlsArguments(outputDirectory, StreamMap(vs, |audio|));
    var k := i * |audio| + j;
    AudioOutputAt(vs, audio, i, j);
    AudioOutputsLength(vs, audio);
    AudioArgumentsAt(outs, k);
    assert |head| == 9 + 20 * |vs|;
    assert args[|head| + 8 * k..|head| + 8 * k + 8] == AudioArguments(outs)[8 * k..8 * k + 8];
  }
}
