// FfmpegCommandBuilder: an ffmpeg argument list that starts with the fixed global options and
// only ever grows at its end.
module FfmpegCommandBuilder {
  import opened Text

  /** The List<string> the builder appends to; Build hands out this very object. */
  class ArgumentList {
    var items: seq<string>

    constructor (items: seq<string>)
      ensures this.items == items
    {
      this.items := items;
    }

    method Add(item: string)
      modifies this
      ensures items == old(items) + [item]
    {
      items := items + [item];
    }
  }

  /** The options every command starts with: no banner, no statistics, no stdin, progress to stdout, 30 threads. */
  const DefaultArguments: seq<string> := ["-hide_banner", "-nostats", "-nostdin", "-progress", "-", "-threads", "30"]

  /** The "-vf" value that scales to a height and keeps the aspect ratio with an even width. */
  function ScaleFilter(videoHeight: int): (filter: string)
    ensures |filter| >= 10 && filter[..6] == "scale=" && filter[|filter| - 3..] == ":-2"
  {
    "scale=" + IntToString(videoHeight) + ":-2"
  }

  /** Different heights give different scale filters. */
  lemma ScaleFilterInjective(h1: int, h2: int)
    requires h1 >= 0 && h2 >= 0
    ensures ScaleFilter(h1) == ScaleFilter(h2) ==> h1 == h2
  {
    if ScaleFilter(h1) == ScaleFilter(h2) {
      var s1, s2 := IntToString(h1), IntToString(h2);
      assert ScaleFilter(h1)[6..|ScaleFilter(h1)| - 3] == s1;
      assert ScaleFilter(h2)[6..|ScaleFilter(h2)| - 3] == s2;
      NatToStringInjective(h1, h2);
    }
  }

  class FfmpegCommandBuilder {
    const args: ArgumentList

    /** A fresh builder holds the seven default arguments, in order. */
    constructor ()
      ensures fresh(args) && args.items == DefaultArguments
    {
      args := new ArgumentList(DefaultArguments);
    }

    method WithInput(path: string)
      modifies args
      ensures args.items == old(args.items) + ["-i", path]
    {
      args.Add("-i");
      args.Add(path);
    }

    /** Maps only the video of input 0, scaled to the height, to the output path. */
    method WithVideoOnlyOutput(videoHeight: int, path: string)
      modifies args
      ensures args.items == old(args.items) + ["-map", "0:v", "-vf", ScaleFilter(videoHeight), path]
    {
      args.Add("-map");
      args.Add("0:v");
      args.Add("-vf");
      args.Add("scale=" + IntToString(videoHeight) + ":-2");
      args.Add(path);
    }

    /** An output with ffmpeg's default stream selection, scaled to the height. */
    method WithVideoFullOutput(videoHeight: int, path: string)
      modifies args
      ensures args.items == old(args.items) + ["-vf", ScaleFilter(videoHeight), path]
    {
      args.Add("-vf");
      args.Add("scale=" + IntToString(videoHeight) + ":-2");
      args.Add(path);
    }

    /** Maps stream `inputStreamNumber` of input 0 to the output path. */
    method WithAudioOutput(inputStreamNumber: int, path: string)
      modifies args
      ensures args.items == old(args.items) + ["-map", "0:" + IntToString(inputStreamNumber), path]
    {
      args.Add("-map");
      args.Add("0:" + IntToString(inputStreamNumber));
      args.Add(path);
    }

    /** The builder's own list, not a copy: later With* calls show through it. */
    method Build() returns (r: ArgumentList)
      ensures r == args
    {
      r := args;
    }
  }

  /**
   * A builder used as a whole: a fresh builder, an input and one video output give the
   * defaults, then "-i" and the input, then the video output's five arguments.
   */
  method BuildSingleOutput(input: string, height: int, output: string) returns (args: seq<string>)
    ensures args == DefaultArguments + ["-i", input, "-map", "0:v", "-vf", ScaleFilter(height), output]
    ensures |args| == 14 && args[..7] == DefaultArguments && args[7] == "-i" && args[8] == input
  {
    var builder := new FfmpegCommandBuilder();
    builder.WithInput(input);
    builder.WithVideoOnlyOutput(height, output);
    var list := builder.Build();
    args := list.items;
  }

  /** What Build hands out keeps changing with the builder, so a caller who keeps it sees later additions. */
  method BuildIsLive(input: string) returns (before: seq<string>, after: seq<string>)
    ensures before == DefaultArguments
    ensures after == DefaultArguments + ["-i", input]
  {
    var builder := new FfmpegCommandBuilder();
    var list := builder.Build();
    before := list.items;
    builder.WithInput(input);
    after := list.items;
  }
}
