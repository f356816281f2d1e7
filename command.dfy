/**
 * The argument lists handed to the ffmpeg engine.  Both actions overlay the
 * watermark image on the video with the same filter graph; export trims and
 * re-encodes the video, preview emits only the first composited frame.
 */
module Command {
  import opened Wrappers
  import opened Decimal

  /** File names in the engine's virtual filesystem. */
  const VideoInput: string := "input.mp4"
  const WatermarkInput: string := "watermark.jpg"
  const OutputVideo: string := "output.mp4"
  const PreviewFrame: string := "first_frame.png"

  /** The fixed text around the two percentages in the filter graph. */
  const OverlayHead: string := "[1:v]format=yuva444p,colorchannelmixer=aa="
  const OverlayMid: string := ",scale=iw*"
  const ScaleEnd: string := ":-1[watermark]"
  const OverlayChain: string := ";[0:v][watermark]overlay=W-w:H-h"
  const OverlayTail: string := ScaleEnd + OverlayChain

  /**
   * The watermark (second input) is given an alpha channel, its alpha is
   * multiplied by transparence / 100, it is scaled to scale / 100 of its own
   * width keeping its aspect ratio, and it is laid over the bottom-right
   * corner of the video (first input).
   */
  function FilterGraph(transparence: nat, scale: nat): string {
    OverlayHead + Percent(transparence) + OverlayMid + Percent(scale) + OverlayTail
  }

  /** The argv of the export action; the trim bounds arrive already rendered. */
  function ExportArgs(startText: string, endText: string, transparence: nat, scale: nat): seq<string> {
    [ "-i", VideoInput,
      "-i", WatermarkInput,
      "-filter_complex", FilterGraph(transparence, scale),
      "-c:a", "copy",
      "-preset", "ultrafast",
      "-ss", startText, "-to", endText,
      "-y", OutputVideo ]
  }

  /** The argv of the first-frame preview. */
  function PreviewArgs(transparence: nat, scale: nat): seq<string> {
    [ "-i", VideoInput,
      "-i", WatermarkInput,
      "-filter_complex", FilterGraph(transparence, scale),
      "-vframes", "1", PreviewFrame ]
  }

  /**
   * Reads the two percentages out of text of the shape
   * head + <percent> + mid + <percent> + tail.
   */
  function ReadTemplate(head: string, mid: string, tail: string, f: string): Option<(nat, nat)> {
    if |f| < |head| || f[..|head|] != head then None
    else match ScanPercent(f[|head|..])
      case None => None
      case Some((first, r1)) =>
        if |r1| < |mid| || r1[..|mid|] != mid then None
        else match ScanPercent(r1[|mid|..])
          case None => None
          case Some((second, r2)) => if r2 == tail then Some((first, second)) else None
  }

  /** What ReadTemplate gives once the pieces of f around the two numerals are known. */
  lemma ReadTemplateAt(head: string, mid: string, tail: string, f: string, r1: string, first: nat, second: nat)
    requires |head| <= |f| && f[..|head|] == head
    requires ScanPercent(f[|head|..]) == Some((first, r1))
    requires |mid| <= |r1| && r1[..|mid|] == mid
    requires ScanPercent(r1[|mid|..]) == Some((second, tail))
    ensures ReadTemplate(head, mid, tail, f) == Some((first, second))
  {
  }

  lemma TemplateRoundTrip(head: string, mid: string, tail: string, p1: string, p2: string, first: nat, second: nat)
    requires ScanPercent(p1 + (mid + (p2 + tail))) == Some((first, mid + (p2 + tail)))
    requires ScanPercent(p2 + tail) == Some((second, tail))
    ensures ReadTemplate(head, mid, tail, head + (p1 + (mid + (p2 + tail)))) == Some((first, second))
  {
    var r1 := mid + (p2 + tail);
    var f := head + (p1 + r1);
    assert f[..|head|] == head && f[|head|..] == p1 + r1;
    assert r1[..|mid|] == mid && r1[|mid|..] == p2 + tail;
    ReadTemplateAt(head, mid, tail, f, r1, first, second);
  }

  /** Reads the transparence and scale back out of a filter graph. */
  function ParseFilterGraph(f: string): Option<(nat, nat)> {
    ReadTemplate(OverlayHead, OverlayMid, OverlayTail, f)
  }

  lemma FilterGraphRoundTrip(transparence: nat, scale: nat)
    ensures ParseFilterGraph(FilterGraph(transparence, scale)) == Some((transparence, scale))
  {
    var p1, p2 := Percent(transparence), Percent(scale);
    var r1 := OverlayMid + (p2 + OverlayTail);
    assert r1[0] == ',' && OverlayTail[0] == ':';
    assert FilterGraph(transparence, scale) == OverlayHead + (p1 + r1);
    ScanPercentRoundTrip(transparence, r1);
    ScanPercentRoundTrip(scale, OverlayTail);
    TemplateRoundTrip(OverlayHead, OverlayMid, OverlayTail, p1, p2, transparence, scale);
  }

  /** Different overlay settings give different filter graphs. */
  lemma FilterGraphInjective(t1: nat, s1: nat, t2: nat, s2: nat)
    requires FilterGraph(t1, s1) == FilterGraph(t2, s2)
    ensures t1 == t2 && s1 == s2
  {
    FilterGraphRoundTrip(t1, s1);
    FilterGraphRoundTrip(t2, s2);
  }

  /** The graph for the worked example of 50 % transparence and 100 % scale. */
  lemma FilterGraphExample()
    ensures FilterGraph(50, 100) ==
      "[1:v]format=yuva444p,colorchannelmixer=aa=" + "0.50" + ",scale=iw*" + "1.00" + ":-1[watermark]" +
      ";[0:v][watermark]overlay=W-w:H-h"
  {
    PercentExamples();
  }

  /**
   * A flattened reading of what an argv asks of ffmpeg: the inputs in order,
   * one value per option, the overwrite switch, and the output files in
   * order.  ffmpeg ties options to the next file; for argvs whose options
   * each appear once, after the inputs and before one output, this reading
   * says the same.
   */
  datatype Invocation = Invocation(
    inputs: seq<string>,
    filter: Option<string>,
    audioCodec: Option<string>,
    preset: Option<string>,
    start: Option<string>,
    stop: Option<string>,
    frames: Option<string>,
    overwrite: bool,
    outputs: seq<string>)

  const NoOptions: Invocation := Invocation([], None, None, None, None, None, None, false, [])

  const ValueFlags: set<string> := {"-i", "-filter_complex", "-c:a", "-preset", "-ss", "-to", "-vframes"}

  function WithOption(inv: Invocation, flag: string, value: string): Invocation {
    match flag
    case "-i" => inv.(inputs := inv.inputs + [value])
    case "-filter_complex" => inv.(filter := Some(value))
    case "-c:a" => inv.(audioCodec := Some(value))
    case "-preset" => inv.(preset := Some(value))
    case "-ss" => inv.(start := Some(value))
    case "-to" => inv.(stop := Some(value))
    case "-vframes" => inv.(frames := Some(value))
    case _ => inv
  }

  /** Reads args from left to right into inv; None when a flag lacks its value. */
  function ReadArgs(args: seq<string>, inv: Invocation): Option<Invocation>
    decreases |args|
  {
    if args == [] then Some(inv)
    else if args[0] == "-y" then ReadArgs(args[1..], inv.(overwrite := true))
    else if args[0] in ValueFlags then
      if |args| < 2 then None else ReadArgs(args[2..], WithOption(inv, args[0], args[1]))
    else ReadArgs(args[1..], inv.(outputs := inv.outputs + [args[0]]))
  }

  lemma ReadValue(flag: string, value: string, rest: seq<string>, inv: Invocation)
    requires flag in ValueFlags
    ensures ReadArgs([flag, value] + rest, inv) == ReadArgs(rest, WithOption(inv, flag, value))
  {
    assert ([flag, value] + rest)[2..] == rest;
  }

  lemma ReadSwitch(rest: seq<string>, inv: Invocation)
    ensures ReadArgs(["-y"] + rest, inv) == ReadArgs(rest, inv.(overwrite := true))
  {
    assert (["-y"] + rest)[1..] == rest;
  }

  lemma ReadOutput(name: string, rest: seq<string>, inv: Invocation)
    requires name != "-y" && name !in ValueFlags
    ensures ReadArgs([name] + rest, inv) == ReadArgs(rest, inv.(outputs := inv.outputs + [name]))
  {
    assert ([name] + rest)[1..] == rest;
  }

  function Interpret(args: seq<string>): Option<Invocation> {
    ReadArgs(args, NoOptions)
  }

  /** What the six leading arguments common to both actions set. */
  function InputsAndGraph(g: string): Invocation {
    NoOptions.(inputs := [VideoInput, WatermarkInput], filter := Some(g))
  }

  lemma ReadInputsAndGraph(g: string, rest: seq<string>)
    ensures ReadArgs(["-i", VideoInput, "-i", WatermarkInput, "-filter_complex", g] + rest, NoOptions) ==
            ReadArgs(rest, InputsAndGraph(g))
  {
    var i2 := NoOptions.(inputs := [VideoInput]);
    var i4 := i2.(inputs := [VideoInput, WatermarkInput]);
    var t4 := ["-filter_complex", g] + rest;
    var t2 := ["-i", WatermarkInput] + t4;
    ReadValue("-filter_complex", g, rest, i4);
    assert WithOption(i4, "-filter_complex", g) == InputsAndGraph(g);
    ReadValue("-i", WatermarkInput, t4, i2);
    assert WithOption(i2, "-i", WatermarkInput) == i4;
    ReadValue("-i", VideoInput, t2, NoOptions);
    assert WithOption(NoOptions, "-i", VideoInput) == i2;
    assert ["-i", VideoInput, "-i", WatermarkInput, "-filter_complex", g] + rest == ["-i", VideoInput] + t2;
  }

  /** What the last four arguments of the export argv add: the trim end, the overwrite switch and the output. */
  lemma ReadExportEnd(endText: string, i12: Invocation)
    ensures ReadArgs(["-to", endText, "-y", OutputVideo], i12) ==
      Some(i12.(stop := Some(endText), overwrite := true, outputs := i12.outputs + [OutputVideo]))
  {
    var i14 := i12.(stop := Some(endText));
    var i15 := i14.(overwrite := true);
    var t15 := [OutputVideo];
    var t14 := ["-y"] + t15;
    ReadOutput(OutputVideo, [], i15);
    assert [OutputVideo] + [] == t15;
    ReadSwitch(t15, i14);
    ReadValue("-to", endText, t14, i12);
    assert WithOption(i12, "-to", endText) == i14;
    assert ["-to", endText, "-y", OutputVideo] == ["-to", endText] + t14;
  }

  /** What the ten trailing arguments of the export argv add. */
  lemma ReadExportTail(startText: string, endText: string, i6: Invocation)
    ensures ReadArgs(["-c:a", "copy", "-preset", "ultrafast", "-ss", startText, "-to", endText, "-y", OutputVideo], i6) ==
      Some(i6.(audioCodec := Some("copy"), preset := Some("ultrafast"), start := Some(startText),
               stop := Some(endText), overwrite := true, outputs := i6.outputs + [OutputVideo]))
  {
    var i8 := i6.(audioCodec := Some("copy"));
    var i10 := i8.(preset := Some("ultrafast"));
    var i12 := i10.(start := Some(startText));
    var t12 := ["-to", endText, "-y", OutputVideo];
    var t10 := ["-ss", startText] + t12;
    var t8 := ["-preset", "ultrafast"] + t10;
    ReadExportEnd(endText, i12);
    ReadValue("-ss", startText, t12, i10);
    assert WithOption(i10, "-ss", startText) == i12;
    ReadValue("-preset", "ultrafast", t10, i8);
    assert WithOption(i8, "-preset", "ultrafast") == i10;
    ReadValue("-c:a", "copy", t8, i6);
    assert WithOption(i6, "-c:a", "copy") == i8;
    assert ["-c:a", "copy", "-preset", "ultrafast", "-ss", startText, "-to", endText, "-y", OutputVideo] ==
      ["-c:a", "copy"] + t8;
  }

  /**
   * Export reads the two fixed inputs, applies the overlay graph, copies the
   * audio, uses the ultrafast preset, trims to [start, end] and overwrites
   * output.mp4, whatever text the two trim bounds are rendered to.
   */
  lemma ExportMeaning(startText: string, endText: string, transparence: nat, scale: nat)
    ensures Interpret(ExportArgs(startText, endText, transparence, scale)) ==
      Some(Invocation([VideoInput, WatermarkInput], Some(FilterGraph(transparence, scale)),
                      Some("copy"), Some("ultrafast"), Some(startText), Some(endText), None,
                      true, [OutputVideo]))
  {
    var a := ExportArgs(startText, endText, transparence, scale);
    var g := FilterGraph(transparence, scale);
    ExportAndPreviewShareGraph(startText, endText, transparence, scale);
    assert a[..6] == ["-i", VideoInput, "-i", WatermarkInput, "-filter_complex", g];
    assert a == a[..6] + a[6..];
    ReadInputsAndGraph(g, a[6..]);
    ReadExportTail(startText, endText, InputsAndGraph(g));
    assert InputsAndGraph(g).outputs + [OutputVideo] == [OutputVideo];
  }

  /**
   * Preview reads the same inputs and applies the same graph, but sets no
   * trim, audio codec, preset or overwrite, and emits one frame to
   * first_frame.png.
   */
  lemma PreviewMeaning(transparence: nat, scale: nat)
    ensures Interpret(PreviewArgs(transparence, scale)) ==
      Some(Invocation([VideoInput, WatermarkInput], Some(FilterGraph(transparence, scale)),
                      None, None, None, None, Some("1"), false, [PreviewFrame]))
  {
    var g := FilterGraph(transparence, scale);
    var i6 := InputsAndGraph(g);
    var i8 := i6.(frames := Some("1"));
    var i9 := i8.(outputs := [PreviewFrame]);
    var t8 := [PreviewFrame];
    var t6 := ["-vframes", "1"] + t8;
    assert PreviewFrame[0] == 'f';
    ReadOutput(PreviewFrame, [], i8);
    assert [PreviewFrame] + [] == t8;
    assert i8.outputs + [PreviewFrame] == [PreviewFrame];
    assert ReadArgs(t8, i8) == Some(i9);
    ReadValue("-vframes", "1", t8, i6);
    assert WithOption(i6, "-vframes", "1") == i8;
    assert ReadArgs(t6, i6) == Some(i9);
    ReadInputsAndGraph(g, t6);
    assert PreviewArgs(transparence, scale) ==
      ["-i", VideoInput, "-i", WatermarkInput, "-filter_complex", g] + t6;
  }

  /**
   * The two argvs share their first six arguments (inputs and filter graph)
   * and differ only in what follows.
   */
  lemma ExportAndPreviewShareGraph(startText: string, endText: string, transparence: nat, scale: nat)
    ensures ExportArgs(startText, endText, transparence, scale)[..6] == PreviewArgs(transparence, scale)[..6]
    ensures ExportArgs(startText, endText, transparence, scale)[6..] ==
      ["-c:a", "copy", "-preset", "ultrafast", "-ss", startText, "-to", endText, "-y", OutputVideo]
    ensures PreviewArgs(transparence, scale)[6..] == ["-vframes", "1", PreviewFrame]
  {
  }
}
