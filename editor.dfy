/**
 * The state of the video editor component and its handlers.  Each React
 * state variable and each form field is a field of `VideoEditor`; each
 * handler and each effect is a method run as one atomic step.  The ffmpeg
 * engine and the video player are seen only through the calls made to them,
 * recorded in `engineLog` and `seeks`.
 */
module Editor {
  import opened Wrappers
  import opened Command
  import Timeline

  /** The values held by the antd form. */
  datatype FormValues = FormValues(transparence: int, sliderValues: (int, int), scale: int)

  const FormInitialValues: FormValues := FormValues(50, (0, 100), 100)

  /** Bounds of the two number inputs and of the range slider. */
  const TransparenceMin: int := 1
  const TransparenceMax: int := 100
  const ScaleMin: int := 1
  const ScaleMax: int := 1000
  const SliderMin: int := 0
  const SliderMax: int := 100

  function Distance(a: int, b: int): nat {
    if a <= b then b - a else a - b
  }

  /**
   * The value a number input with bounds [lo, hi] commits for the typed
   * number n: the closest value inside the bounds.
   */
  function CommitNumber(n: int, lo: int, hi: int): (v: int)
    requires lo <= hi
    ensures lo <= v <= hi
    ensures forall w :: lo <= w <= hi ==> Distance(v, n) <= Distance(w, n)
  {
    if n < lo then lo else if n > hi then hi else n
  }

  /** What the video player reports through its state subscription. */
  datatype PlayerState = PlayerState(currentTime: real, duration: real)

  /** One call made to the ffmpeg engine; the bytes written and read are not modelled. */
  datatype EngineCall = WriteFile(name: string) | Exec(args: seq<string>) | ReadFile(name: string)

  /**
   * How the engine answers the calls of one action: every call resolves, or
   * the call with the given (0-based) index rejects, and the action stops there.
   */
  datatype EngineRun = Resolves | RejectsAt(index: nat)

  /** The two writes each action starts with. */
  const InputWrites: seq<EngineCall> := [WriteFile(VideoInput), WriteFile(WatermarkInput)]

  /** The calls of one action, in the order the source awaits them. */
  function ActionCalls(args: seq<string>, output: string): seq<EngineCall> {
    InputWrites + [Exec(args), ReadFile(output)]
  }

  /** The first `calls` calls of an action all resolve. */
  predicate Completes(run: EngineRun, calls: nat) {
    run.Resolves? || run.index >= calls
  }

  /** How many of `calls` calls are issued: up to and including a rejected one. */
  function Issued(run: EngineRun, calls: nat): (k: nat)
    ensures k <= calls
    ensures k == calls <==> Completes(run, calls) || run.index + 1 == calls
  {
    if Completes(run, calls) then calls else run.index + 1
  }

  /** The calls an action issues split into its writes and the rest. */
  lemma ActionCallsSplit(args: seq<string>, output: string, run: EngineRun)
    ensures !Completes(run, 2) ==> ActionCalls(args, output)[..Issued(run, 4)] == InputWrites[..Issued(run, 2)]
    ensures Completes(run, 2) ==>
      ActionCalls(args, output)[..Issued(run, 4)] == InputWrites + ActionCalls(args, output)[2..Issued(run, 4)]
  {
    var calls := ActionCalls(args, output);
    assert calls[..2] == InputWrites;
    if !Completes(run, 2) {
      assert calls[..Issued(run, 4)] == calls[..2][..Issued(run, 2)];
    } else {
      assert calls[..Issued(run, 4)] == calls[..2] + calls[2..Issued(run, 4)];
    }
  }

  class VideoEditor {
    /** Whether the engine has loaded; the editor is only shown once it has. */
    const ffmpegLoaded: bool
    /** A video file is selected (`videoFile !== null`). */
    var hasVideo: bool
    /** The player has handed over its reference (`videoPlayer`). */
    var hasPlayer: bool
    var playerState: Option<PlayerState>
    var form: FormValues
    var watermarkFileName: string
    var processing: bool
    /** The first-frame modal is showing. */
    var previewOpen: bool
    /** Every call made to the engine, oldest first. */
    var engineLog: seq<EngineCall>
    /** Every `seek` issued to the player, oldest first. */
    var seeks: seq<real>

    /** The form holds values its widgets can produce. */
    ghost predicate FormValid()
      reads this
    {
      SliderMin <= form.sliderValues.0 <= form.sliderValues.1 <= SliderMax &&
      TransparenceMin <= form.transparence <= TransparenceMax &&
      ScaleMin <= form.scale <= ScaleMax
    }

    /**
     * Besides, the modal implies the busy flag, and the player state is
     * forgotten whenever no video is selected.
     */
    ghost predicate Valid()
      reads this
    {
      FormValid() && (previewOpen ==> processing) && (!hasVideo ==> playerState.None?)
    }

    /** The loading mask covers the whole editor. */
    predicate Spinning()
      reads this
    {
      processing || !ffmpegLoaded
    }

    /** The player and the form are rendered only while a video is selected. */
    predicate FormShown()
      reads this
    {
      hasVideo
    }

    /** The upload button is offered without a video, the remove button with one. */
    predicate UploadShown()
      reads this
    {
      !hasVideo
    }

    predicate SliderEnabled()
      reads this
    {
      FormShown() && playerState.Some?
    }

    /** Export and preview are offered once a watermark image is chosen. */
    predicate ActionsShown()
      reads this
    {
      FormShown() && watermarkFileName != ""
    }

    predicate ActionsAvailable()
      reads this
    {
      ActionsShown() && !Spinning()
    }

    constructor (loaded: bool)
      ensures Valid()
      ensures ffmpegLoaded == loaded
      ensures !hasVideo && !hasPlayer && playerState == None
      ensures form == FormInitialValues
      ensures watermarkFileName == "" && !processing && !previewOpen
      ensures engineLog == [] && seeks == []
    {
      ffmpegLoaded := loaded;
      hasVideo, hasPlayer, playerState := false, false, None;
      form := FormInitialValues;
      watermarkFileName := "";
      processing, previewOpen := false, false;
      engineLog, seeks := [], [];
    }

    /**
     * The clamp effect: with a player and its state, a position before the
     * window seeks to its start, and so does a position after it.
     */
    method ClampEffect(toTime: (real, int) -> real)
      modifies this`seeks
      ensures hasPlayer && playerState.Some? ==>
        seeks == old(seeks) + Timeline.ClampSeeks(playerState.value.currentTime,
                                                  toTime(playerState.value.duration, form.sliderValues.0),
                                                  toTime(playerState.value.duration, form.sliderValues.1))
      ensures !(hasPlayer && playerState.Some?) ==> seeks == old(seeks)
    {
      if hasPlayer && playerState.Some? {
        var state := playerState.value;
        var minTime := toTime(state.duration, form.sliderValues.0);
        var maxTime := toTime(state.duration, form.sliderValues.1);
        if state.currentTime < minTime {
          seeks := seeks + [minTime];
        }
        if state.currentTime > maxTime {
          seeks := seeks + [minTime];
        }
        assert seeks == old(seeks) + Timeline.ClampSeeks(state.currentTime, minTime, maxTime);
      }
    }

    /** The reset effect: without a video the slider and the player state return to their defaults. */
    method ResetEffect()
      requires FormValid() && (previewOpen ==> processing)
      modifies this`playerState, this`form
      ensures Valid()
      ensures !hasVideo ==> playerState == None && form == old(form).(sliderValues := (0, 100))
      ensures hasVideo ==> playerState == old(playerState) && form == old(form)
    {
      if !hasVideo {
        playerState := None;
        form := form.(sliderValues := (0, 100));
      }
    }

    method SelectVideo()
      requires Valid() && UploadShown() && !Spinning()
      modifies this`hasVideo, this`playerState, this`form
      ensures Valid() && hasVideo
      ensures playerState == old(playerState) && form == old(form)
    {
      hasVideo := true;
      ResetEffect();
    }

    /**
     * Removing the video resets the slider to (0, 100) and forgets the
     * player state; transparence, scale and the watermark are kept.
     */
    method RemoveVideo()
      requires Valid() && FormShown() && !Spinning()
      modifies this`hasVideo, this`playerState, this`form
      ensures Valid() && !hasVideo
      ensures playerState == None
      ensures form == old(form).(sliderValues := (0, 100))
    {
      hasVideo := false;
      ResetEffect();
    }

    /** The player hands over its reference; the clamp effect reruns. */
    method SetPlayer(toTime: (real, int) -> real)
      requires Valid() && FormShown()
      modifies this`hasPlayer, this`seeks
      ensures Valid() && hasPlayer
      ensures playerState.Some? ==>
        seeks == old(seeks) + Timeline.ClampSeeks(playerState.value.currentTime,
                                                  toTime(playerState.value.duration, form.sliderValues.0),
                                                  toTime(playerState.value.duration, form.sliderValues.1))
      ensures playerState.None? ==> seeks == old(seeks)
    {
      hasPlayer := true;
      ClampEffect(toTime);
    }

    /** The player reports a new state; the clamp effect reruns. */
    method SetPlayerState(state: PlayerState, toTime: (real, int) -> real)
      requires Valid() && FormShown()
      modifies this`playerState, this`seeks
      ensures Valid() && playerState == Some(state)
      ensures hasPlayer ==>
        seeks == old(seeks) + Timeline.ClampSeeks(state.currentTime,
                                                  toTime(state.duration, form.sliderValues.0),
                                                  toTime(state.duration, form.sliderValues.1))
      ensures !hasPlayer ==> seeks == old(seeks)
    {
      playerState := Some(state);
      ClampEffect(toTime);
    }

    /** Moving the slider stores both handles and seeks to the time of the lower one. */
    method MoveSlider(lo: int, hi: int, toTime: (real, int) -> real)
      requires Valid() && SliderEnabled() && !Spinning()
      requires SliderMin <= lo <= hi <= SliderMax
      modifies this`form, this`seeks
      ensures Valid()
      ensures form == old(form).(sliderValues := (lo, hi))
      ensures hasPlayer ==> seeks == old(seeks) + [toTime(playerState.value.duration, lo)]
      ensures !hasPlayer ==> seeks == old(seeks)
    {
      form := form.(sliderValues := (lo, hi));
      if playerState.Some? && hasPlayer {
        seeks := seeks + [toTime(playerState.value.duration, lo)];
      }
    }

    method EnterTransparence(n: int)
      requires Valid() && FormShown() && !Spinning()
      modifies this`form
      ensures Valid()
      ensures form == old(form).(transparence := CommitNumber(n, TransparenceMin, TransparenceMax))
    {
      form := form.(transparence := CommitNumber(n, TransparenceMin, TransparenceMax));
    }

    method EnterScale(n: int)
      requires Valid() && FormShown() && !Spinning()
      modifies this`form
      ensures Valid()
      ensures form == old(form).(scale := CommitNumber(n, ScaleMin, ScaleMax))
    {
      form := form.(scale := CommitNumber(n, ScaleMin, ScaleMax));
    }

    method SelectWatermark(fileName: string)
      requires Valid() && FormShown() && !Spinning()
      modifies this`watermarkFileName
      ensures Valid() && watermarkFileName == fileName
    {
      watermarkFileName := fileName;
    }

    /** The export argv for the current form values and player state. */
    function ExportCommand(toTime: (real, int) -> real, render: real -> string): seq<string>
      reads this
      requires Valid() && playerState.Some?
    {
      ExportArgs(render(toTime(playerState.value.duration, form.sliderValues.0)),
                 render(toTime(playerState.value.duration, form.sliderValues.1)),
                 form.transparence as nat, form.scale as nat)
    }

    /** The two writes each action starts with; `written` says both resolved. */
    method WriteInputs(run: EngineRun) returns (written: bool)
      modifies this`engineLog
      ensures written == Completes(run, 2)
      ensures engineLog == old(engineLog) + InputWrites[..Issued(run, 2)]
    {
      engineLog := engineLog + [WriteFile(VideoInput)];
      if !Completes(run, 1) {
        assert InputWrites[..Issued(run, 2)] == [WriteFile(VideoInput)];
        return false;
      }
      engineLog := engineLog + [WriteFile(WatermarkInput)];
      assert InputWrites[..Issued(run, 2)] == InputWrites;
      written := Completes(run, 2);
    }

    /** The third and fourth calls of an action: run args, then read output. */
    method ExecAndRead(args: seq<string>, output: string, run: EngineRun) returns (done: bool)
      requires Completes(run, 2)
      modifies this`engineLog
      ensures done == Completes(run, 4)
      ensures engineLog == old(engineLog) + ActionCalls(args, output)[2..Issued(run, 4)]
    {
      engineLog := engineLog + [Exec(args)];
      if !Completes(run, 3) {
        return false;
      }
      engineLog := engineLog + [ReadFile(output)];
      done := Completes(run, 4);
    }

    /**
     * Export: mark the editor busy, write the video and the watermark, read
     * the player's duration, run the export argv and read output.mp4, then
     * clear the busy flag.  A rejected engine call (or a missing player
     * state, which throws when the duration is read) ends the action with
     * the editor still busy.
     */
    method MergeWatermark(run: EngineRun, toTime: (real, int) -> real, render: real -> string)
      requires Valid() && ActionsAvailable()
      modifies this`processing, this`engineLog
      ensures Valid()
      ensures playerState.None? ==>
        engineLog == old(engineLog) + InputWrites[..Issued(run, 2)]
      ensures playerState.Some? ==>
        engineLog == old(engineLog) + ActionCalls(ExportCommand(toTime, render), OutputVideo)[..Issued(run, 4)]
      ensures processing <==> !(playerState.Some? && Completes(run, 4))
      ensures ActionsAvailable() <==> playerState.Some? && Completes(run, 4)
    {
      processing := true;
      var written := WriteInputs(run);
      if !written {
        if playerState.Some? {
          ActionCallsSplit(ExportCommand(toTime, render), OutputVideo, run);
        }
        return;
      }
      if playerState.None? {
        return;
      }
      var args := ExportCommand(toTime, render);
      var done := ExecAndRead(args, OutputVideo, run);
      ActionCallsSplit(args, OutputVideo, run);
      if done {
        processing := false;
      }
    }

    /**
     * Preview: mark the editor busy, write the video and the watermark, run
     * the preview argv and read first_frame.png, then open the modal.  The
     * busy flag stays set until the modal is closed, or for good when an
     * engine call rejects.
     */
    method PreviewFirstFrame(run: EngineRun)
      requires Valid() && ActionsAvailable()
      modifies this`processing, this`engineLog, this`previewOpen
      ensures Valid() && processing
      ensures engineLog == old(engineLog) +
        ActionCalls(PreviewArgs(form.transparence as nat, form.scale as nat), PreviewFrame)[..Issued(run, 4)]
      ensures previewOpen <==> Completes(run, 4)
    {
      processing := true;
      var args := PreviewArgs(form.transparence as nat, form.scale as nat);
      var written := WriteInputs(run);
      ActionCallsSplit(args, PreviewFrame, run);
      if !written {
        return;
      }
      var done := ExecAndRead(args, PreviewFrame, run);
      if done {
        previewOpen := true;
      }
    }

    /** The modal's OK or Cancel clears the busy flag. */
    method ClosePreview()
      requires Valid() && previewOpen
      modifies this`processing, this`previewOpen
      ensures Valid() && !processing && !previewOpen
    {
      previewOpen := false;
      processing := false;
    }
  }
}
