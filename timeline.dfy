/**
 * The playback window.  The range slider holds two values on a 0..100
 * scale; each is turned into seconds of the loaded video, and the player is
 * kept inside the window [minTime, maxTime] by seeking back to minTime.
 */
module Timeline {

  /**
   * The slider-to-seconds mapping the editor intends: a fraction v / 100 of
   * the duration.  The editor itself takes the mapping as a parameter; this
   * is the reference it is checked against.
   */
  function IntendedTime(duration: real, v: int): (t: real)
    ensures duration >= 0.0 && 0 <= v <= 100 ==> 0.0 <= t <= duration
    ensures v == 0 ==> t == 0.0
    ensures v == 100 ==> t == duration
  {
    FractionOfDuration(duration, v);
    duration * (v as real) / 100.0
  }

  lemma FractionOfDuration(duration: real, v: int)
    ensures duration >= 0.0 && 0 <= v <= 100 ==> 0.0 <= duration * (v as real) / 100.0 <= duration
  {
    if duration >= 0.0 && 0 <= v <= 100 {
      var f := v as real;
      assert duration * f >= 0.0;
      assert duration * (100.0 - f) >= 0.0;
      assert duration * f <= duration * 100.0;
    }
  }

  /** An ordered slider gives an ordered window inside the video. */
  lemma WindowFromSlider(duration: real, lo: int, hi: int)
    requires duration >= 0.0 && 0 <= lo <= hi <= 100
    ensures 0.0 <= IntendedTime(duration, lo) <= IntendedTime(duration, hi) <= duration
  {
    assert duration * (lo as real) <= duration * (hi as real);
  }

  /**
   * The seeks the clamp issues for a player at `position`: one to minTime
   * when the position is before the window and one to minTime when it is
   * after it (looping back).  Both bounds belong to the window.
   */
  function ClampSeeks(position: real, minTime: real, maxTime: real): (r: seq<real>)
    ensures forall i :: 0 <= i < |r| ==> r[i] == minTime
    ensures r == [] <==> minTime <= position <= maxTime
    ensures minTime <= maxTime ==> |r| <= 1
  {
    (if position < minTime then [minTime] else []) + (if position > maxTime then [minTime] else [])
  }

  /** Where the player stands once the given seeks have been carried out. */
  function Settled(position: real, seeks: seq<real>): real {
    if seeks == [] then position else seeks[|seeks| - 1]
  }

  /** After the clamp the player is inside a well-formed window. */
  lemma ClampLandsInWindow(position: real, minTime: real, maxTime: real)
    requires minTime <= maxTime
    ensures minTime <= Settled(position, ClampSeeks(position, minTime, maxTime)) <= maxTime
  {
    var r := ClampSeeks(position, minTime, maxTime);
    if r != [] {
      assert r[|r| - 1] == minTime;
    }
  }

  /** Clamping a position that has already been clamped issues no seek. */
  lemma ClampIdempotent(position: real, minTime: real, maxTime: real)
    requires minTime <= maxTime
    ensures ClampSeeks(Settled(position, ClampSeeks(position, minTime, maxTime)), minTime, maxTime) == []
  {
    ClampLandsInWindow(position, minTime, maxTime);
  }

  /** A position moves only when it lies outside the window. */
  lemma ClampMovesOnlyOutside(position: real, minTime: real, maxTime: real)
    ensures Settled(position, ClampSeeks(position, minTime, maxTime)) != position ==>
              position < minTime || position > maxTime
  {
  }

  /**
   * With the intended mapping and an ordered slider the clamp leaves the
   * player inside the selected part of the video.
   */
  lemma ClampWithinVideo(duration: real, lo: int, hi: int, position: real)
    requires duration >= 0.0 && 0 <= lo <= hi <= 100
    ensures var minTime, maxTime := IntendedTime(duration, lo), IntendedTime(duration, hi);
      0.0 <= minTime <= Settled(position, ClampSeeks(position, minTime, maxTime)) <= maxTime <= duration
  {
    WindowFromSlider(duration, lo, hi);
    ClampLandsInWindow(position, IntendedTime(duration, lo), IntendedTime(duration, hi));
  }

  /** A 100-second video with the slider at (20, 80). */
  lemma ClampExamples()
    ensures IntendedTime(100.0, 20) == 20.0 && IntendedTime(100.0, 80) == 80.0
    ensures ClampSeeks(10.0, 20.0, 80.0) == [20.0]
    ensures ClampSeeks(50.0, 20.0, 80.0) == []
    ensures ClampSeeks(85.0, 20.0, 80.0) == [20.0]
    ensures ClampSeeks(80.0, 20.0, 80.0) == [] && ClampSeeks(20.0, 20.0, 80.0) == []
  {
  }
}
