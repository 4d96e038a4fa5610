/**
  The capture client's frame analyzer: a 500 ms admission gate on camera
  frames, and the flattening of a detected pose into the wire layout. Pose
  detection itself is an outside library; its result is an input here
  (`None` when the frame had no image or detection failed).
*/
module Analyzer {

  import opened Wrappers
  import opened FlatLayout

  /** Minimum spacing, in milliseconds, between two analysed frames. */
  const ThrottleMillis: int := 500

  /** The gate: a frame at `now` is analysed iff 500 ms have passed since the last one. */
  predicate Admits(lastAnalyzed: int, now: int)
  {
    now - lastAnalyzed >= ThrottleMillis
  }

  /** The times of the frames the gate admits, starting from `lastAnalyzed`. */
  function AdmittedTimes(lastAnalyzed: int, clock: seq<int>): (times: seq<int>)
    ensures |times| <= |clock|
    ensures forall i :: 0 <= i < |times| ==> times[i] in clock
    ensures clock != [] && Admits(lastAnalyzed, clock[0]) ==> times != [] && times[0] == clock[0]
    decreases |clock|
  {
    if clock == [] then []
    else if Admits(lastAnalyzed, clock[0]) then [clock[0]] + AdmittedTimes(clock[0], clock[1..])
    else AdmittedTimes(lastAnalyzed, clock[1..])
  }

  /** The time the gate compares the next frame against: the latest admission, else the start value. */
  function LatestAdmission(lastAnalyzed: int, times: seq<int>): int
  {
    if times == [] then lastAnalyzed else times[|times| - 1]
  }

  /**
    The gate, read frame by frame: a run extended by one more frame admits
    what it admitted before, plus the new frame exactly when it comes at
    least 500 ms after the latest admission (or after the start value, when
    nothing was admitted yet).
  */
  lemma {:induction false} AdmittedTimesExtend(lastAnalyzed: int, clock: seq<int>, now: int)
    ensures var before := AdmittedTimes(lastAnalyzed, clock);
      AdmittedTimes(lastAnalyzed, clock + [now])
        == before + (if Admits(LatestAdmission(lastAnalyzed, before), now) then [now] else [])
    decreases |clock|
  {
    var extended := clock + [now];
    if clock == [] {
      assert extended == [now];
      assert extended[1..] == [];
    } else {
      assert extended[0] == clock[0] && extended[1..] == clock[1..] + [now];
      if Admits(lastAnalyzed, clock[0]) {
        AdmittedTimesExtend(clock[0], clock[1..], now);
        var tail := AdmittedTimes(clock[0], clock[1..]);
        assert LatestAdmission(lastAnalyzed, [clock[0]] + tail) == LatestAdmission(clock[0], tail);
      } else {
        AdmittedTimesExtend(lastAnalyzed, clock[1..], now);
      }
    }
  }

  ghost predicate AllAfter(times: seq<int>, bound: int)
  {
    forall i :: 0 <= i < |times| ==> times[i] >= bound
  }

  ghost predicate Spaced(times: seq<int>, gap: int)
  {
    forall i, j :: 0 <= i < j < |times| ==> times[j] - times[i] >= gap
  }

  /**
    Every admitted frame is at least 500 ms after the previous admission,
    so any two admitted frames are at least 500 ms apart. (This holds even
    for a clock that jumps backwards: the gate compares against the last
    admitted time, not the last frame's.)
  */
  lemma {:induction false} AdmittedFramesSpaced(lastAnalyzed: int, clock: seq<int>)
    ensures AllAfter(AdmittedTimes(lastAnalyzed, clock), lastAnalyzed + ThrottleMillis)
    ensures Spaced(AdmittedTimes(lastAnalyzed, clock), ThrottleMillis)
    decreases |clock|
  {
    if clock != [] {
      var rest := clock[1..];
      if Admits(lastAnalyzed, clock[0]) {
        AdmittedFramesSpaced(clock[0], rest);
        var tail := AdmittedTimes(clock[0], rest);
        var times := [clock[0]] + tail;
        assert AdmittedTimes(lastAnalyzed, clock) == times;
        forall i | 0 <= i < |times|
          ensures times[i] >= lastAnalyzed + ThrottleMillis
        {
          if i > 0 {
            assert times[i] == tail[i - 1];
          }
        }
        forall i, j | 0 <= i < j < |times|
          ensures times[j] - times[i] >= ThrottleMillis
        {
          assert times[j] == tail[j - 1];
          if i > 0 {
            assert times[i] == tail[i - 1];
          }
        }
      } else {
        assert AdmittedTimes(lastAnalyzed, clock) == AdmittedTimes(lastAnalyzed, rest);
        AdmittedFramesSpaced(lastAnalyzed, rest);
      }
    }
  }

  class PoseAnalyzer {
    var lastAnalyzedTimestamp: int

    constructor ()
      ensures lastAnalyzedTimestamp == 0
    {
      lastAnalyzedTimestamp := 0;
    }

    /**
      `analyze`: `detected` is the pose library's landmark positions for the
      frame, or `None` when it produced none. Returns whether the frame
      passed the gate and, when the callback fires, the array handed to it.
    */
    method Analyze(now: int, detected: Option<seq<Point>>) returns (admitted: bool, landmarkArray: array?<real>)
      modifies this
      ensures admitted == Admits(old(lastAnalyzedTimestamp), now)
      ensures lastAnalyzedTimestamp == if admitted then now else old(lastAnalyzedTimestamp)
      ensures (landmarkArray != null) == (admitted && detected.Some? && |detected.value| > 0)
      ensures landmarkArray != null ==> fresh(landmarkArray) && landmarkArray[..] == Flattened(detected.value)
    {
      admitted := Admits(lastAnalyzedTimestamp, now);
      landmarkArray := null;
      if admitted {
        lastAnalyzedTimestamp := now;
        if detected.Some? && |detected.value| > 0 {
          landmarkArray := FlattenLandmarks(detected.value);
        }
      }
    }
  }

  /** Fills a new array of twice the landmark count, x then y for each landmark. */
  method FlattenLandmarks(landmarks: seq<Point>) returns (landmarkArray: array<real>)
    ensures fresh(landmarkArray)
    ensures landmarkArray.Length == 2 * |landmarks|
    ensures forall i :: 0 <= i < |landmarks| ==>
      landmarkArray[2 * i] == landmarks[i].x && landmarkArray[2 * i + 1] == landmarks[i].y
    ensures landmarkArray[..] == Flattened(landmarks)
  {
    landmarkArray := new real[|landmarks| * 2];
    var index := 0;
    while index < |landmarks|
      invariant 0 <= index <= |landmarks|
      invariant forall i :: 0 <= i < index ==>
        landmarkArray[2 * i] == landmarks[i].x && landmarkArray[2 * i + 1] == landmarks[i].y
    {
      landmarkArray[index * 2] := landmarks[index].x;
      landmarkArray[index * 2 + 1] := landmarks[index].y;
      index := index + 1;
    }
    var flat := Flattened(landmarks);
    forall j | 0 <= j < landmarkArray.Length
      ensures landmarkArray[j] == flat[j]
    {
      var i := j / 2;
      if j % 2 == 0 {
        assert j == 2 * i;
        assert flat[2 * i] == landmarks[i].x;
      } else {
        assert j == 2 * i + 1;
        assert flat[2 * i + 1] == landmarks[i].y;
      }
    }
  }
}
