/**
  The browser dashboard's posture-time tracker. It keeps seconds per known
  label, the last posture seen and the time it was seen. On a change of
  label the previous label is credited with the whole seconds since the
  last observation. The start time moves on EVERY observation, repeats
  included, so what is credited is the gap since the previous message, not
  the time since the posture began.
*/
module Dashboard {

  import opened Wrappers
  import opened PostureData
  import Text
  import Arith

  /** The tracker's three module-level variables. */
  datatype Tracker = Tracker(postureTimes: map<string, int>, lastPosture: Option<string>, postureStartTime: int)

  /** The state when the script loads at `loadTime`. */
  function Initial(loadTime: int): (t: Tracker)
    ensures t.postureTimes.Keys == KnownLabels && t.lastPosture == None
    ensures forall k :: k in t.postureTimes ==> t.postureTimes[k] == 0
  {
    Tracker(ZeroTotals(), None, loadTime)
  }

  /** Whole seconds between two clock readings (`Math.floor` of the millisecond gap / 1000). */
  function ElapsedSeconds(since: int, now: int): (seconds: int)
    ensures seconds * 1000 <= now - since < seconds * 1000 + 1000
  {
    (now - since) / 1000
  }

  /** The guard `lastPosture && lastPosture !== newPosture`; the empty string is falsy. */
  predicate IsChange(t: Tracker, newPosture: string)
  {
    t.lastPosture.Some? && t.lastPosture.value != "" && t.lastPosture.value != newPosture
  }

  /** `updatePostureData(newPosture, timestamp)` with the clock reading `now`. */
  function Step(t: Tracker, newPosture: string, now: int): (r: Tracker)
    ensures r.lastPosture == Some(newPosture) && r.postureStartTime == now
    ensures r.postureTimes.Keys == t.postureTimes.Keys
  {
    var times :=
      if IsChange(t, newPosture) && t.lastPosture.value in t.postureTimes then
        var last := t.lastPosture.value;
        t.postureTimes[last := t.postureTimes[last] + ElapsedSeconds(t.postureStartTime, now)]
      else t.postureTimes;
    Tracker(times, Some(newPosture), now)
  }

  /** The first observation credits nothing. */
  lemma FirstObservationCreditsNothing(t: Tracker, newPosture: string, now: int)
    requires t.lastPosture == None
    ensures Step(t, newPosture, now).postureTimes == t.postureTimes
  {
  }

  /**
    A change away from a known label credits exactly that label, by the
    whole seconds since the previous observation; every other total stays.
  */
  lemma ChangeCreditsPreviousLabel(t: Tracker, newPosture: string, now: int)
    requires t.lastPosture.Some? && t.lastPosture.value != newPosture
    requires t.lastPosture.value in t.postureTimes
    requires t.postureTimes.Keys == KnownLabels
    ensures var r := Step(t, newPosture, now).postureTimes;
      && r[t.lastPosture.value] == t.postureTimes[t.lastPosture.value] + ElapsedSeconds(t.postureStartTime, now)
      && forall k :: k in t.postureTimes && k != t.lastPosture.value ==> r[k] == t.postureTimes[k]
  {
  }

  /** A repeated label credits nothing, yet the start time still moves to `now`. */
  lemma RepeatCreditsNothing(t: Tracker, newPosture: string, now: int)
    requires t.lastPosture == Some(newPosture)
    ensures Step(t, newPosture, now) == Tracker(t.postureTimes, Some(newPosture), now)
  {
  }

  /** A previous label without a slot (such as `unknown`) is never credited. */
  lemma UnslottedLabelCreditsNothing(t: Tracker, newPosture: string, now: int)
    requires t.lastPosture.Some? && t.lastPosture.value !in t.postureTimes
    ensures Step(t, newPosture, now).postureTimes == t.postureTimes
  {
  }

  /** Feeds `(posture, clock)` observations to the tracker in order. */
  function Run(t: Tracker, observations: seq<(string, int)>): (r: Tracker)
    ensures r.postureTimes.Keys == t.postureTimes.Keys
    ensures observations != [] ==>
      r.lastPosture == Some(observations[|observations| - 1].0)
      && r.postureStartTime == observations[|observations| - 1].1
    decreases |observations|
  {
    if observations == [] then t
    else Run(Step(t, observations[0].0, observations[0].1), observations[1..])
  }

  /** The clock readings never go backwards, and none precedes `since`. */
  ghost predicate ClockFrom(since: int, observations: seq<(string, int)>)
  {
    && (forall i :: 0 <= i < |observations| ==> since <= observations[i].1)
    && (forall i, j :: 0 <= i < j < |observations| ==> observations[i].1 <= observations[j].1)
  }

  /** The sum of the three displayed totals (a missing slot counts as 0). */
  function TotalSeconds(times: map<string, int>): int
  {
    (if "sitting" in times then times["sitting"] else 0)
    + (if "standing" in times then times["standing"] else 0)
    + (if "lying" in times then times["lying"] else 0)
  }

  lemma FloorDivSuperadditive(a: int, b: int)
    requires a >= 0 && b >= 0
    ensures a / 1000 + b / 1000 <= (a + b) / 1000
  {
  }

  /**
    With a clock that never runs backwards, totals never decrease, and the
    seconds credited over a run never exceed the whole seconds of wall-clock
    time the run spans.
  */
  lemma {:induction false} RunCreditsAtMostElapsed(t: Tracker, observations: seq<(string, int)>)
    requires ClockFrom(t.postureStartTime, observations)
    requires observations != []
    ensures var r := Run(t, observations);
      && (forall k :: k in t.postureTimes ==> r.postureTimes[k] >= t.postureTimes[k])
      && TotalSeconds(r.postureTimes) - TotalSeconds(t.postureTimes)
         <= ElapsedSeconds(t.postureStartTime, observations[|observations| - 1].1)
    decreases |observations|
  {
    var (p, now) := observations[0];
    var s := Step(t, p, now);
    assert TotalSeconds(s.postureTimes) - TotalSeconds(t.postureTimes) <= ElapsedSeconds(t.postureStartTime, now);
    assert forall k :: k in t.postureTimes ==> s.postureTimes[k] >= t.postureTimes[k];
    var rest := observations[1..];
    if rest == [] {
      assert Run(t, observations) == Run(s, rest) == s;
    } else {
      assert ClockFrom(now, rest) by {
        forall i | 0 <= i < |rest| ensures now <= rest[i].1 {
          assert rest[i] == observations[i + 1];
        }
        forall i, j | 0 <= i < j < |rest| ensures rest[i].1 <= rest[j].1 {
          assert rest[i] == observations[i + 1] && rest[j] == observations[j + 1];
        }
      }
      RunCreditsAtMostElapsed(s, rest);
      var last := observations[|observations| - 1].1;
      assert rest[|rest| - 1].1 == last;
      FloorDivSuperadditive(now - t.postureStartTime, last - now);
    }
  }

  /** From page load, with a clock that never runs backwards, every total stays non-negative. */
  lemma TotalsStayNonNegative(loadTime: int, observations: seq<(string, int)>)
    requires ClockFrom(loadTime, observations)
    ensures var r := Run(Initial(loadTime), observations).postureTimes;
      r.Keys == KnownLabels && forall k :: k in r ==> r[k] >= 0
  {
    if observations != [] {
      RunCreditsAtMostElapsed(Initial(loadTime), observations);
    }
  }

  /**
    Time before a repeated label is forfeited: sitting at 0 ms, sitting again
    at 1500 ms, standing at 2000 ms credits sitting with 0 s, not 2 s.
  */
  lemma RepeatForfeitsEarlierTime()
    ensures Run(Initial(0), [("sitting", 0), ("sitting", 1500), ("standing", 2000)]).postureTimes["sitting"] == 0
  {
  }

  /** The `m min s sec` split of a total. Math.floor for minutes, JavaScript `%` for seconds. */
  function MinutesAndSeconds(total: int): (ms: (int, int))
    ensures total >= 0 ==> ms.0 * 60 + ms.1 == total && 0 <= ms.1 < 60 && ms.0 >= 0
  {
    (total / 60, Arith.TruncRem(total, 60))
  }

  /** The text shown for one total; a reader recovers every non-negative total from it. */
  function DurationText(total: int): (text: string)
    ensures total >= 0 ==> ReadDuration(text) == Some(total)
  {
    var (m, s) := MinutesAndSeconds(total);
    DurationTextReads(m, s);
    Text.IntToDecimal(m) + " min " + Text.IntToDecimal(s) + " sec"
  }

  /** Reads `<m> min <s> sec` back as the number of seconds `m * 60 + s`. */
  function ReadDuration(text: string): Option<int>
  {
    var i := Text.IndexOfChar(text, ' ');
    var minutes := Text.ParseDecimal(text[..i]);
    var rest := text[i..];
    if minutes.Some? && Text.StartsWith(rest, " min ") then ReadSeconds(minutes.value, rest[5..])
    else None
  }

  /** The part after ` min `. */
  function ReadSeconds(minutes: int, text: string): Option<int>
  {
    var j := Text.IndexOfChar(text, ' ');
    var seconds := Text.ParseDecimal(text[..j]);
    if seconds.Some? && text[j..] == " sec" then Some(minutes * 60 + seconds.value) else None
  }

  lemma ReadSecondsOf(m: int, s: int)
    ensures ReadSeconds(m, Text.IntToDecimal(s) + " sec") == Some(m * 60 + s)
  {
    var st := Text.IntToDecimal(s);
    var text := st + " sec";
    Text.DecimalAvoids(s, ' ');
    Text.DecimalRoundTrip(s);
    Text.IndexOfCharAt(st, " sec", ' ');
    assert text[..|st|] == st && text[|st|..] == " sec";
  }

  lemma ReadDurationOf(mt: string, m: int, afterMinutes: string)
    requires ' ' !in mt && Text.ParseDecimal(mt) == Some(m)
    ensures ReadDuration(mt + (" min " + afterMinutes)) == ReadSeconds(m, afterMinutes)
  {
    var rest := " min " + afterMinutes;
    var text := mt + rest;
    Text.IndexOfCharAt(mt, rest, ' ');
    assert text[..|mt|] == mt && text[|mt|..] == rest;
    assert rest[5..] == afterMinutes;
  }

  /** Any minutes and seconds written in the display layout read back. */
  lemma DurationTextReads(m: int, s: int)
    ensures ReadDuration(Text.IntToDecimal(m) + " min " + Text.IntToDecimal(s) + " sec") == Some(m * 60 + s)
  {
    var mt := Text.IntToDecimal(m);
    var afterMinutes := Text.IntToDecimal(s) + " sec";
    assert mt + " min " + Text.IntToDecimal(s) + " sec" == mt + (" min " + afterMinutes);
    Text.DecimalAvoids(m, ' ');
    Text.DecimalRoundTrip(m);
    ReadDurationOf(mt, m, afterMinutes);
    ReadSecondsOf(m, s);
  }

  /** A message from the backend after JSON parsing: its `type` and `posture` keys, if string-valued. */
  datatype DashboardMessage = DashboardMessage(messageType: Option<string>, posture: Option<string>, timestamp: Option<int>)

  /** The page's tracker state, held in module-level variables. */
  class PostureDashboard {
    var postureTimes: map<string, int>
    var lastPosture: Option<string>
    var postureStartTime: int

    function State(): Tracker
      reads this
    {
      Tracker(postureTimes, lastPosture, postureStartTime)
    }

    constructor (loadTime: int)
      ensures State() == Initial(loadTime)
    {
      postureTimes := ZeroTotals();
      lastPosture := None;
      postureStartTime := loadTime;
    }

    /** `updatePostureData`; the `timestamp` argument is ignored in favour of the clock reading `now`. */
    method UpdatePostureData(newPosture: string, timestamp: Option<int>, now: int)
      modifies this
      ensures State() == Step(old(State()), newPosture, now)
    {
      if lastPosture.Some? && lastPosture.value != "" && lastPosture.value != newPosture {
        var duration := ElapsedSeconds(postureStartTime, now);
        if lastPosture.value in postureTimes {
          postureTimes := postureTimes[lastPosture.value := postureTimes[lastPosture.value] + duration];
        }
      }
      lastPosture := Some(newPosture);
      postureStartTime := now;
    }

    /**
      `socket.onmessage`: `parsed` is `None` when the text was not JSON.
      Only `posture_update` messages reach the tracker, lower-cased; one
      without a string posture throws inside the handler and is dropped.
    */
    method OnMessage(parsed: Option<DashboardMessage>, now: int)
      modifies this
      ensures parsed.Some? && parsed.value.messageType == Some("posture_update") && parsed.value.posture.Some?
        ==> State() == Step(old(State()), Text.Lower(parsed.value.posture.value), now)
      ensures !(parsed.Some? && parsed.value.messageType == Some("posture_update") && parsed.value.posture.Some?)
        ==> State() == old(State())
    {
      if parsed.Some? && parsed.value.messageType == Some("posture_update") {
        if parsed.value.posture.Some? {
          var currentPosture := Text.Lower(parsed.value.posture.value);
          UpdatePostureData(currentPosture, parsed.value.timestamp, now);
        }
      }
    }
  }
}
