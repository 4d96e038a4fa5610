/**
  The mobile activity's session bookkeeping: the start/stop toggle that owns
  `isMonitoring` and `currentSession`, the gate on forwarding landmarks, the
  mapping of a backend posture string to a category, and the per-session
  totals. The totals count OBSERVATIONS (one per classified frame), although
  the session's documentation calls them seconds.
*/
module Mobile {

  import opened Wrappers
  import opened PostureData
  import Text
  import Arith

  /** The `when` in `updatePostureDisplay`: case-insensitive match on the three labels. */
  function ParsePosture(posture: string): (t: PostureType)
    ensures t == Sitting <==> Text.Lower(posture) == "sitting"
    ensures t == Standing <==> Text.Lower(posture) == "standing"
    ensures t == Lying <==> Text.Lower(posture) == "lying"
    ensures t == Unknown <==> Text.Lower(posture) !in KnownLabels
  {
    match Text.Lower(posture)
    case "sitting" => Sitting
    case "standing" => Standing
    case "lying" => Lying
    case _ => Unknown
  }

  /** Strings that agree up to ASCII case map to the same category. */
  lemma ParsePostureIgnoresCase(a: string, b: string)
    requires Text.Lower(a) == Text.Lower(b)
    ensures ParsePosture(a) == ParsePosture(b)
  {
  }

  /** The text of the posture label on screen. */
  function PostureText(posture: string): string
  {
    "Current Posture: " + ParsePosture(posture).DisplayName()
  }

  /** The label tells categories apart: two replies show the same text iff they map to the same category. */
  lemma PostureTextDistinguishes(a: string, b: string)
    ensures PostureText(a) == PostureText(b) <==> ParsePosture(a) == ParsePosture(b)
  {
    var prefix := "Current Posture: ";
    if PostureText(a) == PostureText(b) {
      assert PostureText(a)[|prefix|..] == ParsePosture(a).DisplayName();
      assert PostureText(b)[|prefix|..] == ParsePosture(b).DisplayName();
      DisplayNamesDistinct(ParsePosture(a), ParsePosture(b));
    }
  }

  /** One observation counted into the totals: +1 on the lower-cased label if it has a slot. */
  function CountObservation(totals: map<string, int>, posture: string): (r: map<string, int>)
    ensures r.Keys == totals.Keys
    ensures forall k :: k in totals && k != Text.Lower(posture) ==> r[k] == totals[k]
    ensures Text.Lower(posture) in totals ==> r[Text.Lower(posture)] == totals[Text.Lower(posture)] + 1
    ensures Text.Lower(posture) !in totals ==> r == totals
  {
    var key := Text.Lower(posture);
    if key in totals then totals[key := totals[key] + 1] else totals
  }

  /** Counting a posture changes the fresh-session totals iff the posture maps to a known category. */
  lemma CountedIffRecognised(totals: map<string, int>, posture: string)
    requires totals.Keys == KnownLabels
    ensures CountObservation(totals, posture) != totals <==> ParsePosture(posture) != Unknown
  {
    var key := Text.Lower(posture);
    if key in totals {
      assert CountObservation(totals, posture)[key] != totals[key];
    }
  }

  /** Counts every observation of a sequence, in order. */
  function CountAll(totals: map<string, int>, postures: seq<string>): (r: map<string, int>)
    ensures r.Keys == totals.Keys
    decreases |postures|
  {
    if postures == [] then totals
    else CountAll(CountObservation(totals, postures[0]), postures[1..])
  }

  /** How many of the postures lower-case to `key`. */
  function Occurrences(postures: seq<string>, key: string): nat
    decreases |postures|
  {
    if postures == [] then 0
    else (if Text.Lower(postures[0]) == key then 1 else 0) + Occurrences(postures[1..], key)
  }

  /**
    After a run of observations each slot has grown by exactly the number of
    observations of its label: the totals are counts, not durations.
  */
  lemma {:induction false} CountAllCounts(totals: map<string, int>, postures: seq<string>, key: string)
    requires key in totals
    ensures CountAll(totals, postures)[key] == totals[key] + Occurrences(postures, key)
    decreases |postures|
  {
    if postures != [] {
      CountAllCounts(CountObservation(totals, postures[0]), postures[1..], key);
    }
  }

  /** Session length reported at stop: whole seconds, Kotlin `Long` division (truncating). */
  function SessionDurationSeconds(startTime: int, now: int): (seconds: int)
    ensures now >= startTime ==> seconds >= 0 && seconds * 1000 <= now - startTime < (seconds + 1) * 1000
    ensures now < startTime ==> seconds <= 0 && (seconds - 1) * 1000 < now - startTime <= seconds * 1000
  {
    Arith.TruncDiv(now - startTime, 1000)
  }

  class MainActivity {
    var isMonitoring: bool
    var currentSession: PostureSession?

    /** The toggle keeps the flag and the session in step. */
    ghost predicate Valid()
      reads this
    {
      isMonitoring <==> currentSession != null
    }

    constructor ()
      ensures Valid() && !isMonitoring && currentSession == null
    {
      isMonitoring := false;
      currentSession := null;
    }

    /**
      The start button's click listener. `now` is the wall clock and
      `newSessionId` the generated id; returns the duration shown when a
      session is stopped.
    */
    method OnStartButtonClick(now: int, newSessionId: string) returns (shownDuration: Option<int>)
      requires Valid()
      modifies this
      ensures Valid()
      ensures !old(isMonitoring) ==>
        && isMonitoring && currentSession != null && fresh(currentSession)
        && currentSession.sessionId == newSessionId && currentSession.startTime == now
        && currentSession.endTime == None && currentSession.totalPostures == ZeroTotals()
        && shownDuration == None
      ensures old(isMonitoring) ==>
        && !isMonitoring && currentSession == null
        && shownDuration == Some(SessionDurationSeconds(old(currentSession).startTime, now))
    {
      if !isMonitoring {
        StartMonitoring(now, newSessionId);
        shownDuration := None;
      } else {
        shownDuration := StopMonitoring(now);
      }
    }

    method StartMonitoring(now: int, newSessionId: string)
      modifies this
      ensures Valid()
      ensures isMonitoring && currentSession != null && fresh(currentSession)
      ensures currentSession.sessionId == newSessionId && currentSession.startTime == now
      ensures currentSession.endTime == None && currentSession.totalPostures == ZeroTotals()
    {
      currentSession := new PostureSession(newSessionId, now);
      isMonitoring := true;
    }

    method StopMonitoring(now: int) returns (shownDuration: Option<int>)
      modifies this
      ensures Valid()
      ensures !isMonitoring && currentSession == null
      ensures shownDuration == if old(currentSession) != null
                               then Some(SessionDurationSeconds(old(currentSession).startTime, now))
                               else None
    {
      shownDuration := None;
      if currentSession != null {
        shownDuration := Some(SessionDurationSeconds(currentSession.startTime, now));
      }
      isMonitoring := false;
      currentSession := null;
    }

    /** The analyzer callback followed by `sendPoseDataToBackend`: whether the landmarks are sent. */
    method OnPoseDetected(landmarks: array<real>) returns (forwarded: bool)
      ensures forwarded <==> isMonitoring && currentSession != null
    {
      forwarded := false;
      if isMonitoring {
        if currentSession != null {
          forwarded := true;
        }
      }
    }

    /** `updateSessionStats`: counts one observation into the current session, if any. */
    method UpdateSessionStats(posture: string)
      modifies currentSession
      ensures currentSession != null ==>
        currentSession.totalPostures == CountObservation(old(currentSession.totalPostures), posture)
    {
      if currentSession != null {
        var normalizedPosture := Text.Lower(posture);
        if normalizedPosture in currentSession.totalPostures {
          currentSession.totalPostures :=
            currentSession.totalPostures[normalizedPosture := currentSession.totalPostures[normalizedPosture] + 1];
        }
      }
    }

    /** The reply callback: shows the category and counts the observation. */
    method OnPostureReceived(posture: string) returns (shownText: string)
      modifies currentSession
      ensures shownText == PostureText(posture)
      ensures currentSession != null ==>
        currentSession.totalPostures == CountObservation(old(currentSession.totalPostures), posture)
    {
      shownText := PostureText(posture);
      UpdateSessionStats(posture);
    }
  }
}
