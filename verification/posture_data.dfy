/**
  The mobile client's data definitions: pose landmarks and their conversion
  from the flat wire layout, the JSON text of a pose message, a monitoring
  session with its per-label totals, and the posture categories with their
  display names.
*/
module PostureData {

  import opened Wrappers
  import opened FlatLayout
  import Text

  // ---------------------------------------------------------------------
  // Landmarks

  /** One landmark; `z` and `visibility` default to 0 and 1. */
  datatype PoseLandmark = PoseLandmark(x: real, y: real, z: real, visibility: real)

  /** A landmark built from a position alone takes the default depth and visibility. */
  function FromPoint(p: Point): (l: PoseLandmark)
  {
    PoseLandmark(p.x, p.y, 0.0, 1.0)
  }

  /** The landmarks `convertToLandmarks` builds from a flat array. */
  function LandmarksOf(s: seq<real>): (ls: seq<PoseLandmark>)
    ensures |ls| == |s| / 2
    ensures forall k :: 0 <= k < |ls| ==> ls[k] == PoseLandmark(s[2 * k], s[2 * k + 1], 0.0, 1.0)
  {
    var ps := Pairs(s);
    seq(|ps|, k requires 0 <= k < |ps| => FromPoint(ps[k]))
  }

  /** `convertToLandmarks`: pairs consecutive values of the array into landmarks. */
  method ConvertToLandmarks(landmarkArray: array<real>) returns (landmarks: seq<PoseLandmark>)
    ensures |landmarks| == landmarkArray.Length / 2
    ensures forall k :: 0 <= k < |landmarks| ==>
      landmarks[k] == PoseLandmark(landmarkArray[2 * k], landmarkArray[2 * k + 1], 0.0, 1.0)
    ensures landmarks == LandmarksOf(landmarkArray[..])
  {
    var n := landmarkArray.Length;
    landmarks := [];
    var i := 0;
    while i < n
      invariant i % 2 == 0 && 0 <= i <= n + 1
      invariant |landmarks| == (if i <= n then i else n) / 2
      invariant forall k :: 0 <= k < |landmarks| ==>
        2 * k + 1 < n && landmarks[k] == PoseLandmark(landmarkArray[2 * k], landmarkArray[2 * k + 1], 0.0, 1.0)
    {
      if i + 1 < n {
        landmarks := landmarks + [PoseLandmark(landmarkArray[i], landmarkArray[i + 1], 0.0, 1.0)];
      }
      i := i + 2;
    }
  }

  /** Flattening positions and converting them back yields one default landmark per position. */
  lemma LandmarksOfFlattened(ps: seq<Point>)
    ensures LandmarksOf(Flattened(ps)) == seq(|ps|, k requires 0 <= k < |ps| => FromPoint(ps[k]))
  {
    PairsOfFlattened(ps);
  }

  // ---------------------------------------------------------------------
  // Pose message text

  /** A pose message: capture time, flat landmark values, optional session. */
  datatype PoseData = PoseData(timestamp: int, landmarks: seq<real>, sessionId: Option<string>)

  /** The `sessionId` value: `null`, or the id between double quotes, unescaped. */
  function SessionIdJson(sessionId: Option<string>): (r: string)
    ensures sessionId.None? ==> r == "null"
    ensures sessionId.Some? ==>
              && |r| == |sessionId.value| + 2 && r[0] == '"' && r[|r| - 1] == '"'
              && r[1..|r| - 1] == sessionId.value
  {
    match sessionId
    case None => "null"
    case Some(id) => "\"" + id + "\""
  }

  /** Reads a `sessionId` value back. */
  function SessionIdFromJson(s: string): Option<string>
  {
    if s == "null" then None
    else if |s| >= 2 && s[0] == '"' && s[|s| - 1] == '"' then Some(s[1..|s| - 1])
    else None
  }

  lemma SessionIdRoundTrip(sessionId: Option<string>)
    ensures SessionIdFromJson(SessionIdJson(sessionId)) == sessionId
  {
  }

  /** Renders every value with `render` (the platform's float formatting). */
  function RenderAll(values: seq<real>, render: real -> string): (r: seq<string>)
    ensures |r| == |values|
    ensures forall i :: 0 <= i < |values| ==> r[i] == render(values[i])
  {
    seq(|values|, i requires 0 <= i < |values| => render(values[i]))
  }

  /** The text between the brackets of `"landmarks": [...]`. */
  function LandmarksJson(values: seq<real>, render: real -> string): string
  {
    Text.Join(RenderAll(values, render), ',')
  }

  // The fixed text around the three values after `trimIndent`.
  const JsonHead: string := "{\n    \"timestamp\": "
  const JsonLandmarksKey: string := ",\n    \"landmarks\": ["
  const JsonSessionKey: string := "],\n    \"sessionId\": "
  const JsonTail: string := "\n}"

  /**
    `PoseData.toJson`: a four-space-indented object after `trimIndent`;
    the float rendering is the parameter `render`.
  */
  function ToJson(d: PoseData, render: real -> string): (text: string)
    ensures |text| > |JsonHead| + |JsonTail| && text[..|JsonHead|] == JsonHead
    ensures var tail := SessionIdJson(d.sessionId) + JsonTail;
      |text| > |tail| && text[|text| - |tail|..] == tail
  {
    JsonHead + (Text.IntToDecimal(d.timestamp)
    + (JsonLandmarksKey + (LandmarksJson(d.landmarks, render)
    + (JsonSessionKey + SessionIdJson(d.sessionId) + JsonTail))))
  }

  /** What a reader finds in a pose message: the timestamp, each landmark value's text, the session. */
  datatype PoseFields = PoseFields(timestamp: int, landmarkTexts: seq<string>, sessionId: Option<string>)

  /** A `sessionId` value as `toJson` writes it: `null` or a quoted string. */
  predicate IsSessionIdJson(s: string)
  {
    s == "null" || (|s| >= 2 && s[0] == '"' && s[|s| - 1] == '"')
  }

  /**
    Reads the `toJson` layout: the timestamp runs to the first comma, the
    landmark list to the first `]`, and the session id to the closing line.
  */
  function ReadJson(text: string): Option<PoseFields>
  {
    if Text.StartsWith(text, JsonHead) then ReadTimestamp(text[|JsonHead|..]) else None
  }

  /** The rest of the text after the opening line. */
  function ReadTimestamp(s: string): Option<PoseFields>
  {
    var i := Text.IndexOfChar(s, ',');
    var timestamp := Text.ParseDecimal(s[..i]);
    var rest := s[i..];
    if timestamp.Some? && Text.StartsWith(rest, JsonLandmarksKey)
    then ReadLandmarks(timestamp.value, rest[|JsonLandmarksKey|..])
    else None
  }

  /** The rest of the text after the opening bracket of the landmark list. */
  function ReadLandmarks(timestamp: int, s: string): Option<PoseFields>
  {
    var j := Text.IndexOfChar(s, ']');
    var listText := s[..j];
    var rest := s[j..];
    if Text.StartsWith(rest, JsonSessionKey) && |rest| >= |JsonSessionKey| + |JsonTail|
       && rest[|rest| - |JsonTail|..] == JsonTail
    then
      var sessionText := rest[|JsonSessionKey|..|rest| - |JsonTail|];
      if IsSessionIdJson(sessionText) then
        var landmarkTexts := if listText == "" then [] else Text.Split(listText, ',');
        Some(PoseFields(timestamp, landmarkTexts, SessionIdFromJson(sessionText)))
      else None
    else None
  }

  lemma ReadTimestampOf(ts: string, n: int, rest: string)
    requires ',' !in ts && Text.ParseDecimal(ts) == Some(n)
    ensures ReadTimestamp(ts + (JsonLandmarksKey + rest)) == ReadLandmarks(n, rest)
  {
    var s := ts + (JsonLandmarksKey + rest);
    Text.IndexOfCharAt(ts, JsonLandmarksKey + rest, ',');
    assert s[..|ts|] == ts && s[|ts|..] == JsonLandmarksKey + rest;
  }

  lemma ReadLandmarksOf(n: int, listText: string, session: Option<string>)
    requires ']' !in listText
    ensures ReadLandmarks(n, listText + (JsonSessionKey + SessionIdJson(session) + JsonTail))
      == Some(PoseFields(n, if listText == "" then [] else Text.Split(listText, ','), session))
  {
    var sessionText := SessionIdJson(session);
    var rest := JsonSessionKey + sessionText + JsonTail;
    var s := listText + rest;
    Text.IndexOfCharAt(listText, rest, ']');
    assert s[..|listText|] == listText && s[|listText|..] == rest;
    assert rest[..|JsonSessionKey|] == JsonSessionKey;
    assert rest[|rest| - |JsonTail|..] == JsonTail;
    assert rest[|JsonSessionKey|..|rest| - |JsonTail|] == sessionText;
    SessionIdRoundTrip(session);
  }

  /** The landmark list of `toJson`: no `]`, and empty only for no landmarks. */
  lemma LandmarksJsonShape(values: seq<real>, render: real -> string)
    requires forall v :: render(v) != "" && ',' !in render(v) && ']' !in render(v)
    ensures ']' !in LandmarksJson(values, render)
    ensures LandmarksJson(values, render) == "" <==> values == []
    ensures values != [] ==> Text.Split(LandmarksJson(values, render), ',') == RenderAll(values, render)
  {
    var parts := RenderAll(values, render);
    forall i | 0 <= i < |parts|
      ensures ',' !in parts[i] && ']' !in parts[i]
    {
      var v := values[i];
      assert ',' !in render(v) && ']' !in render(v);
      assert parts[i] == render(v);
    }
    Text.JoinAvoids(parts, ',', ']');
    if values != [] {
      var v := values[0];
      assert render(v) != "";
      assert parts[0] == render(v);
      if |parts| > 1 {
        assert LandmarksJson(values, render) == parts[0] + [','] + Text.Join(parts[1..], ',');
      }
      Text.SplitJoin(parts, ',');
    }
  }

  /**
    `toJson` loses nothing a reader needs: the timestamp, each landmark
    value's rendering in order, and the session id all read back, as long as
    a rendered float is non-empty and holds no `,` or `]` (true of Kotlin's
    float formatting).
  */
  lemma ToJsonRoundTrip(d: PoseData, render: real -> string)
    requires forall v :: render(v) != "" && ',' !in render(v) && ']' !in render(v)
    ensures ReadJson(ToJson(d, render)) == Some(PoseFields(d.timestamp, RenderAll(d.landmarks, render), d.sessionId))
  {
    Text.DecimalAvoids(d.timestamp, ',');
    Text.DecimalRoundTrip(d.timestamp);
    LandmarksJsonShape(d.landmarks, render);
    ReadJsonOf(Text.IntToDecimal(d.timestamp), d.timestamp, LandmarksJson(d.landmarks, render), d.sessionId);
  }

  /** Reading the layout filled with a timestamp text, a list text and a session id. */
  lemma ReadJsonOf(ts: string, n: int, listText: string, session: Option<string>)
    requires ',' !in ts && Text.ParseDecimal(ts) == Some(n) && ']' !in listText
    ensures ReadJson(JsonHead + (ts + (JsonLandmarksKey + (listText + (JsonSessionKey + SessionIdJson(session) + JsonTail)))))
      == Some(PoseFields(n, if listText == "" then [] else Text.Split(listText, ','), session))
  {
    var afterKey := listText + (JsonSessionKey + SessionIdJson(session) + JsonTail);
    var afterHead := ts + (JsonLandmarksKey + afterKey);
    var text := JsonHead + afterHead;
    assert Text.StartsWith(text, JsonHead) && text[|JsonHead|..] == afterHead;
    ReadTimestampOf(ts, n, afterKey);
    ReadLandmarksOf(n, listText, session);
  }

  // ---------------------------------------------------------------------
  // Sessions

  /** The labels that have a slot in the per-session and dashboard totals. */
  const KnownLabels: set<string> := {"sitting", "standing", "lying"}

  /** Fresh totals: zero for each known label. */
  function ZeroTotals(): (m: map<string, int>)
    ensures m.Keys == KnownLabels
    ensures forall k :: k in m ==> m[k] == 0
  {
    map["sitting" := 0, "standing" := 0, "lying" := 0]
  }

  /** A monitoring session; `totalPostures` is updated in place by the activity. */
  class PostureSession {
    const sessionId: string
    const startTime: int
    const endTime: Option<int>
    var totalPostures: map<string, int>

    constructor (sessionId: string, startTime: int)
      ensures this.sessionId == sessionId && this.startTime == startTime
      ensures endTime == None
      ensures totalPostures == ZeroTotals()
    {
      this.sessionId := sessionId;
      this.startTime := startTime;
      this.endTime := None;
      this.totalPostures := ZeroTotals();
    }
  }

  // ---------------------------------------------------------------------
  // Posture categories

  datatype PostureType = Sitting | Standing | Lying | Unknown
  {
    /** The text shown to the user. */
    function DisplayName(): (name: string)
      ensures |name| > 0 && Text.IsUpperAscii(name[0])
    {
      match this
      case Sitting => "Sitting"
      case Standing => "Standing"
      case Lying => "Lying Down"
      case Unknown => "Unknown"
    }
  }

  /** No two categories share a display name. */
  lemma DisplayNamesDistinct(a: PostureType, b: PostureType)
    ensures a.DisplayName() == b.DisplayName() <==> a == b
  {
  }
}
