/**
  The backend's handling of one pose message from the capture client:
  pairing the flat landmark list into coordinates, the two error replies,
  the rule-based posture decision, the reply and the dashboard update; and
  the connection manager's lists of open sockets.
  Coordinates are `real`s: the decision is modelled over exact arithmetic.
*/
module Backend {

  import opened Wrappers
  import opened FlatLayout

  /** The number of pose landmarks the decision rule needs. */
  const RequiredPairs: int := 25

  /** The frame height the y coordinates are divided by. */
  const ImageHeight: real := 1920.0

  /** `for i in range(0, len(landmarks), 2)`: pairs the flat list into coordinates. */
  method PairCoords(landmarks: seq<real>) returns (coords: seq<Point>)
    ensures |coords| == |landmarks| / 2
    ensures forall k :: 0 <= k < |coords| ==> coords[k] == Point(landmarks[2 * k], landmarks[2 * k + 1])
    ensures coords == Pairs(landmarks)
  {
    coords := [];
    var i := 0;
    while i < |landmarks|
      invariant i % 2 == 0 && 0 <= i <= |landmarks| + 1
      invariant |coords| == (if i <= |landmarks| then i else |landmarks|) / 2
      invariant forall k :: 0 <= k < |coords| ==>
        2 * k + 1 < |landmarks| && coords[k] == Point(landmarks[2 * k], landmarks[2 * k + 1])
    {
      if i + 1 < |landmarks| {
        coords := coords + [Point(landmarks[i], landmarks[i + 1])];
      }
      i := i + 2;
    }
  }

  /** The decision rule: lying for a short torso, else by hip height. */
  function Classify(torsoLength: real, hipY: real): (posture: string)
    ensures posture == "lying" <==> torsoLength < 0.05
    ensures posture == "standing" <==> torsoLength >= 0.05 && hipY < 0.4
    ensures posture == "sitting" <==> torsoLength >= 0.05 && hipY >= 0.4
  {
    if torsoLength < 0.05 then "lying"
    else if hipY > 0.6 then "sitting"
    else if hipY < 0.4 then "standing"
    else "sitting"
  }

  /** The decision never yields `unknown`. */
  lemma ClassifyIsKnown(torsoLength: real, hipY: real)
    ensures Classify(torsoLength, hipY) in {"lying", "sitting", "standing"}
  {
  }

  function RealAbs(r: real): real
  {
    if r < 0.0 then -r else r
  }

  /** Mean normalised height of the hips (landmarks 23 and 24). */
  function HipY(coords: seq<Point>): (hipY: real)
    requires |coords| >= RequiredPairs
    ensures hipY * 2.0 * ImageHeight == coords[23].y + coords[24].y
    ensures coords[23].y <= coords[24].y ==> coords[23].y / ImageHeight <= hipY <= coords[24].y / ImageHeight
    ensures coords[24].y <= coords[23].y ==> coords[24].y / ImageHeight <= hipY <= coords[23].y / ImageHeight
  {
    (coords[23].y / ImageHeight + coords[24].y / ImageHeight) / 2.0
  }

  /** Mean normalised height of the shoulders (landmarks 11 and 12). */
  function ShoulderY(coords: seq<Point>): (shoulderY: real)
    requires |coords| >= RequiredPairs
    ensures shoulderY * 2.0 * ImageHeight == coords[11].y + coords[12].y
    ensures coords[11].y <= coords[12].y ==> coords[11].y / ImageHeight <= shoulderY <= coords[12].y / ImageHeight
    ensures coords[12].y <= coords[11].y ==> coords[12].y / ImageHeight <= shoulderY <= coords[11].y / ImageHeight
  {
    (coords[11].y / ImageHeight + coords[12].y / ImageHeight) / 2.0
  }

  /** Vertical distance between shoulders and hips. */
  function TorsoLength(coords: seq<Point>): (length: real)
    requires |coords| >= RequiredPairs
    ensures length >= 0.0
    ensures length == ShoulderY(coords) - HipY(coords) || length == HipY(coords) - ShoulderY(coords)
  {
    RealAbs(ShoulderY(coords) - HipY(coords))
  }

  /**
    The posture of a pose with enough landmarks, restated in pixels: lying
    when the shoulder and hip y-sums differ by less than 192 (0.05 of twice
    the frame height), otherwise standing when the hip y-sum is below 1536
    (0.4 of twice the frame height) and sitting when it is not.
  */
  function PostureOf(coords: seq<Point>): (posture: string)
    requires |coords| >= RequiredPairs
    ensures var d := (coords[11].y + coords[12].y) - (coords[23].y + coords[24].y);
      posture == "lying" <==> -192.0 < d < 192.0
    ensures var d := (coords[11].y + coords[12].y) - (coords[23].y + coords[24].y);
      posture == "standing" <==> (d <= -192.0 || 192.0 <= d) && coords[23].y + coords[24].y < 1536.0
    ensures var d := (coords[11].y + coords[12].y) - (coords[23].y + coords[24].y);
      posture == "sitting" <==> (d <= -192.0 || 192.0 <= d) && coords[23].y + coords[24].y >= 1536.0
  {
    Classify(TorsoLength(coords), HipY(coords))
  }

  /** An incoming message: the `landmarks` key (if present) and the `timestamp` key (if present). */
  datatype Message = Message(landmarks: Option<seq<real>>, timestamp: Option<int>)

  /** The reply sent back to the capture client. */
  datatype Reply =
    | Classified(timestamp: Option<int>, posture: string, confidence: string)
    | Failed(reportedPosture: Option<string>, error: string)  // `reportedPosture` is the optional "posture" key

  /** The `posture_update` message sent to every dashboard. */
  datatype DashboardUpdate = DashboardUpdate(posture: string, timestamp: Option<int>)

  /**
    One iteration of the capture endpoint's receive loop: the reply and,
    for a classified pose, the update to broadcast.
  */
  method HandleMessage(message: Message) returns (reply: Reply, broadcast: Option<DashboardUpdate>)
    ensures message.landmarks.None? ==>
      reply == Failed(None, "No landmarks in data") && broadcast == None
    ensures message.landmarks.Some? && |message.landmarks.value| < 2 * RequiredPairs ==>
      reply == Failed(Some("unknown"), "Insufficient landmarks") && broadcast == None
    ensures message.landmarks.Some? && |message.landmarks.value| >= 2 * RequiredPairs ==>
      var coords := Pairs(message.landmarks.value);
      && |coords| >= RequiredPairs
      && reply == Classified(message.timestamp, PostureOf(coords), "high")
      && broadcast == Some(DashboardUpdate(PostureOf(coords), message.timestamp))
    ensures broadcast.Some? <==> reply.Classified?
    ensures broadcast.Some? ==>
      && broadcast.value.posture == reply.posture && broadcast.value.timestamp == reply.timestamp
      && reply.posture in {"lying", "sitting", "standing"}
  {
    if message.landmarks.Some? {
      var coords := PairCoords(message.landmarks.value);
      if |coords| >= RequiredPairs {
        var posture := PostureOf(coords);
        ClassifyIsKnown(TorsoLength(coords), HipY(coords));
        reply := Classified(message.timestamp, posture, "high");
        broadcast := Some(DashboardUpdate(posture, message.timestamp));
      } else {
        reply := Failed(Some("unknown"), "Insufficient landmarks");
        broadcast := None;
      }
    } else {
      reply := Failed(None, "No landmarks in data");
      broadcast := None;
    }
  }

  // ---------------------------------------------------------------------
  // Connection manager

  /** An open socket, compared by identity. */
  type SocketId = nat

  /** The position of the first occurrence of `x` in `s`. */
  function IndexOf(s: seq<SocketId>, x: SocketId): (i: nat)
    requires x in s
    ensures i < |s| && s[i] == x && x !in s[..i]
    decreases |s|
  {
    if s[0] == x then 0
    else
      var i := 1 + IndexOf(s[1..], x);
      assert s[..i] == [s[0]] + s[1..][..i - 1];
      i
  }

  /** `list.remove(x)`: drops the first occurrence of `x`, if any, keeping the order of the rest. */
  function RemoveFirst(s: seq<SocketId>, x: SocketId): (r: seq<SocketId>)
    ensures x !in s ==> r == s
    ensures x in s ==> r == s[..IndexOf(s, x)] + s[IndexOf(s, x) + 1..]
    decreases |s|
  {
    if s == [] then []
    else if s[0] == x then s[1..]
    else
      var rest := RemoveFirst(s[1..], x);
      assert s == [s[0]] + s[1..];
      [s[0]] + rest
  }

  /** Removing takes out exactly one copy of a present socket, and nothing else. */
  lemma {:induction false} RemoveFirstMultiset(s: seq<SocketId>, x: SocketId)
    ensures multiset(RemoveFirst(s, x)) == multiset(s) - multiset{x}
    decreases |s|
  {
    if s != [] {
      assert s == [s[0]] + s[1..];
      if s[0] != x {
        RemoveFirstMultiset(s[1..], x);
        assert RemoveFirst(s, x) == [s[0]] + RemoveFirst(s[1..], x);
      }
    }
  }

  /** Connecting a new socket and then disconnecting it restores the list. */
  lemma DisconnectUndoesConnect(s: seq<SocketId>, x: SocketId)
    requires x !in s
    ensures RemoveFirst(s + [x], x) == s
  {
  }

  class ConnectionManager {
    var androidConnections: seq<SocketId>
    var dashboardConnections: seq<SocketId>

    constructor ()
      ensures androidConnections == [] && dashboardConnections == []
    {
      androidConnections := [];
      dashboardConnections := [];
    }

    method ConnectAndroid(websocket: SocketId)
      modifies this
      ensures androidConnections == old(androidConnections) + [websocket]
      ensures dashboardConnections == old(dashboardConnections)
    {
      androidConnections := androidConnections + [websocket];
    }

    method ConnectDashboard(websocket: SocketId)
      modifies this
      ensures dashboardConnections == old(dashboardConnections) + [websocket]
      ensures androidConnections == old(androidConnections)
    {
      dashboardConnections := dashboardConnections + [websocket];
    }

    method DisconnectAndroid(websocket: SocketId)
      modifies this
      ensures androidConnections == RemoveFirst(old(androidConnections), websocket)
      ensures websocket !in old(androidConnections) ==> androidConnections == old(androidConnections)
      ensures dashboardConnections == old(dashboardConnections)
    {
      if websocket in androidConnections {
        androidConnections := RemoveFirst(androidConnections, websocket);
      }
    }

    method DisconnectDashboard(websocket: SocketId)
      modifies this
      ensures dashboardConnections == RemoveFirst(old(dashboardConnections), websocket)
      ensures websocket !in old(dashboardConnections) ==> dashboardConnections == old(dashboardConnections)
      ensures androidConnections == old(androidConnections)
    {
      if websocket in dashboardConnections {
        dashboardConnections := RemoveFirst(dashboardConnections, websocket);
      }
    }

    /** `broadcast_to_dashboards`: the sockets sent to, in list order (send failures are ignored). */
    method BroadcastRecipients() returns (sentTo: seq<SocketId>)
      ensures sentTo == dashboardConnections
    {
      sentTo := [];
      var i := 0;
      while i < |dashboardConnections|
        invariant 0 <= i <= |dashboardConnections|
        invariant sentTo == dashboardConnections[..i]
      {
        sentTo := sentTo + [dashboardConnections[i]];
        i := i + 1;
      }
    }
  }
}
