/**
  The wire layout of a pose: landmark positions flattened into one list of
  numbers `[x0, y0, x1, y1, ...]`. The capture client writes it
  (`PoseAnalyzer.analyze`), the mobile helper `convertToLandmarks` and the
  backend's coordinate loop read it back two values at a time.
*/
module FlatLayout {

  /** The (x, y) position of one landmark. */
  datatype Point = Point(x: real, y: real)

  /** Writes each point as two consecutive values, in order. */
  function Flattened(ps: seq<Point>): (s: seq<real>)
    ensures |s| == 2 * |ps|
    ensures forall i :: 0 <= i < |ps| ==> s[2 * i] == ps[i].x && s[2 * i + 1] == ps[i].y
  {
    if ps == [] then [] else [ps[0].x, ps[0].y] + Flattened(ps[1..])
  }

  /** Reads consecutive values two at a time; a trailing odd value is dropped. */
  function Pairs(s: seq<real>): (ps: seq<Point>)
    ensures |ps| == |s| / 2
    ensures forall k :: 0 <= k < |ps| ==> ps[k] == Point(s[2 * k], s[2 * k + 1])
  {
    if |s| < 2 then [] else [Point(s[0], s[1])] + Pairs(s[2..])
  }

  /** Pairing recovers every point that was flattened, in order. */
  lemma PairsOfFlattened(ps: seq<Point>)
    ensures Pairs(Flattened(ps)) == ps
  {
    var back := Pairs(Flattened(ps));
    assert |back| == |ps|;
    forall k | 0 <= k < |ps|
      ensures back[k] == ps[k]
    {
    }
  }

  /** Flattening the pairs gives back the input with any trailing odd value cut off. */
  lemma {:induction false} FlattenedOfPairs(s: seq<real>)
    ensures Flattened(Pairs(s)) == s[..2 * (|s| / 2)]
    decreases |s|
  {
    if |s| >= 2 {
      var ps := Pairs(s);
      assert ps == [Point(s[0], s[1])] + Pairs(s[2..]);
      assert ps[1..] == Pairs(s[2..]);
      FlattenedOfPairs(s[2..]);
      assert Flattened(ps) == [s[0], s[1]] + s[2..][..2 * ((|s| - 2) / 2)];
      assert (|s| - 2) / 2 == |s| / 2 - 1;
    }
  }
}
