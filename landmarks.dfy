/**
 * Shaping detector output into id-indexed landmark lists. A detected
 * subject (a hand, a face, a pose) is the detector's sequence of landmarks;
 * the conversion of a landmark's fractional position to pixels,
 * `int(landmark.x * imageW)`, is taken as given, so each landmark arrives
 * with its pixel coordinates. The scripts turn landmark number k into the
 * tuple (k, x, y).
 */
module Landmarks {
  import opened Wrappers
  import opened Drawing

  /** A detector landmark with the pixel coordinates its frame size gives it. */
  datatype Landmark = Landmark(px: int, py: int)

  /** The tuple `(id, x, y)` the scripts build. */
  datatype Point = Point(id: int, x: int, y: int)

  type Subject = seq<Landmark>

  /** A frame together with what the detector reports for it. */
  datatype Frame<D> = Frame(image: Image, detected: D)

  /** `points` lists the landmarks of `subject` in order, the k-th with id k. */
  predicate ShapedFrom(points: seq<Point>, subject: Subject) {
    |points| == |subject| &&
    forall k :: 0 <= k < |points| ==> points[k] == Point(k, subject[k].px, subject[k].py)
  }

  /** At most one list is shaped from a subject. */
  lemma ShapedFromUnique(p: seq<Point>, q: seq<Point>, subject: Subject)
    requires ShapedFrom(p, subject) && ShapedFrom(q, subject)
    ensures p == q
  {
  }

  /** The inner loop `for ind, landmark in enumerate(...): hand.append((ind, x, y))`. */
  method Shape(subject: Subject) returns (points: seq<Point>)
    ensures ShapedFrom(points, subject)
  {
    points := [];
    var k := 0;
    while k < |subject|
      invariant 0 <= k <= |subject|
      invariant ShapedFrom(points, subject[..k])
    {
      points := points + [Point(k, subject[k].px, subject[k].py)];
      k := k + 1;
    }
    assert subject[..k] == subject;
  }

  const POSITION_COLOR: Color := Color(255, 0, 0)

  /** The filled radius-5 circles `findLandmarksPositions` draws, one per position. */
  function PositionCircles(points: seq<Point>): (r: Image)
    ensures |r| == |points|
    ensures forall k :: 0 <= k < |points| ==>
      r[k] == Circle(Coord(points[k].x, points[k].y), 5, POSITION_COLOR, FILLED)
  {
    if points == [] then []
    else
      var last := points[|points| - 1];
      PositionCircles(points[..|points| - 1]) + [Circle(Coord(last.x, last.y), 5, POSITION_COLOR, FILLED)]
  }

  /**
   * `findLandmarksPositions`: one (id, x, y) per landmark, with id equal to
   * its position; None or an empty list give []. With `draw`, each position
   * is also marked by a circle; the positions do not depend on `draw`.
   */
  method FindLandmarksPositions(image: Image, landmarks: Option<Subject>, draw: bool := true)
    returns (image': Image, positions: seq<Point>)
    ensures landmarks.None? ==> positions == []
    ensures landmarks.Some? ==> ShapedFrom(positions, landmarks.value)
    ensures image' == image + (if draw then PositionCircles(positions) else [])
  {
    positions := [];
    image' := image;
    if landmarks.Some? && landmarks.value != [] {
      var subject := landmarks.value;
      var k := 0;
      while k < |subject|
        invariant 0 <= k <= |subject|
        invariant ShapedFrom(positions, subject[..k])
        invariant image' == image + (if draw then PositionCircles(positions) else [])
      {
        var point := Point(k, subject[k].px, subject[k].py);
        positions := positions + [point];
        assert positions[..|positions| - 1] == positions[..k];
        if draw {
          image' := image' + [Circle(Coord(point.x, point.y), 5, POSITION_COLOR, FILLED)];
        }
        k := k + 1;
      }
      assert subject[..k] == subject;
    }
  }
}
