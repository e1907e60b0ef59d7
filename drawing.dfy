/**
 * Drawing, recorded rather than rasterised: an image is the sequence of
 * primitives drawn on it, in drawing order. Colours are OpenCV's BGR
 * triples; a thickness of FILLED is OpenCV's `cv2.FILLED`.
 */
module Drawing {

  datatype Color = Color(b: int, g: int, r: int)

  datatype Coord = Coord(x: int, y: int)

  /** An OpenCV rectangle given as (x, y, w, h). */
  datatype Box = Box(x: int, y: int, w: int, h: int)

  datatype Primitive =
    | Circle(center: Coord, radius: int, color: Color, thickness: int)
    | Line(from: Coord, to: Coord, color: Color, thickness: int)
    | Rectangle(corner1: Coord, corner2: Coord, color: Color, thickness: int)
    | BoxRectangle(box: Box, color: Color, thickness: int)
      /** `putText` of the label "<percent>%" in the plain Hershey font. */
    | ScoreLabel(origin: Coord, percent: int, fontScale: int, color: Color, thickness: int)
      /** The detector library's own drawing routine applied to subject number `subject`. */
    | DetectorOverlay(subject: int)
      /** Bitmap number `bitmap` of a script's asset list pasted into the top-left corner of the frame. */
    | Pasted(bitmap: int)

  type Image = seq<Primitive>

  const FILLED: int := -1

  /** The library overlays for subjects 0 .. n-1, in that order. */
  function DetectorOverlays(n: nat): (r: Image)
    ensures |r| == n
    ensures forall i :: 0 <= i < n ==> r[i] == DetectorOverlay(i)
  {
    if n == 0 then [] else DetectorOverlays(n - 1) + [DetectorOverlay(n - 1)]
  }

  datatype Corner = TopLeft | TopRight | BottomRight | BottomLeft

  /** The order in which `customDraw` visits the corners. */
  const CORNER_ORDER: seq<Corner> := [TopLeft, TopRight, BottomRight, BottomLeft]

  /** Where a corner of the box lies; the far edges are at x + w and y + h. */
  function CornerAt(box: Box, c: Corner): Coord {
    match c
    case TopLeft => Coord(box.x, box.y)
    case TopRight => Coord(box.x + box.w, box.y)
    case BottomRight => Coord(box.x + box.w, box.y + box.h)
    case BottomLeft => Coord(box.x, box.y + box.h)
  }

  /** The horizontal direction that points from a corner into the box. */
  function InwardX(c: Corner): int {
    if c == TopLeft || c == BottomLeft then 1 else -1
  }

  /** The vertical direction that points from a corner into the box. */
  function InwardY(c: Corner): int {
    if c == TopLeft || c == TopRight then 1 else -1
  }

  /**
   * `customDraw`: the box outline, then for each corner in CORNER_ORDER a
   * horizontal and then a vertical segment of `cornerMarkerLength` that
   * starts at the corner and runs into the box.
   */
  function CornerMarkers(box: Box, color: Color, cornerMarkerLength: int := 30,
                         cornerMarkerThickness: int := 10, rectangleThickness: int := 1): (r: Image)
    ensures |r| == 9
    ensures r[0] == BoxRectangle(box, color, rectangleThickness)
    ensures forall c :: 0 <= c < 4 ==>
      var p := CornerAt(box, CORNER_ORDER[c]);
      && r[2 * c + 1] == Line(p, Coord(p.x + InwardX(CORNER_ORDER[c]) * cornerMarkerLength, p.y), color, cornerMarkerThickness)
      && r[2 * c + 2] == Line(p, Coord(p.x, p.y + InwardY(CORNER_ORDER[c]) * cornerMarkerLength), color, cornerMarkerThickness)
  {
    var xStart, yStart := box.x, box.y;
    var xEnd, yEnd := xStart + box.w, yStart + box.h;
    var l := cornerMarkerLength;
    var t := cornerMarkerThickness;
    [ BoxRectangle(box, color, rectangleThickness),
      Line(Coord(xStart, yStart), Coord(xStart + l, yStart), color, t),
      Line(Coord(xStart, yStart), Coord(xStart, yStart + l), color, t),
      Line(Coord(xEnd, yStart), Coord(xEnd - l, yStart), color, t),
      Line(Coord(xEnd, yStart), Coord(xEnd, yStart + l), color, t),
      Line(Coord(xEnd, yEnd), Coord(xEnd - l, yEnd), color, t),
      Line(Coord(xEnd, yEnd), Coord(xEnd, yEnd - l), color, t),
      Line(Coord(xStart, yEnd), Coord(xStart + l, yEnd), color, t),
      Line(Coord(xStart, yEnd), Coord(xStart, yEnd - l), color, t) ]
  }

  /** A segment that is horizontal or vertical and spans `length` pixels. */
  predicate AxisAlignedOfLength(p: Primitive, length: int)
    requires p.Line?
  {
    (p.from.y == p.to.y && (p.to.x - p.from.x == length || p.from.x - p.to.x == length)) ||
    (p.from.x == p.to.x && (p.to.y - p.from.y == length || p.from.y - p.to.y == length))
  }

  /** The point lies in the closed box [x, x + w] x [y, y + h]. */
  predicate InsideBox(p: Coord, box: Box) {
    box.x <= p.x <= box.x + box.w && box.y <= p.y <= box.y + box.h
  }

  /**
   * The eight marker segments are axis-aligned, of the marker length, and
   * when the marker fits in the box (0 <= length <= w, h) both ends of every
   * segment lie inside the box: they point inward.
   */
  lemma CornerMarkersPointInward(box: Box, color: Color, l: int, t: int, rt: int)
    ensures var r := CornerMarkers(box, color, l, t, rt);
      forall j :: 1 <= j < 9 ==> r[j].Line? && AxisAlignedOfLength(r[j], l)
    ensures 0 <= l <= box.w && l <= box.h ==>
      var r := CornerMarkers(box, color, l, t, rt);
      forall j :: 1 <= j < 9 ==> InsideBox(r[j].from, box) && InsideBox(r[j].to, box)
  {
    var r := CornerMarkers(box, color, l, t, rt);
    forall j | 1 <= j < 9
      ensures r[j].Line? && AxisAlignedOfLength(r[j], l)
      ensures 0 <= l <= box.w && l <= box.h ==> InsideBox(r[j].from, box) && InsideBox(r[j].to, box)
    {
      var c := (j - 1) / 2;
      assert j == 2 * c + 1 || j == 2 * c + 2;
    }
  }

  /**
   * `customDraw(img, boundingBox, ...)` of a script whose annotation colour
   * is `color`: the frame gains the box outline and then eight marker
   * segments of that colour and thickness, each axis-aligned and of the
   * marker length.
   */
  function CustomDraw(image: Image, box: Box, color: Color, cornerMarkerLength: int := 30,
                      cornerMarkerThickness: int := 10, rectangleThickness: int := 1): (r: Image)
    ensures |r| == |image| + 9 && r[..|image|] == image
    ensures r[|image|] == BoxRectangle(box, color, rectangleThickness)
    ensures forall j :: |image| < j < |r| ==>
      r[j].Line? && r[j].color == color && r[j].thickness == cornerMarkerThickness &&
      AxisAlignedOfLength(r[j], cornerMarkerLength)
  {
    CornerMarkersPointInward(box, color, cornerMarkerLength, cornerMarkerThickness, rectangleThickness);
    image + CornerMarkers(box, color, cornerMarkerLength, cornerMarkerThickness, rectangleThickness)
  }
}
