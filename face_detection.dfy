/**
 * src/modules/faceDetection.py: numbering the detector's face boxes, the
 * corner-marker annotation, the per-frame loop and the output names.
 */
module FaceDetection {
  import opened Drawing
  import opened Landmarks
  import opened FileTypes
  import opened OutputNames
  import opened Strings

  const ANNOTATION_COLOR: Color := Color(157, 155, 24)

  /**
   * One detection as the detector reports it for a frame: its bounding box
   * already scaled to pixels, its score list, and `int(score[0] * 100)`.
   */
  datatype Detection = Detection(box: Box, score: seq<real>, percent: int)

  /** The tuple `(id, boundingBox, detectionScore)`. */
  datatype FaceBox = FaceBox(id: int, box: Box, score: seq<real>)

  /** The score label: "<percent>%" 20 pixels above the box's top-left corner. */
  function Label(d: Detection): (p: Primitive)
    ensures p.ScoreLabel? && p.origin == Coord(d.box.x, d.box.y - 20) && p.percent == d.percent
  {
    ScoreLabel(Coord(d.box.x, d.box.y - 20), d.percent, 2, ANNOTATION_COLOR, 2)
  }

  /** What drawing adds for each detection, in order: `customDraw`'s corner markers, then its score label. */
  function Annotations(image: Image, ds: seq<Detection>): (r: Image)
    ensures |r| == |image| + 10 * |ds|
    ensures r[..|image|] == image
  {
    if ds == [] then image
    else
      var last := ds[|ds| - 1];
      CustomDraw(Annotations(image, ds[..|ds| - 1]), last.box, ANNOTATION_COLOR) + [Label(last)]
  }

  /** Detection number i contributes exactly the ten primitives starting at |image| + 10 i. */
  lemma {:induction false} AnnotationsBlock(image: Image, ds: seq<Detection>, i: int)
    requires 0 <= i < |ds|
    ensures var r := Annotations(image, ds);
      var at := |image| + 10 * i;
      r[at..at + 10] == CornerMarkers(ds[i].box, ANNOTATION_COLOR) + [Label(ds[i])]
  {
    var prev := Annotations(image, ds[..|ds| - 1]);
    var r := Annotations(image, ds);
    var last := ds[|ds| - 1];
    assert r == prev + CornerMarkers(last.box, ANNOTATION_COLOR) + [Label(last)];
    if i < |ds| - 1 {
      AnnotationsBlock(image, ds[..|ds| - 1], i);
      var at := |image| + 10 * i;
      assert r[at..at + 10] == prev[at..at + 10];
    } else {
      assert |prev| == |image| + 10 * i;
    }
  }

  /** Drawing one more detection extends the annotations by its markers and label. */
  lemma AnnotationsStep(image: Image, ds: seq<Detection>, i: int)
    requires 0 <= i < |ds|
    ensures Annotations(image, ds[..i + 1]) ==
      CustomDraw(Annotations(image, ds[..i]), ds[i].box, ANNOTATION_COLOR) + [Label(ds[i])]
  {
    assert ds[..i + 1][..i] == ds[..i];
  }

  /** What `findFace` returns for a frame whose detections are `ds`. */
  predicate FoundFaces(image: Image, ds: seq<Detection>, draw: bool, image': Image, boxes: seq<FaceBox>) {
    && |boxes| == |ds|
    && (forall i :: 0 <= i < |ds| ==> boxes[i] == FaceBox(i, ds[i].box, ds[i].score))
    && image' == (if draw then Annotations(image, ds) else image)
  }

  /** Without detections the list is empty and the frame untouched. */
  lemma NoDetectionNoFaces(image: Image, draw: bool, image': Image, boxes: seq<FaceBox>)
    requires FoundFaces(image, [], draw, image', boxes)
    ensures boxes == [] && image' == image
  {
  }

  /** The face list does not depend on `draw`; the ids are 0 .. n-1 with no cap. */
  lemma FoundFacesIgnoresDraw(image: Image, ds: seq<Detection>, image1: Image, boxes1: seq<FaceBox>,
                              image2: Image, boxes2: seq<FaceBox>)
    requires FoundFaces(image, ds, true, image1, boxes1) && FoundFaces(image, ds, false, image2, boxes2)
    ensures boxes1 == boxes2 && image2 == image
    ensures forall i :: 0 <= i < |boxes1| ==> boxes1[i].id == i
  {
  }

  /** `FaceDetector.findFace`, with the frame's detections given as `ds` (empty when there are none). */
  method FindFace(image: Image, ds: seq<Detection>, draw: bool := true) returns (image': Image, boxes: seq<FaceBox>)
    ensures FoundFaces(image, ds, draw, image', boxes)
  {
    image' := image;
    boxes := [];
    var ind := 0;
    while ind < |ds|
      invariant 0 <= ind <= |ds|
      invariant |boxes| == ind
      invariant forall i :: 0 <= i < ind ==> boxes[i] == FaceBox(i, ds[i].box, ds[i].score)
      invariant image' == (if draw then Annotations(image, ds[..ind]) else image)
    {
      var detection := ds[ind];
      boxes := boxes + [FaceBox(ind, detection.box, detection.score)];
      if draw {
        AnnotationsStep(image, ds, ind);
        image' := CustomDraw(image', detection.box, ANNOTATION_COLOR);
        image' := image' + [ScoreLabel(Coord(detection.box.x, detection.box.y - 20), detection.percent, 2, ANNOTATION_COLOR, 2)];
      }
      ind := ind + 1;
    }
    assert ds[..ind] == ds;
  }

  /** `findFaceInFrames`: one `findFace` result per frame, in frame order. */
  method FindFaceInFrames(frames: seq<Frame<seq<Detection>>>, draw: bool := true)
    returns (res: seq<(Image, seq<FaceBox>)>)
    ensures |res| == |frames|
    ensures forall i :: 0 <= i < |frames| ==>
      FoundFaces(frames[i].image, frames[i].detected, draw, res[i].0, res[i].1)
  {
    res := [];
    var i := 0;
    while i < |frames|
      invariant 0 <= i <= |frames|
      invariant |res| == i
      invariant forall j :: 0 <= j < i ==>
        FoundFaces(frames[j].image, frames[j].detected, draw, res[j].0, res[j].1)
    {
      var image', boxes := FindFace(frames[i].image, frames[i].detected, draw);
      res := res + [(image', boxes)];
      i := i + 1;
    }
  }

  /** `main`'s output names: the direct layout under out/face/, classified by src/modules/utils.py. */
  function OutputPlan(filename: string): (p: Plan)
    ensures p.Unsupported? <==> CheckFileType(filename) == Other
    ensures p.WriteImage? <==> CheckFileType(filename) == Image
    ensures p.WriteVideo? <==> CheckFileType(filename) == Video
    ensures p.WriteImage? ==> p.path == CategoryDir("face") + BaseName(filename)
    ensures p.WriteVideo? ==>
      && p.buffer == CategoryDir("face") + BUFFER_PREFIX + BaseName(filename)
      && p.muxed == CategoryDir("face") + BaseName(filename)
      && ReplaceFirst(p.buffer, BUFFER_PREFIX, "") == p.muxed
  {
    var kind := CheckFileType(filename);
    assert 'b' !in "face";
    DirectPlanNames("face", kind, filename);
    DirectPlan("face", kind, filename)
  }
}
