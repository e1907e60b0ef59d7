/**
 * The top-level faceDetection.py: an older face detector that hands the
 * detector's detections back untouched, its per-frame loop, and
 * buffer-layout output names classified by the older top-level utils.py.
 * Its `findLandmarksPositions` is Landmarks.FindLandmarksPositions.
 */
module LegacyFaceDetection {
  import opened Drawing
  import opened Landmarks
  import opened OutputNames
  import FileTypes
  import LegacyFileTypes

  /**
   * `FaceDetector.findFace`, with the frame's detections given as
   * `detections` (empty when there are none): they come back unchanged;
   * with `draw`, the library draws each one.
   */
  function FindFace<D>(image: Image, detections: seq<D>, draw: bool := true): (r: (Image, seq<D>))
    ensures r.1 == detections
    ensures |r.0| == |image| + (if draw then |detections| else 0) && r.0[..|image|] == image
    ensures draw ==> r.0[|image|..] == DetectorOverlays(|detections|)
  {
    if |detections| > 0 then
      (image + (if draw then DetectorOverlays(|detections|) else []), detections)
    else
      (image, [])
  }

  /** The detections do not depend on `draw`, and without `draw` the frame is untouched. */
  lemma FindFaceIgnoresDraw<D>(image: Image, detections: seq<D>)
    ensures FindFace(image, detections, true).1 == FindFace(image, detections, false).1
    ensures FindFace(image, detections, false).0 == image
  {
  }

  /** `findFaceInFrames`: one `findFace` result per frame, in frame order. */
  method FindFaceInFrames<D>(frames: seq<Frame<seq<D>>>, draw: bool := true)
    returns (res: seq<(Image, seq<D>)>)
    ensures |res| == |frames|
    ensures forall i :: 0 <= i < |frames| ==>
      res[i] == FindFace(frames[i].image, frames[i].detected, draw)
  {
    res := [];
    var i := 0;
    while i < |frames|
      invariant 0 <= i <= |frames|
      invariant |res| == i
      invariant forall j :: 0 <= j < i ==> res[j] == FindFace(frames[j].image, frames[j].detected, draw)
    {
      res := res + [FindFace(frames[i].image, frames[i].detected, draw)];
      i := i + 1;
    }
  }

  /**
   * `main`'s output names: the buffer layout under out/face/, classified by
   * the top-level utils.py. Images are written to the buffer- name; a video
   * is muxed into the name with the first "buffer-" removed, while the
   * reported name stays the buffer name.
   */
  function OutputPlan(filename: string): (p: Plan)
    ensures p.Unsupported? <==> LegacyFileTypes.CheckFileType(filename) == FileTypes.Other
    ensures p.WriteImage? <==> LegacyFileTypes.CheckFileType(filename) == FileTypes.Image
    ensures p.WriteVideo? <==> LegacyFileTypes.CheckFileType(filename) == FileTypes.Video
    ensures p.WriteImage? ==> p.path == CategoryDir("face") + BUFFER_PREFIX + BaseName(filename) && p.reported == p.path
    ensures p.WriteVideo? ==>
      && p.buffer == CategoryDir("face") + BUFFER_PREFIX + BaseName(filename)
      && p.muxed == CategoryDir("face") + BaseName(filename)
      && p.reported == p.buffer
  {
    var kind := LegacyFileTypes.CheckFileType(filename);
    assert 'b' !in "face";
    BufferPlanNames("face", kind, filename);
    BufferPlan("face", kind, filename)
  }
}
