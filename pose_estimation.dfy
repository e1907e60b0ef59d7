/**
 * src/modules/poseEstimation.py: passing the pose detector's landmarks
 * on, the per-frame loop, and the buffer-layout output names. Its
 * `findLandmarksPositions` is Landmarks.FindLandmarksPositions.
 */
module PoseEstimation {
  import opened Wrappers
  import opened Drawing
  import opened Landmarks
  import opened FileTypes
  import opened OutputNames

  /**
   * `PoseDetector.findPose`, with the detector's pose for the frame given
   * as `detected` (None when no pose is found): the pose's landmark list
   * unchanged, or [] without a pose; with `draw`, the library overlay.
   */
  function FindPose(image: Image, detected: Option<Subject>, draw: bool := true): (r: (Image, Subject))
    ensures detected.None? ==> r.1 == [] && r.0 == image
    ensures detected.Some? ==> r.1 == detected.value
    ensures detected.Some? ==> r.0 == image + (if draw then [DetectorOverlay(0)] else [])
  {
    match detected
    case Some(landmarks) => (image + (if draw then [DetectorOverlay(0)] else []), landmarks)
    case None => (image, [])
  }

  /** The landmarks do not depend on `draw`, and without `draw` the frame is untouched. */
  lemma FindPoseIgnoresDraw(image: Image, detected: Option<Subject>)
    ensures FindPose(image, detected, true).1 == FindPose(image, detected, false).1
    ensures FindPose(image, detected, false).0 == image
  {
  }

  /** `findPoseInFrames`: one `findPose` result per frame, in frame order. */
  method FindPoseInFrames(frames: seq<Frame<Option<Subject>>>, draw: bool := true)
    returns (res: seq<(Image, Subject)>)
    ensures |res| == |frames|
    ensures forall i :: 0 <= i < |frames| ==>
      res[i] == FindPose(frames[i].image, frames[i].detected, draw)
  {
    res := [];
    var i := 0;
    while i < |frames|
      invariant 0 <= i <= |frames|
      invariant |res| == i
      invariant forall j :: 0 <= j < i ==> res[j] == FindPose(frames[j].image, frames[j].detected, draw)
    {
      res := res + [FindPose(frames[i].image, frames[i].detected, draw)];
      i := i + 1;
    }
  }

  /**
   * `main`'s output names: the buffer layout under out/pose/, classified by
   * src/modules/utils.py. Images go to the buffer- name itself; a video is
   * buffered there and muxed into the name with the first "buffer-" removed;
   * the reported name is the buffer name either way.
   */
  function OutputPlan(filename: string): (p: Plan)
    ensures p.Unsupported? <==> CheckFileType(filename) == Other
    ensures p.WriteImage? <==> CheckFileType(filename) == Image
    ensures p.WriteVideo? <==> CheckFileType(filename) == Video
    ensures p.WriteImage? ==> p.path == CategoryDir("pose") + BUFFER_PREFIX + BaseName(filename) && p.reported == p.path
    ensures p.WriteVideo? ==>
      && p.buffer == CategoryDir("pose") + BUFFER_PREFIX + BaseName(filename)
      && p.muxed == CategoryDir("pose") + BaseName(filename)
      && p.reported == p.buffer
  {
    var kind := CheckFileType(filename);
    assert 'b' !in "pose";
    BufferPlanNames("pose", kind, filename);
    BufferPlan("pose", kind, filename)
  }
}
