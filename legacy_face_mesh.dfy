/**
 * The top-level faceMesh.py: an older face-mesh detector whose
 * `findFaceMesh` draws but returns nothing, a `customDraw` it never calls,
 * and output names classified by the older top-level utils.py.
 */
module LegacyFaceMesh {
  import opened Wrappers
  import opened Drawing
  import opened Landmarks
  import opened OutputNames
  import opened Strings
  import FileTypes
  import LegacyFileTypes

  const ANNOTATION_COLOR: Color := Color(26, 246, 0)

  /** What the docstring of `findFaceMeshInFrames` promises per frame: (frame, landmarks). */
  type MeshResult = Option<(Image, seq<seq<Point>>)>

  /**
   * `findFaceMesh`: the faces are overlaid on the caller's frame when
   * `draw` holds, and the pixel coordinates computed per landmark are
   * discarded, so the call returns None. The frame comes back as
   * `image'` because the drawing changes the caller's frame in place.
   */
  method FindFaceMesh(image: Image, detected: seq<Subject>, draw: bool := true)
    returns (image': Image, r: MeshResult)
    ensures r.None?
    ensures image' == image + (if draw then DetectorOverlays(|detected|) else [])
  {
    image' := image;
    var i := 0;
    while i < |detected|
      invariant 0 <= i <= |detected|
      invariant image' == image + (if draw then DetectorOverlays(i) else [])
    {
      if draw {
        image' := image' + [DetectorOverlay(i)];
      }
      i := i + 1;
    }
    r := None;
  }

  /**
   * `findFaceMeshInFrames`: one entry per frame and every entry None; the
   * frames themselves carry the drawing afterwards (`annotated`).
   */
  method FindFaceMeshInFrames(frames: seq<Frame<seq<Subject>>>, draw: bool := true)
    returns (annotated: seq<Image>, res: seq<MeshResult>)
    ensures |res| == |frames| && |annotated| == |frames|
    ensures forall i :: 0 <= i < |frames| ==> res[i].None?
    ensures forall i :: 0 <= i < |frames| ==>
      annotated[i] == frames[i].image + (if draw then DetectorOverlays(|frames[i].detected|) else [])
  {
    annotated, res := [], [];
    var i := 0;
    while i < |frames|
      invariant 0 <= i <= |frames|
      invariant |res| == i && |annotated| == i
      invariant forall j :: 0 <= j < i ==> res[j].None?
      invariant forall j :: 0 <= j < i ==>
        annotated[j] == frames[j].image + (if draw then DetectorOverlays(|frames[j].detected|) else [])
    {
      var image', r := FindFaceMesh(frames[i].image, frames[i].detected, draw);
      annotated, res := annotated + [image'], res + [r];
      i := i + 1;
    }
  }

  /** `main`'s output names: the direct layout under out/faceMesh/, classified by the top-level utils.py. */
  function OutputPlan(filename: string): (p: Plan)
    ensures p.Unsupported? <==> LegacyFileTypes.CheckFileType(filename) == FileTypes.Other
    ensures p.WriteImage? <==> LegacyFileTypes.CheckFileType(filename) == FileTypes.Image
    ensures p.WriteVideo? <==> LegacyFileTypes.CheckFileType(filename) == FileTypes.Video
    ensures p.WriteImage? ==> p.path == CategoryDir("faceMesh") + BaseName(filename)
    ensures p.WriteVideo? ==>
      && p.buffer == CategoryDir("faceMesh") + BUFFER_PREFIX + BaseName(filename)
      && p.muxed == CategoryDir("faceMesh") + BaseName(filename)
      && ReplaceFirst(p.buffer, BUFFER_PREFIX, "") == p.muxed
  {
    var kind := LegacyFileTypes.CheckFileType(filename);
    assert 'b' !in "faceMesh";
    DirectPlanNames("faceMesh", kind, filename);
    DirectPlan("faceMesh", kind, filename)
  }

  /**
   * The script's own input, "./assets/IpMan4Faces0.mp4" after `normpath`,
   * is classified "other" by the older utils.py, so `main` would stop with
   * "Unsupported file format" and write nothing.
   */
  lemma DefaultInputUnsupported()
    ensures OutputPlan("assets/IpMan4Faces0.mp4").Unsupported?
  {
    LegacyFileTypes.OrdinaryVideoIsOther("assets/IpMan4Faces0.mp4", ".mp4");
  }
}
