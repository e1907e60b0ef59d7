/**
 * src/modules/faceMesh.py: shaping the face-mesh detector's faces into
 * id-indexed landmark lists, the per-frame loop and the output names.
 */
module FaceMesh {
  import opened Drawing
  import opened Landmarks
  import opened FileTypes
  import opened OutputNames
  import opened Strings

  type Face = seq<Point>

  /**
   * What `findFaceMesh` returns: every detected face in detector order,
   * the k-th tuple with id k; with `draw`, the library's contour overlay
   * of each face. There is no cap here: `maxNumFaces` only configures the
   * detector, whose output `detected` already is.
   */
  predicate FoundMeshes(image: Image, detected: seq<Subject>, draw: bool, image': Image, faces: seq<Face>) {
    && |faces| == |detected|
    && (forall i :: 0 <= i < |faces| ==> ShapedFrom(faces[i], detected[i]))
    && image' == image + (if draw then DetectorOverlays(|detected|) else [])
  }

  /** With nothing detected there are no faces and nothing is drawn. */
  lemma NoDetectionNoFaces(image: Image, draw: bool, image': Image, faces: seq<Face>)
    requires FoundMeshes(image, [], draw, image', faces)
    ensures faces == [] && image' == image
  {
  }

  /** The faces list is determined by the detector output alone, whatever `draw` is. */
  lemma FoundMeshesIgnoresDraw(image: Image, detected: seq<Subject>,
                               draw1: bool, image1: Image, faces1: seq<Face>,
                               draw2: bool, image2: Image, faces2: seq<Face>)
    requires FoundMeshes(image, detected, draw1, image1, faces1)
    requires FoundMeshes(image, detected, draw2, image2, faces2)
    ensures faces1 == faces2
  {
    forall i | 0 <= i < |faces1|
      ensures faces1[i] == faces2[i]
    {
      ShapedFromUnique(faces1[i], faces2[i], detected[i]);
    }
  }

  /** `FaceMeshDetector.findFaceMesh`, with the frame's faces given as `detected` (empty when none). */
  method FindFaceMesh(image: Image, detected: seq<Subject>, draw: bool := true)
    returns (image': Image, faces: seq<Face>)
    ensures FoundMeshes(image, detected, draw, image', faces)
  {
    image' := image;
    faces := [];
    var i := 0;
    while i < |detected|
      invariant 0 <= i <= |detected|
      invariant |faces| == i
      invariant forall j :: 0 <= j < i ==> ShapedFrom(faces[j], detected[j])
      invariant image' == image + (if draw then DetectorOverlays(i) else [])
    {
      if draw {
        image' := image' + [DetectorOverlay(i)];
      }
      var face := Shape(detected[i]);
      faces := faces + [face];
      i := i + 1;
    }
  }

  /** `findFaceMeshInFrames`: one `findFaceMesh` result per frame, in frame order. */
  method FindFaceMeshInFrames(frames: seq<Frame<seq<Subject>>>, draw: bool := true)
    returns (res: seq<(Image, seq<Face>)>)
    ensures |res| == |frames|
    ensures forall i :: 0 <= i < |frames| ==>
      FoundMeshes(frames[i].image, frames[i].detected, draw, res[i].0, res[i].1)
  {
    res := [];
    var i := 0;
    while i < |frames|
      invariant 0 <= i <= |frames|
      invariant |res| == i
      invariant forall j :: 0 <= j < i ==>
        FoundMeshes(frames[j].image, frames[j].detected, draw, res[j].0, res[j].1)
    {
      var image', faces := FindFaceMesh(frames[i].image, frames[i].detected, draw);
      res := res + [(image', faces)];
      i := i + 1;
    }
  }

  /** `main`'s output names: the direct layout under out/faceMesh/, classified by src/modules/utils.py. */
  function OutputPlan(filename: string): (p: Plan)
    ensures p.Unsupported? <==> CheckFileType(filename) == Other
    ensures p.WriteImage? <==> CheckFileType(filename) == Image
    ensures p.WriteVideo? <==> CheckFileType(filename) == Video
    ensures p.WriteImage? ==> p.path == CategoryDir("faceMesh") + BaseName(filename)
    ensures p.WriteVideo? ==>
      && p.buffer == CategoryDir("faceMesh") + BUFFER_PREFIX + BaseName(filename)
      && p.muxed == CategoryDir("faceMesh") + BaseName(filename)
      && ReplaceFirst(p.buffer, BUFFER_PREFIX, "") == p.muxed
  {
    var kind := CheckFileType(filename);
    assert 'b' !in "faceMesh";
    DirectPlanNames("faceMesh", kind, filename);
    DirectPlan("faceMesh", kind, filename)
  }
}
