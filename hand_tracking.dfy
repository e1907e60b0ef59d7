/**
 * src/modules/handTracking.py: shaping the hand detector's output, the
 * per-frame loop, looking landmarks up across all hands, and the output
 * names of `main`.
 */
module HandTracking {
  import opened Drawing
  import opened Landmarks
  import opened FileTypes
  import opened OutputNames
  import opened Strings

  const EMPHASIS_COLOR: Color := Color(26, 0, 246)

  type Hand = seq<Point>

  /** `raise ValueError(message)` or the image with the new drawing. */
  datatype Outcome = Drawn(image: Image) | ValueError(message: string)

  /**
   * How many of `n` detected hands `findHands` keeps: the loop stops when
   * the counter reaches the cap, which a negative cap never does.
   */
  function KeptCount(n: nat, maxNumHands: int): (c: nat)
    ensures c <= n
    ensures maxNumHands < 0 ==> c == n
    ensures 0 <= maxNumHands ==> c == n || c == maxNumHands
    ensures 0 <= maxNumHands <= n ==> c == maxNumHands
  {
    if 0 <= maxNumHands < n then maxNumHands else n
  }

  /**
   * What `findHands` returns: the first min(detected, maxNumHands) hands in
   * detector order (every hand when the cap is negative, since the counter
   * never equals it), the k-th tuple of each with id k; with `draw`, the
   * library overlay of each kept hand.
   */
  predicate FoundHands(image: Image, detected: seq<Subject>, maxNumHands: int, draw: bool,
                       image': Image, hands: seq<Hand>)
  {
    && |hands| == KeptCount(|detected|, maxNumHands)
    && (forall i :: 0 <= i < |hands| ==> ShapedFrom(hands[i], detected[i]))
    && image' == image + (if draw then DetectorOverlays(|hands|) else [])
  }

  /** With nothing detected there are no hands and nothing is drawn. */
  lemma NoDetectionNoHands(image: Image, maxNumHands: int, draw: bool, image': Image, hands: seq<Hand>)
    requires FoundHands(image, [], maxNumHands, draw, image', hands)
    ensures hands == [] && image' == image
  {
  }

  /** The hands list is determined by the detector output and the cap alone, whatever `draw` is. */
  lemma FoundHandsDeterministic(image: Image, detected: seq<Subject>, maxNumHands: int,
                                draw1: bool, image1: Image, hands1: seq<Hand>,
                                draw2: bool, image2: Image, hands2: seq<Hand>)
    requires FoundHands(image, detected, maxNumHands, draw1, image1, hands1)
    requires FoundHands(image, detected, maxNumHands, draw2, image2, hands2)
    ensures hands1 == hands2
    ensures draw1 == draw2 ==> image1 == image2
  {
    forall i | 0 <= i < |hands1|
      ensures hands1[i] == hands2[i]
    {
      ShapedFromUnique(hands1[i], hands2[i], detected[i]);
    }
  }

  /** The `maxNumHands` of a `HandDetector` built with its defaults. */
  const DEFAULT_MAX_NUM_HANDS: int := 2

  /**
   * `HandDetector.findHands`, with the detector's result for the frame
   * given as `detected` (an empty sequence when it reports nothing) and the
   * detector's `maxNumHands` as a parameter.
   */
  method FindHands(image: Image, detected: seq<Subject>, maxNumHands: int, draw: bool := true)
    returns (image': Image, hands: seq<Hand>)
    ensures FoundHands(image, detected, maxNumHands, draw, image', hands)
  {
    image' := image;
    hands := [];
    var counter := 0;
    while counter < |detected|
      invariant 0 <= counter <= |detected|
      invariant |hands| == counter
      invariant 0 <= maxNumHands ==> counter <= maxNumHands
      invariant forall i :: 0 <= i < counter ==> ShapedFrom(hands[i], detected[i])
      invariant image' == image + (if draw then DetectorOverlays(counter) else [])
    {
      if counter == maxNumHands {
        break;
      }
      var hand := Shape(detected[counter]);
      hands := hands + [hand];
      if draw {
        image' := image' + [DetectorOverlay(counter)];
      }
      counter := counter + 1;
    }
  }

  /** `findHandsInFrames`: one `findHands` result per frame, in frame order. */
  method FindHandsInFrames(frames: seq<Frame<seq<Subject>>>, maxNumHands: int, draw: bool := true)
    returns (res: seq<(Image, seq<Hand>)>)
    ensures |res| == |frames|
    ensures forall i :: 0 <= i < |frames| ==>
      FoundHands(frames[i].image, frames[i].detected, maxNumHands, draw, res[i].0, res[i].1)
  {
    res := [];
    var i := 0;
    while i < |frames|
      invariant 0 <= i <= |frames|
      invariant |res| == i
      invariant forall j :: 0 <= j < i ==>
        FoundHands(frames[j].image, frames[j].detected, maxNumHands, draw, res[j].0, res[j].1)
    {
      var image', hands := FindHands(frames[i].image, frames[i].detected, maxNumHands, draw);
      res := res + [(image', hands)];
      i := i + 1;
    }
  }

  /** Landmark `id` appears in some hand. */
  predicate InSomeHand(hands: seq<Hand>, id: int) {
    exists h, k :: 0 <= h < |hands| && 0 <= k < |hands[h]| && hands[h][k].id == id
  }

  /**
   * (h, k) is the entry `highlightLandmark` ends with: the first match in
   * the last hand that has one (`break` leaves only the inner loop).
   */
  predicate HighlightSource(hands: seq<Hand>, id: int, h: int, k: int) {
    && 0 <= h < |hands| && 0 <= k < |hands[h]| && hands[h][k].id == id
    && (forall k' :: 0 <= k' < k ==> hands[h][k'].id != id)
    && (forall h', k' :: h < h' < |hands| && 0 <= k' < |hands[h']| ==> hands[h'][k'].id != id)
  }

  /** Only one entry can be the highlighted one. */
  lemma HighlightSourceUnique(hands: seq<Hand>, id: int, h1: int, k1: int, h2: int, k2: int)
    requires HighlightSource(hands, id, h1, k1) && HighlightSource(hands, id, h2, k2)
    ensures h1 == h2 && k1 == k2
  {
  }

  /**
   * `highlightLandmark`: ValueError("Invalid landmark id") exactly when no
   * hand holds the id; otherwise a filled circle at that landmark of the
   * last hand holding it.
   */
  method HighlightLandmark(image: Image, hands: seq<Hand>, landmarkId: int, circleRadius: int := 12)
    returns (r: Outcome)
    ensures r.ValueError? <==> !InSomeHand(hands, landmarkId)
    ensures r.ValueError? ==> r.message == "Invalid landmark id"
    ensures r.Drawn? ==> exists h, k ::
      && HighlightSource(hands, landmarkId, h, k)
      && r.image == image + [Circle(Coord(hands[h][k].x, hands[h][k].y), circleRadius, EMPHASIS_COLOR, FILLED)]
  {
    var found := false;
    var x, y := 0, 0;
    ghost var wh, wk := 0, 0;
    var h := 0;
    while h < |hands|
      invariant 0 <= h <= |hands|
      invariant !found ==> forall h', k' :: 0 <= h' < h && 0 <= k' < |hands[h']| ==> hands[h'][k'].id != landmarkId
      invariant found ==> 0 <= wh < h && 0 <= wk < |hands[wh]| && hands[wh][wk].id == landmarkId
      invariant found ==> forall k' :: 0 <= k' < wk ==> hands[wh][k'].id != landmarkId
      invariant found ==> forall h', k' :: wh < h' < h && 0 <= k' < |hands[h']| ==> hands[h'][k'].id != landmarkId
      invariant found ==> x == hands[wh][wk].x && y == hands[wh][wk].y
    {
      var k := 0;
      ghost var matched := false;
      while k < |hands[h]|
        invariant 0 <= k <= |hands[h]|
        invariant forall k' :: 0 <= k' < k ==> hands[h][k'].id != landmarkId
        invariant !matched
      {
        if hands[h][k].id == landmarkId {
          found, x, y := true, hands[h][k].x, hands[h][k].y;
          wh, wk := h, k;
          matched := true;
          break;
        }
        k := k + 1;
      }
      h := h + 1;
    }
    if !found {
      return ValueError("Invalid landmark id");
    }
    assert HighlightSource(hands, landmarkId, wh, wk);
    r := Drawn(image + [Circle(Coord(x, y), circleRadius, EMPHASIS_COLOR, FILLED)]);
  }

  /** Position (h', k') comes strictly before (h, k) in the scan order of the nested loops. */
  predicate Before(h': int, k': int, h: int, k: int) {
    h' < h || (h' == h && k' < k)
  }

  /** Landmark `id` is among the entries scanned before (h, k). */
  predicate SeenBefore(hands: seq<Hand>, id: int, h: int, k: int) {
    exists h', k' :: 0 <= h' < |hands| && 0 <= k' < |hands[h']| && Before(h', k', h, k) && hands[h'][k'].id == id
  }

  /** (wh, wk) is the last entry with `id` scanned before (h, k). */
  predicate LastBefore(hands: seq<Hand>, id: int, wh: int, wk: int, h: int, k: int) {
    && 0 <= wh < |hands| && 0 <= wk < |hands[wh]| && Before(wh, wk, h, k) && hands[wh][wk].id == id
    && forall h', k' :: 0 <= h' < |hands| && 0 <= k' < |hands[h']| && Before(wh, wk, h', k') && Before(h', k', h, k)
         ==> hands[h'][k'].id != id
  }

  /** (h, k) is the last entry with `id` across all hands. */
  predicate LastOccurrence(hands: seq<Hand>, id: int, h: int, k: int) {
    LastBefore(hands, id, h, k, |hands|, 0)
  }

  /**
   * Scan state for one id after the entries before (h, k): `found` tells
   * whether the id was recorded, and if so the recorded point is that of
   * its last occurrence so far. With `enabled` false the id is never
   * recorded.
   */
  ghost predicate Tracks(hands: seq<Hand>, id: int, enabled: bool, found: bool,
                         wh: int, wk: int, x: int, y: int, h: int, k: int)
  {
    && (found <==> enabled && SeenBefore(hands, id, h, k))
    && (found ==> LastBefore(hands, id, wh, wk, h, k) && x == hands[wh][wk].x && y == hands[wh][wk].y)
  }

  /** Examining entry (h, k): a match (when enabled) becomes the recorded point, anything else changes nothing. */
  lemma TracksStep(hands: seq<Hand>, id: int, enabled: bool, found: bool,
                   wh: int, wk: int, x: int, y: int, h: int, k: int)
    requires 0 <= h < |hands| && 0 <= k < |hands[h]|
    requires Tracks(hands, id, enabled, found, wh, wk, x, y, h, k)
    ensures enabled && hands[h][k].id == id ==>
      Tracks(hands, id, enabled, true, h, k, hands[h][k].x, hands[h][k].y, h, k + 1)
    ensures !(enabled && hands[h][k].id == id) ==>
      Tracks(hands, id, enabled, found, wh, wk, x, y, h, k + 1)
  {
    if hands[h][k].id != id {
      forall h', k' | 0 <= h' < |hands| && 0 <= k' < |hands[h']| && Before(h', k', h, k + 1) && hands[h'][k'].id == id
        ensures Before(h', k', h, k)
      {
      }
    }
  }

  /** Past the last entry of hand h, the scan continues at the start of hand h + 1. */
  lemma TracksNextHand(hands: seq<Hand>, id: int, enabled: bool, found: bool,
                       wh: int, wk: int, x: int, y: int, h: int)
    requires 0 <= h < |hands|
    requires Tracks(hands, id, enabled, found, wh, wk, x, y, h, |hands[h]|)
    ensures Tracks(hands, id, enabled, found, wh, wk, x, y, h + 1, 0)
  {
    forall h', k' | 0 <= h' < |hands| && 0 <= k' < |hands[h']| && Before(h', k', h + 1, 0)
      ensures Before(h', k', h, |hands[h]|)
    {
    }
  }

  /** Having scanned every hand, an id was seen exactly when some hand holds it. */
  lemma SeenAll(hands: seq<Hand>, id: int)
    ensures SeenBefore(hands, id, |hands|, 0) <==> InSomeHand(hands, id)
  {
    if InSomeHand(hands, id) {
      var h, k :| 0 <= h < |hands| && 0 <= k < |hands[h]| && hands[h][k].id == id;
      assert Before(h, k, |hands|, 0);
    }
  }

  /**
   * `connectLandmarks`: the line joins the last occurrence of A to the last
   * occurrence of B across all hands. A missing A is reported first; B is
   * only ever recorded in the `elif` of A, so when A == B the B error is
   * raised even though the landmark is present.
   */
  method ConnectLandmarks(image: Image, hands: seq<Hand>, landmarkAId: int, landmarkBId: int, thickness: int := 4)
    returns (r: Outcome)
    ensures !InSomeHand(hands, landmarkAId) ==> r == ValueError("Id of landmark A is invalid")
    ensures InSomeHand(hands, landmarkAId) && (landmarkAId == landmarkBId || !InSomeHand(hands, landmarkBId)) ==>
      r == ValueError("Id of landmark B is invalid")
    ensures InSomeHand(hands, landmarkAId) && landmarkAId != landmarkBId && InSomeHand(hands, landmarkBId) ==>
      exists ha, ka, hb, kb ::
        && LastOccurrence(hands, landmarkAId, ha, ka)
        && LastOccurrence(hands, landmarkBId, hb, kb)
        && r == Drawn(image + [Line(Coord(hands[ha][ka].x, hands[ha][ka].y),
                                    Coord(hands[hb][kb].x, hands[hb][kb].y), EMPHASIS_COLOR, thickness)])
  {
    var foundA, foundB := false, false;
    var x1, y1, x2, y2 := 0, 0, 0, 0;
    ghost var ha, ka, hb, kb := 0, 0, 0, 0;
    ghost var distinct := landmarkAId != landmarkBId;
    var h := 0;
    while h < |hands|
      invariant 0 <= h <= |hands|
      invariant Tracks(hands, landmarkAId, true, foundA, ha, ka, x1, y1, h, 0)
      invariant Tracks(hands, landmarkBId, distinct, foundB, hb, kb, x2, y2, h, 0)
    {
      var k := 0;
      while k < |hands[h]|
        invariant 0 <= k <= |hands[h]|
        invariant Tracks(hands, landmarkAId, true, foundA, ha, ka, x1, y1, h, k)
        invariant Tracks(hands, landmarkBId, distinct, foundB, hb, kb, x2, y2, h, k)
      {
        var point := hands[h][k];
        TracksStep(hands, landmarkAId, true, foundA, ha, ka, x1, y1, h, k);
        TracksStep(hands, landmarkBId, distinct, foundB, hb, kb, x2, y2, h, k);
        if point.id == landmarkAId {
          foundA, x1, y1 := true, point.x, point.y;
          ha, ka := h, k;
        } else if point.id == landmarkBId {
          foundB, x2, y2 := true, point.x, point.y;
          hb, kb := h, k;
        }
        k := k + 1;
      }
      TracksNextHand(hands, landmarkAId, true, foundA, ha, ka, x1, y1, h);
      TracksNextHand(hands, landmarkBId, distinct, foundB, hb, kb, x2, y2, h);
      h := h + 1;
    }
    SeenAll(hands, landmarkAId);
    SeenAll(hands, landmarkBId);
    if !foundA {
      return ValueError("Id of landmark A is invalid");
    }
    if !foundB {
      return ValueError("Id of landmark B is invalid");
    }
    assert LastOccurrence(hands, landmarkAId, ha, ka) && LastOccurrence(hands, landmarkBId, hb, kb);
    r := Drawn(image + [Line(Coord(x1, y1), Coord(x2, y2), EMPHASIS_COLOR, thickness)]);
  }

  /** `main`'s output names: the direct layout under out/hands/, classified by src/modules/utils.py. */
  function OutputPlan(filename: string): (p: Plan)
    ensures p.Unsupported? <==> CheckFileType(filename) == Other
    ensures p.WriteImage? <==> CheckFileType(filename) == Image
    ensures p.WriteVideo? <==> CheckFileType(filename) == Video
    ensures p.WriteImage? ==> p.path == CategoryDir("hands") + BaseName(filename)
    ensures p.WriteVideo? ==>
      && p.buffer == CategoryDir("hands") + BUFFER_PREFIX + BaseName(filename)
      && p.muxed == CategoryDir("hands") + BaseName(filename)
      && ReplaceFirst(p.buffer, BUFFER_PREFIX, "") == p.muxed
  {
    var kind := CheckFileType(filename);
    assert 'b' !in "hands";
    DirectPlanNames("hands", kind, filename);
    DirectPlan("hands", kind, filename)
  }
}
