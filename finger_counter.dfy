/**
 * The per-frame rule of src/projects/fingerCounter.py: which fingers of
 * the first detected hand are up, and whether it is a right hand. The
 * handedness flag lives across frames, so the counter is a class.
 */
module FingerCounter {
  import opened Drawing
  import opened Landmarks
  import opened HandTracking

  /** Landmark ids of the thumb, index, middle, ring and little fingertips. */
  const FINGERTIP_IDS: seq<int> := [4, 8, 12, 16, 20]

  /** The finger image every frame shows: the first entry of the directory listing. */
  const FINGER_IMAGE: int := 0

  /**
   * The thumb is down (0) when its tip lies left of the joint below it and
   * up (1) otherwise; it compares x where the other fingers compare y.
   */
  predicate ThumbRule(hand: seq<Point>, state: int)
    requires |hand| > 4
  {
    state == (if hand[4].x < hand[3].x then 0 else 1)
  }

  /** Finger `j` (1 to 4) is up (1) exactly when its tip lies strictly above the joint two ids lower. */
  predicate FingerRule(hand: seq<Point>, j: int, state: int)
    requires 1 <= j < |FINGERTIP_IDS| && |hand| >= 21
  {
    var tip := FINGERTIP_IDS[j];
    state == (if hand[tip].y < hand[tip - 2].y then 1 else 0)
  }

  /** `states` is the `fingerStates` list the loop builds for `hand`, thumb first. */
  predicate FingerStatesOf(hand: seq<Point>, states: seq<int>)
    requires |hand| >= 21
  {
    && |states| == 5
    && ThumbRule(hand, states[0])
    && forall j :: 1 <= j < 5 ==> FingerRule(hand, j, states[j])
  }

  /** The rule yields one 0/1 entry per finger. */
  lemma FingerStatesAreBits(hand: seq<Point>, states: seq<int>)
    requires |hand| >= 21 && FingerStatesOf(hand, states)
    ensures |states| == 5
    ensures forall j :: 0 <= j < 5 ==> states[j] == 0 || states[j] == 1
  {
    forall j | 0 <= j < 5
      ensures states[j] == 0 || states[j] == 1
    {
      if j > 0 {
        assert FingerRule(hand, j, states[j]);
      }
    }
  }

  /** A hand has exactly one finger-state list; nothing but its landmarks decides it. */
  lemma FingerStatesUnique(hand: seq<Point>, s1: seq<int>, s2: seq<int>)
    requires |hand| >= 21 && FingerStatesOf(hand, s1) && FingerStatesOf(hand, s2)
    ensures s1 == s2
  {
    forall j | 0 <= j < 5
      ensures s1[j] == s2[j]
    {
      if j > 0 {
        assert FingerRule(hand, j, s1[j]) && FingerRule(hand, j, s2[j]);
      }
    }
  }

  /** Finger `j` (1 to 4) is up iff the y of its tip is below the y two ids lower. */
  lemma FingerUpIff(hand: seq<Point>, states: seq<int>, j: int)
    requires |hand| >= 21 && FingerStatesOf(hand, states) && 1 <= j < 5
    ensures states[j] == 1 <==> hand[4 * j + 4].y < hand[4 * j + 2].y
    ensures states[0] == 0 <==> hand[4].x < hand[3].x
  {
    assert FingerRule(hand, j, states[j]);
    assert FINGERTIP_IDS[j] == 4 * j + 4;
  }

  /** The thumb rule, then a loop over the other four fingertips (src/projects/fingerCounter.py:44-55). */
  method ComputeFingerStates(hand: seq<Point>) returns (states: seq<int>)
    requires |hand| >= 21
    ensures FingerStatesOf(hand, states)
  {
    states := [];
    if hand[4].x < hand[3].x {
      states := states + [0];
    } else {
      states := states + [1];
    }
    var tips := FINGERTIP_IDS[1..];
    var i := 0;
    while i < |tips|
      invariant 0 <= i <= |tips|
      invariant |states| == i + 1
      invariant ThumbRule(hand, states[0])
      invariant forall j :: 1 <= j <= i ==> FingerRule(hand, j, states[j])
    {
      var fingertipId := tips[i];
      if hand[fingertipId].y < hand[fingertipId - 2].y {
        states := states + [1];
      } else {
        states := states + [0];
      }
      i := i + 1;
    }
  }

  /** The `rightHand` rule: landmark 5 (index base) lies right of landmark 17 (little-finger base). */
  predicate IsRightHand(hand: seq<Point>)
    requires |hand| > 17
  {
    hand[5].x > hand[17].x
  }

  class FingerCounter {
    /** `rightHand`, kept from the last frame that showed a hand. */
    var rightHand: bool

    constructor()
      ensures !rightHand
    {
      rightHand := false;
    }

    /**
     * One pass of the camera loop: `findHands` with the default detector,
     * then the rule on the first hand only, then the finger image pasted
     * in the corner. With no hand the states are [] and `rightHand` keeps
     * its value.
     */
    method Step(image: Image, detected: seq<Subject>) returns (image': Image, fingerStates: seq<int>)
      requires |detected| > 0 ==> |detected[0]| >= 21
      modifies this
      ensures image' == image + DetectorOverlays(KeptCount(|detected|, DEFAULT_MAX_NUM_HANDS)) + [Pasted(FINGER_IMAGE)]
      ensures |detected| == 0 ==> fingerStates == [] && rightHand == old(rightHand)
      ensures |detected| > 0 ==>
        exists hand :: ShapedFrom(hand, detected[0]) &&
          rightHand == IsRightHand(hand) && FingerStatesOf(hand, fingerStates)
    {
      var hands;
      image', hands := FindHands(image, detected, DEFAULT_MAX_NUM_HANDS);
      fingerStates := [];
      if |hands| > 0 {
        var hand := hands[0];
        rightHand := hand[5].x > hand[17].x;
        fingerStates := ComputeFingerStates(hand);
      }
      image' := image' + [Pasted(FINGER_IMAGE)];
    }
  }

  /** What a hand shows depends only on its landmarks' pixel positions: ids are positions. */
  lemma FingerStatesFromSubject(subject: Subject, hand: seq<Point>, states: seq<int>)
    requires |subject| >= 21 && ShapedFrom(hand, subject) && FingerStatesOf(hand, states)
    ensures states[0] == (if subject[4].px < subject[3].px then 0 else 1)
    ensures forall j :: 1 <= j < 5 ==>
      states[j] == (if subject[4 * j + 4].py < subject[4 * j + 2].py then 1 else 0)
  {
    forall j | 1 <= j < 5
      ensures states[j] == (if subject[4 * j + 4].py < subject[4 * j + 2].py then 1 else 0)
    {
      FingerUpIff(hand, states, j);
    }
  }
}
