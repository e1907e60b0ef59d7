/**
 * The per-frame logic of src/projects/virtualPainter.py. The selected menu
 * and colour carry over between frames, strokes accumulate on a separate
 * canvas, and each frame ends with the current menu bitmap pasted in the
 * corner. The menu assets are numbered by their position in the sorted
 * directory listing.
 */
module VirtualPainter {
  import opened Wrappers
  import opened Drawing
  import opened Landmarks
  import opened HandTracking

  const PEN_THICKNESS: int := 15

  /** Pen colours in menu order; the last one, black, is the eraser. */
  const TOOL_COLORS: seq<Color> := [Color(255, 216, 0), Color(0, 0, 255), Color(0, 255, 0), Color(0, 0, 0)]

  const ERASER: Color := Color(0, 0, 0)

  /** Open x-intervals of the four menu buttons: tool t is clicked when TOOL_LO[t] < x < TOOL_HI[t]. */
  const TOOL_LO: seq<int> := [100, 350, 700, 950]
  const TOOL_HI: seq<int> := [250, 500, 850, 1200]

  /** Clicks count only above this y. */
  const MENU_BAR_HEIGHT: int := 140

  /** Landmark ids of the index and middle fingertips. */
  const INDEX_TIP: int := 8
  const MIDDLE_TIP: int := 12

  /** The tool clicked at (x, y), if any: the first interval holding x of the chain of `elif`s. */
  function ToolAt(x: int, y: int): (t: Option<nat>)
    ensures t.Some? <==> y < MENU_BAR_HEIGHT && exists u :: 0 <= u < 4 && TOOL_LO[u] < x < TOOL_HI[u]
    ensures t.Some? ==> t.value < 4 && TOOL_LO[t.value] < x < TOOL_HI[t.value]
  {
    if y < MENU_BAR_HEIGHT then
      if 100 < x < 250 then Some(0)
      else if 350 < x < 500 then Some(1)
      else if 700 < x < 850 then Some(2)
      else if 950 < x < 1200 then Some(3)
      else None
    else None
  }

  /** The button intervals are disjoint, so the order of the `elif`s never matters. */
  lemma ToolIntervalsDisjoint(x: int, t: nat, u: nat)
    requires t < 4 && u < 4
    requires TOOL_LO[t] < x < TOOL_HI[t] && TOOL_LO[u] < x < TOOL_HI[u]
    ensures t == u
  {
  }

  /** The end points of the intervals, and anything in the gaps between them, select nothing. */
  lemma BoundariesSelectNothing(y: int)
    ensures ToolAt(100, y).None? && ToolAt(250, y).None? && ToolAt(350, y).None? && ToolAt(500, y).None?
    ensures ToolAt(700, y).None? && ToolAt(850, y).None? && ToolAt(950, y).None? && ToolAt(1200, y).None?
    ensures ToolAt(300, y).None? && ToolAt(600, y).None? && ToolAt(900, y).None?
  {
  }

  datatype Mode = Selection | Drawing | Idle

  /**
   * Index and middle finger up: selection; index up and middle down:
   * drawing; anything else, nothing. Selection is checked first.
   */
  function ModeOf(fingerStates: seq<int>): (m: Mode)
    requires |fingerStates| >= 3
    ensures m == Selection <==> fingerStates[1] == 1 && fingerStates[2] == 1
    ensures m == Drawing <==> fingerStates[1] == 1 && fingerStates[2] == 0
    ensures m == Idle <==> fingerStates[1] != 1 || (fingerStates[2] != 0 && fingerStates[2] != 1)
  {
    if fingerStates[1] == 1 && fingerStates[2] == 1 then Selection
    else if fingerStates[1] == 1 && fingerStates[2] == 0 then Drawing
    else Idle
  }

  /** The stroke is 20 wider with the eraser than with a pen. */
  function StrokeWidth(color: Color): (w: int)
    ensures color == ERASER ==> w == PEN_THICKNESS + 20
    ensures color != ERASER ==> w == PEN_THICKNESS
  {
    if color == ERASER then PEN_THICKNESS + 20 else PEN_THICKNESS
  }

  /** The eraser stroke is the only wide one: every pen colour but the last draws 15 wide. */
  lemma OnlyEraserIsWide(t: nat)
    requires t < 4
    ensures StrokeWidth(TOOL_COLORS[t]) == (if t == 3 then 35 else 15)
  {
  }

  class Painter {
    /** Which of the four menu bitmaps is shown (`menu = menus[menuIndex]`). */
    var menuIndex: nat
    var color: Color
    /** Never reassigned by the loop: line 73 assigns `xp, yp` instead. */
    var prevX: int
    var prevY: int
    /** `imgCanvas`: the strokes drawn so far. */
    var canvas: Image

    /** The menu and the colour always belong to the same tool. */
    ghost predicate Valid()
      reads this
    {
      menuIndex < 4 && color == TOOL_COLORS[menuIndex]
    }

    constructor()
      ensures Valid()
      ensures menuIndex == 0 && color == Color(255, 216, 0)
      ensures prevX == -1 && prevY == -1 && canvas == []
    {
      menuIndex := 0;
      color := Color(255, 216, 0);
      prevX, prevY := -1, -1;
      canvas := [];
    }

    /**
     * One pass of the camera loop after the flip: `findHands` with the
     * default detector, then, on the first hand only, the selection or
     * drawing rule driven by the given finger states, then the current
     * menu pasted in the corner.
     */
    method Step(image: Image, detected: seq<Subject>, fingerStates: seq<int>) returns (image': Image)
      requires Valid()
      requires |detected| > 0 ==> |detected[0]| > MIDDLE_TIP && |fingerStates| >= 3
      modifies this
      ensures Valid()
      ensures prevX == old(prevX) && prevY == old(prevY)
      ensures var overlays := image + DetectorOverlays(KeptCount(|detected|, DEFAULT_MAX_NUM_HANDS));
        if |detected| == 0 || ModeOf(fingerStates) == Idle then
          && menuIndex == old(menuIndex) && color == old(color) && canvas == old(canvas)
          && image' == overlays + [Pasted(menuIndex)]
        else
          var x1, y1 := detected[0][INDEX_TIP].px, detected[0][INDEX_TIP].py;
          var x2, y2 := detected[0][MIDDLE_TIP].px, detected[0][MIDDLE_TIP].py;
          if ModeOf(fingerStates) == Selection then
            && menuIndex == (match ToolAt(x1, y1) case Some(t) => t case None => old(menuIndex))
            && color == TOOL_COLORS[menuIndex]
            && canvas == old(canvas)
            && image' == overlays + [Rectangle(Coord(x1, y1 - 25), Coord(x2, y2 + 25), color, FILLED),
                                     Pasted(menuIndex)]
          else
            var stroke := Line(Coord(prevX, prevY), Coord(x1, y1), color, StrokeWidth(color));
            && menuIndex == old(menuIndex) && color == old(color)
            && canvas == old(canvas) + [stroke]
            && image' == overlays + [Circle(Coord(x1, y1), 15, color, FILLED), stroke, Pasted(menuIndex)]
    {
      var hands;
      image', hands := FindHands(image, detected, DEFAULT_MAX_NUM_HANDS);
      if |hands| > 0 {
        var hand := hands[0];
        var x1, y1 := hand[INDEX_TIP].x, hand[INDEX_TIP].y;
        var x2, y2 := hand[MIDDLE_TIP].x, hand[MIDDLE_TIP].y;
        if fingerStates[1] == 1 && fingerStates[2] == 1 {
          if y1 < MENU_BAR_HEIGHT {
            if 100 < x1 < 250 {
              menuIndex, color := 0, Color(255, 216, 0);
            } else if 350 < x1 < 500 {
              menuIndex, color := 1, Color(0, 0, 255);
            } else if 700 < x1 < 850 {
              menuIndex, color := 2, Color(0, 255, 0);
            } else if 950 < x1 < 1200 {
              color, menuIndex := Color(0, 0, 0), 3;
            }
          }
          image' := image' + [Rectangle(Coord(x1, y1 - 25), Coord(x2, y2 + 25), color, FILLED)];
        } else if fingerStates[1] == 1 && fingerStates[2] == 0 {
          image' := image' + [Circle(Coord(x1, y1), 15, color, FILLED)];
          var width := if color == Color(0, 0, 0) then PEN_THICKNESS + 20 else PEN_THICKNESS;
          image' := image' + [Line(Coord(prevX, prevY), Coord(x1, y1), color, width)];
          canvas := canvas + [Line(Coord(prevX, prevY), Coord(x1, y1), color, width)];
        }
      }
      image' := image' + [Pasted(menuIndex)];
    }
  }

  /**
   * A selection gesture changes the tool only with a click in the menu bar
   * inside a button; without one the menu and colour stay as they were.
   */
  lemma SelectionNeedsClick(x: int, y: int)
    requires y >= MENU_BAR_HEIGHT || forall u :: 0 <= u < 4 ==> !(TOOL_LO[u] < x < TOOL_HI[u])
    ensures ToolAt(x, y).None?
  {
  }

  /** Each button selects its own tool, so every tool is reachable from any state. */
  lemma EveryToolSelectable(t: nat)
    requires t < 4
    ensures ToolAt((TOOL_LO[t] + TOOL_HI[t]) / 2, 0) == Some(t)
  {
  }
}
