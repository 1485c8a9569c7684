/**
 * The split between the primary and the pinned log pane, from frontend/src/Dock.tsx: a ratio kept per
 * workspace, clamped when it is rendered, and set by dragging the divider. Widths and ratios are reals.
 */
module PaneSplit {
  import opened Text

  const RAIL_DIVIDER_WIDTH_PX: real := 6.0
  const PANE_DIVIDER_WIDTH_PX: real := 6.0

  function Min(a: real, b: real): real { if a < b then a else b }
  function Max(a: real, b: real): real { if a < b then b else a }

  /** `Math.round`: halves go up. */
  function Round(x: real): int { (x + 0.5).Floor }

  function StackedThreshold(rail: real, minWidth: real): real {
    rail + RAIL_DIVIDER_WIDTH_PX + minWidth
  }

  function TwoPaneThreshold(rail: real, minWidth: real): real {
    rail + RAIL_DIVIDER_WIDTH_PX + 2.0 * minWidth + PANE_DIVIDER_WIDTH_PX
  }

  /** The pinned pane is shown: something is pinned, and the dock is wide enough and not stacked. */
  predicate ShowsPinned(pinned: bool, width: real, rail: real, minWidth: real) {
    pinned && !(width < StackedThreshold(rail, minWidth)) && width >= TwoPaneThreshold(rail, minWidth)
  }

  function PaneArea(width: real, rail: real, shown: bool): real {
    Max(0.0, width - rail - RAIL_DIVIDER_WIDTH_PX - (if shown then PANE_DIVIDER_WIDTH_PX else 0.0))
  }

  function FloorRatio(area: real, minWidth: real): real {
    if area > 0.0 then Min(0.5, minWidth / area) else 0.5
  }

  function EffectiveRatio(ratio: real, area: real, minWidth: real): real {
    var floor := FloorRatio(area, minWidth);
    Min(Max(ratio, floor), 1.0 - floor)
  }

  function EffectivePx(ratio: real, area: real, minWidth: real): int {
    Round(EffectiveRatio(ratio, area, minWidth) * area)
  }

  // ----- Both panes keep their minimum width -----

  /**
   * The pinned pane is shown exactly when something is pinned and, beside the rail and the two dividers
   * of six pixels each, both panes have room for their minimum.
   */
  lemma ShownIff(pinned: bool, width: real, rail: real, minWidth: real)
    requires minWidth >= 0.0
    ensures ShowsPinned(pinned, width, rail, minWidth) <==> pinned && width - rail - 6.0 - 6.0 >= 2.0 * minWidth
    ensures ShowsPinned(pinned, width, rail, minWidth) ==> PaneArea(width, rail, true) == width - rail - 12.0
    ensures PaneArea(width, rail, false) == if width >= rail + 6.0 then width - rail - 6.0 else 0.0
  {}

  lemma ShownLeavesRoom(width: real, rail: real, minWidth: real)
    requires ShowsPinned(true, width, rail, minWidth) && minWidth > 0.0
    ensures PaneArea(width, rail, true) >= 2.0 * minWidth
  {}

  /** Before rounding, the primary pane is between the minimum and the area less the minimum. */
  lemma UnroundedBounds(ratio: real, area: real, minWidth: real)
    requires minWidth > 0.0 && area >= 2.0 * minWidth
    ensures minWidth <= EffectiveRatio(ratio, area, minWidth) * area <= area - minWidth
  {
    var floor := FloorRatio(area, minWidth);
    assert floor == minWidth / area && floor * area == minWidth;
    var e := EffectiveRatio(ratio, area, minWidth);
    assert floor <= e <= 1.0 - floor;
    MulKeepsOrder(floor, e, area);
    MulKeepsOrder(e, 1.0 - floor, area);
  }

  lemma MulKeepsOrder(a: real, b: real, c: real)
    requires a <= b && c >= 0.0
    ensures a * c <= b * c
  {}

  lemma RoundKeepsOrder(a: real, b: real)
    requires a <= b
    ensures Round(a) <= Round(b)
    ensures a - 0.5 <= Round(a) as real <= a + 0.5
  {}

  /** Dragged or stored to its lowest, the primary pane renders at the rounded minimum; to its highest, likewise. */
  lemma ExtremesReached(area: real, minWidth: real)
    requires minWidth > 0.0 && area >= 2.0 * minWidth
    ensures var low := minWidth / area / 2.0;
            0.0 < low < 1.0 && EffectivePx(low, area, minWidth) == Round(minWidth)
    ensures var high := 1.0 - minWidth / area / 2.0;
            0.0 < high < 1.0 && EffectivePx(high, area, minWidth) == Round(area - minWidth)
  {
    var floor := minWidth / area;
    assert floor * area == minWidth;
    assert 0.0 < floor <= 0.5 by {
      if floor > 0.5 { MulKeepsOrder(0.5, floor, area); }
    }
    assert (1.0 - floor) * area == area - minWidth;
  }

  predicate BothFit(px: int, area: real, minWidth: real) {
    minWidth <= px as real && minWidth <= area - px as real
  }

  ghost predicate AlwaysFits(area: real, minWidth: real) {
    forall ratio: real :: 0.0 < ratio < 1.0 ==> BothFit(EffectivePx(ratio, area, minWidth), area, minWidth)
  }

  /**
   * Whenever there is room, both panes get the minimum width for every stored ratio exactly when
   * rounding does not push the two extreme positions outwards.
   */
  lemma AlwaysFitsIff(area: real, minWidth: real)
    requires minWidth > 0.0 && area >= 2.0 * minWidth
    ensures AlwaysFits(area, minWidth) <==>
            minWidth <= Round(minWidth) as real && Round(area - minWidth) as real <= area - minWidth
  {
    ExtremesReached(area, minWidth);
    var low, high := minWidth / area / 2.0, 1.0 - minWidth / area / 2.0;
    if AlwaysFits(area, minWidth) {
      assert BothFit(EffectivePx(low, area, minWidth), area, minWidth);
      assert BothFit(EffectivePx(high, area, minWidth), area, minWidth);
    }
    if minWidth <= Round(minWidth) as real && Round(area - minWidth) as real <= area - minWidth {
      forall ratio: real | 0.0 < ratio < 1.0
        ensures BothFit(EffectivePx(ratio, area, minWidth), area, minWidth)
      {
        UnroundedBounds(ratio, area, minWidth);
        var x := EffectiveRatio(ratio, area, minWidth) * area;
        RoundKeepsOrder(minWidth, x);
        RoundKeepsOrder(x, area - minWidth);
      }
    }
  }

  /** With integer widths both panes always fit while the pinned pane is shown. */
  lemma BothPanesFit(ratio: real, width: int, rail: int, minWidth: int)
    requires 0.0 < ratio < 1.0 && minWidth > 0 && ShowsPinned(true, width as real, rail as real, minWidth as real)
    ensures var area := PaneArea(width as real, rail as real, true);
            BothFit(EffectivePx(ratio, area, minWidth as real), area, minWidth as real)
  {
    ShownLeavesRoom(width as real, rail as real, minWidth as real);
    var area := PaneArea(width as real, rail as real, true);
    assert area == (width - rail - 12) as real;
    RoundInt(minWidth);
    RoundInt(width - rail - 12 - minWidth);
    AlwaysFitsIff(area, minWidth as real);
    assert AlwaysFits(area, minWidth as real);
  }

  lemma RoundInt(n: int)
    ensures Round(n as real) == n
  {}

  lemma FloorOfShift(area: real, n: int)
    ensures (area - n as real).Floor == area.Floor - n
  {}

  /**
   * The minimum is rounded up to an integer, the measured width is not. With an integer minimum both
   * panes fit for every ratio exactly when the pane area's fraction is below one half.
   */
  lemma IntegerMinimumFitsIff(area: real, minWidth: int)
    requires minWidth > 0 && area >= 2.0 * minWidth as real
    ensures AlwaysFits(area, minWidth as real) <==> area < area.Floor as real + 0.5
  {
    AlwaysFitsIff(area, minWidth as real);
    RoundInt(minWidth);
    FloorOfShift(area + 0.5, minWidth);
    assert (area + 0.5).Floor == if area < area.Floor as real + 0.5 then area.Floor else area.Floor + 1;
  }

  /** A dock measured 512.7 wide shows both panes, and dragged to the far end the pinned one gets 99.7 of its 100. */
  lemma FractionalWidthMissed()
    ensures ShowsPinned(true, 512.7, 200.0, 100.0) && PaneArea(512.7, 200.0, true) == 300.7
    ensures !AlwaysFits(300.7, 100.0)
    ensures exists ratio :: 0.0 < ratio < 1.0 && EffectivePx(ratio, 300.7, 100.0) == 201
  {
    assert 300.7.Floor == 300;
    IntegerMinimumFitsIff(300.7, 100);
    ExtremesReached(300.7, 100.0);
    assert Round(200.7) == 201;
  }

  // ----- Dragging and remembering -----

  /** A divider position that leaves both panes their minimum renders where it was dropped, to the pixel. */
  lemma DragRendersWhereDropped(px: real, area: real, minWidth: real)
    requires minWidth > 0.0 && minWidth <= px && minWidth <= area - px
    ensures 0.0 < px / area < 1.0
    ensures EffectivePx(px / area, area, minWidth) == Round(px)
  {
    var ratio := px / area;
    var floor := minWidth / area;
    DivKeepsOrder(minWidth, px, area);
    DivKeepsOrder(px, area - minWidth, area);
    DivSplits(area, minWidth);
    assert 0.0 < floor <= ratio <= 1.0 - floor;
    assert ratio * area == px;
    assert EffectiveRatio(ratio, area, minWidth) == ratio;
  }

  lemma DivKeepsOrder(a: real, b: real, c: real)
    requires a <= b && c > 0.0
    ensures a / c <= b / c
  {}

  lemma DivSplits(area: real, minWidth: real)
    requires area > 0.0 && minWidth > 0.0
    ensures (area - minWidth) / area == 1.0 - minWidth / area
    ensures minWidth / area > 0.0
  {
    var floor := minWidth / area;
    assert floor * area == minWidth;
    assert (1.0 - floor) * area == area - minWidth;
    DivUndoesMul(1.0 - floor, area - minWidth, area);
  }

  lemma DivUndoesMul(a: real, b: real, c: real)
    requires c > 0.0 && a * c == b
    ensures b / c == a
  {
    assert b / c * c == b;
  }

  /** `useDragResize`: the start value plus the pointer's travel, clamped. */
  function DragTo(startPx: real, travel: real, minWidth: real, maxWidth: real): real {
    Min(Max(startPx + travel, minWidth), Max(minWidth, maxWidth))
  }

  /** The stored ratio of a workspace, or an even split when there is none or it is not in (0, 1). */
  function ReadRatio(stored: map<int, real>, workspace: Option<int>): (r: real)
    ensures 0.0 < r < 1.0
    ensures workspace.None? || workspace.value !in stored ==> r == 0.5
    ensures workspace.Some? && workspace.value in stored ==>
              if stored[workspace.value] <= 0.0 || stored[workspace.value] >= 1.0 then r == 0.5 else r == stored[workspace.value]
  {
    if workspace.Some? && workspace.value in stored && 0.0 < stored[workspace.value] < 1.0 then stored[workspace.value]
    else 0.5
  }

  class Splitter {
    var workspace: Option<int>
    var stored: map<int, real>
    var ratio: real
    var dragged: bool
    var width: real
    var rail: real
    var minWidth: real

    ghost predicate Valid()
      reads this
    {
      0.0 < ratio < 1.0 && minWidth > 0.0
    }

    constructor (workspace: Option<int>, stored: map<int, real>, width: real, rail: real, minWidth: real)
      requires minWidth > 0.0
      ensures Valid() && this.workspace == workspace && this.stored == stored && ratio == ReadRatio(stored, workspace)
      ensures this.width == width && this.rail == rail && this.minWidth == minWidth && !dragged
    {
      this.workspace, this.stored, this.width, this.rail, this.minWidth := workspace, stored, width, rail, minWidth;
      ratio, dragged := ReadRatio(stored, workspace), false;
    }

    function Area(): real
      reads this
    {
      PaneArea(width, rail, ShowsPinned(true, width, rail, minWidth))
    }

    function Px(): int
      reads this
    {
      EffectivePx(ratio, Area(), minWidth)
    }

    /** Resizing the dock degrades what is shown, not the ratio that is kept. */
    method Resize(next: real)
      requires Valid()
      modifies this`width
      ensures Valid() && width == next
    {
      width := next;
    }

    method SwitchWorkspace(next: Option<int>)
      requires Valid()
      modifies this`workspace, this`ratio
      ensures Valid() && workspace == next && ratio == ReadRatio(stored, next)
    {
      workspace := next;
      ratio := ReadRatio(stored, next);
    }

    /** The width the drag hook reports for a pointer that travelled from where the drag started. */
    function Dragged(startPx: real, travel: real): real
      reads this
    {
      DragTo(startPx, travel, minWidth, Area() - minWidth)
    }

    /** One mouse move of a divider drag while both panes are shown. */
    method DragMove(startPx: real, travel: real)
      requires Valid() && ShowsPinned(true, width, rail, minWidth)
      modifies this`ratio, this`dragged
      ensures Valid() && dragged && Px() == Round(Dragged(startPx, travel))
      ensures ratio == Dragged(startPx, travel) / Area()
      ensures var (px, max) := (startPx + travel, Area() - minWidth);
              Px() == Round(if px < minWidth then minWidth else if px > max then max else px)
    {
      var px := Dragged(startPx, travel);
      dragged := true;
      ShownLeavesRoom(width, rail, minWidth);
      DragRendersWhereDropped(px, Area(), minWidth);
      if Area() > 0.0 {
        ratio := px / Area();
      }
    }

    /** The end of the drag: stored for the active workspace, if the pointer moved at all. */
    method DragEnd(startPx: real, travel: real)
      requires Valid() && ShowsPinned(true, width, rail, minWidth)
      modifies this`dragged, this`stored
      ensures Valid() && !dragged
      ensures stored == if old(dragged) && workspace.Some?
                        then old(stored)[workspace.value := Dragged(startPx, travel) / Area()]
                        else old(stored)
      ensures old(dragged) && workspace.Some? ==> ReadRatio(stored, workspace) == Dragged(startPx, travel) / Area()
    {
      var px := Dragged(startPx, travel);
      var wasDragged := dragged;
      dragged := false;
      ShownLeavesRoom(width, rail, minWidth);
      DragRendersWhereDropped(px, Area(), minWidth);
      if Area() > 0.0 && wasDragged && workspace.Some? {
        stored := stored[workspace.value := px / Area()];
      }
    }
  }

  /** Drag, leave for another workspace, resize, and come back: the divider is where it was dropped. */
  method DropSurvives(s: Splitter, startPx: real, travel: real, other: Option<int>, narrow: real)
    requires s.Valid() && s.workspace.Some? && ShowsPinned(true, s.width, s.rail, s.minWidth)
    modifies s
    ensures s.Valid() && s.workspace == old(s.workspace) && s.width == old(s.width)
    ensures s.Px() == Round(s.Dragged(startPx, travel))
  {
    var home, wide := s.workspace, s.width;
    s.DragMove(startPx, travel);
    s.DragEnd(startPx, travel);
    s.Resize(narrow);
    s.SwitchWorkspace(other);
    s.Resize(wide);
    s.SwitchWorkspace(home);
    ShownLeavesRoom(s.width, s.rail, s.minWidth);
    DragRendersWhereDropped(s.Dragged(startPx, travel), s.Area(), s.minWidth);
  }
}
