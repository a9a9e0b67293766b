/**
 * The pointer and wheel handling of the canvas: a panning state machine that turns
 * successive pointer positions into screen deltas, and the normalisation of wheel
 * deltas into zoom deltas. The handlers the manager calls back are the caller's: the
 * click handler's answer comes in as a parameter, and what the manager would pass to
 * the panning, move and scroll handlers comes back as a result.
 */
module Interaction {

  /** What a pointer move leads to: a pan by a screen delta, or the move forwarded at the offset position. */
  datatype MoveOutcome = Panned(dx: real, dy: real) | Forwarded(x: real, y: real)

  /** The wheel's `deltaMode` value for lines (0 is pixels, 2 is pages). */
  const DomDeltaLine: int := 1

  /** The divisor of a wheel delta: -1 on macOS, -3 elsewhere; negative, so scrolling down zooms out. */
  function WheelFactor(isMacOS: bool): (f: real)
    ensures f < 0.0
    ensures isMacOS <==> f == -1.0
  {
    if isMacOS then -1.0 else -3.0
  }

  /**
   * The zoom delta of a wheel event: deltaY over the factor in line mode or with ctrl
   * held (a pinch), and a tenth of that for pixel and page deltas.
   */
  function WheelZoomDelta(isMacOS: bool, deltaY: real, deltaMode: int, ctrlKey: bool): (delta: real)
    ensures deltaMode == DomDeltaLine || ctrlKey ==> delta * WheelFactor(isMacOS) == deltaY
    ensures !(deltaMode == DomDeltaLine || ctrlKey) ==> delta * WheelFactor(isMacOS) * 10.0 == deltaY
    ensures deltaY > 0.0 ==> delta < 0.0
    ensures deltaY < 0.0 ==> delta > 0.0
    ensures deltaY == 0.0 ==> delta == 0.0
  {
    var factor := WheelFactor(isMacOS);
    if deltaMode == DomDeltaLine || ctrlKey then deltaY / factor else deltaY / (factor * 10.0)
  }

  /** A line or pinch delta zooms ten times as far as the same pixel delta. */
  lemma LineDeltaIsTenPixelDeltas(isMacOS: bool, deltaY: real)
    ensures WheelZoomDelta(isMacOS, deltaY, DomDeltaLine, false)
         == 10.0 * WheelZoomDelta(isMacOS, deltaY, 0, false)
  {
  }

  /** The same wheel delta zooms three times as far on macOS as elsewhere. */
  lemma MacZoomsThreeTimesFaster(deltaY: real, deltaMode: int, ctrlKey: bool)
    ensures WheelZoomDelta(true, deltaY, deltaMode, ctrlKey) == 3.0 * WheelZoomDelta(false, deltaY, deltaMode, ctrlKey)
  {
  }

  class InteractionManager {
    /** Whether the host is a Mac, which the source reads from the user agent. */
    const isMacOS: bool
    /** The panning state: whether a drag is on, and the client position it last reported from. */
    var active: bool
    var startX: real
    var startY: real

    /** A manager that is not panning, anchored at (0, 0). */
    constructor (isMacOS: bool)
      ensures this.isMacOS == isMacOS
      ensures !active && startX == 0.0 && startY == 0.0
    {
      this.isMacOS := isMacOS;
      active := false;
      startX := 0.0;
      startY := 0.0;
    }

    /**
     * onPointerDown: a press the click handler consumed changes nothing; any other press
     * starts panning, anchored at the client position.
     */
    method OnPointerDown(clickHandled: bool, clientX: real, clientY: real)
      modifies this`active, this`startX, this`startY
      ensures clickHandled ==> active == old(active) && startX == old(startX) && startY == old(startY)
      ensures !clickHandled ==> active && startX == clientX && startY == clientY
    {
      if clickHandled {
        return;
      }
      active := true;
      startX := clientX;
      startY := clientY;
    }

    /** onPointerUp: panning stops; the anchor stays where it was. */
    method OnPointerUp()
      modifies this`active
      ensures !active
    {
      active := false;
    }

    /**
     * onPointerMove: while panning, the move reports its offset from the anchor and
     * becomes the new anchor; otherwise it is forwarded at its offset position and the
     * panning state is left alone.
     */
    method OnPointerMove(offsetX: real, offsetY: real, clientX: real, clientY: real) returns (outcome: MoveOutcome)
      modifies this`startX, this`startY
      ensures old(active) ==> outcome == Panned(clientX - old(startX), clientY - old(startY))
      ensures old(active) ==> startX == clientX && startY == clientY
      ensures !old(active) ==> outcome == Forwarded(offsetX, offsetY)
      ensures !old(active) ==> startX == old(startX) && startY == old(startY)
    {
      if active {
        var dx := clientX - startX;
        var dy := clientY - startY;
        startX := clientX;
        startY := clientY;
        outcome := Panned(dx, dy);
      } else {
        outcome := Forwarded(offsetX, offsetY);
      }
    }

    /** onWheel: the zoom delta handed to the scroll handler, with the offset position. */
    function OnWheel(deltaY: real, deltaMode: int, ctrlKey: bool): (delta: real)
      ensures deltaMode == DomDeltaLine || ctrlKey ==> delta * WheelFactor(isMacOS) == deltaY
      ensures !(deltaMode == DomDeltaLine || ctrlKey) ==> delta * WheelFactor(isMacOS) * 10.0 == deltaY
      ensures (deltaY > 0.0 ==> delta < 0.0) && (deltaY < 0.0 ==> delta > 0.0) && (deltaY == 0.0 ==> delta == 0.0)
    {
      WheelZoomDelta(isMacOS, deltaY, deltaMode, ctrlKey)
    }
  }

  /* ---------- A whole drag ---------- */

  /**
   * The deltas a drag reports: pressed at `down`, then moved through `moves`, each move
   * reporting its offset from the previous position.
   */
  function DragDeltas(down: real, moves: seq<real>): (ds: seq<real>)
    ensures |ds| == |moves|
    decreases |moves|
  {
    if |moves| == 0 then []
    else DragDeltas(down, moves[..|moves| - 1]) + [moves[|moves| - 1] - Last(down, moves[..|moves| - 1])]
  }

  /** The position the pointer was last reported at. */
  function Last(down: real, moves: seq<real>): real {
    if |moves| == 0 then down else moves[|moves| - 1]
  }

  function Sum(ds: seq<real>): real
    decreases |ds|
  {
    if |ds| == 0 then 0.0 else Sum(ds[..|ds| - 1]) + ds[|ds| - 1]
  }

  /** The deltas of a drag add up to the final position minus the press position. */
  lemma {:induction false} DragDeltasTelescope(down: real, moves: seq<real>)
    ensures Sum(DragDeltas(down, moves)) == Last(down, moves) - down
    decreases |moves|
  {
    if |moves| > 0 {
      var init := moves[..|moves| - 1];
      DragDeltasTelescope(down, init);
      assert DragDeltas(down, moves)[..|moves| - 1] == DragDeltas(down, init);
    }
  }

  /**
   * One panning drag through the manager: a press at (downX, downY) that the click
   * handler does not consume, then a move to each (xs[i], ys[i]). Every move is a pan,
   * the reported deltas are DragDeltas on each axis, and they add up to the last
   * position minus the press.
   */
  method DragThrough(m: InteractionManager, downX: real, downY: real, xs: seq<real>, ys: seq<real>)
    returns (dxs: seq<real>, dys: seq<real>)
    requires |xs| == |ys|
    modifies m`active, m`startX, m`startY
    ensures dxs == DragDeltas(downX, xs) && dys == DragDeltas(downY, ys)
    ensures Sum(dxs) == Last(downX, xs) - downX && Sum(dys) == Last(downY, ys) - downY
    ensures m.active && m.startX == Last(downX, xs) && m.startY == Last(downY, ys)
  {
    m.OnPointerDown(false, downX, downY);
    dxs, dys := [], [];
    var i := 0;
    while i < |xs|
      invariant 0 <= i <= |xs|
      invariant m.active
      invariant m.startX == Last(downX, xs[..i]) && m.startY == Last(downY, ys[..i])
      invariant dxs == DragDeltas(downX, xs[..i]) && dys == DragDeltas(downY, ys[..i])
      decreases |xs| - i
    {
      assert xs[..i + 1][..i] == xs[..i];
      assert ys[..i + 1][..i] == ys[..i];
      var outcome := m.OnPointerMove(xs[i], ys[i], xs[i], ys[i]);
      dxs := dxs + [outcome.dx];
      dys := dys + [outcome.dy];
      i := i + 1;
    }
    assert xs[..i] == xs;
    assert ys[..i] == ys;
    DragDeltasTelescope(downX, xs);
    DragDeltasTelescope(downY, ys);
  }
}
