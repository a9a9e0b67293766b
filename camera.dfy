/**
 * The camera: a position and a zoom with a rotation fixed at 0, a panning state, a zoom
 * clamped to its bounds about a screen pivot, and a transform cached behind a dirty flag.
 */
module Cameras {
  import opened Wrappers
  import opened Geometry

  /**
   * translate(position) · rotate(0) · scale(zoom, zoom). A rotation by 0 degrees is the
   * exact identity, so the transform needs no host math.
   */
  function CameraTransform(position: Vec2, zoom: real): Affine {
    Affine(zoom, 0.0, 0.0, zoom, position.x, position.y)
  }

  /** The world origin is shown at the camera position, and the matrix is invertible exactly when the zoom is not 0. */
  lemma CameraTransformInvertible(position: Vec2, zoom: real)
    ensures CameraTransform(position, zoom).Apply(Vec2(0.0, 0.0)) == position
    ensures CameraTransform(position, zoom).Det() == zoom * zoom
    ensures CameraTransform(position, zoom).Det() != 0.0 <==> zoom != 0.0
  {
  }

  /** The matrix getter's translate · rotate(0) · scale, on a host whose cos 0 is 1 and sin 0 is 0. */
  lemma CameraTransformIsMatrixGetter(math: HostMath, position: Vec2, zoom: real)
    requires math.cos(0.0) == 1.0 && math.sin(0.0) == 0.0
    ensures TranslateRotateScale(math, position, 0.0, Vec2(zoom, zoom)) == CameraTransform(position, zoom)
  {
    assert DegToRad(math, 0.0) == 0.0;
  }

  /** The screen point s seen through the camera: (s - position) / zoom. */
  function ScreenToWorld(position: Vec2, zoom: real, s: Vec2): (w: Vec2)
    requires zoom != 0.0
    ensures CameraTransform(position, zoom).Apply(w) == s
  {
    var w := Vec2((s.x - position.x) / zoom, (s.y - position.y) / zoom);
    assert zoom * w.x == s.x - position.x;
    assert zoom * w.y == s.y - position.y;
    w
  }

  /** It is the camera matrix's `inverse()` applied to s, and the only world point shown at s. */
  lemma {:induction false} ScreenToWorldIsInverse(position: Vec2, zoom: real, s: Vec2, w: Vec2)
    requires zoom != 0.0
    ensures CameraTransform(position, zoom).Det() != 0.0
    ensures CameraTransform(position, zoom).Inverse().Apply(s) == ScreenToWorld(position, zoom, s)
    ensures CameraTransform(position, zoom).Apply(w) == s ==> w == ScreenToWorld(position, zoom, s)
  {
    var m := CameraTransform(position, zoom);
    assert m.Det() == zoom * zoom;
    var v := ScreenToWorld(position, zoom, s);
    InverseRoundTrips(m, v);
    InverseRoundTrips(m, w);
  }

  /** `Math.max(minZoom, Math.min(next, maxZoom))`. */
  function ClampZoom(next: real, minZoom: real, maxZoom: real): (z: real)
    ensures minZoom <= maxZoom ==> minZoom <= z <= maxZoom
    ensures minZoom <= next <= maxZoom ==> z == next
    ensures next <= minZoom ==> z == minZoom
    ensures maxZoom <= next && minZoom <= maxZoom ==> z == maxZoom
  {
    Max(minZoom, Min(next, maxZoom))
  }

  /**
   * The position that puts the world point `w` under the screen point `s` at zoom
   * `nextZoom`: s = nextZoom · w + position.
   */
  function PivotPosition(w: Vec2, s: Vec2, nextZoom: real): (p: Vec2)
    ensures CameraTransform(p, nextZoom).Apply(w) == s
  {
    Vec2(s.x - w.x * nextZoom, s.y - w.y * nextZoom)
  }

  /**
   * With an up-to-date cache the zoom is about the true world point: whatever lay under
   * `s` before the zoom lies under `s` after it.
   */
  lemma {:induction false} FreshZoomKeepsWorldPoint(position: Vec2, zoom: real, nextZoom: real, s: Vec2, w: Vec2)
    requires zoom != 0.0
    requires CameraTransform(position, zoom).Apply(w) == s
    ensures CameraTransform(PivotPosition(ScreenToWorld(position, zoom, s), s, nextZoom), nextZoom).Apply(w) == s
  {
    ScreenToWorldIsInverse(position, zoom, s, w);
  }

  /** The fields a camera exposes, for stating what a call leaves alone. */
  datatype CameraView = CameraView(
    position: Vec2, zoom: real, isPanning: bool, lastPointerPosition: Option<Vec2>, matrixNeedsUpdate: bool)

  class Camera {
    var position: Vec2
    var zoom: real
    const minZoom: real
    const maxZoom: real
    /** The `_matrix` cache, held as the position and zoom it was computed from. */
    var cachedPosition: Vec2
    var cachedZoom: real
    var matrixNeedsUpdate: bool
    var isPanning: bool
    /** The screen point of the last pan step; absent when not panning. */
    var lastPointerPosition: Option<Vec2>

    /** The cache is the transform whenever it is not marked stale; panning always has an anchor. */
    ghost predicate Valid()
      reads this
    {
      && (!matrixNeedsUpdate ==> cachedPosition == position && cachedZoom == zoom)
      && (isPanning <==> lastPointerPosition.Some?)
    }

    function Transform(): Affine
      reads this`position, this`zoom
    {
      CameraTransform(position, zoom)
    }

    /** The cached `_matrix`. */
    function CachedMatrix(): Affine
      reads this
    {
      CameraTransform(cachedPosition, cachedZoom)
    }

    function View(): CameraView
      reads this
    {
      CameraView(position, zoom, isPanning, lastPointerPosition, matrixNeedsUpdate)
    }

    /** Defaults: position (0, 0), zoom 1, bounds [0.1, 10]; the cache starts as the identity, marked stale. */
    constructor (position: Vec2 := Vec2(0.0, 0.0), zoom: real := 1.0, minZoom: real := 0.1, maxZoom: real := 10.0)
      ensures Valid()
      ensures View() == CameraView(position, zoom, false, None, true)
      ensures this.minZoom == minZoom && this.maxZoom == maxZoom
      ensures CachedMatrix() == Affine(1.0, 0.0, 0.0, 1.0, 0.0, 0.0)
    {
      this.position := position;
      this.zoom := zoom;
      this.minZoom := minZoom;
      this.maxZoom := maxZoom;
      cachedPosition := Vec2(0.0, 0.0);
      cachedZoom := 1.0;
      matrixNeedsUpdate := true;
      isPanning := false;
      lastPointerPosition := None;
    }

    method BeginPanning(screenX: real, screenY: real)
      requires Valid()
      modifies this`isPanning, this`lastPointerPosition
      ensures Valid()
      ensures View() == old(View()).(isPanning := true, lastPointerPosition := Some(Vec2(screenX, screenY)))
    {
      lastPointerPosition := Some(Vec2(screenX, screenY));
      isPanning := true;
    }

    method EndPanning()
      requires Valid()
      modifies this`isPanning, this`lastPointerPosition
      ensures Valid()
      ensures View() == old(View()).(isPanning := false, lastPointerPosition := None)
    {
      lastPointerPosition := None;
      isPanning := false;
    }

    /** moveBy: shifts the position by `delta` and marks the transform stale. */
    method MoveBy(delta: Vec2)
      requires Valid()
      modifies this`position, this`matrixNeedsUpdate
      ensures Valid()
      ensures View() == old(View()).(position := old(position).Add(delta), matrixNeedsUpdate := true)
    {
      position := position.Add(delta);
      matrixNeedsUpdate := true;
    }

    /**
     * panTo: while panning, moves by the screen distance from the anchor and re-anchors at
     * the new point; otherwise nothing changes.
     */
    method PanTo(screenX: real, screenY: real)
      requires Valid()
      modifies this`position, this`matrixNeedsUpdate, this`lastPointerPosition
      ensures Valid()
      ensures !old(isPanning) ==> View() == old(View())
      ensures old(isPanning) ==>
        View() == old(View()).(
          position := old(position).Add(Vec2(screenX, screenY).Sub(old(lastPointerPosition).value)),
          lastPointerPosition := Some(Vec2(screenX, screenY)),
          matrixNeedsUpdate := true)
    {
      if !isPanning || lastPointerPosition.None? {
        return;
      }
      var dx := screenX - lastPointerPosition.value.x;
      var dy := screenY - lastPointerPosition.value.y;
      MoveBy(Vec2(dx, dy));
      lastPointerPosition := Some(Vec2(screenX, screenY));
    }

    /** The `matrix` getter: recomputed only when stale, otherwise the cached value. */
    method Matrix() returns (m: Affine)
      requires Valid()
      modifies this`cachedPosition, this`cachedZoom, this`matrixNeedsUpdate
      ensures Valid() && !matrixNeedsUpdate
      ensures m == Transform() && m == CachedMatrix()
      ensures m.a == zoom && m.d == zoom && m.b == 0.0 && m.c == 0.0 && m.e == position.x && m.f == position.y
      ensures !old(matrixNeedsUpdate) ==> m == old(CachedMatrix())
    {
      if matrixNeedsUpdate {
        cachedPosition, cachedZoom := position, zoom;
        matrixNeedsUpdate := false;
      }
      m := CameraTransform(cachedPosition, cachedZoom);
    }

    /** setZoom: stores the zoom as given, without clamping, and marks the transform stale. */
    method SetZoom(z: real)
      requires Valid()
      modifies this`zoom, this`matrixNeedsUpdate
      ensures Valid()
      ensures View() == old(View()).(zoom := z, matrixNeedsUpdate := true)
    {
      zoom := z;
      matrixNeedsUpdate := true;
    }

    /**
     * adjustZoomWithBounds: the zoom moves by delta / 40, clamped to the bounds. An
     * unchanged zoom changes nothing; otherwise the position is chosen so that the screen
     * point keeps the world point that the CACHED transform puts under it, which is the
     * true world point only when the cache is up to date.
     */
    method AdjustZoomWithBounds(zoomDelta: real, screenX: real, screenY: real)
      requires Valid()
      requires ClampZoom(zoom + zoomDelta / 40.0, minZoom, maxZoom) != zoom ==> cachedZoom != 0.0
      modifies this`position, this`zoom, this`matrixNeedsUpdate
      ensures Valid()
      ensures var next := ClampZoom(old(zoom) + zoomDelta / 40.0, minZoom, maxZoom);
        if next == old(zoom) then View() == old(View())
        else View() == old(View()).(
               position := PivotPosition(ScreenToWorld(cachedPosition, cachedZoom, Vec2(screenX, screenY)), Vec2(screenX, screenY), next),
               zoom := next,
               matrixNeedsUpdate := true)
      ensures minZoom <= maxZoom ==> minZoom <= zoom <= maxZoom || zoom == old(zoom)
      ensures zoom != old(zoom) && !old(matrixNeedsUpdate) ==>
        position == PivotPosition(ScreenToWorld(old(position), old(zoom), Vec2(screenX, screenY)), Vec2(screenX, screenY), zoom)
    {
      var currentZoom := zoom;
      var nextZoom := currentZoom + zoomDelta / 40.0;
      nextZoom := Max(minZoom, Min(nextZoom, maxZoom));
      if nextZoom == currentZoom {
        return;
      }
      var screenPoint := Vec2(screenX, screenY);
      var worldPoint := ScreenToWorld(cachedPosition, cachedZoom, screenPoint);
      position := Vec2(screenX - worldPoint.x * nextZoom, screenY - worldPoint.y * nextZoom);
      zoom := nextZoom;
      matrixNeedsUpdate := true;
    }
  }

  /** The pan steps of one drag telescope: the camera moves by the last point minus the first. */
  function PanSum(points: seq<Vec2>): (d: Vec2)
    requires |points| >= 1
    decreases |points|
  {
    if |points| == 1 then Vec2(0.0, 0.0)
    else PanSum(points[..|points| - 1]).Add(points[|points| - 1].Sub(points[|points| - 2]))
  }

  lemma {:induction false} PanSumTelescopes(points: seq<Vec2>)
    requires |points| >= 1
    ensures PanSum(points) == points[|points| - 1].Sub(points[0])
    decreases |points|
  {
    if |points| > 1 {
      PanSumTelescopes(points[..|points| - 1]);
    }
  }

  /**
   * One pan drag as the preview canvas drives it: beginPanning at the first point, then
   * panTo through the rest. The camera moves by the sum of the steps, which is the last
   * point minus the first, and stays anchored at the last point.
   */
  method PanThrough(camera: Camera, points: seq<Vec2>)
    requires camera.Valid()
    requires |points| >= 1
    modifies camera`position, camera`matrixNeedsUpdate, camera`isPanning, camera`lastPointerPosition
    ensures camera.Valid()
    ensures camera.position == old(camera.position).Add(PanSum(points))
    ensures camera.position == old(camera.position).Add(points[|points| - 1].Sub(points[0]))
    ensures camera.zoom == old(camera.zoom)
    ensures camera.isPanning && camera.lastPointerPosition == Some(points[|points| - 1])
  {
    camera.BeginPanning(points[0].x, points[0].y);
    var i := 1;
    while i < |points|
      invariant 1 <= i <= |points|
      invariant camera.Valid()
      invariant camera.isPanning && camera.lastPointerPosition == Some(points[i - 1])
      invariant camera.position == old(camera.position).Add(PanSum(points[..i]))
      invariant camera.zoom == old(camera.zoom)
      decreases |points| - i
    {
      assert points[..i + 1][..i] == points[..i];
      camera.PanTo(points[i].x, points[i].y);
      i := i + 1;
    }
    assert points[..i] == points;
    PanSumTelescopes(points);
  }
}
