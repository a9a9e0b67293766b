/**
 * The transformation tool wrapped around one selected element: it lays out the handles
 * in screen space, finds the handle under the pointer, and turns pointer drags into
 * rotations, translations and scalings of the element.
 */
module TransformationTools {
  import opened Wrappers
  import opened Geometry
  import opened SceneElements
  import opened Cameras
  import opened Handles

  class TransformationTool {
    const element: SceneElement
    const camera: Camera
    /** The handle list, refreshed only by `UpdateHandles`; between refreshes it can be stale. */
    var handles: seq<Handle>
    var hoveredHandle: Option<Handle>
    var activeHandle: Option<Handle>
    var rotationDrag: RotationDrag
    /** The translate drag's pointer offset from the element's centre, in world space. */
    var pointerOffset: Vec2
    var isTransformed: bool

    /** The handle list always holds every kind once, in layout order. */
    ghost predicate Valid()
      reads this`handles, element, camera
    {
      element.Valid() && camera.Valid() && InLayoutOrder(handles)
    }

    /** The current transform from the element's box to the screen: camera after element. */
    function Ctm(): Affine
      reads element`position, element`scale, element`rotation, camera`position, camera`zoom
    {
      camera.Transform().Multiply(element.WorldTransform())
    }

    /** The world point under the screen point `s`. */
    function WorldAt(s: Vec2): Vec2
      reads camera`position, camera`zoom
      requires camera.zoom != 0.0
    {
      ScreenToWorld(camera.position, camera.zoom, s)
    }

    /** Whether the world point under `s` lies in the element. */
    function InsideAt(s: Vec2): bool
      reads element`position, element`scale, element`rotation, camera`position, camera`zoom
      requires camera.zoom != 0.0
    {
      ContainsIn(element.WorldTransform(), element.size, WorldAt(s))
    }

    /** The tool starts idle, with default drags, and lays out its handles at once. */
    constructor (element: SceneElement, camera: Camera)
      requires element.Valid() && camera.Valid()
      modifies element`cachedMatrix, element`matrixNeedsUpdate
      modifies camera`cachedPosition, camera`cachedZoom, camera`matrixNeedsUpdate
      ensures Valid()
      ensures this.element == element && this.camera == camera
      ensures handles == HandleLayout(element.math, Ctm(), element.size)
      ensures hoveredHandle == None && activeHandle == None && !isTransformed
      ensures rotationDrag == RotationDrag(Vec2(0.0, 0.0), Vec2(0.0, 0.0), 0.0, 0.0)
      ensures pointerOffset == Vec2(0.0, 0.0)
      ensures element.State() == old(element.State())
      ensures camera.View() == old(camera.View()).(matrixNeedsUpdate := false)
    {
      this.element := element;
      this.camera := camera;
      hoveredHandle := None;
      activeHandle := None;
      rotationDrag := RotationDrag(Vec2(0.0, 0.0), Vec2(0.0, 0.0), 0.0, 0.0);
      pointerOffset := Vec2(0.0, 0.0);
      isTransformed := false;
      var ctm := CurrentCtm(camera, element);
      handles := HandleLayout(element.math, ctm, element.size);
    }

    /** getTransformedElement: the element once any drag has changed it, otherwise nothing. */
    function TransformedElement(): (r: Option<SceneElement>)
      reads this
      ensures r.Some? <==> isTransformed
      ensures r.Some? ==> r.value == element
    {
      if isTransformed then Some(element) else None
    }

    /** getCursor: the active handle's cursor, else the hovered handle's, else none. */
    function Cursor(): (r: Option<Cursor>)
      reads this
      ensures r.None? <==> activeHandle.None? && hoveredHandle.None?
      ensures activeHandle.Some? ==> r == Some(CursorOf(activeHandle.value.kind))
      ensures activeHandle.None? && hoveredHandle.Some? ==> r == Some(CursorOf(hoveredHandle.value.kind))
    {
      if activeHandle.Some? then Some(CursorOf(activeHandle.value.kind))
      else if hoveredHandle.Some? then Some(CursorOf(hoveredHandle.value.kind))
      else None
    }

    /**
     * updateHandles: the handles laid out through the current camera and element
     * matrices; every scale handle then sits at the screen image of its place in the box.
     */
    method UpdateHandles()
      requires Valid()
      modifies this`handles, element`cachedMatrix, element`matrixNeedsUpdate
      modifies camera`cachedPosition, camera`cachedZoom, camera`matrixNeedsUpdate
      ensures Valid()
      ensures handles == HandleLayout(element.math, Ctm(), element.size)
      ensures forall i :: 0 <= i < |handles| && handles[i].kind.IsScale() ==>
                handles[i].position == Ctm().Apply(LocalPosition(handles[i].kind).Mul(element.size))
      ensures element.State() == old(element.State())
      ensures camera.View() == old(camera.View()).(matrixNeedsUpdate := false)
    {
      var ctm := CurrentCtm(camera, element);
      handles := HandleLayout(element.math, ctm, element.size);
      LayoutMatchesLocalPositions(element.math, Ctm(), element.size);
    }

    /** `screenPoint.matrixTransform(camera.matrix.inverse())`. */
    method ScreenToWorldPoint(s: Vec2) returns (w: Vec2)
      requires camera.Valid() && camera.zoom != 0.0
      modifies camera`cachedPosition, camera`cachedZoom, camera`matrixNeedsUpdate
      ensures camera.Valid()
      ensures camera.View() == old(camera.View()).(matrixNeedsUpdate := false)
      ensures w == WorldAt(s)
    {
      var m := camera.Matrix();
      ScreenToWorldIsInverse(camera.position, camera.zoom, s, s);
      w := m.Inverse().Apply(s);
    }

    /**
     * hitTestHandles: the first handle in list order under the screen point; the
     * translate handle counts when the world point lies in the element, the others within
     * their radius.
     */
    method HitTestHandles(screenX: real, screenY: real) returns (r: Option<Handle>)
      requires Valid() && camera.zoom != 0.0
      modifies element`cachedMatrix, element`matrixNeedsUpdate
      modifies camera`cachedPosition, camera`cachedZoom, camera`matrixNeedsUpdate
      ensures Valid()
      ensures r == FirstHit(element.math, handles, Vec2(screenX, screenY), InsideAt(Vec2(screenX, screenY)))
      ensures element.State() == old(element.State())
      ensures camera.View() == old(camera.View()).(matrixNeedsUpdate := false)
    {
      var screen := Vec2(screenX, screenY);
      var world := ScreenToWorldPoint(screen);
      ghost var inside := InsideAt(screen);
      var i := 0;
      while i < |handles|
        invariant 0 <= i <= |handles|
        invariant Valid()
        invariant camera.View() == old(camera.View()).(matrixNeedsUpdate := false)
        invariant FirstHit(element.math, handles, screen, inside) == FirstHit(element.math, handles[i..], screen, inside)
      {
        FirstHitStep(element.math, handles, i, screen, inside);
        var hit := HandleHit(handles[i], screen, world);
        if hit {
          return Some(handles[i]);
        }
        i := i + 1;
      }
      return None;
    }

    /**
     * The loop body of hitTestHandles for one handle: the translate handle asks the
     * element whether it contains the world point, any other compares `Math.hypot` of the
     * screen offset with the handle's radius.
     */
    method HandleHit(handle: Handle, screen: Vec2, world: Vec2) returns (hit: bool)
      requires element.Valid() && camera.zoom != 0.0 && world == WorldAt(screen)
      modifies element`cachedMatrix, element`matrixNeedsUpdate
      ensures element.Valid()
      ensures hit == Hits(element.math, handle, screen, InsideAt(screen))
    {
      if handle.kind == Translate {
        hit := element.Contains(world.x, world.y);
      } else {
        hit := WithinRadius(element.math, handle, screen);
      }
    }

    /**
     * onPointerDown: the handle under the pointer becomes active; a rotate drag records
     * the centre, the pointer, its angle and the rotation, a translate drag the pointer's
     * offset from the centre. The answer is whether a handle was grabbed, which it always
     * is when the pointer is over the element.
     */
    method OnPointerDown(screenX: real, screenY: real) returns (grabbed: bool)
      requires Valid() && camera.zoom != 0.0
      modifies this`activeHandle, this`rotationDrag, this`pointerOffset
      modifies element`cachedMatrix, element`matrixNeedsUpdate
      modifies camera`cachedPosition, camera`cachedZoom, camera`matrixNeedsUpdate
      ensures Valid()
      ensures activeHandle == FirstHit(element.math, handles, Vec2(screenX, screenY), InsideAt(Vec2(screenX, screenY)))
      ensures grabbed <==> activeHandle.Some?
      ensures InsideAt(Vec2(screenX, screenY)) ==> grabbed
      ensures var pointerWorld := WorldAt(Vec2(screenX, screenY));
        if activeHandle.Some? && activeHandle.value.kind == Rotate then
          rotationDrag == RotationDrag(element.position, pointerWorld,
                                       PointerAngle(element.math, element.position, pointerWorld), element.rotation)
        else rotationDrag == old(rotationDrag)
      ensures if activeHandle.Some? && activeHandle.value.kind == Translate then
          pointerOffset == WorldAt(Vec2(screenX, screenY)).Sub(element.position)
        else pointerOffset == old(pointerOffset)
      ensures element.State() == old(element.State())
      ensures camera.View() == old(camera.View()).(matrixNeedsUpdate := false)
    {
      activeHandle := HitTestHandles(screenX, screenY);
      if InsideAt(Vec2(screenX, screenY)) {
        LayoutHitInsideElement(element.math, handles, Vec2(screenX, screenY));
      }
      var pointerWorld := ScreenToWorldPoint(Vec2(screenX, screenY));
      RecordDrag(pointerWorld);
      grabbed := activeHandle.Some?;
    }

    /**
     * The drag start of onPointerDown, once the active handle is chosen: a rotate handle
     * records the centre, the pointer, the pointer's angle about the centre and the
     * rotation; the translate handle records the pointer's offset from the centre.
     */
    method RecordDrag(pointerWorld: Vec2)
      modifies this`rotationDrag, this`pointerOffset
      ensures if activeHandle.Some? && activeHandle.value.kind == Rotate then
          rotationDrag == RotationDrag(element.position, pointerWorld,
                                       PointerAngle(element.math, element.position, pointerWorld), element.rotation)
        else rotationDrag == old(rotationDrag)
      ensures if activeHandle.Some? && activeHandle.value.kind == Translate then
          pointerOffset == pointerWorld.Sub(element.position)
        else pointerOffset == old(pointerOffset)
    {
      var centerWorld := element.position;
      if activeHandle.Some? && activeHandle.value.kind == Rotate {
        rotationDrag := RotationDrag(centerWorld, pointerWorld,
                                     element.math.atan2(pointerWorld.y - centerWorld.y, pointerWorld.x - centerWorld.x),
                                     element.rotation);
      }
      if activeHandle.Some? && activeHandle.value.kind == Translate {
        pointerOffset := Vec2(pointerWorld.x - centerWorld.x, pointerWorld.y - centerWorld.y);
      }
    }

    /**
     * onPointerMove: with no active handle, only the hover is updated. Otherwise the
     * active handle drives the element: a rotate drag sets the normalised rotation, a
     * translate drag the position, a scale handle the scale and position that keep the
     * opposite handle's world point in place; the element is then marked transformed.
     */
    method OnPointerMove(screenX: real, screenY: real) returns (handled: bool)
      requires Valid() && camera.zoom != 0.0
      modifies this`hoveredHandle, this`isTransformed, element
      modifies camera`cachedPosition, camera`cachedZoom, camera`matrixNeedsUpdate
      ensures Valid()
      ensures camera.View() == old(camera.View()).(matrixNeedsUpdate := false)
      ensures old(isTransformed) ==> isTransformed
      ensures old(activeHandle).None? ==>
        && hoveredHandle == FirstHit(element.math, handles, Vec2(screenX, screenY), InsideAt(Vec2(screenX, screenY)))
        && (handled <==> hoveredHandle.Some?)
        && isTransformed == old(isTransformed)
        && element.State() == old(element.State())
      ensures old(activeHandle).Some? ==> handled && isTransformed && hoveredHandle == old(hoveredHandle)
      ensures var pointerWorld := WorldAt(Vec2(screenX, screenY));
        old(activeHandle).Some? && old(activeHandle).value.kind == Rotate ==>
          && element.State() == old(element.State()).(rotation := DraggedRotation(element.math, rotationDrag, pointerWorld))
          && -180.0 <= element.rotation < 180.0
      ensures old(activeHandle).Some? && old(activeHandle).value.kind == Translate ==>
        element.State() == old(element.State()).(position := DraggedPosition(WorldAt(Vec2(screenX, screenY)), pointerOffset))
      ensures old(activeHandle).Some? && old(activeHandle).value.kind.IsScale() ==>
          var t := old(activeHandle).value.kind;
          var stationaryWorld := WorldAt(handles[IndexOf(Opposite(t))].position);
          var s := ScaleObjectWithHandle(element.math, t, WorldAt(Vec2(screenX, screenY)), stationaryWorld,
                                         element.size, old(element.scale), old(element.rotation));
          && element.State() == old(element.State()).(position := s.newPosition, scale := s.newScale)
          && element.scale.x >= MinScale && element.scale.y >= MinScale
          && element.WorldTransform().Apply(LocalPosition(Opposite(t)).Mul(element.size)) == stationaryWorld
    {
      if activeHandle.None? {
        hoveredHandle := HitTestHandles(screenX, screenY);
        return hoveredHandle.Some?;
      }
      var t := activeHandle.value.kind;
      var pointerWorld := ScreenToWorldPoint(Vec2(screenX, screenY));
      if t == Rotate {
        var centerWorld := rotationDrag.centerWorld;
        var currentAngle := element.math.atan2(pointerWorld.y - centerWorld.y, pointerWorld.x - centerWorld.x);
        var angleDelta := currentAngle - rotationDrag.initialAngle;
        var newRotation := rotationDrag.initialRotation + angleDelta * (180.0 / element.math.pi);
        assert newRotation == rotationDrag.initialRotation + TurnDegrees(element.math, rotationDrag, pointerWorld);
        element.SetRotation(NormalizeAngle(newRotation));
        isTransformed := true;
        return true;
      }
      if t == Translate {
        element.SetPosition(Vec2(pointerWorld.x - pointerOffset.x, pointerWorld.y - pointerOffset.y));
        isTransformed := true;
        return true;
      }
      var s := ScaleWithHandle(t, pointerWorld);
      element.SetPosition(s.newPosition);
      element.SetScale(s.newScale);
      ScaleKeepsStationaryHandle(element.math, t, pointerWorld, WorldAt(handles[IndexOf(Opposite(t))].position),
                                 element.size, old(element.scale), old(element.rotation));
      isTransformed := true;
      return true;
    }

    /**
     * scaleObjectWithHandle, as the tool calls it: the stationary handle is looked up in
     * the handle list, which always holds it, and its screen position is taken to world space.
     */
    method ScaleWithHandle(t: HandleType, pointerWorld: Vec2) returns (s: ScaleResult)
      requires Valid() && camera.zoom != 0.0 && t.IsScale()
      modifies camera`cachedPosition, camera`cachedZoom, camera`matrixNeedsUpdate
      ensures Valid()
      ensures camera.View() == old(camera.View()).(matrixNeedsUpdate := false)
      ensures s == ScaleObjectWithHandle(element.math, t, pointerWorld, WorldAt(handles[IndexOf(Opposite(t))].position),
                                         element.size, element.scale, element.rotation)
    {
      var stationary := FindHandle(handles, Opposite(t));
      LayoutFindsEveryHandle(handles, Opposite(t));
      var stationaryWorld := ScreenToWorldPoint(stationary.value.position);
      s := ScaleObjectWithHandle(element.math, t, pointerWorld, stationaryWorld, element.size, element.scale, element.rotation);
    }

    /** onPointerUp: the drag ends; nothing else changes. */
    method OnPointerUp()
      modifies this`activeHandle
      ensures activeHandle == None
    {
      activeHandle := None;
    }
  }

  /**
   * With handles laid out for the current camera and element, the stationary handle the
   * scale drag reads is the element's own opposite handle: its screen position taken back
   * to world space is the element matrix applied to the handle's place in the box.
   */
  lemma {:induction false} FreshStationaryHandle(math: HostMath, position: Vec2, zoom: real, world: Affine, size: Vec2, t: HandleType)
    requires zoom != 0.0 && t.IsScale()
    ensures var handles := HandleLayout(math, CameraTransform(position, zoom).Multiply(world), size);
      ScreenToWorld(position, zoom, handles[IndexOf(t)].position) == world.Apply(LocalPosition(t).Mul(size))
  {
    var ctm := CameraTransform(position, zoom).Multiply(world);
    var handles := HandleLayout(math, ctm, size);
    var q := LocalPosition(t).Mul(size);
    LayoutMatchesLocalPositions(math, ctm, size);
    assert handles[IndexOf(t)].position == ctm.Apply(q);
    ScreenToWorldIsInverse(position, zoom, handles[IndexOf(t)].position, world.Apply(q));
  }

  /**
   * `camera.matrix.multiply(element.matrix)`: both matrices come from the caches, which
   * are refreshed on the way; nothing else about the element or the camera changes.
   */
  method CurrentCtm(camera: Camera, element: SceneElement) returns (m: Affine)
    requires camera.Valid() && element.Valid()
    modifies element`cachedMatrix, element`matrixNeedsUpdate
    modifies camera`cachedPosition, camera`cachedZoom, camera`matrixNeedsUpdate
    ensures camera.Valid() && element.Valid()
    ensures m == camera.Transform().Multiply(element.WorldTransform())
    ensures element.State() == old(element.State())
    ensures camera.View() == old(camera.View()).(matrixNeedsUpdate := false)
  {
    var cameraMatrix := camera.Matrix();
    var elementMatrix := element.Matrix();
    m := cameraMatrix.Multiply(elementMatrix);
  }
}
