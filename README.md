# Transformation box demo — a Dafny model of the canvas core

This project models the canvas layer of transformation-box-demo. That layer is a 2D editor
preview: scene elements (rectangles and images) sit in world space, a camera maps world
space to the screen, and a transformation tool puts ten handles around one selected element.
Dragging a handle rotates the element, moves it, or scales it about the opposite handle.

The model covers these parts:

- **Geometry** (`geometry.dfy`): points, the 2D DOMMatrix with its `multiply`, `inverse` and
  `translate · rotate · scale` forms, and the host's `Math` as uninterpreted functions.
- **Scene elements** (`scene_element.dfy`): the base element with its id, zIndex and selection
  and hover flags. It has a position, size, scale and rotation, a lazily recomputed matrix and
  containment. Rectangle and image are the two variants.
- **Element factories** (`element_factory.dfy`, `canvas_factory.dfy`): both `createSceneElement`
  switches on the record's `type`.
- **Camera** (`camera.dfy`, `camera_scenarios.dfy`): panning, `moveBy`, `setZoom`,
  `adjustZoomWithBounds` and the cached matrix.
- **Handles** (`handles.dfy`): the handle tables and the screen layout, the hit test, angle
  normalisation, and the rotate, translate and scale drag rules, all as values.
- **Transformation tool** (`transformation_tool.dfy`): the class that holds the handles and the
  drag state, with its pointer-down, pointer-move and pointer-up handlers.
- **Preview canvas manager** (`preview_canvas_manager.dfy`):
  - the id → element map rebuilt from the scene records;
  - hover and selection by id;
  - the zIndex paint order;
  - the camera moves it forwards.
- **Interaction manager** (`interaction_manager.dfy`): the panning state machine and the
  normalisation of wheel deltas.
- **Event managers** (`listener_sets.dfy`, `scene_event_manager.dfy`,
  `scene_element_event_manager.dfy`): insertion-ordered listener sets per event kind, and
  notification in that order.

Numbers are exact reals, ids and zIndexes included, as JavaScript numbers are. `Math.cos`, `Math.sin`, `Math.atan2`, `Math.hypot` and `Math.PI` are
the fields of a `HostMath` value. A lemma that needs one of their identities asks for it at
the point where it is used (`RotationIdentitiesAt`, `HypotAt`).

The repository's `src/canvas/elements/scene-element.ts` is an older revision with `x`, `y`,
`width` and `height`. The rest of the code base already uses a newer element API: the
transformation tool, `image-scene-element.ts` and the element tests. That API has position,
size, scale, rotation, `matrix`, `contains(x, y)`, `getLocalCorners()` and
`toSceneConfig()`. The model follows the newer API, with the record shape of
`scene-elements.test.helpers.ts`. The id, zIndex and flag behaviour come from `scene-element.ts`.

## Model

| member | source | states |
|---|---|---|
| Geometry.Midpoint | src/canvas/transformation-tool.ts:385-387 | the middle point is equally far from both ends |
| Geometry.Affine.Multiply | src/canvas/transformation-tool.ts:311-317 | `m.multiply(n)` applies `n` first, then `m`, at every point |
| Geometry.Affine.Inverse | src/canvas/transformation-tool.ts:235-237 | the inverse of an invertible matrix is invertible |
| Geometry.InverseRoundTrips | src/canvas/transformation-tool.ts:235-237 | `inverse()` undoes the matrix and the matrix undoes `inverse()` |
| Geometry.MidpointCommutes | src/canvas/transformation-tool.ts:311-322 | the image of a midpoint is the midpoint of the images, so the edge handles may be computed after the transform |
| Geometry.RotateUndoesInverseRotate | src/canvas/transformation-tool.ts:463-473 | given the rotation identities at the angle, `rotateVec` and `inverseRotateVec` undo each other, in both orders |
| Geometry.DegToRadScales | src/canvas/transformation-tool.ts:459-461 | 180 degrees is π radians; radians times 180 equal degrees times π; the sign is kept and 0 stays 0 |
| Geometry.RotationKeepsLength | src/canvas/transformation-tool.ts:463-473 | given the rotation identities, `rotateVec` and `inverseRotateVec` keep squared lengths, and `inverseRotateVec` is the transposed rotation |
| Geometry.TranslateRotateScale | src/canvas/elements/rectangle-scene-element.test.ts:96-101 | the element matrix sends a local point v to position + rotate(scale ⊙ v), so its translation is the position |
| Geometry.ContainsIffImageOfBox | src/canvas/elements/rectangle-scene-element.test.ts:85-94 | `contains` holds exactly for the images of points of the local box, edges included |
| Geometry.ContainsAtPreimage | src/canvas/elements/rectangle-scene-element.test.ts:85-94 | the image of a local point is contained exactly when the point lies in the box |
| Geometry.ContainsNeedsInverse | src/canvas/elements/rectangle-scene-element.test.ts:85-94 | a singular element matrix contains no point; a contained point is the matrix image of the local point the test found in the box |
| SceneElements.ConfigOf | src/canvas/elements/image-scene-element.ts:20-26 | the record keeps the base fields, carries the variant's `type` tag, and keeps a rectangle's colour or an image's source |
| SceneElements.TagNamesShape | src/canvas/elements/create-scene-element.ts:6-15 | on a well-formed record, `type` is "rectangle" exactly for rectangles and "image" exactly for images; any other record carries its own tag |
| SceneElements.LocalCorners | src/canvas/elements/rectangle-scene-element.test.ts:67-83 | four corners: top-left, top-right, bottom-right, bottom-left, symmetric about the origin, spanning the size |
| SceneElements.SceneElement.constructor | src/canvas/elements/scene-element.ts:14-23 | the record's fields are copied; the element is neither selected nor hovered, nor loaded; the matrix is marked stale |
| SceneElements.SceneElement.SetIsSelected | src/canvas/elements/scene-element.ts:41-43 | only the selection flag changes, to the given value |
| SceneElements.SceneElement.SetIsHovered | src/canvas/elements/scene-element.ts:49-51 | only the hover flag changes, to the given value |
| SceneElements.SceneElement.SetPosition | src/canvas/elements/rectangle-scene-element.test.ts:9-22 | only the position changes; the matrix is marked stale |
| SceneElements.SceneElement.SetScale | src/canvas/elements/rectangle-scene-element.test.ts:44-57 | only the scale changes; the matrix is marked stale |
| SceneElements.SceneElement.SetRotation | src/canvas/elements/rectangle-scene-element.test.ts:59-65 | only the rotation changes; the matrix is marked stale |
| SceneElements.SceneElement.Matrix | src/canvas/elements/rectangle-scene-element.test.ts:96-101 | the getter returns translate · rotate · scale of the current geometry; a fresh cache is returned unchanged |
| SceneElements.SceneElement.Contains | src/canvas/elements/rectangle-scene-element.test.ts:85-94 | the world point taken through the inverse matrix lies in the origin-centred box |
| SceneElements.SceneElement.ToSceneConfig | src/canvas/elements/image-scene-element.ts:20-26 | the record holds the current position, scale and rotation and the constructor's id, zIndex and size; its `type` is "rectangle" exactly for a rectangle and "image" exactly for an image, with the colour or source kept |
| SceneElements.SceneElement.OnImageLoad | src/canvas/elements/image-scene-element.ts:14-16 | the load callback sets only the loaded flag |
| SceneElements.SceneElement.DrawSelf | src/canvas/elements/image-scene-element.ts:28-32 | a rectangle always fills its box in its colour; an image is drawn exactly when it has loaded |
| SceneElements.LocalCornersOf100 | src/canvas/elements/rectangle-scene-element.test.ts:67-83 | the corners of a 100 × 100 element are (±50, ±50) in the stated order |
| SceneElements.ContainsOfUnitSquare | src/canvas/elements/rectangle-scene-element.test.ts:85-94 | a 100 × 100 element at the origin contains (0, 0) and (50, 0) but not (51, 0) |
| ElementFactory.VariantFor | src/canvas/elements/create-scene-element.ts:6-15 | "rectangle" builds a rectangle and "image" an image; every other tag fails with "SceneElement is not supported."; the variant reproduces the record |
| ElementFactory.CreateSceneElement | src/canvas/elements/create-scene-element.ts:6-15 | a fresh element in its initial state whose `toSceneConfig()` is the input record, or the error and no element |
| CanvasFactory.CreateSceneElement | src/canvas/create-scene-element.ts:6-15 | the older factory succeeds and fails exactly as the element factory does, with the same element and error |
| Cameras.ScreenToWorld | src/canvas/camera.ts:96-98 | the camera matrix maps the computed world point back onto the screen point |
| Cameras.ScreenToWorldIsInverse | src/canvas/camera.ts:96-98 | it is the camera matrix's `inverse()` applied to the screen point, and the only world point shown there |
| Cameras.CameraTransformInvertible | src/canvas/camera.ts:55-65 | the camera matrix shows the world origin at the camera position, and its determinant is zoom², so it is invertible exactly when the zoom is not 0 |
| Cameras.CameraTransformIsMatrixGetter | src/canvas/camera.ts:55-65 | translate(position) · rotate(0) · scale(zoom, zoom) is the camera transform, on a host whose cos 0 is 1 and sin 0 is 0 |
| Cameras.ClampZoom | src/canvas/camera.ts:88-90 | the zoom lands in [minZoom, maxZoom]; an in-range value is kept and out-of-range values saturate |
| Cameras.PivotPosition | src/canvas/camera.ts:100-101 | the new position shows the world point at the screen point at the new zoom |
| Cameras.FreshZoomKeepsWorldPoint | src/canvas/camera.ts:87-105 | with an up-to-date cache, the world point under the pivot stays under the pivot |
| Cameras.Camera.constructor | src/canvas/camera.ts:12-27 | defaults to position (0, 0), zoom 1 and bounds [0.1, 10]; not panning; the identity cache is marked stale |
| Cameras.Camera.BeginPanning | src/canvas/camera.ts:33-36 | panning starts, anchored at the screen point; nothing else changes |
| Cameras.Camera.EndPanning | src/canvas/camera.ts:38-41 | panning stops and the anchor is dropped; nothing else changes |
| Cameras.Camera.MoveBy | src/canvas/camera.ts:68-72 | the position moves by the delta and the matrix is marked stale |
| Cameras.Camera.PanTo | src/canvas/camera.ts:43-53 | while panning, the camera moves by the distance from the anchor and re-anchors; otherwise nothing changes |
| Cameras.Camera.Matrix | src/canvas/camera.ts:55-66 | the getter returns translate(position) · scale(zoom); a fresh cache is returned unchanged |
| Cameras.Camera.SetZoom | src/canvas/camera.ts:82-85 | the zoom is stored unclamped and the matrix is marked stale |
| Cameras.Camera.AdjustZoomWithBounds | src/canvas/camera.ts:87-105 | the zoom moves by delta / 40, clamped; an unchanged zoom changes nothing; otherwise the position pivots on the world point under the screen point in the CACHED matrix |
| Cameras.PanSumTelescopes | src/canvas/camera.ts:43-53 | the pan steps of a drag add up to the last point minus the first |
| Cameras.PanThrough | src/canvas/camera.ts:33-53 | `beginPanning` at the first point and `panTo` through the rest moves the camera by the sum of the pan steps, which is the last point minus the first; the zoom is kept and panning stays on, anchored at the last point |
| CameraScenarios.StaleZoomMovesPivot | src/canvas/camera.ts:96-101 | with a stale cache the pivot drifts: after a move to (100, 0), zooming to 0.5 about (200, 0) shows the pivot's world point at (150, 0) |
| Handles.HandleTablesAgree | src/canvas/transformation-tool.ts:22-73 | `OPPOSITE_HANDLES` is an involution that moves exactly the scale handles and keeps corners, cursors and radii |
| Handles.OppositeReflects | src/canvas/transformation-tool.ts:62-87 | the opposite handle sits at the local position reflected through the centre |
| Handles.CursorFollowsPlace | src/canvas/transformation-tool.ts:22-37 | `grab` is exactly the rotate handle and `move` exactly the translate handle; `ns-resize` marks the scale handles on the vertical centre line, `ew-resize` those on the horizontal one, and the two diagonal cursors the corners on each diagonal |
| Handles.RadiusByKind | src/canvas/transformation-tool.ts:49-60 | every radius is positive; 8 exactly for corners, 6 exactly for edge midpoints, 16 exactly for rotate and translate |
| Handles.LocalPositionOnBorder | src/canvas/transformation-tool.ts:75-87 | every place lies in the unit box; the scale handles sit on its border, away from the centre, the corners off both axes, and rotate and translate at the centre |
| Handles.IndexOf | src/canvas/transformation-tool.ts:325-336 | every handle kind has exactly one place in the handle list |
| Handles.OutwardNormal | src/canvas/transformation-tool.ts:345-383 | the chosen normal never points towards the element's centre |
| Handles.OutwardNormalIsUnit | src/canvas/transformation-tool.ts:345-383 | given `Math.hypot` at the edge, the normal is a unit vector perpendicular to the bottom edge |
| Handles.RotationHandlePosition | src/canvas/transformation-tool.ts:345-383 | the rotate handle lies on the far side of the bottom edge's midpoint from the centre |
| Handles.RotationHandleOnNormal | src/canvas/transformation-tool.ts:345-383 | the rotate handle is exactly 32 screen units from the bottom midpoint, perpendicular to the bottom edge |
| Handles.HandleLayout | src/canvas/transformation-tool.ts:311-337 | ten handles in list order; the translate handle is the centre's image |
| Handles.LayoutMatchesLocalPositions | src/canvas/transformation-tool.ts:311-337 | every scale handle is the `ctm` image of its `HANDLE_LOCAL_POSITIONS` entry scaled by the size |
| Handles.FindHandle | src/canvas/transformation-tool.ts:394-398 | `find` returns the first handle of the kind in the list, and nothing exactly when none has that kind |
| Handles.LayoutFindsEveryHandle | src/canvas/transformation-tool.ts:394-398 | in a laid-out list every kind is found, so "Handle not found." is never thrown |
| Handles.HitWithinDisc | src/canvas/transformation-tool.ts:245-251 | given `Math.hypot` at the offset, a non-translate handle is hit exactly within the disc of its radius |
| Handles.FirstHit | src/canvas/transformation-tool.ts:235-256 | a returned handle is in the list and is hit |
| Handles.FirstHitIsFirst | src/canvas/transformation-tool.ts:235-256 | nothing is returned exactly when no handle is hit; otherwise the first handle hit in list order |
| Handles.LayoutHitInsideElement | src/canvas/transformation-tool.ts:235-256 | a point inside the element always hits a handle, and a scale or rotate handle under it wins over translate |
| Handles.Rem360 | src/canvas/transformation-tool.ts:475-477 | JavaScript `% 360` keeps the dividend's sign and stays below 360 in magnitude |
| Handles.NormalizeAngle | src/canvas/transformation-tool.ts:475-477 | the result lies in [-180, 180) |
| Handles.NormalizeAngleIsFloorMod | src/canvas/transformation-tool.ts:475-477 | the truncating remainders compute angle − 360·⌊(angle + 180) / 360⌋ |
| Handles.NormalizeAngleFixesRange | src/canvas/transformation-tool.ts:475-477 | angles in [-180, 180) are unchanged |
| Handles.NormalizeAngleWholeTurns | src/canvas/transformation-tool.ts:475-477 | adding whole turns does not change the result |
| Handles.NormalizeAngleTurnsAway | src/canvas/transformation-tool.ts:475-477 | the result differs from the angle by whole turns |
| Handles.NormalizeAngleIdempotent | src/canvas/transformation-tool.ts:475-477 | normalising twice is normalising once |
| Handles.NormalizeAngleOf190 | src/canvas/transformation-tool.ts:475-477 | 190 becomes -170 |
| Handles.NormalizeAngleOf180 | src/canvas/transformation-tool.ts:475-477 | 180 becomes -180: the range is closed below and open above |
| Handles.NormalizeAngleOfMinus540 | src/canvas/transformation-tool.ts:475-477 | -540 becomes -180 |
| Handles.DraggedRotation | src/canvas/transformation-tool.ts:185-196 | the new rotation is always in [-180, 180) |
| Handles.UnturnedDragKeepsRotation | src/canvas/transformation-tool.ts:157-196 | a pointer that has not turned about the centre since pointer-down keeps the rotation, up to whole turns |
| Handles.TranslateFollowsPointer | src/canvas/transformation-tool.ts:198-206 | the element follows the pointer: at the grab point it is at its old centre, and a pointer move of d moves it by d |
| Handles.DraggedPosition | src/canvas/transformation-tool.ts:198-206 | the new position plus the pointer offset is the pointer's world point |
| Handles.ScaleObjectWithHandle | src/canvas/transformation-tool.ts:389-457 | both scales are at least 0.01; an edge handle keeps the other axis's scale, clamped |
| Handles.ScaleFromOffsets | src/canvas/transformation-tool.ts:434-446 | an axis whose box offset is at most 1e-6 keeps its scale; both scales are clamped at 0.01 |
| Handles.UnclampedScale | src/canvas/transformation-tool.ts:437-442 | without clamping, the new scale stretches the box offset exactly onto the turned-back pointer offset |
| Handles.ScaleKeepsStationaryHandle | src/canvas/transformation-tool.ts:448-454 | the new matrix maps the opposite handle's box point onto the stationary world point, whatever the trigonometry |
| Handles.CornerDragFollowsPointer | src/canvas/transformation-tool.ts:389-457 | an unclamped corner drag puts the dragged corner exactly under the pointer, given the rotation identities |
| TransformationTools.TransformationTool.constructor | src/canvas/transformation-tool.ts:111-129 | the tool starts idle with default drags and the handles laid out for the current matrices |
| TransformationTools.TransformationTool.TransformedElement | src/canvas/transformation-tool.ts:131-137 | the element is returned exactly when a drag has changed it |
| TransformationTools.TransformationTool.Cursor | src/canvas/transformation-tool.ts:139-149 | the active handle's cursor, else the hovered handle's, else none |
| TransformationTools.TransformationTool.UpdateHandles | src/canvas/transformation-tool.ts:311-337 | the handles are the layout through camera · element; every scale handle is the screen image of its box point; the geometry is unchanged |
| TransformationTools.TransformationTool.ScreenToWorldPoint | src/canvas/transformation-tool.ts:153-154 | the screen point through the camera matrix's inverse is the world point under it |
| TransformationTools.TransformationTool.HitTestHandles | src/canvas/transformation-tool.ts:235-256 | the loop returns the first handle hit in list order, with translate judged by containment of the world point |
| TransformationTools.TransformationTool.HandleHit | src/canvas/transformation-tool.ts:240-252 | one handle's test: containment for translate, `Math.hypot` against the radius otherwise |
| TransformationTools.TransformationTool.OnPointerDown | src/canvas/transformation-tool.ts:151-174 | the first handle hit becomes active; a rotate grab records centre, pointer, angle and rotation; a translate grab records the pointer offset; the result says whether a handle was grabbed, always so inside the element |
| TransformationTools.TransformationTool.RecordDrag | src/canvas/transformation-tool.ts:155-171 | the drag start recorded for the active handle's kind, and nothing for the others |
| TransformationTools.TransformationTool.OnPointerMove | src/canvas/transformation-tool.ts:176-218 | with no active handle only the hover changes; otherwise a rotation in [-180, 180), a position following the pointer, or a clamped scale keeping the opposite handle in place, and the element is marked transformed |
| TransformationTools.TransformationTool.ScaleWithHandle | src/canvas/transformation-tool.ts:389-407 | the stationary handle is found in the list and its screen position taken to world space before scaling |
| TransformationTools.TransformationTool.OnPointerUp | src/canvas/transformation-tool.ts:220-222 | no handle is active afterwards |
| TransformationTools.FreshStationaryHandle | src/canvas/transformation-tool.ts:400-407 | with freshly laid-out handles, the stationary handle in world space is the element matrix applied to its box point |
| TransformationTools.CurrentCtm | src/canvas/transformation-tool.ts:313 | `camera.matrix.multiply(element.matrix)` is camera after element; only the caches change |
| PreviewCanvas.ConfigMapKeys | src/canvas/preview-canvas-manager.ts:60-69 | the rebuilt map holds exactly the records' ids |
| PreviewCanvas.ConfigMapLaterWins | src/canvas/preview-canvas-manager.ts:64-67 | under each id sits the last record with that id |
| PreviewCanvas.ConfigMapFilesById | src/canvas/preview-canvas-manager.ts:62-67 | every entry of the map is one of the records, filed under that record's own id |
| PreviewCanvas.KeyOrder | src/canvas/preview-canvas-manager.ts:62-67 | the key order has at most one key per record, and the first record's id always comes first |
| PreviewCanvas.KeyOrderListsIds | src/canvas/preview-canvas-manager.ts:62-67 | the map's key order lists every id once, in order of first appearance |
| PreviewCanvas.KnownShapeSupported | src/canvas/create-scene-element.ts:6-15 | the factory accepts exactly the rectangle-shaped and image-shaped records |
| PreviewCanvas.SortSorts | src/canvas/preview-canvas-manager.ts:114-116 | the sort orders by ascending zIndex |
| PreviewCanvas.SortPermutes | src/canvas/preview-canvas-manager.ts:114-116 | the sort is a permutation of the map's values |
| PreviewCanvas.SortIsStable | src/canvas/preview-canvas-manager.ts:114-116 | elements with equal zIndex keep their insertion order |
| PreviewCanvas.SortByZIndex | src/canvas/preview-canvas-manager.ts:114-116 | the sorted list has as many elements as the map has values |
| PreviewCanvas.ValuesInOrder | src/canvas/preview-canvas-manager.ts:114 | `Array.from(map.values())` lists the values in key order |
| PreviewCanvas.FlagAfter | src/canvas/preview-canvas-manager.ts:74-96 | a truthy new id ends up flagged, a truthy previous id other than it unflagged, and id 0 is never touched |
| PreviewCanvas.BuildScene | src/canvas/preview-canvas-manager.ts:60-67 | the loop fails exactly when some record is unsupported; otherwise each id holds a fresh element built from its last record, in first-appearance order |
| PreviewCanvas.AddElement | src/canvas/preview-canvas-manager.ts:66 | `Map.set` replaces the element under the id and appends a new id |
| PreviewCanvas.BuildStep | src/canvas/preview-canvas-manager.ts:64-67 | one record: the step fails exactly when the factory rejects it; otherwise the scene is the one built from the records so far, with only the new element fresh |
| PreviewCanvas.PreviewCanvasManager.constructor | src/canvas/preview-canvas-manager.ts:22-46 | a camera at (0, 0) with zoom 1 and an empty scene |
| PreviewCanvas.PreviewCanvasManager.OnElementsChange | src/canvas/preview-canvas-manager.ts:60-72 | an unsupported record leaves the old map; otherwise the map holds the records' ids in first-appearance order, each with a fresh, unflagged element built from its last record |
| PreviewCanvas.PreviewCanvasManager.OnHoverElement | src/canvas/preview-canvas-manager.ts:74-84 | each element's hover flag becomes `FlagAfter` of the two ids; nothing else changes |
| PreviewCanvas.PreviewCanvasManager.SetHoveredAt | src/canvas/preview-canvas-manager.ts:76-80 | `get(id)?.setIsHovered(b)` changes only that element's hover flag |
| PreviewCanvas.PreviewCanvasManager.OnSelectElement | src/canvas/preview-canvas-manager.ts:86-96 | each element's selection flag becomes `FlagAfter` of the two ids; nothing else changes |
| PreviewCanvas.PreviewCanvasManager.SetSelectedAt | src/canvas/preview-canvas-manager.ts:88-92 | `get(id)?.setIsSelected(b)` changes only that element's selection flag |
| PreviewCanvas.PreviewCanvasManager.PaintOrder | src/canvas/preview-canvas-manager.ts:114-119 | render paints a stable, zIndex-sorted permutation of the map's values |
| PreviewCanvas.PreviewCanvasManager.OnPanning | src/canvas/preview-canvas-manager.ts:156-161 | the camera moves by the screen delta and the event counts as handled |
| PreviewCanvas.PreviewCanvasManager.OnZoomChange | src/canvas/preview-canvas-manager.ts:53-58 | the camera's zoom is set as given |
| Interaction.WheelFactor | src/canvas/interaction-manager.ts:81 | the factor is -1 on macOS and negative everywhere |
| Interaction.WheelZoomDelta | src/canvas/interaction-manager.ts:80-86 | line-mode and ctrl deltas are divided by the factor, others by ten times it; scrolling down zooms out |
| Interaction.LineDeltaIsTenPixelDeltas | src/canvas/interaction-manager.ts:82-83 | a line delta zooms ten times as far as the same pixel delta |
| Interaction.MacZoomsThreeTimesFaster | src/canvas/interaction-manager.ts:81-83 | the same delta zooms three times as far on macOS |
| Interaction.InteractionManager.OnWheel | src/canvas/interaction-manager.ts:80-86 | the delta handed to the scroll handler is the wheel delta over the factor, or over ten times it for pixel deltas without ctrl; it has the opposite sign, and 0 stays 0 |
| Interaction.InteractionManager.constructor | src/canvas/interaction-manager.ts:21-46 | not panning, anchored at (0, 0) |
| Interaction.InteractionManager.OnPointerDown | src/canvas/interaction-manager.ts:48-58 | a click the handler consumed changes nothing; otherwise panning starts at the client position |
| Interaction.InteractionManager.OnPointerUp | src/canvas/interaction-manager.ts:60-64 | panning stops |
| Interaction.InteractionManager.OnPointerMove | src/canvas/interaction-manager.ts:66-78 | while panning, the delta from the anchor goes to the panning handler and the anchor moves; otherwise the offset position is forwarded |
| Interaction.DragDeltasTelescope | src/canvas/interaction-manager.ts:66-74 | the deltas of a drag add up to the last position minus the press position |
| Interaction.DragThrough | src/canvas/interaction-manager.ts:48-78 | a press and a run of moves report the drag deltas, which add up to the last position minus the press position; panning stays on, anchored at the last position |
| ListenerSets.Insert | src/canvas/scene-event-manager.ts:37-39 | `Set.add` adds the listener once, at the end, keeping the earlier order |
| ListenerSets.Delete | src/canvas/scene-event-manager.ts:41-46 | `Set.delete` removes exactly that listener and keeps the set duplicate-free |
| ListenerSets.InsertIdempotent | src/canvas/scene-event-manager.ts:37-39 | adding twice is adding once |
| ListenerSets.DeleteUndoesInsert | src/canvas/scene-event-manager.ts:37-46 | removing a listener just added gives back the set |
| ListenerSets.DeleteKeepsOrder | src/canvas/scene-event-manager.ts:41-46 | the remaining listeners keep their relative order |
| ListenerSets.Notified | src/canvas/scene-event-manager.ts:48-55 | each listener is called once, in insertion order, with the same arguments |
| SceneEvents.SceneEventManager.constructor | src/canvas/scene-event-manager.ts:28-35 | an empty listener set for each of the four kinds |
| SceneEvents.SceneEventManager.AddEventListener | src/canvas/scene-event-manager.ts:37-39 | only the kind's set changes, by `Set.add` |
| SceneEvents.SceneEventManager.RemoveEventListener | src/canvas/scene-event-manager.ts:41-46 | only the kind's set changes, by `Set.delete` |
| SceneEvents.SceneEventManager.NotifyListeners | src/canvas/scene-event-manager.ts:48-55 | the calls are the kind's listeners in insertion order, each with the arguments |
| SceneElementEvents.SceneElementEventManager.constructor | src/canvas/scene-element-event-manager.ts:25-31 | an empty listener set for each of the three kinds |
| SceneElementEvents.SceneElementEventManager.AddEventListener | src/canvas/scene-element-event-manager.ts:33-38 | only the kind's set changes, by `Set.add` |
| SceneElementEvents.SceneElementEventManager.RemoveEventListener | src/canvas/scene-element-event-manager.ts:40-45 | only the kind's set changes, by `Set.delete` |
| SceneElementEvents.SceneElementEventManager.NotifyListeners | src/canvas/scene-element-event-manager.ts:47-54 | the calls are the kind's listeners in insertion order, each with the arguments |

## Left out

- Drawing is left out: the handles, the artboard, the camera debug text, hover and selection outlines, and the canvas context calls. `DrawSelf` records only what an element would draw.
- The viewport is left out: its device-pixel scale, resize observer and debounce. So is the tool's `viewport` parameter, which only drawing uses.
- The DOM wiring is left out: event listener attachment and detachment, pointer capture and `destroy`. The pointer handlers take the event's coordinates as parameters.
- The user-agent sniff for macOS becomes the `isMacOS` constructor parameter.
- The click, move, panning and scroll handlers are the caller's. `InteractionManager.OnPointerDown` takes the click handler's answer as a parameter. `OnPointerMove` returns what it would hand to the panning or move handler, and `OnWheel` returns the zoom delta for the scroll handler.
- The preview canvas manager's constructor passes its handlers to `InteractionManager` in an order that does not match that class's parameters. The wiring, `onClick` and `onScroll` are not part of this model.
- `onScroll` calls `adjustZoomWithBounds` with one argument, so the screen point is `undefined` and becomes NaN. It is not part of this model: `Camera.AdjustZoomWithBounds` is modelled with both coordinates given.
- `onResolutionChange` and the artboard resolution are left out: they only affect drawing.
- The canvas context check in the manager's constructor is left out: a missing 2D context throws, and the model has no canvas.
- IEEE-754 behaviour (NaN, infinities, rounding) is not modelled. Instead:
  - `Geometry.Affine.Inverse` and `Cameras.ScreenToWorld` require a non-zero determinant or zoom, where the source would produce NaN.
  - `Geometry.ContainsIn` answers false for a singular matrix, as every comparison with NaN does.
  - `TransformationTools.TransformationTool.WorldAt`, `InsideAt`, `ScreenToWorldPoint`, `HitTestHandles`, `HandleHit`, `OnPointerDown`, `OnPointerMove` and `ScaleWithHandle` require a non-zero camera zoom. At zoom 0 the source inverts a singular camera matrix, so every world point it computes is NaN: the translate handle's containment test fails, and a drag would write NaN into the element. The model does not describe that state.
- `Cameras.Camera.AdjustZoomWithBounds`: requires a non-zero cached zoom whenever the zoom changes, because the source would invert a singular matrix there.
- `Math.cos`, `Math.sin`, `Math.atan2` and `Math.hypot` are uninterpreted. Lemmas that need an identity (cos² + sin² = 1, the parity of cos and sin, hypot as a square root) take it as a requirement at the points used. `Math.PI` is known only to be positive.
- `Handles.HitWithinDisc`: the hit test itself keeps the source's `Math.hypot(dx, dy) <= radius`. Only under `HypotAt` is it related to the squared distance.
- `Handles.NormalizeAngle`: the range is [-180, 180); an angle of 180 maps to -180, as the code computes.
- `Geometry.ContainsIffImageOfBox`: a point on the box's edge counts as inside. The element tests check only (0, 0) inside and (51, 0) outside a 100 × 100 box, so including the edge is a modelling choice. `SceneElements.ContainsOfUnitSquare` relies on it for (50, 0).
- `TransformationTools.TransformationTool.OnPointerMove`: during a scale drag the stationary handle is read from the handle list as last laid out. That list is refreshed only when the tool draws, so it can be stale. `FreshStationaryHandle` states what it equals when it is fresh.
- `Cameras.Camera.AdjustZoomWithBounds`: pivots on the world point seen through the cached matrix, which is stale after a pan or `setZoom` until the next matrix read. This is modelled as written; `StaleZoomMovesPivot` shows the drift.
- The `x`, `y`, `width` and `height` fields of the older `scene-element.ts` revision, and the record type in `src/types/scene-config.ts` that matches them, are not part of this model. The newer position, size, scale and rotation API replaces them.
- Records whose `type` tag is neither "rectangle" nor "image" are modelled as `OtherConfig` carrying the tag. The factory's error is a `Failure` value, not an exception.
- Listeners are opaque identifiers compared by identity. Notification returns the calls in order instead of running callbacks, so a listener that adds or removes listeners while being notified is not modelled.
- The element's `draw` wrapper and the image element's `Image` object are left out; only the load callback's effect on the loaded flag is kept.
