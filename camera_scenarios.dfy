/** The camera's behaviour on concrete inputs: its tests, and the pivot drift of a stale cache. */
module CameraScenarios {
  import opened Geometry
  import opened Cameras

  /**
   * With a stale cache the pivot drifts. A fresh camera moved to (100, 0) still caches the
   * identity (position (0, 0), zoom 1). Zooming from 1 to 0.5 about the screen point (200, 0)
   * takes (200, 0) as the world point there, although the camera shows (100, 0) there; the new
   * position (100, 0) then shows that world point at (150, 0) instead of (200, 0).
   */
  lemma StaleZoomMovesPivot()
    ensures CameraTransform(Vec2(100.0, 0.0), 1.0).Apply(Vec2(100.0, 0.0)) == Vec2(200.0, 0.0)
    ensures CameraTransform(PivotPosition(ScreenToWorld(Vec2(0.0, 0.0), 1.0, Vec2(200.0, 0.0)), Vec2(200.0, 0.0), 0.5), 0.5)
              .Apply(Vec2(100.0, 0.0)) == Vec2(150.0, 0.0)
  {
    CachedWorldPoint();
    StalePivotPosition();
    ShownBefore();
    ShownAfter();
  }

  /** The cached identity takes the screen point (200, 0) for the world point (200, 0). */
  lemma CachedWorldPoint()
    ensures ScreenToWorld(Vec2(0.0, 0.0), 1.0, Vec2(200.0, 0.0)) == Vec2(200.0, 0.0)
  {
  }

  /** Keeping (200, 0) under (200, 0) at zoom 0.5 puts the camera at (100, 0). */
  lemma StalePivotPosition()
    ensures PivotPosition(Vec2(200.0, 0.0), Vec2(200.0, 0.0), 0.5) == Vec2(100.0, 0.0)
  {
  }

  lemma ShownBefore()
    ensures CameraTransform(Vec2(100.0, 0.0), 1.0).Apply(Vec2(100.0, 0.0)) == Vec2(200.0, 0.0)
  {
  }

  lemma ShownAfter()
    ensures CameraTransform(Vec2(100.0, 0.0), 0.5).Apply(Vec2(100.0, 0.0)) == Vec2(150.0, 0.0)
  {
  }

  /** The camera tests as a client: defaults, a pan, a pan after ending, saturating zoom, and the matrix. */
  method CameraScenario()
  {
    var camera := new Camera();
    assert camera.position == Vec2(0.0, 0.0) && camera.zoom == 1.0 && !camera.isPanning;

    camera.BeginPanning(100.0, 200.0);
    assert camera.isPanning;
    camera.PanTo(300.0, 400.0);
    assert camera.position == Vec2(200.0, 200.0);
    camera.EndPanning();
    assert !camera.isPanning;
    camera.PanTo(200.0, 200.0);
    assert camera.position == Vec2(200.0, 200.0);

    var zoomed := new Camera();
    zoomed.SetZoom(1.0);
    zoomed.AdjustZoomWithBounds(-1000.0, 0.0, 0.0);
    assert zoomed.zoom == 0.1;
    zoomed.AdjustZoomWithBounds(1000.0, 0.0, 0.0);
    assert zoomed.zoom == 10.0;
    zoomed.AdjustZoomWithBounds(0.0, 0.0, 0.0);
    assert zoomed.zoom == 10.0;

    var moved := new Camera();
    moved.MoveBy(Vec2(100.0, 200.0));
    var m := moved.Matrix();
    assert m == Affine(1.0, 0.0, 0.0, 1.0, 100.0, 200.0);
  }
}
