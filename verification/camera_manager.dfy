/**
 * `CameraManager`: turns input flags into camera targets, advances the
 * camera each frame and keeps it inside a `CameraBoundary`.
 *
 * The manager drives the smoothing camera API (targets, zoom,
 * `updateMovement`, `updateZoom`) and also asks the boundary to enforce a
 * viewport, which that camera does not carry; the manager here therefore
 * holds the smoothing camera of `LegacyCamera` together with the viewport
 * size the boundary needs.
 */
module CameraManager {
  import opened CameraMath
  import LegacyCamera
  import Boundary = CameraBoundary

  /**
   * The view after `handleInput`: each raised flag in turn replaces the
   * position target (left, right, up, down) or the zoom target (in, out),
   * always starting from the current position or zoom.
   */
  function AfterInput(s: LegacyCamera.View, moveSpeed: real, zoomSpeed: real,
                      moveLeft: bool, moveRight: bool, moveUp: bool, moveDown: bool,
                      zoomIn: bool, zoomOut: bool): (r: LegacyCamera.View)
    ensures r.x == s.x && r.y == s.y && r.zoom == s.zoom
  {
    var s1 := if moveLeft then s.(targetX := s.x - moveSpeed, targetY := s.y) else s;
    var s2 := if moveRight then s1.(targetX := s.x + moveSpeed, targetY := s.y) else s1;
    var s3 := if moveUp then s2.(targetX := s.x, targetY := s.y - moveSpeed) else s2;
    var s4 := if moveDown then s3.(targetX := s.x, targetY := s.y + moveSpeed) else s3;
    var s5 := if zoomIn then s4.(targetZoom := s.zoom + zoomSpeed) else s4;
    if zoomOut then s5.(targetZoom := s.zoom - zoomSpeed) else s5
  }

  /**
   * The last raised flag of each group wins: down over up over right over
   * left, out over in; with no flag in a group its target is kept.
   */
  lemma LastFlagWins(s: LegacyCamera.View, moveSpeed: real, zoomSpeed: real,
                     moveLeft: bool, moveRight: bool, moveUp: bool, moveDown: bool,
                     zoomIn: bool, zoomOut: bool)
    ensures var r := AfterInput(s, moveSpeed, zoomSpeed, moveLeft, moveRight, moveUp, moveDown, zoomIn, zoomOut);
      && (moveDown ==> (r.targetX, r.targetY) == (s.x, s.y + moveSpeed))
      && (moveUp && !moveDown ==> (r.targetX, r.targetY) == (s.x, s.y - moveSpeed))
      && (moveRight && !moveUp && !moveDown ==> (r.targetX, r.targetY) == (s.x + moveSpeed, s.y))
      && (moveLeft && !moveRight && !moveUp && !moveDown ==> (r.targetX, r.targetY) == (s.x - moveSpeed, s.y))
      && (!moveLeft && !moveRight && !moveUp && !moveDown ==> (r.targetX, r.targetY) == (s.targetX, s.targetY))
      && (zoomOut ==> r.targetZoom == s.zoom - zoomSpeed)
      && (zoomIn && !zoomOut ==> r.targetZoom == s.zoom + zoomSpeed)
      && (!zoomIn && !zoomOut ==> r.targetZoom == s.targetZoom)
  {
  }

  /** Left with up aims straight up; left with right aims right; in with out zooms out. */
  lemma ConflictingFlags(s: LegacyCamera.View, moveSpeed: real, zoomSpeed: real)
    ensures var r := AfterInput(s, moveSpeed, zoomSpeed, true, false, true, false, false, false);
      (r.targetX, r.targetY) == (s.x, s.y - moveSpeed)
    ensures var r := AfterInput(s, moveSpeed, zoomSpeed, true, true, false, false, false, false);
      (r.targetX, r.targetY) == (s.x + moveSpeed, s.y)
    ensures AfterInput(s, moveSpeed, zoomSpeed, false, false, false, false, true, true).targetZoom == s.zoom - zoomSpeed
    ensures AfterInput(s, moveSpeed, zoomSpeed, false, false, false, false, false, false) == s
  {
  }

  class CameraManager {
    const camera: LegacyCamera.Camera
    const cameraBoundary: Boundary.CameraBoundary
    const viewportUnitsWidth: real
    const viewportUnitsHeight: real

    constructor (camera: LegacyCamera.Camera, cameraBoundary: Boundary.CameraBoundary,
                 viewportUnitsWidth: real, viewportUnitsHeight: real)
      ensures this.camera == camera && this.cameraBoundary == cameraBoundary
      ensures this.viewportUnitsWidth == viewportUnitsWidth && this.viewportUnitsHeight == viewportUnitsHeight
    {
      this.camera := camera;
      this.cameraBoundary := cameraBoundary;
      this.viewportUnitsWidth := viewportUnitsWidth;
      this.viewportUnitsHeight := viewportUnitsHeight;
    }

    /** `handleInput(...)`: sets the targets as `AfterInput` says; nothing moves. */
    method HandleInput(moveSpeed: real, zoomSpeed: real,
                       moveLeft: bool, moveRight: bool, moveUp: bool, moveDown: bool,
                       zoomIn: bool, zoomOut: bool)
      modifies camera
      ensures camera.State() == AfterInput(old(camera.State()), moveSpeed, zoomSpeed,
                                           moveLeft, moveRight, moveUp, moveDown, zoomIn, zoomOut)
    {
      if moveLeft { camera.SetTargetPosition(camera.x - moveSpeed, camera.y); }
      if moveRight { camera.SetTargetPosition(camera.x + moveSpeed, camera.y); }
      if moveUp { camera.SetTargetPosition(camera.x, camera.y - moveSpeed); }
      if moveDown { camera.SetTargetPosition(camera.x, camera.y + moveSpeed); }
      if zoomIn { camera.SetTargetZoom(camera.zoom + zoomSpeed); }
      if zoomOut { camera.SetTargetZoom(camera.zoom - zoomSpeed); }
    }

    /**
     * The view one `update(deltaTime)` leads to from `s`: movement (glide,
     * then the camera's own limits), then zoom, then the boundary's viewport
     * limits, in that order; targets are kept.
     */
    function UpdatedView(s: LegacyCamera.View, deltaTime: real): (r: LegacyCamera.View)
      reads camera, cameraBoundary
      ensures r.targetX == s.targetX && r.targetY == s.targetY && r.targetZoom == s.targetZoom
      ensures cameraBoundary.minX <= r.x && cameraBoundary.minY <= r.y
      ensures cameraBoundary.minX <= cameraBoundary.maxX - viewportUnitsWidth ==> r.x <= cameraBoundary.maxX - viewportUnitsWidth
      ensures cameraBoundary.minY <= cameraBoundary.maxY - viewportUnitsHeight ==> r.y <= cameraBoundary.maxY - viewportUnitsHeight
      ensures r.zoom == Lerp(s.zoom, s.targetZoom, camera.smoothFactor * deltaTime)
    {
      var alpha := camera.smoothFactor * deltaTime;
      s.(x := cameraBoundary.BoundedX(Clamp(Lerp(s.x, s.targetX, alpha), camera.minX, camera.maxX), viewportUnitsWidth),
         y := cameraBoundary.BoundedY(Clamp(Lerp(s.y, s.targetY, alpha), camera.minY, camera.maxY), viewportUnitsHeight),
         zoom := Lerp(s.zoom, s.targetZoom, alpha))
    }

    /** `update(deltaTime)`: the camera moves to `UpdatedView` of where it was. */
    method Update(deltaTime: real)
      modifies camera
      ensures camera.State() == UpdatedView(old(camera.State()), deltaTime)
    {
      ghost var s := camera.State();
      ghost var alpha := camera.smoothFactor * deltaTime;
      camera.UpdateMovement(deltaTime);
      ghost var mx, my := camera.x, camera.y;
      assert mx == Clamp(Lerp(s.x, s.targetX, alpha), camera.minX, camera.maxX);
      assert my == Clamp(Lerp(s.y, s.targetY, alpha), camera.minY, camera.maxY);
      camera.UpdateZoom(deltaTime);
      assert camera.State() == s.(x := mx, y := my, zoom := Lerp(s.zoom, s.targetZoom, alpha));
      camera.x, camera.y := cameraBoundary.BoundedX(camera.x, viewportUnitsWidth), cameraBoundary.BoundedY(camera.y, viewportUnitsHeight);
      assert camera.State() == s.(x := cameraBoundary.BoundedX(mx, viewportUnitsWidth),
                                  y := cameraBoundary.BoundedY(my, viewportUnitsHeight),
                                  zoom := Lerp(s.zoom, s.targetZoom, alpha));
    }

    /** `applyCamera(g)`: the camera's own transformation. */
    function CameraTransformation(): (t: Transform)
      reads camera
      ensures t == camera.Transformation()
    {
      camera.Transformation()
    }
  }
}
