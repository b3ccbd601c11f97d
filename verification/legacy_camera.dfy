/**
 * The older `misa.systems.camera.Camera` (kept under `_site/`): a position
 * and a zoom that glide towards targets by a smoothing factor per second,
 * the position kept inside fixed limits.
 */
module LegacyCamera {
  import opened CameraMath

  /** Everything about the camera that changes after construction. */
  datatype View = View(x: real, y: real, zoom: real, targetX: real, targetY: real, targetZoom: real)

  class Camera {
    var x: real
    var y: real
    var zoom: real
    var targetX: real
    var targetY: real
    var targetZoom: real
    const smoothFactor: real
    const minX: real
    const minY: real
    const maxX: real
    const maxY: real

    function State(): View
      reads this
    {
      View(x, y, zoom, targetX, targetY, targetZoom)
    }

    /**
     * The camera starts at rest: targets equal the start position and zoom.
     * `boundaryLimits` holds minX, minY, maxX, maxY; a shorter array is an
     * index error in the source, so four entries are required.
     */
    constructor (startX: real, startY: real, initialZoom: real, smoothFactor: real, boundaryLimits: seq<real>)
      requires |boundaryLimits| >= 4
      ensures State() == View(startX, startY, initialZoom, startX, startY, initialZoom)
      ensures this.smoothFactor == smoothFactor
      ensures minX == boundaryLimits[0] && minY == boundaryLimits[1]
      ensures maxX == boundaryLimits[2] && maxY == boundaryLimits[3]
    {
      x, y, zoom := startX, startY, initialZoom;
      targetX, targetY, targetZoom := startX, startY, initialZoom;
      this.smoothFactor := smoothFactor;
      minX, minY := boundaryLimits[0], boundaryLimits[1];
      maxX, maxY := boundaryLimits[2], boundaryLimits[3];
    }

    /**
     * `updateMovement(deltaTime)`: the position moves towards the target by
     * `smoothFactor * deltaTime` of the distance, then is clamped to the
     * limits; zoom and targets are untouched.
     */
    method UpdateMovement(deltaTime: real)
      modifies this
      ensures State() == old(State()).(
                x := Clamp(Lerp(old(x), targetX, smoothFactor * deltaTime), minX, maxX),
                y := Clamp(Lerp(old(y), targetY, smoothFactor * deltaTime), minY, maxY))
      ensures minX <= maxX ==> minX <= x <= maxX
      ensures minY <= maxY ==> minY <= y <= maxY
    {
      x := Lerp(x, targetX, smoothFactor * deltaTime);
      y := Lerp(y, targetY, smoothFactor * deltaTime);
      x := Clamp(x, minX, maxX);
      y := Clamp(y, minY, maxY);
    }

    /** `updateZoom(deltaTime)`: only the zoom moves towards its target. */
    method UpdateZoom(deltaTime: real)
      modifies this
      ensures State() == old(State()).(zoom := Lerp(old(zoom), targetZoom, smoothFactor * deltaTime))
    {
      zoom := Lerp(zoom, targetZoom, smoothFactor * deltaTime);
    }

    /** `setTargetPosition(targetX, targetY)`: nothing moves yet. */
    method SetTargetPosition(targetX: real, targetY: real)
      modifies this
      ensures State() == old(State()).(targetX := targetX, targetY := targetY)
    {
      this.targetX := targetX;
      this.targetY := targetY;
    }

    /** `setTargetZoom(targetZoom)`: nothing moves yet. */
    method SetTargetZoom(targetZoom: real)
      modifies this
      ensures State() == old(State()).(targetZoom := targetZoom)
    {
      this.targetZoom := targetZoom;
    }

    /**
     * `applyTransformations(g)`: `translate(-x, -y)` then `scale(zoom, zoom)`.
     * The translation is not scaled, so the world point drawn at the screen
     * origin is `(x / zoom, y / zoom)`, which is the camera position only at
     * zoom 1.
     */
    function Transformation(): (t: Transform)
      reads this
      ensures zoom != 0.0 ==> Apply(t, Point(x / zoom, y / zoom)) == Point(0.0, 0.0)
      ensures zoom == 1.0 ==> Apply(t, Point(x, y)) == Point(0.0, 0.0)
    {
      if zoom != 0.0 then
        MulDivCancel(x, zoom);
        MulDivCancel(y, zoom);
        Transform(-x, -y, zoom, zoom)
      else Transform(-x, -y, zoom, zoom)
    }
  }

  /** Once the position equals its target and lies within the limits, updating moves nothing. */
  method AtRestStaysPut(camera: Camera, deltaTime: real)
    requires camera.x == camera.targetX && camera.y == camera.targetY && camera.zoom == camera.targetZoom
    requires camera.minX <= camera.x <= camera.maxX && camera.minY <= camera.y <= camera.maxY
    modifies camera
    ensures camera.State() == old(camera.State())
  {
    camera.UpdateMovement(deltaTime);
    camera.UpdateZoom(deltaTime);
  }
}
