/**
 * `CameraBoundary`: keeps a camera's viewport inside a world rectangle. The
 * minimum corner is fixed; the maximum corner follows the world size.
 */
module CameraBoundary {
  import opened CameraMath
  import Cameras = Camera

  class CameraBoundary {
    const minX: real
    const minY: real
    var maxX: real
    var maxY: real
    const originalMinX: real
    const originalMinY: real

    /** The saved copies of the minimum corner equal it. */
    predicate Valid()
      reads this
    {
      originalMinX == minX && originalMinY == minY
    }

    constructor (minX: real, minY: real, maxX: real, maxY: real)
      ensures Valid()
      ensures this.minX == minX && this.minY == minY && this.maxX == maxX && this.maxY == maxY
    {
      this.minX, this.minY := minX, minY;
      this.maxX, this.maxY := maxX, maxY;
      originalMinX, originalMinY := minX, minY;
    }

    /**
     * The x a camera with a viewport `viewportWidth` wide is moved to: into
     * `[minX, maxX - viewportWidth]`, and to `minX` when that range is empty.
     */
    function BoundedX(x: real, viewportWidth: real): (r: real)
      reads this
      ensures minX <= r
      ensures minX <= maxX - viewportWidth ==> r <= maxX - viewportWidth
      ensures minX <= x <= maxX - viewportWidth ==> r == x
      ensures maxX - viewportWidth < minX ==> r == minX
    {
      Clamp(x, minX, maxX - viewportWidth)
    }

    /** The same for y, with the viewport height. */
    function BoundedY(y: real, viewportHeight: real): (r: real)
      reads this
      ensures minY <= r
      ensures minY <= maxY - viewportHeight ==> r <= maxY - viewportHeight
      ensures minY <= y <= maxY - viewportHeight ==> r == y
      ensures maxY - viewportHeight < minY ==> r == minY
    {
      Clamp(y, minY, maxY - viewportHeight)
    }

    /** `enforceBounds(camera)`: moves the camera into range; the boundary and the viewport are untouched. */
    method EnforceBounds(camera: Cameras.Camera)
      modifies camera
      ensures camera.x == BoundedX(old(camera.x), camera.viewportUnitsWidth)
      ensures camera.y == BoundedY(old(camera.y), camera.viewportUnitsHeight)
    {
      camera.SetPosition(BoundedX(camera.x, camera.viewportUnitsWidth), BoundedY(camera.y, camera.viewportUnitsHeight));
    }

    /**
     * `update(worldWidth, worldHeight)`: the maximum corner becomes the
     * minimum corner plus the world size, but never less than the minimum.
     */
    method Update(worldUnitsWidth: real, worldUnitsHeight: real)
      requires Valid()
      modifies this
      ensures Valid()
      ensures maxX == (if worldUnitsWidth < 0.0 then minX else minX + worldUnitsWidth)
      ensures maxY == (if worldUnitsHeight < 0.0 then minY else minY + worldUnitsHeight)
      ensures minX <= maxX && minY <= maxY
    {
      var adjustedMaxX := originalMinX + worldUnitsWidth;
      var adjustedMaxY := originalMinY + worldUnitsHeight;
      maxX := if originalMinX >= adjustedMaxX then originalMinX else adjustedMaxX;
      maxY := if originalMinY >= adjustedMaxY then originalMinY else adjustedMaxY;
    }
  }

  /** Enforcing the bounds twice is enforcing them once. */
  lemma BoundedIdempotent(b: CameraBoundary, x: real, y: real, viewportWidth: real, viewportHeight: real)
    ensures b.BoundedX(b.BoundedX(x, viewportWidth), viewportWidth) == b.BoundedX(x, viewportWidth)
    ensures b.BoundedY(b.BoundedY(y, viewportHeight), viewportHeight) == b.BoundedY(y, viewportHeight)
  {
    ClampIdempotent(x, b.minX, b.maxX - viewportWidth);
    ClampIdempotent(y, b.minY, b.maxY - viewportHeight);
  }

  /** A 640 by 480 world, a 20 by 15 viewport: a camera at (1000, 1000) ends at (620, 465). */
  method ClampToWorldCorner() returns (x: real, y: real)
    ensures x == 620.0 && y == 465.0
  {
    var boundary := new CameraBoundary(0.0, 0.0, 640.0, 480.0);
    var camera := new Cameras.Camera(1000.0, 1000.0, 20.0, 15.0);
    boundary.EnforceBounds(camera);
    x, y := camera.x, camera.y;
  }
}
