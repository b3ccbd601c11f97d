/**
 * `misa.systems.camera.Camera`: a position in world units that can be moved
 * or set, and a viewport size fixed at construction.
 */
module Camera {
  import opened CameraMath

  class Camera {
    var x: real
    var y: real
    const viewportUnitsWidth: real
    const viewportUnitsHeight: real

    constructor (startX: real, startY: real, viewportUnitsWidth: real, viewportUnitsHeight: real)
      ensures x == startX && y == startY
      ensures this.viewportUnitsWidth == viewportUnitsWidth && this.viewportUnitsHeight == viewportUnitsHeight
    {
      x, y := startX, startY;
      this.viewportUnitsWidth := viewportUnitsWidth;
      this.viewportUnitsHeight := viewportUnitsHeight;
    }

    /** Shifts the position by `(dx, dy)`. */
    method Move(dx: real, dy: real)
      modifies this
      ensures x == old(x) + dx && y == old(y) + dy
    {
      x := x + dx;
      y := y + dy;
    }

    /** Jumps to `(x, y)`. */
    method SetPosition(x: real, y: real)
      modifies this
      ensures this.x == x && this.y == y
    {
      this.x := x;
      this.y := y;
    }

    /**
     * `applyTransformations(g, pixelsPerUnit)`: `translate(-x*ppu, -y*ppu)`
     * then `scale(ppu, ppu)`. The camera position is drawn at the screen
     * origin, and one world unit spans `pixelsPerUnit` pixels.
     */
    function Transformation(pixelsPerUnit: int): (t: Transform)
      reads this
      ensures Apply(t, Point(x, y)) == Point(0.0, 0.0)
    {
      var ppu := pixelsPerUnit as real;
      MulCommutesAssociates(ppu, x, 1.0);
      MulCommutesAssociates(ppu, y, 1.0);
      Transform(-x * ppu, -y * ppu, ppu, ppu)
    }
  }

  /**
   * Under the camera transformation a world point is drawn at its offset
   * from the camera position, times `pixelsPerUnit`.
   */
  lemma DrawnAtOffset(camera: Camera, pixelsPerUnit: int, px: real, py: real)
    ensures Apply(camera.Transformation(pixelsPerUnit), Point(px, py))
         == Point((px - camera.x) * pixelsPerUnit as real, (py - camera.y) * pixelsPerUnit as real)
  {
    var ppu := pixelsPerUnit as real;
    MulDistributes(ppu, px, camera.x);
    MulDistributes(ppu, py, camera.y);
    MulCommutesAssociates(ppu, px - camera.x, 1.0);
    MulCommutesAssociates(ppu, py - camera.y, 1.0);
    MulCommutesAssociates(ppu, camera.x, 1.0);
    MulCommutesAssociates(ppu, camera.y, 1.0);
  }

  /**
   * Moving by `(dx, dy)` and back by `(-dx, -dy)` restores the position; the
   * viewport never changes. This holds because positions are exact reals
   * here: with Java's `float` arithmetic the two rounded additions do not in
   * general give the starting position back.
   */
  method MoveAndBack(camera: Camera, dx: real, dy: real)
    modifies camera
    ensures camera.x == old(camera.x) && camera.y == old(camera.y)
  {
    camera.Move(dx, dy);
    camera.Move(-dx, -dy);
  }
}
