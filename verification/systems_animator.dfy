/**
 * `misa.systems.animation.Animator`: plays a frame array on a game object,
 * drawing the current frame either on the object's one-unit cell or on a
 * square of pixels. The clock (`System.nanoTime`) is the parameter `now`.
 */
module SystemsAnimator {
  import opened JavaLang
  import opened Drawing
  import opened AnimationFrames

  /** One `drawImage`: the whole frame image scaled onto `dst`. */
  datatype FrameDraw = FrameDraw(image: Image, dst: Rect)

  /**
   * `renderCurrentFrame`: the one-unit cell at the object's position plus
   * the offset, each corner cast to `int` separately.
   */
  function UnitCell(coordinateX: real, coordinateY: real, offsetX: real, offsetY: real): Rect
  {
    var x, y := coordinateX + offsetX, coordinateY + offsetY;
    Rect(DoubleToInt(x), DoubleToInt(y), DoubleToInt(x + 1.0), DoubleToInt(y + 1.0))
  }

  /**
   * The cell is one pixel wide at non-negative positions, but collapses to
   * zero width just left of the origin, where the casts of `x` and `x + 1`
   * both truncate to 0.
   */
  lemma UnitCellWidth(x: real, y: real)
    ensures 0.0 <= x && x + 1.0 < INT_MAX as real ==>
      UnitCell(x, y, 0.0, 0.0).right == UnitCell(x, y, 0.0, 0.0).left + 1
    ensures x == -0.5 ==> UnitCell(x, y, 0.0, 0.0).right == UnitCell(x, y, 0.0, 0.0).left
  {
    if 0.0 <= x && x + 1.0 < INT_MAX as real {
      assert (x + 1.0).Floor == x.Floor + 1;
    }
  }

  /** `animateAtPixel`'s target square, with Java `int` additions. */
  function PixelSquare(pixelX: int, pixelY: int, sizeInPixels: int): (r: Rect)
    ensures INT_MIN <= pixelX && pixelX + sizeInPixels <= INT_MAX && INT_MIN <= pixelY && pixelY + sizeInPixels <= INT_MAX
            && INT_MIN <= pixelX + sizeInPixels && INT_MIN <= pixelY + sizeInPixels ==>
      r.right - r.left == sizeInPixels && r.bottom - r.top == sizeInPixels
  {
    Rect(pixelX, pixelY, ToInt32(pixelX + sizeInPixels), ToInt32(pixelY + sizeInPixels))
  }

  class Animator {
    var currentFrame: int
    var lastFrameTime: int
    var frameDuration: int

    function State(): Timing
      reads this
    {
      Timing(currentFrame, lastFrameTime, frameDuration)
    }

    /** The frame index is never negative and the duration always positive. */
    predicate Valid()
      reads this
    {
      0 <= currentFrame && frameDuration > 0
    }

    constructor ()
      ensures State() == Timing(0, 0, DefaultFrameDuration) && Valid()
    {
      currentFrame, lastFrameTime, frameDuration := 0, 0, DefaultFrameDuration;
    }

    /** `updateCurrentFrame`. */
    method UpdateCurrentFrame(length: int, shouldLoop: bool)
      requires length > 0
      modifies this
      ensures State() == old(State()).(currentFrame := NextFrame(old(currentFrame), length, shouldLoop))
    {
      currentFrame := currentFrame + 1;
      if currentFrame >= length {
        if shouldLoop {
          currentFrame := 0;
        } else {
          currentFrame := length - 1;
        }
      }
    }

    /** The frame-advance part shared by both entry points. */
    method Step(length: nat, shouldLoop: bool, now: int)
      requires length > 0
      modifies this
      ensures State() == Stepped(old(State()), now, length, shouldLoop)
    {
      if JDiv(now - lastFrameTime, 1_000_000) > frameDuration {
        UpdateCurrentFrame(length, shouldLoop);
        lastFrameTime := now;
      }
    }

    /**
     * `animate(...)`: steps the frame as `Stepped` says, then draws the
     * current frame on the object's unit cell. A current frame left past the
     * end of a shorter array by earlier calls throws; a valid frame index
     * stays valid and is always drawn.
     */
    method Animate(frames: seq<Image>, shouldLoop: bool, coordinateX: real, coordinateY: real,
                   offsetX: real, offsetY: real, now: int) returns (r: Outcome<FrameDraw>)
      requires Valid()
      modifies this
      ensures Valid()
      ensures State() == Stepped(old(State()), now, |frames|, shouldLoop)
      ensures |frames| == 0 <==> r.NoFrames?
      ensures r.Shown? <==> |frames| > 0 && currentFrame < |frames|
      ensures r.Shown? ==> r.value == FrameDraw(frames[currentFrame], UnitCell(coordinateX, coordinateY, offsetX, offsetY))
      ensures 0 <= old(currentFrame) < |frames| ==> r.Shown? && currentFrame < |frames|
    {
      if |frames| == 0 {
        return NoFrames;
      }
      Step(|frames|, shouldLoop, now);
      if currentFrame >= |frames| {
        return IndexOutOfBounds;
      }
      r := Shown(FrameDraw(frames[currentFrame], UnitCell(coordinateX, coordinateY, offsetX, offsetY)));
    }

    /** `animateAtPixel(...)`: the same step, then the frame drawn on a square of pixels. */
    method AnimateAtPixel(frames: seq<Image>, shouldLoop: bool, pixelX: int, pixelY: int,
                          sizeInPixels: int, now: int) returns (r: Outcome<FrameDraw>)
      requires Valid()
      modifies this
      ensures Valid()
      ensures State() == Stepped(old(State()), now, |frames|, shouldLoop)
      ensures |frames| == 0 <==> r.NoFrames?
      ensures r.Shown? <==> |frames| > 0 && currentFrame < |frames|
      ensures r.Shown? ==> r.value == FrameDraw(frames[currentFrame], PixelSquare(pixelX, pixelY, sizeInPixels))
      ensures 0 <= old(currentFrame) < |frames| ==> r.Shown? && currentFrame < |frames|
    {
      if |frames| == 0 {
        return NoFrames;
      }
      Step(|frames|, shouldLoop, now);
      if currentFrame >= |frames| {
        return IndexOutOfBounds;
      }
      r := Shown(FrameDraw(frames[currentFrame], PixelSquare(pixelX, pixelY, sizeInPixels)));
    }

    /** `setFrameDuration(duration)`: the duration stays positive. */
    method SetFrameDuration(duration: int)
      requires Valid()
      modifies this
      ensures Valid()
      ensures State() == old(State()).(frameDuration := CheckedDuration(duration))
    {
      if duration <= 0 {
        frameDuration := DefaultFrameDuration;
      } else {
        frameDuration := duration;
      }
    }
  }

  /**
   * An animator that has reached the third frame of a loop and is then
   * handed a one-frame array before the next frame is due throws: the
   * index is only brought back into range by an advance.
   */
  method ShorterArrayThrows(a: Image, b: Image, c: Image) returns (second: Outcome<FrameDraw>, third: Outcome<FrameDraw>, shorter: Outcome<FrameDraw>)
    ensures second == Shown(FrameDraw(b, Rect(0, 0, 16, 16)))
    ensures third == Shown(FrameDraw(c, Rect(0, 0, 16, 16)))
    ensures shorter == IndexOutOfBounds
  {
    var animator := new Animator();
    second := animator.AnimateAtPixel([a, b, c], true, 0, 0, 16, 201_000_000);
    third := animator.AnimateAtPixel([a, b, c], true, 0, 0, 16, 402_000_000);
    shorter := animator.AnimateAtPixel([a], true, 0, 0, 16, 402_000_001);
  }
}
