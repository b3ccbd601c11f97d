/**
 * `misa.animator.Animator`: plays a frame array by handing the current
 * frame to a game object as its image. The clock (`System.nanoTime`) is the
 * parameter `now`; the image handed over is the result.
 */
module MisaAnimator {
  import opened JavaLang
  import opened AnimationFrames

  class Animator {
    var currentFrame: int
    var lastFrameTime: int
    var frameDuration: int

    function State(): Timing
      reads this
    {
      Timing(currentFrame, lastFrameTime, frameDuration)
    }

    /** The frame index is never negative and the duration always positive. */
    predicate Valid()
      reads this
    {
      0 <= currentFrame && frameDuration > 0
    }

    constructor ()
      ensures State() == Timing(0, 0, DefaultFrameDuration) && Valid()
    {
      currentFrame, lastFrameTime, frameDuration := 0, 0, DefaultFrameDuration;
    }

    /**
     * `animate(frames, shouldLoop, gameObject)`: steps the frame as
     * `Stepped` says, then hands `frames[currentFrame]` to the object; an
     * index left past the end of a shorter array throws instead.
     */
    method Animate(frames: seq<Image>, shouldLoop: bool, now: int) returns (r: Outcome<Image>)
      requires Valid()
      modifies this
      ensures Valid()
      ensures State() == Stepped(old(State()), now, |frames|, shouldLoop)
      ensures |frames| == 0 <==> r.NoFrames?
      ensures r.Shown? <==> |frames| > 0 && currentFrame < |frames|
      ensures r.Shown? ==> r.value == frames[currentFrame]
      ensures 0 <= old(currentFrame) < |frames| ==> r.Shown? && currentFrame < |frames|
    {
      if |frames| == 0 {
        return NoFrames;
      }
      if JDiv(now - lastFrameTime, 1_000_000) > frameDuration {
        currentFrame := currentFrame + 1;
        if currentFrame >= |frames| {
          if shouldLoop {
            currentFrame := 0;
          } else {
            currentFrame := |frames| - 1;
          }
        }
        lastFrameTime := now;
      }
      if currentFrame >= |frames| {
        return IndexOutOfBounds;
      }
      r := Shown(frames[currentFrame]);
    }

    /** `setFrameDuration(duration)`: the duration stays positive. */
    method SetFrameDuration(duration: int)
      requires Valid()
      modifies this
      ensures Valid()
      ensures State() == old(State()).(frameDuration := CheckedDuration(duration))
    {
      if duration <= 0 {
        frameDuration := DefaultFrameDuration;
      } else {
        frameDuration := duration;
      }
    }
  }

  /**
   * A two-frame animation that does not loop shows the first frame until
   * more than 200 ms have passed, then the second, and stays there.
   */
  method NonLoopingStops(a: Image, b: Image) returns (early: Outcome<Image>, later: Outcome<Image>, last: Outcome<Image>)
    ensures early == Shown(a) && later == Shown(b) && last == Shown(b)
  {
    var animator := new Animator();
    early := animator.Animate([a, b], false, 200_999_999);
    later := animator.Animate([a, b], false, 201_000_000);
    last := animator.Animate([a, b], false, 900_000_000);
  }
}
