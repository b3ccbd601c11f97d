/**
 * `core.Animator`: the earliest animator. It steps on a millisecond clock
 * (`System.currentTimeMillis`, the parameter `now`) with a fixed 200 ms
 * duration, and checks the frame index against the array on every call,
 * whether or not a frame was due.
 */
module CoreAnimator {
  import opened AnimationFrames

  /** The fixed frame duration, in milliseconds. */
  const FrameDuration: int := 200

  /**
   * The frame index after one `animate` call: one more when more than
   * `FrameDuration` ms have passed, then anything at or past the end of the
   * array replaced by the first frame (looping) or the last one.
   */
  function CoreStepped(currentFrame: int, lastFrameTime: int, now: int, length: nat, shouldLoop: bool): (r: int)
    ensures length > 0 && currentFrame >= -1 ==> r < length
    ensures length > 0 && currentFrame >= 0 ==> 0 <= r < length
    ensures currentFrame >= -1 ==> r >= -1
  {
    var advanced := if now - lastFrameTime > FrameDuration then currentFrame + 1 else currentFrame;
    if advanced >= length then (if shouldLoop then 0 else length - 1) else advanced
  }

  class Animator {
    var currentFrame: int
    var lastFrameTime: int

    /**
     * The index never drops below -1; it reaches -1 only when a
     * non-looping animation is given an empty array.
     */
    predicate Valid()
      reads this
    {
      currentFrame >= -1
    }

    constructor ()
      ensures currentFrame == 0 && lastFrameTime == 0 && Valid()
    {
      currentFrame, lastFrameTime := 0, 0;
    }

    /**
     * `animate(frames, shouldLoop, gameObject)`: the image handed to the
     * object. With a non-empty array and a non-negative index before the call
     * it always succeeds, even when an earlier array was longer; an empty
     * array, or an index of -1 with no frame due, throws.
     */
    method Animate(frames: seq<Image>, shouldLoop: bool, now: int) returns (r: Outcome<Image>)
      requires Valid()
      modifies this
      ensures Valid()
      ensures currentFrame == CoreStepped(old(currentFrame), old(lastFrameTime), now, |frames|, shouldLoop)
      ensures lastFrameTime == if now - old(lastFrameTime) > FrameDuration then now else old(lastFrameTime)
      ensures r.Shown? <==> 0 <= currentFrame < |frames|
      ensures r.Shown? ==> r.value == frames[currentFrame]
      ensures !r.Shown? ==> r == IndexOutOfBounds
      ensures |frames| > 0 && old(currentFrame) >= 0 ==> r.Shown?
    {
      if now - lastFrameTime > FrameDuration {
        currentFrame := currentFrame + 1;
        lastFrameTime := now;
      }
      if currentFrame >= |frames| {
        currentFrame := if shouldLoop then 0 else |frames| - 1;
      }
      if currentFrame < 0 || currentFrame >= |frames| {
        return IndexOutOfBounds;
      }
      r := Shown(frames[currentFrame]);
    }
  }

  /**
   * A five-frame index handed a two-frame array snaps back at once, within
   * the frame duration: to the first frame when looping, the last otherwise.
   */
  lemma ShorterArraySnapsBack()
    ensures CoreStepped(4, 1000, 1100, 2, true) == 0
    ensures CoreStepped(4, 1000, 1100, 2, false) == 1
  {
  }
}
