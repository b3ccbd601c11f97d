/**
 * The frame-advance rule the two `misa` animators share: a frame index,
 * the time of the last advance and a frame duration, stepped forward once
 * enough time has passed.
 */
module AnimationFrames {
  import opened JavaLang

  /** A frame image, known only by identity. */
  datatype Image = Image(handle: nat)

  /** What an animation call ends in. */
  datatype Outcome<T> =
      /** The frame array was null or empty: a warning is logged and nothing happens. */
    | NoFrames
      /** The current frame was shown. */
    | Shown(value: T)
      /** The current frame index lies past the end of the array: the call throws. */
    | IndexOutOfBounds

  /** The frame duration a new animator starts with, and the fallback for a bad one. */
  const DefaultFrameDuration: int := 200

  /** An animator's state: current frame, last advance time in nanoseconds, frame duration in milliseconds. */
  datatype Timing = Timing(currentFrame: int, lastFrameTime: int, frameDuration: int)

  /**
   * `shouldUpdateFrame(now)`: whole milliseconds elapsed since the last
   * advance, truncated toward zero, strictly more than the frame duration.
   */
  predicate ShouldUpdateFrame(now: int, lastFrameTime: int, frameDuration: int)
  {
    JDiv(now - lastFrameTime, 1_000_000) > frameDuration
  }

  /**
   * For a non-negative duration, a frame is due exactly when at least
   * `frameDuration + 1` whole milliseconds have passed; a clock that went
   * backwards never advances.
   */
  lemma ShouldUpdateFrameExactly(now: int, lastFrameTime: int, frameDuration: int)
    requires frameDuration >= 0
    ensures ShouldUpdateFrame(now, lastFrameTime, frameDuration)
            <==> now - lastFrameTime >= (frameDuration + 1) * 1_000_000
  {
    var elapsed := now - lastFrameTime;
    if elapsed >= 0 {
      assert elapsed == 1_000_000 * (elapsed / 1_000_000) + elapsed % 1_000_000;
    } else {
      assert JDiv(elapsed, 1_000_000) <= 0;
    }
  }

  /**
   * `updateCurrentFrame`: the next frame; past the last one a looping
   * animation wraps to the first and a non-looping one stays on the last.
   */
  function NextFrame(currentFrame: int, length: int, shouldLoop: bool): (r: int)
    requires length > 0
    ensures 0 <= currentFrame < length ==> 0 <= r < length
    ensures currentFrame + 1 < length ==> r == currentFrame + 1
    ensures currentFrame == length - 1 ==> r == (if shouldLoop then 0 else length - 1)
  {
    var next := currentFrame + 1;
    if next >= length then (if shouldLoop then 0 else length - 1) else next
  }

  /** `k` advances in a row. */
  function Advanced(currentFrame: int, length: int, shouldLoop: bool, k: nat): int
    requires length > 0
  {
    if k == 0 then currentFrame else NextFrame(Advanced(currentFrame, length, shouldLoop, k - 1), length, shouldLoop)
  }

  /** Below the last frame, each advance moves exactly one frame on, looping or not. */
  lemma {:induction false} AdvancedClimbs(currentFrame: int, length: int, shouldLoop: bool, k: nat)
    requires 0 <= currentFrame && currentFrame + k < length
    ensures Advanced(currentFrame, length, shouldLoop, k) == currentFrame + k
  {
    if k > 0 {
      AdvancedClimbs(currentFrame, length, shouldLoop, k - 1);
    }
  }

  /** `j` advances followed by `k` more are `j + k` advances. */
  lemma {:induction false} AdvancedCompose(currentFrame: int, length: int, shouldLoop: bool, j: nat, k: nat)
    requires length > 0
    ensures Advanced(Advanced(currentFrame, length, shouldLoop, j), length, shouldLoop, k)
            == Advanced(currentFrame, length, shouldLoop, j + k)
  {
    if k > 0 {
      AdvancedCompose(currentFrame, length, shouldLoop, j, k - 1);
    }
  }

  /**
   * A looping animation climbs to the last frame, wraps to the first and
   * after `length` advances is back on the frame it started from.
   */
  lemma LoopingCycles(currentFrame: int, length: int)
    requires 0 <= currentFrame < length
    ensures Advanced(currentFrame, length, true, length - 1 - currentFrame) == length - 1
    ensures Advanced(currentFrame, length, true, length - currentFrame) == 0
    ensures Advanced(currentFrame, length, true, length) == currentFrame
  {
    var toLast := length - 1 - currentFrame;
    AdvancedClimbs(currentFrame, length, true, toLast);
    assert Advanced(currentFrame, length, true, toLast + 1) == 0;
    AdvancedClimbs(0, length, true, currentFrame);
    AdvancedCompose(currentFrame, length, true, toLast + 1, currentFrame);
  }

  /** A non-looping animation climbs one frame per advance and then rests on the last one. */
  lemma {:induction false} StickingSettles(currentFrame: int, length: int, k: nat)
    requires 0 <= currentFrame < length
    ensures Advanced(currentFrame, length, false, k)
            == (if currentFrame + k < length then currentFrame + k else length - 1)
  {
    if k > 0 {
      StickingSettles(currentFrame, length, k - 1);
    }
  }

  /**
   * One `animate` or `animateAtPixel` call on an array of `length` frames:
   * with no frames nothing changes; otherwise, when a frame is due, the index
   * advances and the advance time becomes `now`; the duration is kept.
   */
  function Stepped(t: Timing, now: int, length: nat, shouldLoop: bool): (r: Timing)
    ensures r.frameDuration == t.frameDuration
    ensures length == 0 ==> r == t
    ensures length > 0 && 0 <= t.currentFrame < length ==> 0 <= r.currentFrame < length
    ensures r.lastFrameTime == t.lastFrameTime || r.lastFrameTime == now
    ensures r.currentFrame != t.currentFrame ==> r.lastFrameTime == now
  {
    if length == 0 then t
    else if ShouldUpdateFrame(now, t.lastFrameTime, t.frameDuration) then
      t.(currentFrame := NextFrame(t.currentFrame, length, shouldLoop), lastFrameTime := now)
    else t
  }

  /** Within its duration the animator stands still; once a frame is due it moves by exactly one `NextFrame`. */
  lemma SteppedAdvancesOnlyWhenDue(t: Timing, now: int, length: nat, shouldLoop: bool)
    requires length > 0 && t.frameDuration >= 0
    ensures now - t.lastFrameTime < (t.frameDuration + 1) * 1_000_000 ==> Stepped(t, now, length, shouldLoop) == t
    ensures now - t.lastFrameTime >= (t.frameDuration + 1) * 1_000_000 ==>
      Stepped(t, now, length, shouldLoop)
      == Timing(NextFrame(t.currentFrame, length, shouldLoop), now, t.frameDuration)
  {
    ShouldUpdateFrameExactly(now, t.lastFrameTime, t.frameDuration);
  }

  /** `setFrameDuration(duration)`: a positive duration is kept, anything else becomes the default. */
  function CheckedDuration(duration: int): (r: int)
    ensures r > 0
    ensures duration > 0 ==> r == duration
    ensures duration <= 0 ==> r == DefaultFrameDuration
  {
    if duration <= 0 then DefaultFrameDuration else duration
  }
}
