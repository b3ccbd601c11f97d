/**
 * `AnimationController`: switches a game object between named animations,
 * remembering which one it last started.
 */
module AnimationController {
  import opened Wrappers
  import opened AnimationFrames

  class AnimationController {
    /** The game object's handle. */
    const gameObject: nat
    /** Animation name to frame array; never changed after construction. */
    const animations: map<string, seq<Image>>
    /** The animation last started, none before the first `play`. */
    var currentAnimationName: Option<string>

    /**
     * The controller starts with no current animation, so `isPlaying`
     * answers true for every name.
     */
    constructor (gameObject: nat, animations: map<string, seq<Image>>)
      ensures this.gameObject == gameObject && this.animations == animations
      ensures currentAnimationName == None
      ensures forall name :: IsPlaying(name)
      ensures forall name :: !IsPlayingAsDocumented(name)
    {
      this.gameObject := gameObject;
      this.animations := animations;
      currentAnimationName := None;
    }

    /**
     * `play(name)`: an unknown name or the current one changes nothing;
     * another known name is started on the game object (`started`) and
     * becomes current.
     */
    method Play(name: string) returns (started: bool)
      modifies this
      ensures started <==> name in animations && old(currentAnimationName) != Some(name)
      ensures name !in animations ==> currentAnimationName == old(currentAnimationName)
      ensures name in animations ==> currentAnimationName == Some(name)
    {
      if name !in animations {
        return false;
      }
      if Some(name) != currentAnimationName {
        currentAnimationName := Some(name);
        return true;
      }
      return false;
    }

    /**
     * `isPlaying(name)`: as written it answers whether `name` is NOT the
     * current animation.
     */
    predicate IsPlaying(name: string): (r: bool)
      reads this
      ensures currentAnimationName.None? ==> r
      ensures r <==> !IsPlayingAsDocumented(name)
    {
      Some(name) != currentAnimationName
    }

    /**
     * What the documentation of `isPlaying` promises: true exactly for the
     * animation that is currently playing, so for one name at most.
     */
    predicate IsPlayingAsDocumented(name: string)
      reads this
    {
      currentAnimationName == Some(name)
    }
  }

  /** As documented, at most one animation is playing at any time. */
  lemma DocumentedPlayingIsUnique(controller: AnimationController, name: string, other: string)
    requires controller.IsPlayingAsDocumented(name) && controller.IsPlayingAsDocumented(other)
    ensures name == other
  {
  }

  /** The code's `isPlaying` answers the opposite of its documentation, for every name. */
  lemma IsPlayingInverted(controller: AnimationController, name: string)
    ensures controller.IsPlaying(name) <==> !controller.IsPlayingAsDocumented(name)
  {
  }

  /**
   * Playing a known animation twice starts it once, and afterwards
   * `isPlaying` denies that it is playing while affirming every other name;
   * the documented answer is the reverse.
   */
  method PlayTwice(controller: AnimationController, name: string, other: string) returns (first: bool, second: bool)
    requires name in controller.animations && other != name
    requires controller.currentAnimationName != Some(name)
    modifies controller
    ensures first && !second
    ensures controller.currentAnimationName == Some(name)
    ensures !controller.IsPlaying(name) && controller.IsPlaying(other)
    ensures controller.IsPlayingAsDocumented(name) && !controller.IsPlayingAsDocumented(other)
  {
    first := controller.Play(name);
    second := controller.Play(name);
  }
}
