/**
 * `Input`: the set of keys currently held down, fed by key-pressed and
 * key-released events. The source keeps one set shared by every instance;
 * here it is the field of the one `Input` object.
 */
module Input {

  class Input {
    var pressedKeys: set<int>

    constructor ()
      ensures pressedKeys == {}
    {
      pressedKeys := {};
    }

    /** `keyPressed(e)`: the key is held; every other key as before. */
    method KeyPressed(keyCode: int)
      modifies this
      ensures IsKeyPressed(keyCode)
      ensures forall k :: k != keyCode ==> IsKeyPressed(k) == old(IsKeyPressed(k))
    {
      pressedKeys := pressedKeys + {keyCode};
    }

    /** `keyReleased(e)`: the key is up, however often it was pressed; every other key as before. */
    method KeyReleased(keyCode: int)
      modifies this
      ensures !IsKeyPressed(keyCode)
      ensures forall k :: k != keyCode ==> IsKeyPressed(k) == old(IsKeyPressed(k))
    {
      pressedKeys := pressedKeys - {keyCode};
    }

    /** `keyTyped(e)`: typing events are ignored. */
    method KeyTyped(keyCode: int)
      ensures pressedKeys == old(pressedKeys)
    {
    }

    /** `isKeyPressed(keyCode)`. */
    predicate IsKeyPressed(keyCode: int)
      reads this
    {
      keyCode in pressedKeys
    }
  }

  /** Pressing a key twice and releasing it once leaves it up: presses are not counted. */
  method PressTwiceReleaseOnce(input: Input, keyCode: int) returns (held: bool)
    modifies input
    ensures !held
    ensures forall k :: k != keyCode ==> input.IsKeyPressed(k) == old(input.IsKeyPressed(k))
  {
    input.KeyPressed(keyCode);
    input.KeyPressed(keyCode);
    input.KeyReleased(keyCode);
    held := input.IsKeyPressed(keyCode);
  }
}
