/** The keypad state (src/io/input.rs): the set of keys currently held down. */
module Input {
  import opened Keys

  class Keypad {
    var pressed: set<Key>

    /** `Keypad::new`: no key is pressed. */
    constructor ()
      ensures pressed == {}
      ensures forall key :: !IsPressed(key)
    {
      pressed := {};
    }

    /** `press`: the key is now pressed; pressing it again changes nothing; other keys keep their state. */
    method Press(key: Key)
      modifies this
      ensures IsPressed(key)
      ensures old(IsPressed(key)) ==> pressed == old(pressed)
      ensures forall other :: other != key ==> IsPressed(other) == old(IsPressed(other))
      ensures pressed == old(pressed) + {key}
    {
      pressed := pressed + {key};
    }

    /** `release`: the key is no longer pressed (harmless if it was not); other keys keep their state. */
    method Release(key: Key)
      modifies this
      ensures !IsPressed(key)
      ensures !old(IsPressed(key)) ==> pressed == old(pressed)
      ensures forall other :: other != key ==> IsPressed(other) == old(IsPressed(other))
      ensures pressed == old(pressed) - {key}
    {
      pressed := pressed - {key};
    }

    /** `is_pressed`. */
    predicate IsPressed(key: Key)
      reads this
    {
      key in pressed
    }
  }

  /** The source's keypad test: D0 pressed twice, then released; D1 untouched throughout. */
  method KeypadExample()
  {
    var keypad := new Keypad();
    assert !keypad.IsPressed(D0) && !keypad.IsPressed(D1);
    keypad.Press(D0);
    assert keypad.IsPressed(D0) && !keypad.IsPressed(D1);
    keypad.Press(D0);
    assert keypad.IsPressed(D0) && !keypad.IsPressed(D1);
    keypad.Release(D0);
    assert !keypad.IsPressed(D0) && !keypad.IsPressed(D1);
  }
}
