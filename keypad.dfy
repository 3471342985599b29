/**
 * The sixteen-key hexadecimal keypad (src/keypad.rs): one two-state latch
 * per key, indexed 0x0 to 0xF. Indexing with a key of 16 or more panics in
 * the Rust code; here it is a precondition.
 */
module Keypad {

  /** Number of keys. */
  const KEYS := 16

  /** `KeyState`: a key is either up or down, nothing else. */
  datatype KeyState = Up | Down {
    /** `KeyState::is_key_up`. */
    predicate IsKeyUp() {
      this == Up
    }

    /** `KeyState::is_key_down`. */
    predicate IsKeyDown() {
      this == Down
    }
  }

  /** With exactly two states, a key is up exactly when it is not down. */
  lemma TwoStates(k: KeyState)
    ensures k.IsKeyUp() <==> !k.IsKeyDown()
  {
  }

  /** The number of keys in `keys` that are down. */
  function CountDown(keys: seq<KeyState>): (k: nat)
    ensures k <= |keys|
    ensures k == 0 <==> forall i :: 0 <= i < |keys| ==> keys[i].IsKeyUp()
  {
    if keys == [] then 0
    else CountDown(keys[..|keys| - 1]) + (if keys[|keys| - 1].IsKeyDown() then 1 else 0)
  }

  /** The highest index of a key that is down, or -1 when every key is up. */
  function LastDown(keys: seq<KeyState>): (r: int)
    ensures -1 <= r < |keys|
    ensures r >= 0 ==> keys[r].IsKeyDown() && forall i :: r < i < |keys| ==> keys[i].IsKeyUp()
    ensures r < 0 <==> forall i :: 0 <= i < |keys| ==> keys[i].IsKeyUp()
  {
    if keys == [] then -1
    else if keys[|keys| - 1].IsKeyDown() then |keys| - 1
    else LastDown(keys[..|keys| - 1])
  }

  /** Some key is counted as down exactly when there is a highest key that is down. */
  lemma CountDownLastDown(keys: seq<KeyState>)
    ensures CountDown(keys) > 0 <==> LastDown(keys) >= 0
  {
  }

  class Keypad {
    /** `keys: [KeyState; 16]`. */
    const keys: array<KeyState>

    ghost predicate Valid() {
      keys.Length == KEYS
    }

    /** `Keypad::new`: every key up. */
    constructor ()
      ensures Valid() && fresh(keys)
      ensures forall k :: 0 <= k < KEYS ==> keys[k] == Up
    {
      keys := new KeyState[KEYS](_ => Up);
    }

    /** `reset` puts every key up. */
    method Reset()
      requires Valid()
      modifies keys
      ensures forall k :: 0 <= k < KEYS ==> keys[k] == Up
    {
      forall k | 0 <= k < keys.Length {
        keys[k] := Up;
      }
    }

    /** `is_key_up`. */
    function IsKeyUp(key: nat): (b: bool)
      reads keys
      requires Valid() && key < KEYS
      ensures b <==> keys[key] == Up
      ensures b <==> !IsKeyDown(key)
    {
      keys[key].IsKeyUp()
    }

    /** `is_key_down`. */
    function IsKeyDown(key: nat): (b: bool)
      reads keys
      requires Valid() && key < KEYS
      // Kept so that callers see the array entry without unfolding `KeyState::is_key_down`.
      ensures b <==> keys[key] == Down
    {
      keys[key].IsKeyDown()
    }

    /** `set_key_up`: key `key` is up afterwards and no other key changes; setting it again changes nothing. */
    method SetKeyUp(key: nat)
      requires Valid() && key < KEYS
      modifies keys
      ensures keys[..] == old(keys[..])[key := Up]
      ensures IsKeyUp(key)
      ensures old(IsKeyUp(key)) ==> keys[..] == old(keys[..])
    {
      keys[key] := Up;
    }

    /** `set_key_down`: key `key` is down afterwards and no other key changes; setting it again changes nothing. */
    method SetKeyDown(key: nat)
      requires Valid() && key < KEYS
      modifies keys
      ensures keys[..] == old(keys[..])[key := Down]
      ensures IsKeyDown(key)
      ensures old(IsKeyDown(key)) ==> keys[..] == old(keys[..])
    {
      keys[key] := Down;
    }
  }
}
