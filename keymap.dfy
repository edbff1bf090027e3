/**
 * The key latch (keymap.rs): a fixed table from host keys to the sixteen
 * keypad values, and the set of keypad values currently held.
 *
 *   keypad     keyboard
 *   1 2 3 C    1 2 3 4
 *   4 5 6 D    Q W E R
 *   7 8 9 E    A S D F
 *   A 0 B F    Z X C V
 */
module Keyboard {
  import opened Bytes

  datatype Option<T> = None | Some(value: T)

  /** The host key codes; every key outside the sixteen of the table is `Other`. */
  datatype Keycode =
    | Num1 | Num2 | Num3 | Num4
    | Q | W | E | R
    | A | S | D | F
    | Z | X | C | V
    | Other

  /** The keypad, row by row. */
  const KEYPAD_LAYOUT: seq<seq<u8>> :=
    [[0x1, 0x2, 0x3, 0xC],
     [0x4, 0x5, 0x6, 0xD],
     [0x7, 0x8, 0x9, 0xE],
     [0xA, 0x0, 0xB, 0xF]]

  /** The keyboard keys standing in for it, row by row. */
  const KEYBOARD_LAYOUT: seq<seq<Keycode>> :=
    [[Num1, Num2, Num3, Num4],
     [Q, W, E, R],
     [A, S, D, F],
     [Z, X, C, V]]

  /** The keypad value of a host key: the sixteen-entry table, `None` for any other key. */
  function ToChip8Key(keycode: Keycode): (r: Option<u8>)
    ensures r.Some? ==> r.value < 16
    ensures r.None? <==> keycode == Other
  {
    match keycode
    case Num1 => Some(0x1)
    case Num2 => Some(0x2)
    case Num3 => Some(0x3)
    case Num4 => Some(0xC)
    case Q => Some(0x4)
    case W => Some(0x5)
    case E => Some(0x6)
    case R => Some(0xD)
    case A => Some(0x7)
    case S => Some(0x8)
    case D => Some(0x9)
    case F => Some(0xE)
    case Z => Some(0xA)
    case X => Some(0x0)
    case C => Some(0xB)
    case V => Some(0xF)
    case _ => None
  }

  /** The host key that stands for keypad value `key`, read off the two layouts. */
  function KeyFor(key: u8): (k: Keycode)
    requires key < 16
    ensures k != Other
  {
    if key == 0x1 then Num1 else if key == 0x2 then Num2 else if key == 0x3 then Num3
    else if key == 0xC then Num4
    else if key == 0x4 then Q else if key == 0x5 then W else if key == 0x6 then E
    else if key == 0xD then R
    else if key == 0x7 then A else if key == 0x8 then S else if key == 0x9 then D
    else if key == 0xE then F
    else if key == 0xA then Z else if key == 0x0 then X else if key == 0xB then C
    else V
  }

  /** The table follows the layouts: the key at each keyboard position yields the keypad value at that position. */
  lemma LayoutPreserved(r: nat, c: nat)
    requires r < 4 && c < 4
    ensures ToChip8Key(KEYBOARD_LAYOUT[r][c]) == Some(KEYPAD_LAYOUT[r][c])
  {
  }

  /** Every keypad value 0x0..0xF has exactly one host key, and only `Other` maps to nothing. */
  lemma ToChip8KeyBijective(k: Keycode, key: u8)
    ensures ToChip8Key(k).Some? ==> ToChip8Key(k).value < 16
    ensures ToChip8Key(k) == None <==> k == Other
    ensures key < 16 ==> ToChip8Key(KeyFor(key)) == Some(key)
    ensures key < 16 ==> (ToChip8Key(k) == Some(key) <==> k == KeyFor(key))
  {
    if key < 16 {
      KeyForInverse(key);
      if ToChip8Key(k) == Some(key) {
        ToChip8KeyInjective(k, KeyFor(key));
      }
    }
  }

  lemma KeyForInverse(key: u8)
    requires key < 16
    ensures ToChip8Key(KeyFor(key)) == Some(key)
  {
  }

  lemma ToChip8KeyInjective(k1: Keycode, k2: Keycode)
    requires ToChip8Key(k1).Some? && ToChip8Key(k1) == ToChip8Key(k2)
    ensures k1 == k2
  {
  }

  class KeyMap {
    var active: set<u8>

    /** No key is held at first. */
    constructor ()
      ensures active == {} && forall key :: !IsKeyPressed(key)
    {
      active := {};
    }

    /** Holds the keypad value of `keycode`, if it has one; adding a held key again changes nothing. */
    method AddKey(keycode: Keycode)
      modifies this
      ensures active == match ToChip8Key(keycode)
                        case Some(key) => old(active) + {key}
                        case None => old(active)
      ensures ToChip8Key(keycode).Some? ==> IsKeyPressed(ToChip8Key(keycode).value)
      ensures forall key :: ToChip8Key(keycode) != Some(key) ==> (IsKeyPressed(key) <==> old(IsKeyPressed(key)))
      ensures ToChip8Key(keycode).Some? && old(IsKeyPressed(ToChip8Key(keycode).value)) ==> active == old(active)
    {
      match ToChip8Key(keycode)
      case Some(key) => {
        active := active + {key};
      }
      case None => {
      }
    }

    /** Releases the keypad value of `keycode`, if it has one. */
    method RemoveKey(keycode: Keycode)
      modifies this
      ensures active == match ToChip8Key(keycode)
                        case Some(key) => old(active) - {key}
                        case None => old(active)
      ensures ToChip8Key(keycode).Some? ==> !IsKeyPressed(ToChip8Key(keycode).value)
      ensures forall key :: ToChip8Key(keycode) != Some(key) ==> (IsKeyPressed(key) <==> old(IsKeyPressed(key)))
    {
      match ToChip8Key(keycode)
      case Some(key) => {
        active := active - {key};
      }
      case None => {
      }
    }

    predicate IsKeyPressed(key: u8)
      reads this
    {
      key in active
    }
  }
}
