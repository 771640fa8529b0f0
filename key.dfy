/**
 * The sixteen keys of the CHIP-8 hexadecimal keypad and the mapping from a
 * byte to a key (src/io/key.rs; src/io/input.rs carries an identical copy).
 */
module Keys {
  import opened Bytes

  const NUMBER_OF_KEYS := 0x10

  datatype Key = D0 | D1 | D2 | D3 | D4 | D5 | D6 | D7 | D8 | D9 | A | B | C | D | E | F

  /** The discriminant of a key, i.e. `key as u8`: its value as a hexadecimal digit. */
  function KeyValue(key: Key): (n: uint8)
    ensures n < NUMBER_OF_KEYS
  {
    match key
    case D0 => 0x0 case D1 => 0x1 case D2 => 0x2 case D3 => 0x3
    case D4 => 0x4 case D5 => 0x5 case D6 => 0x6 case D7 => 0x7
    case D8 => 0x8 case D9 => 0x9 case A => 0xA case B => 0xB
    case C => 0xC case D => 0xD case E => 0xE case F => 0xF
  }

  /**
   * `MapKey for u8`: the key whose discriminant is `n`, if there is one.
   * The result is a key exactly for the hexadecimal digits, and that key's
   * discriminant is `n` itself.
   */
  function MapKey(n: uint8): (r: Option<Key>)
    ensures r.Some? <==> n < NUMBER_OF_KEYS
    ensures r.Some? ==> KeyValue(r.value) == n
  {
    match n
    case 0x0 => Some(D0) case 0x1 => Some(D1) case 0x2 => Some(D2) case 0x3 => Some(D3)
    case 0x4 => Some(D4) case 0x5 => Some(D5) case 0x6 => Some(D6) case 0x7 => Some(D7)
    case 0x8 => Some(D8) case 0x9 => Some(D9) case 0xA => Some(A) case 0xB => Some(B)
    case 0xC => Some(C) case 0xD => Some(D) case 0xE => Some(E) case 0xF => Some(F)
    case _ => None
  }

  /** Mapping a key's own discriminant gives the key back. */
  lemma MapKeyOfValue(key: Key)
    ensures MapKey(KeyValue(key)) == Some(key)
  {
  }

  /** Distinct keys have distinct discriminants, so `MapKey` is one-to-one on 0..15. */
  lemma KeyValueInjective(a: Key, b: Key)
    ensures KeyValue(a) == KeyValue(b) ==> a == b
  {
  }
}
