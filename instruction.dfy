/**
 * Instructions the machine executes, and the binary encoder for the three
 * variants the encoder supports (src/instruction.rs).
 */
module Instructions {
  import opened Bytes

  /**
   * Every variant that `Machine::step` executes. Register operands are
   * bytes, as in the source; only their low nibble is encoded, and the
   * machine requires them to name one of the sixteen registers.
   */
  datatype Instruction =
    | StoreXNN(register: uint8, value: uint8)     // 6XNN
    | AddXNN(register: uint8, value: uint8)       // 7XNN
    | StoreXY(target: uint8, source: uint8)       // 8XY0
    | OrXY(target: uint8, source: uint8)          // 8XY1
    | AndXY(target: uint8, source: uint8)         // 8XY2
    | XorXY(target: uint8, source: uint8)         // 8XY3
    | AddXY(target: uint8, source: uint8)         // 8XY4
    | SubXY(target: uint8, source: uint8)         // 8XY5
    | ShrXY(target: uint8, source: uint8)         // 8XY6
    | SubXYReverse(target: uint8, source: uint8)  // 8XY7
    | ShlXY(target: uint8, source: uint8)         // 8XYE
    | StoreNNN(address: uint16)                   // ANNN
  {
    /** Every register operand names one of V0..VF. */
    predicate RegistersInRange()
    {
      match this
      case StoreXNN(register, _) => register < 0x10
      case AddXNN(register, _) => register < 0x10
      case StoreNNN(_) => true
      case _ => target < 0x10 && source < 0x10
    }

    /** The variants `to_bytes` can encode; it panics on all others. */
    predicate Encodable()
    {
      StoreXNN? || AddXNN? || StoreXY?
    }
  }

  /**
   * Packs two nibbles into a byte: the high nibble is the low four bits of
   * `mostSignificant` (the multiplication by 16 wraps, as the source's
   * `overflowing_mul` does) and the low nibble is `leastSignificant` mod 16.
   * The sum never overflows, and both truncated inputs can be read back.
   */
  function U4ToU8(mostSignificant: uint8, leastSignificant: uint8): (r: uint8)
    ensures r / 0x10 == mostSignificant % 0x10
    ensures r % 0x10 == leastSignificant % 0x10
  {
    var high := (mostSignificant * 0x10) % 0x100;
    assert high == (mostSignificant % 0x10) * 0x10 by {
      var q := mostSignificant / 0x10;
      assert mostSignificant * 0x10 == q * 0x100 + (mostSignificant % 0x10) * 0x10;
    }
    high + leastSignificant % 0x10
  }

  /**
   * `Instruction::to_bytes`: the big-endian two-byte encoding, 6XNN, 7XNN
   * or 8XY0, with X and Y the register operands modulo 16.
   */
  function ToBytes(instruction: Instruction): (r: seq<uint8>)
    requires instruction.Encodable()
    ensures |r| == 2
    ensures instruction.StoreXNN? ==> r == [0x60 + instruction.register % 0x10, instruction.value]
    ensures instruction.AddXNN? ==> r == [0x70 + instruction.register % 0x10, instruction.value]
    ensures instruction.StoreXY? ==> r == [0x80 + instruction.target % 0x10, (instruction.source % 0x10) * 0x10]
  {
    match instruction
    case StoreXNN(register, amount) => [U4ToU8(6, register), amount]
    case AddXNN(register, amount) => [U4ToU8(7, register), amount]
    case StoreXY(target, source) => [U4ToU8(8, target), U4ToU8(source, 0)]
  }

  /** `Instruction::to_u16`: the encoding read as one big-endian word. */
  function ToU16(instruction: Instruction): (r: uint16)
    requires instruction.Encodable()
    ensures r / 0x100 == ToBytes(instruction)[0] && r % 0x100 == ToBytes(instruction)[1]
  {
    var bytes := ToBytes(instruction);
    (bytes[0] as int) * 0x100 + bytes[1] as int
  }

  /** The opcode nibble (the top four bits) of an encoded word. */
  function Opcode(word: uint16): nat { word / 0x1000 }

  /** The X nibble (bits 8..11) of an encoded word. */
  function NibbleX(word: uint16): nat { (word / 0x100) % 0x10 }

  /** The Y nibble (bits 4..7) of an encoded word. */
  function NibbleY(word: uint16): nat { (word / 0x10) % 0x10 }

  /** The low nibble (bits 0..3) of an encoded word. */
  function NibbleN(word: uint16): nat { word % 0x10 }

  /**
   * The fields of each encoded word: 6XNN, 7XNN and 8XY0, where X and Y are
   * the register operands modulo 16 and NN is the immediate byte.
   */
  lemma ToU16Fields(instruction: Instruction)
    requires instruction.Encodable()
    ensures var w := ToU16(instruction);
      match instruction
      case StoreXNN(x, nn) => Opcode(w) == 6 && NibbleX(w) == x % 0x10 && w % 0x100 == nn
      case AddXNN(x, nn) => Opcode(w) == 7 && NibbleX(w) == x % 0x10 && w % 0x100 == nn
      case StoreXY(t, s) => Opcode(w) == 8 && NibbleX(w) == t % 0x10 && NibbleY(w) == s % 0x10 && NibbleN(w) == 0
      case _ => false
  {
    var b := ToBytes(instruction);
    WordNibbles(b[0], b[1]);
  }

  /** The four nibbles of the big-endian word hi:lo are those of hi followed by those of lo. */
  lemma WordNibbles(hi: uint8, lo: uint8)
    ensures var w := (hi as int) * 0x100 + lo as int;
      && Opcode(w) == hi / 0x10 && NibbleX(w) == hi % 0x10
      && NibbleY(w) == lo / 0x10 && NibbleN(w) == lo % 0x10
  {
    var w := (hi as int) * 0x100 + lo as int;
    var a, b, c, d := hi / 0x10, hi % 0x10, lo / 0x10, lo % 0x10;
    assert w == a * 0x1000 + b * 0x100 + c * 0x10 + d;
    assert w / 0x1000 == a;
    assert w / 0x100 == a * 0x10 + b;
    assert w / 0x10 == a * 0x100 + b * 0x10 + c;
  }

  /**
   * The encoding loses nothing: two encodable instructions whose register
   * operands are in range and that encode to the same word are equal.
   */
  lemma ToU16Injective(a: Instruction, b: Instruction)
    requires a.Encodable() && a.RegistersInRange()
    requires b.Encodable() && b.RegistersInRange()
    requires ToU16(a) == ToU16(b)
    ensures a == b
  {
    ToU16Fields(a);
    ToU16Fields(b);
  }

  /**
   * The packed byte is (a mod 16) * 16 + (b mod 16): always a byte, so the
   * sum cannot overflow (the source's test: 0xAB, 0xCD packs to 0xBD).
   */
  lemma U4ToU8Value(a: uint8, b: uint8)
    ensures U4ToU8(a, b) == (a % 0x10) * 0x10 + b % 0x10
  {
    NibblesDetermineByte(U4ToU8(a, b), a % 0x10, b % 0x10);
  }

  /** A byte is determined by its two nibbles. */
  lemma NibblesDetermineByte(r: uint8, high: nat, low: nat)
    requires r / 0x10 == high && r % 0x10 == low
    ensures r == high * 0x10 + low
  {
  }

  /** The encoding cases of the source's unit test. */
  lemma ToU16Examples()
    ensures ToU16(StoreXNN(0xA, 0xBC)) == 0x6ABC
    ensures ToU16(StoreXY(3, 7)) == 0x8370
  {
    assert ToBytes(StoreXNN(0xA, 0xBC)) == [0x6A, 0xBC];
    assert ToBytes(StoreXY(3, 7)) == [0x83, 0x70];
  }
}
