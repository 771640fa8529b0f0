/**
 * The CPU register file (src/register.rs): sixteen 8-bit general registers
 * V0..VF, of which VF doubles as the flag register, the index register I,
 * the program counter and the stack pointer.
 */
module Register {
  import opened Bytes

  const REGISTER_COUNT := 0x10
  const FLAG_REGISTER: uint8 := 0xF
  const PROGRAM_START: uint16 := 0x200

  /** The value of a register file: what `Registers` holds at one moment. */
  datatype RegisterFile = RegisterFile(v: seq<uint8>, i: uint16, pc: uint16, sp: uint8)
  {
    predicate Valid()
    {
      |v| == REGISTER_COUNT
    }
  }

  /** The register file of a freshly created machine. */
  const INITIAL: RegisterFile := RegisterFile(seq(REGISTER_COUNT, _ => 0), 0, PROGRAM_START, 0)

  class Registers {
    var v: array<uint8>
    var i: uint16
    var pc: uint16
    var sp: uint8

    ghost predicate Valid()
      reads this
    {
      v.Length == REGISTER_COUNT
    }

    /** The current value of the register file. */
    function Model(): (rf: RegisterFile)
      reads this, v
      requires Valid()
      ensures rf.Valid()
    {
      RegisterFile(v[..], i, pc, sp)
    }

    /** `Registers::new`: every V register and I zero, pc at 0x200, sp zero. */
    constructor ()
      ensures Valid() && fresh(v)
      ensures Model() == INITIAL
    {
      v := new uint8[REGISTER_COUNT](_ => 0);
      i := 0;
      pc := PROGRAM_START;
      sp := 0;
    }

    /**
     * Writes register `index` and nothing else. An index of 16 or more is an
     * out-of-bounds panic in the source.
     */
    method SetRegister(index: uint8, value: uint8)
      requires Valid() && index < REGISTER_COUNT
      modifies v
      ensures Valid()
      ensures GetRegister(index) == value
      ensures forall k :: 0 <= k < REGISTER_COUNT && k != index ==> v[k] == old(v[k])
      ensures Model() == old(Model()).(v := old(v[..])[index := value])
    {
      v[index] := value;
    }

    /** Reads register `index`; an index of 16 or more panics in the source. */
    function GetRegister(index: uint8): (r: uint8)
      reads this, v
      requires Valid() && index < REGISTER_COUNT
      ensures r == Model().v[index]
    {
      v[index]
    }

    /** Writes the flag register VF. */
    method SetFlag(value: uint8)
      requires Valid()
      modifies v
      ensures Valid()
      ensures GetFlag() == value
      ensures Model() == old(Model()).(v := old(v[..])[FLAG_REGISTER := value])
    {
      SetRegister(FLAG_REGISTER, value);
    }

    /** Reads the flag register VF. */
    function GetFlag(): (r: uint8)
      reads this, v
      requires Valid()
      ensures r == Model().v[FLAG_REGISTER]
    {
      GetRegister(FLAG_REGISTER)
    }
  }
}
