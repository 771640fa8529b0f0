/**
 * The register-instruction executor (src/machine.rs): `step` applies one
 * decoded instruction to the register file, with 8-bit wrapping arithmetic,
 * the VF carry / no-borrow flag and the configurable shift-operand quirk.
 */
module Machine {
  import opened Bytes
  import opened Instructions
  import opened Register
  import opened Settings
  import Memory

  /** What an operation does to the flag register besides writing its target. */
  datatype FlagSideEffect = NoEffect | Set(flag: bool)

  // The operations that `step` hands to `flagging_op`: each receives the
  // target's and the source's value and yields the new target value and
  // its effect on VF.

  function OrOp(tv: uint8, sv: uint8): (uint8, FlagSideEffect) { (BitOr(tv, sv), NoEffect) }

  function AndOp(tv: uint8, sv: uint8): (uint8, FlagSideEffect) { (BitAnd(tv, sv), NoEffect) }

  function XorOp(tv: uint8, sv: uint8): (uint8, FlagSideEffect) { (BitXor(tv, sv), NoEffect) }

  /** target + source, flag = carry. */
  function AddOp(tv: uint8, sv: uint8): (uint8, FlagSideEffect)
  {
    var (value, carry) := OverflowingAdd(tv, sv);
    (value, Set(carry))
  }

  /** target - source, flag = NOT borrow. */
  function SubOp(tv: uint8, sv: uint8): (uint8, FlagSideEffect)
  {
    var (value, borrow) := OverflowingSub(tv, sv);
    (value, Set(!borrow))
  }

  /** source - target, flag = NOT borrow. */
  function SubReverseOp(tv: uint8, sv: uint8): (uint8, FlagSideEffect)
  {
    var (value, borrow) := OverflowingSub(sv, tv);
    (value, Set(!borrow))
  }

  /** The value a shift operates on: the target's under the one-register quirk, else the source's. */
  function ShiftOperand(mode: BitShiftMode, tv: uint8, sv: uint8): uint8
  {
    if mode.OneRegister? then tv else sv
  }

  /** Shift right by one, flag = the bit shifted out (bit 0). */
  function ShrOp(mode: BitShiftMode, tv: uint8, sv: uint8): (uint8, FlagSideEffect)
  {
    var operand := ShiftOperand(mode, tv, sv);
    (operand / 2, Set(operand % 2 == 1))
  }

  /** Shift left by one, truncated to 8 bits; flag = the bit shifted out (`operand & 0x80 != 0`). */
  function ShlOp(mode: BitShiftMode, tv: uint8, sv: uint8): (uint8, FlagSideEffect)
  {
    var operand := ShiftOperand(mode, tv, sv);
    ((operand * 2) % 0x100, Set(BitAnd(operand, 0x80) != 0))
  }

  /**
   * `flagging_op` on register values: read target and source, write the
   * operation's value to the target, and then, if the operation sets the
   * flag, write 1 or 0 to VF.
   */
  function ApplyOp(v: seq<uint8>, target: uint8, source: uint8, op: (uint8, uint8) -> (uint8, FlagSideEffect)): seq<uint8>
    requires |v| == REGISTER_COUNT && target < REGISTER_COUNT && source < REGISTER_COUNT
  {
    var (value, effect) := op(v[target], v[source]);
    var written := v[target := value];
    if effect.Set? then written[FLAG_REGISTER := if effect.flag then 1 else 0] else written
  }

  /**
   * The effect of `Machine::step` on the register file. Only V and I can
   * change; no instruction touches pc or sp, and only StoreNNN touches I.
   */
  function Execute(mode: BitShiftMode, instruction: Instruction, rf: RegisterFile): (r: RegisterFile)
    requires rf.Valid() && instruction.RegistersInRange()
    ensures r.Valid() && r.pc == rf.pc && r.sp == rf.sp
    ensures !instruction.StoreNNN? ==> r.i == rf.i
  {
    match instruction
    case StoreXNN(register, value) => rf.(v := rf.v[register := value])
    case AddXNN(register, value) =>
      var (sum, _) := OverflowingAdd(rf.v[register], value);
      rf.(v := rf.v[register := sum])
    case StoreXY(target, source) => rf.(v := rf.v[target := rf.v[source]])
    case OrXY(target, source) => rf.(v := ApplyOp(rf.v, target, source, OrOp))
    case AndXY(target, source) => rf.(v := ApplyOp(rf.v, target, source, AndOp))
    case XorXY(target, source) => rf.(v := ApplyOp(rf.v, target, source, XorOp))
    case AddXY(target, source) => rf.(v := ApplyOp(rf.v, target, source, AddOp))
    case SubXY(target, source) => rf.(v := ApplyOp(rf.v, target, source, SubOp))
    case ShrXY(target, source) => rf.(v := ApplyOp(rf.v, target, source, (tv, sv) => ShrOp(mode, tv, sv)))
    case SubXYReverse(target, source) => rf.(v := ApplyOp(rf.v, target, source, SubReverseOp))
    case ShlXY(target, source) => rf.(v := ApplyOp(rf.v, target, source, (tv, sv) => ShlOp(mode, tv, sv)))
    case StoreNNN(address) => rf.(i := address)
  }

  /** Every instruction of the list names registers in range. */
  predicate AllInRange(instructions: seq<Instruction>)
  {
    forall k :: 0 <= k < |instructions| ==> instructions[k].RegistersInRange()
  }

  /**
   * The effect of `step_many`: the instructions executed one after another,
   * in order. pc and sp never change, and I changes only if some StoreNNN runs.
   */
  function ExecuteAll(mode: BitShiftMode, instructions: seq<Instruction>, rf: RegisterFile): (r: RegisterFile)
    requires rf.Valid() && AllInRange(instructions)
    ensures r.Valid() && r.pc == rf.pc && r.sp == rf.sp
    ensures (forall k :: 0 <= k < |instructions| ==> !instructions[k].StoreNNN?) ==> r.i == rf.i
  {
    if instructions == [] then rf
    else
      var last := |instructions| - 1;
      Execute(mode, instructions[last], ExecuteAll(mode, instructions[..last], rf))
  }

  class Machine {
    var ram: Memory.RAM
    var registers: Registers
    const settings: Settings

    ghost predicate Valid()
      reads this, registers, ram
    {
      registers.Valid() && ram.Valid() && registers.v != ram.value
    }

    /** `Machine::new`: fresh memory and registers, default settings (one-register shift mode). */
    constructor ()
      ensures Valid() && fresh(ram) && fresh(ram.value) && fresh(registers) && fresh(registers.v)
      ensures settings == DEFAULT
      ensures ram.value[..] == Memory.FreshMemory() && registers.Model() == INITIAL
    {
      ram := new Memory.RAM();
      registers := new Registers();
      settings := DEFAULT;
    }

    /** `Machine::new_with_settings`. */
    constructor WithSettings(settings: Settings)
      ensures Valid() && fresh(ram) && fresh(ram.value) && fresh(registers) && fresh(registers.v)
      ensures this.settings == settings
      ensures ram.value[..] == Memory.FreshMemory() && registers.Model() == INITIAL
    {
      ram := new Memory.RAM();
      registers := new Registers();
      this.settings := settings;
    }

    /** `Machine::step`: executes one instruction against the register file; memory is untouched. */
    method Step(instruction: Instruction)
      requires Valid() && instruction.RegistersInRange()
      modifies registers, registers.v
      ensures Valid() && registers.v == old(registers.v)
      ensures registers.Model() == Execute(settings.bitShiftMode, instruction, old(registers.Model()))
      ensures ram.value[..] == old(ram.value[..])
    {
      var bitShiftMode := settings.bitShiftMode;
      match instruction
      case StoreXNN(register, value) =>
        registers.SetRegister(register, value);
      case AddXNN(register, value) =>
        var (sum, _) := OverflowingAdd(registers.v[register], value);
        registers.SetRegister(register, sum);
      case StoreXY(target, source) =>
        var sourceValue := registers.GetRegister(source);
        registers.SetRegister(target, sourceValue);
      case OrXY(target, source) => Op(target, source, BitOr);
      case AndXY(target, source) => Op(target, source, BitAnd);
      case XorXY(target, source) => Op(target, source, BitXor);
      case AddXY(target, source) => FlaggingOp(target, source, AddOp);
      case SubXY(target, source) => FlaggingOp(target, source, SubOp);
      case ShrXY(target, source) => FlaggingOp(target, source, (tv, sv) => ShrOp(bitShiftMode, tv, sv));
      case SubXYReverse(target, source) => FlaggingOp(target, source, SubReverseOp);
      case ShlXY(target, source) => FlaggingOp(target, source, (tv, sv) => ShlOp(bitShiftMode, tv, sv));
      case StoreNNN(address) =>
        registers.i := address;
    }

    /** `Machine::step_many`: steps through the instructions in order. */
    method StepMany(instructions: seq<Instruction>)
      requires Valid() && AllInRange(instructions)
      modifies registers, registers.v
      ensures Valid()
      ensures registers.Model() == ExecuteAll(settings.bitShiftMode, instructions, old(registers.Model()))
      ensures ram.value[..] == old(ram.value[..])
    {
      for n := 0 to |instructions|
        invariant Valid() && registers.v == old(registers.v)
        invariant registers.Model() == ExecuteAll(settings.bitShiftMode, instructions[..n], old(registers.Model()))
        invariant ram.value[..] == old(ram.value[..])
      {
        assert instructions[..n + 1][..n] == instructions[..n];
        Step(instructions[n]);
      }
      assert instructions[..|instructions|] == instructions;
    }

    /** `op`: a register-register operation that leaves the flag alone. */
    method Op(target: uint8, source: uint8, op: (uint8, uint8) -> uint8)
      requires Valid() && target < REGISTER_COUNT && source < REGISTER_COUNT
      modifies registers.v
      ensures Valid()
      ensures registers.Model() ==
        old(registers.Model()).(v := ApplyOp(old(registers.v[..]), target, source, (t, s) => (op(t, s), NoEffect)))
    {
      FlaggingOp(target, source, (t, s) => (op(t, s), NoEffect));
    }

    /** `flagging_op`: writes the operation's value to the target, then its flag (if any) to VF. */
    method FlaggingOp(target: uint8, source: uint8, op: (uint8, uint8) -> (uint8, FlagSideEffect))
      requires Valid() && target < REGISTER_COUNT && source < REGISTER_COUNT
      modifies registers.v
      ensures Valid()
      ensures registers.Model() == old(registers.Model()).(v := ApplyOp(old(registers.v[..]), target, source, op))
    {
      var sourceValue := registers.GetRegister(source);
      var targetValue := registers.GetRegister(target);
      var (value, flagEffect) := op(targetValue, sourceValue);
      registers.SetRegister(target, value);
      if flagEffect.Set? {
        registers.SetFlag(if flagEffect.flag then 1 else 0);
      }
    }
  }

  /** Every register other than the listed ones keeps its value. */
  predicate UnchangedExcept(before: seq<uint8>, after: seq<uint8>, a: uint8, b: uint8)
    requires |before| == REGISTER_COUNT && |after| == REGISTER_COUNT
  {
    forall k :: 0 <= k < REGISTER_COUNT && k != a && k != b ==> after[k] == before[k]
  }

  /** StoreXNN writes the immediate and StoreXY the source's value into exactly the named register. */
  lemma StoreLaws(mode: BitShiftMode, x: uint8, nn: uint8, target: uint8, source: uint8, rf: RegisterFile)
    requires rf.Valid() && x < REGISTER_COUNT && target < REGISTER_COUNT && source < REGISTER_COUNT
    ensures var r := Execute(mode, StoreXNN(x, nn), rf);
      r.v[x] == nn && UnchangedExcept(rf.v, r.v, x, x) && r.i == rf.i
    ensures var r := Execute(mode, StoreXY(target, source), rf);
      r.v[target] == rf.v[source] && UnchangedExcept(rf.v, r.v, target, target) && r.i == rf.i
  {
  }

  /** AddXNN wraps modulo 256 and never sets the flag: with x != F, VF survives even an overflow. */
  lemma AddImmediateLaw(mode: BitShiftMode, x: uint8, nn: uint8, rf: RegisterFile)
    requires rf.Valid() && x < REGISTER_COUNT
    ensures var r := Execute(mode, AddXNN(x, nn), rf);
      r.v[x] == (rf.v[x] as int + nn as int) % 0x100 && UnchangedExcept(rf.v, r.v, x, x) && r.i == rf.i
  {
  }

  /**
   * AddXY: target := (t + s) mod 256, then VF := 1 exactly when t + s > 255.
   * VF is written last, so when the target is VF the flag wins.
   */
  lemma AddXYLaw(mode: BitShiftMode, target: uint8, source: uint8, rf: RegisterFile)
    requires rf.Valid() && target < REGISTER_COUNT && source < REGISTER_COUNT
    ensures var r := Execute(mode, AddXY(target, source), rf);
      var sum := rf.v[target] as int + rf.v[source] as int;
      && r.v[FLAG_REGISTER] == (if sum > 0xFF then 1 else 0)
      && (target != FLAG_REGISTER ==> r.v[target] == sum % 0x100)
      && UnchangedExcept(rf.v, r.v, target, FLAG_REGISTER)
  {
  }

  /** SubXY: target := (t - s) mod 256, then VF := 1 exactly when t >= s (no borrow). */
  lemma SubXYLaw(mode: BitShiftMode, target: uint8, source: uint8, rf: RegisterFile)
    requires rf.Valid() && target < REGISTER_COUNT && source < REGISTER_COUNT
    ensures var r := Execute(mode, SubXY(target, source), rf);
      && r.v[FLAG_REGISTER] == (if rf.v[target] >= rf.v[source] then 1 else 0)
      && (target != FLAG_REGISTER ==> r.v[target] == (rf.v[target] as int - rf.v[source] as int) % 0x100)
      && UnchangedExcept(rf.v, r.v, target, FLAG_REGISTER)
  {
  }

  /** SubXYReverse: target := (s - t) mod 256, then VF := 1 exactly when s >= t (no borrow). */
  lemma SubXYReverseLaw(mode: BitShiftMode, target: uint8, source: uint8, rf: RegisterFile)
    requires rf.Valid() && target < REGISTER_COUNT && source < REGISTER_COUNT
    ensures var r := Execute(mode, SubXYReverse(target, source), rf);
      && r.v[FLAG_REGISTER] == (if rf.v[source] >= rf.v[target] then 1 else 0)
      && (target != FLAG_REGISTER ==> r.v[target] == (rf.v[source] as int - rf.v[target] as int) % 0x100)
      && UnchangedExcept(rf.v, r.v, target, FLAG_REGISTER)
  {
  }

  /** OrXY, AndXY and XorXY store t|s, t&s and t^s into the target and write no flag. */
  lemma BitwiseLaws(mode: BitShiftMode, target: uint8, source: uint8, rf: RegisterFile)
    requires rf.Valid() && target < REGISTER_COUNT && source < REGISTER_COUNT
    ensures Execute(mode, OrXY(target, source), rf).v == rf.v[target := BitOr(rf.v[target], rf.v[source])]
    ensures Execute(mode, AndXY(target, source), rf).v == rf.v[target := BitAnd(rf.v[target], rf.v[source])]
    ensures Execute(mode, XorXY(target, source), rf).v == rf.v[target := BitXor(rf.v[target], rf.v[source])]
  {
  }

  /** The flag test of ShlXY, `operand & 0x80 != 0`, is the top bit of the operand. */
  lemma HighBitTest(operand: uint8)
    ensures (BitAnd(operand, 0x80) != 0) == (operand >= 0x80)
  {
  }

  /**
   * ShrXY and ShlXY shift the target's value under the one-register quirk and
   * the source's value under the two-register mode; the result goes to the
   * target, VF receives the bit shifted out (bit 0, resp. bit 7), and the
   * source register keeps its value unless it is the target or VF.
   */
  lemma ShiftLaws(mode: BitShiftMode, target: uint8, source: uint8, rf: RegisterFile)
    requires rf.Valid() && target < REGISTER_COUNT && source < REGISTER_COUNT
    ensures var operand := if mode == OneRegister then rf.v[target] else rf.v[source];
      var r := Execute(mode, ShrXY(target, source), rf);
      && r.v[FLAG_REGISTER] == operand % 2
      && (target != FLAG_REGISTER ==> r.v[target] == operand / 2)
      && UnchangedExcept(rf.v, r.v, target, FLAG_REGISTER)
    ensures var operand := if mode == OneRegister then rf.v[target] else rf.v[source];
      var r := Execute(mode, ShlXY(target, source), rf);
      && r.v[FLAG_REGISTER] == (if operand >= 0x80 then 1 else 0)
      && (target != FLAG_REGISTER ==> r.v[target] == (operand as int * 2) % 0x100)
      && UnchangedExcept(rf.v, r.v, target, FLAG_REGISTER)
  {
    HighBitTest(ShiftOperand(mode, rf.v[target], rf.v[source]));
  }

  /** StoreNNN loads the whole 16-bit value into I, unmasked, and leaves V alone. */
  lemma StoreNNNLaw(mode: BitShiftMode, address: uint16, rf: RegisterFile)
    requires rf.Valid()
    ensures Execute(mode, StoreNNN(address), rf) == rf.(i := address)
  {
  }

  /** Running two lists one after the other is running their concatenation. */
  lemma {:induction false} ExecuteAllAppend(mode: BitShiftMode, first: seq<Instruction>, second: seq<Instruction>, rf: RegisterFile)
    requires rf.Valid() && AllInRange(first) && AllInRange(second)
    ensures AllInRange(first + second)
    ensures ExecuteAll(mode, first + second, rf) == ExecuteAll(mode, second, ExecuteAll(mode, first, rf))
  {
    assert AllInRange(first + second) by {
      forall k | 0 <= k < |first + second| ensures (first + second)[k].RegistersInRange() {
        if k >= |first| { assert (first + second)[k] == second[k - |first|]; }
      }
    }
    if second != [] {
      var last := |second| - 1;
      assert (first + second)[..|first + second| - 1] == first + second[..last];
      ExecuteAllAppend(mode, first, second[..last], rf);
    } else {
      assert first + second == first;
    }
  }

  /** step_many on a list is step on its head followed by step_many on the rest. */
  lemma ExecuteAllCons(mode: BitShiftMode, instruction: Instruction, rest: seq<Instruction>, rf: RegisterFile)
    requires rf.Valid() && instruction.RegistersInRange() && AllInRange(rest)
    ensures AllInRange([instruction] + rest)
    ensures ExecuteAll(mode, [instruction] + rest, rf) == ExecuteAll(mode, rest, Execute(mode, instruction, rf))
  {
    assert ExecuteAll(mode, [instruction], rf) == Execute(mode, instruction, rf) by {
      assert [instruction][..0] == [];
    }
    ExecuteAllAppend(mode, [instruction], rest, rf);
  }

  /**
   * The eight rows of the source's `bit_shifts` table (target E, source D,
   * VF preset to 0xFF): the result lands in E, D keeps its value and VF
   * holds the bit shifted out.
   */
  lemma ShiftExamples()
    ensures var rf := INITIAL.(v := INITIAL.v[FLAG_REGISTER := 0xFF][0xE := 0x2C][0xD := 0xFF]);
      var r := Execute(OneRegister, ShrXY(0xE, 0xD), rf);
      r.v[0xE] == 0x16 && r.v[0xD] == 0xFF && r.v[FLAG_REGISTER] == 0
    ensures var rf := INITIAL.(v := INITIAL.v[FLAG_REGISTER := 0xFF][0xE := 0x2D][0xD := 0xFF]);
      var r := Execute(OneRegister, ShrXY(0xE, 0xD), rf);
      r.v[0xE] == 0x16 && r.v[0xD] == 0xFF && r.v[FLAG_REGISTER] == 1
    ensures var rf := INITIAL.(v := INITIAL.v[FLAG_REGISTER := 0xFF][0xE := 0x2D][0xD := 0xFF]);
      var r := Execute(OneRegister, ShlXY(0xE, 0xD), rf);
      r.v[0xE] == 0x5A && r.v[0xD] == 0xFF && r.v[FLAG_REGISTER] == 0
    ensures var rf := INITIAL.(v := INITIAL.v[FLAG_REGISTER := 0xFF][0xE := 0xAD][0xD := 0xFF]);
      var r := Execute(OneRegister, ShlXY(0xE, 0xD), rf);
      r.v[0xE] == 0x5A && r.v[0xD] == 0xFF && r.v[FLAG_REGISTER] == 1
    ensures var rf := INITIAL.(v := INITIAL.v[FLAG_REGISTER := 0xFF][0xE := 0xFF][0xD := 0x2C]);
      var r := Execute(TwoRegister, ShrXY(0xE, 0xD), rf);
      r.v[0xE] == 0x16 && r.v[0xD] == 0x2C && r.v[FLAG_REGISTER] == 0
    ensures var rf := INITIAL.(v := INITIAL.v[FLAG_REGISTER := 0xFF][0xE := 0xFF][0xD := 0x2D]);
      var r := Execute(TwoRegister, ShrXY(0xE, 0xD), rf);
      r.v[0xE] == 0x16 && r.v[0xD] == 0x2D && r.v[FLAG_REGISTER] == 1
    ensures var rf := INITIAL.(v := INITIAL.v[FLAG_REGISTER := 0xFF][0xE := 0xFF][0xD := 0x2D]);
      var r := Execute(TwoRegister, ShlXY(0xE, 0xD), rf);
      r.v[0xE] == 0x5A && r.v[0xD] == 0x2D && r.v[FLAG_REGISTER] == 0
    ensures var rf := INITIAL.(v := INITIAL.v[FLAG_REGISTER := 0xFF][0xE := 0xFF][0xD := 0xAD]);
      var r := Execute(TwoRegister, ShlXY(0xE, 0xD), rf);
      r.v[0xE] == 0x5A && r.v[0xD] == 0xAD && r.v[FLAG_REGISTER] == 1
  {
    HighBitTest(0xAD);
    HighBitTest(0x2D);
  }

  /** The instructions of the source's store_xnn test; register 5 is written twice. */
  const STORE_TEST: seq<Instruction> := [StoreXNN(0x7, 77), StoreXNN(0x5, 22), StoreXNN(0xF, 123), StoreXNN(0x5, 23)]

  /** The store_xnn test: from fresh registers the last write to a register wins and VF is an ordinary target. */
  lemma StoreXNNExample()
    ensures AllInRange(STORE_TEST)
    ensures ExecuteAll(OneRegister, STORE_TEST, INITIAL).v == [0, 0, 0, 0, 0, 23, 0, 77, 0, 0, 0, 0, 0, 0, 0, 123]
  {
    var program := STORE_TEST;
    var z := INITIAL.v;
    assert program[..0] == [];
    ExecuteAllSnoc(OneRegister, program, 0, INITIAL);
    ExecuteAllSnoc(OneRegister, program, 1, INITIAL);
    ExecuteAllSnoc(OneRegister, program, 2, INITIAL);
    ExecuteAllSnoc(OneRegister, program, 3, INITIAL);
    assert program[..4] == program;
    assert ExecuteAll(OneRegister, program, INITIAL).v == z[7 := 77][5 := 22][FLAG_REGISTER := 123][5 := 23];
  }

  /** The instructions of the source's add_xy test. */
  const ADD_XY_TEST: seq<Instruction> := [StoreXNN(0, 23), StoreXNN(1, 45), AddXY(0, 1), AddXY(0, 0), AddXY(0, 0)]

  /**
   * The add_xy test, with VF preset to 0xEE: 23 + 45 = 68 clears the flag;
   * doubling twice gives 136 and then 272 mod 256 = 16 with the carry set.
   */
  lemma AddXYExample()
    ensures AllInRange(ADD_XY_TEST)
    ensures var rf := INITIAL.(v := INITIAL.v[FLAG_REGISTER := 0xEE]);
      var r := ExecuteAll(OneRegister, ADD_XY_TEST[..3], rf);
      r.v[..2] == [68, 45] && r.v[FLAG_REGISTER] == 0
    ensures var rf := INITIAL.(v := INITIAL.v[FLAG_REGISTER := 0xEE]);
      var r := ExecuteAll(OneRegister, ADD_XY_TEST, rf);
      r.v[..2] == [16, 45] && r.v[FLAG_REGISTER] == 1
  {
    var program := ADD_XY_TEST;
    var rf := INITIAL.(v := INITIAL.v[FLAG_REGISTER := 0xEE]);
    assert program[..0] == [];
    ExecuteAllSnoc(OneRegister, program, 0, rf);
    ExecuteAllSnoc(OneRegister, program, 1, rf);
    ExecuteAllSnoc(OneRegister, program, 2, rf);
    var r3 := ExecuteAll(OneRegister, program[..3], rf);
    assert r3.v[0] == 68 && r3.v[1] == 45 && r3.v[FLAG_REGISTER] == 0;
    ExecuteAllSnoc(OneRegister, program, 3, rf);
    ExecuteAllSnoc(OneRegister, program, 4, rf);
    assert program[..5] == program;
    var r5 := ExecuteAll(OneRegister, program, rf);
    assert r5.v[0] == 16 && r5.v[1] == 45 && r5.v[FLAG_REGISTER] == 1;
  }

  /** The sub test: 30 - 17 = 13 sets VF (no borrow); 13 - 17 wraps to 252 and clears it. */
  lemma SubExample(mode: BitShiftMode)
    ensures var rf := INITIAL.(v := INITIAL.v[0 := 17][1 := 30][FLAG_REGISTER := 0xDD]);
      var r1 := Execute(mode, SubXY(1, 0), rf);
      var r2 := Execute(mode, SubXY(1, 0), r1);
      && r1.v[..2] == [17, 13] && r1.v[FLAG_REGISTER] == 1
      && r2.v[..2] == [17, 252] && r2.v[FLAG_REGISTER] == 0
  {
  }

  /** The sub_reverse test: 0x4B - 0x2D = 0x1E sets VF; 0x2D - 0x4B wraps to 0xE2 and clears it. */
  lemma SubReverseExample(mode: BitShiftMode)
    ensures var r := Execute(mode, SubXYReverse(0xA, 0xB), INITIAL.(v := INITIAL.v[0xA := 0x2D][0xB := 0x4B]));
      r.v[0xA..0xC] == [0x1E, 0x4B] && r.v[FLAG_REGISTER] == 1
    ensures var r := Execute(mode, SubXYReverse(0xC, 0xD), INITIAL.(v := INITIAL.v[0xC := 0x4B][0xD := 0x2D]));
      r.v[0xC..0xE] == [0xE2, 0x2D] && r.v[FLAG_REGISTER] == 0
  {
  }

  /** The bitwise test: 0x2D | 0x4B = 0x6F, 0x2D & 0x4B = 0x09, 0x2D ^ 0x4B = 0x66, and VF (0xBB) untouched. */
  lemma BitwiseExample(mode: BitShiftMode, rf: RegisterFile)
    requires rf.Valid() && rf.v[1] == 0x2D && rf.v[2] == 0x4B && rf.v[FLAG_REGISTER] == 0xBB
    ensures var r := Execute(mode, OrXY(1, 2), rf); r.v[1] == 0x6F && r.v[2] == 0x4B && r.v[FLAG_REGISTER] == 0xBB
    ensures var r := Execute(mode, AndXY(1, 2), rf); r.v[1] == 0x09 && r.v[2] == 0x4B && r.v[FLAG_REGISTER] == 0xBB
    ensures var r := Execute(mode, XorXY(1, 2), rf); r.v[1] == 0x66 && r.v[2] == 0x4B && r.v[FLAG_REGISTER] == 0xBB
  {
    assert BitOr(0x2D, 0x4B) == 0x6F && BitAnd(0x2D, 0x4B) == 0x09 && BitXor(0x2D, 0x4B) == 0x66;
  }

  /** The add_xnn test: 106, then +149 = 255, then +1 wraps to 0, then +3 = 3; VF keeps 0x8F throughout. */
  lemma AddXNNExample(mode: BitShiftMode)
    ensures var r0 := INITIAL.(v := INITIAL.v[FLAG_REGISTER := 0x8F]);
      var r1 := Execute(mode, AddXNN(5, 106), r0);
      var r2 := Execute(mode, AddXNN(5, 149), r1);
      var r3 := Execute(mode, AddXNN(5, 1), r2);
      var r4 := Execute(mode, AddXNN(5, 3), r3);
      && r1.v[5] == 106 && r2.v[5] == 255 && r3.v[5] == 0 && r4.v[5] == 3
      && r1.v[FLAG_REGISTER] == 0x8F && r2.v[FLAG_REGISTER] == 0x8F && r3.v[FLAG_REGISTER] == 0x8F && r4.v[FLAG_REGISTER] == 0x8F
  {
  }

  /** The store_nnn test: I receives 0x4090 unmasked and V stays all zero. */
  lemma StoreNNNExample(mode: BitShiftMode)
    ensures var r := Execute(mode, StoreNNN(0x4090), INITIAL);
      r.i == 0x4090 && r.v == seq(REGISTER_COUNT, _ => 0)
  {
  }

  /** Running one more instruction of a list extends the run of its prefix by one step. */
  lemma ExecuteAllSnoc(mode: BitShiftMode, instructions: seq<Instruction>, n: nat, rf: RegisterFile)
    requires rf.Valid() && AllInRange(instructions) && n < |instructions|
    ensures AllInRange(instructions[..n]) && AllInRange(instructions[..n + 1])
    ensures ExecuteAll(mode, instructions[..n + 1], rf) == Execute(mode, instructions[n], ExecuteAll(mode, instructions[..n], rf))
  {
    assert instructions[..n + 1][..n] == instructions[..n];
  }

}
