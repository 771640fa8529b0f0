# crust-8 core in Dafny

A model of the core of crust-8, a CHIP-8 interpreter, with proofs about it.
The model covers these parts of the interpreter:

- **Register file** (`Register`). Sixteen 8-bit registers V0..VF, with VF doubling as the flag register, plus I, pc and sp.
- **Memory** (`Memory`). 4 KiB of RAM. The interpreter region holds the sixteen hexadecimal font sprites from address 0. The program region starts at 0x200.
- **Instructions** (`Instructions`). The instruction set the machine executes, and the two-byte big-endian encoder for 6XNN, 7XNN and 8XY0.
- **Register executor** (`Machine`). `step` applies one instruction to the register file using:
  - 8-bit wrapping arithmetic;
  - the VF carry / no-borrow flag, written after the target;
  - the configurable shift-operand quirk from `Settings`.
- **Display** (`Graphics`). A 64 x 32 monochrome buffer, stored row by row, onto which sprites are XOR-drawn. Sprite coordinates are added with wrap-around at 256, as `u8::wrapping_add` does, so a sprite drawn at x = 250 puts its last pixels at x = 0 and 1. Pixels that land beyond the 64 x 32 screen are dropped. `draw` reports whether any pixel was switched off.
- **Keypad** (`Keys`, `Input`). The sixteen keys, the byte-to-key mapping, and the set of keys held down.
- **Instruction-counting timer** (`Timer`). It ticks once every eight calls.
- **Deterministic random source** (`Random`). It cycles through a fixed list.

The model keeps the source's form:

- Objects that the source updates in place are classes whose methods change their fields or arrays:
  - `Registers`, `RAM`, `Machine`, `GraphicsBuffer`, `Keypad`, `InstructionTimer`, `FixedRandomSource`.
- Each method is specified against a pure function of the old state:
  - `Execute`/`ExecuteAll`, `FreshMemory`/`Loaded`, `Flip`/`DrawSprite`, `NextCounter`, `IndexAfter`.
- Lemmas prove what the source promises about those functions.

Rust `u8`/`u16` are the subset types `uint8`/`uint16`. Every wrap-around is written out explicitly: `overflowing_add`, `overflowing_sub`, `overflowing_mul`, `wrapping_add`, and the `<<` truncation.

The source disagrees with itself in a few places; the model follows the code that runs:

- `src/instruction.rs:3-17` declares six instruction variants, but `src/machine.rs:37-94` matches twelve. The model has one datatype with all twelve. `ToBytes` encodes exactly the three variants `to_bytes` handles.
- `Machine::new` (`src/machine.rs:22-26`) builds its `Settings` with the bit-shift mode only, while `src/settings.rs:19-22` declares two fields. The model's `Machine.constructor` fills the second field with `Halt`, the default.
- `src/io/input.rs:8-25` and `:58-80` repeat the `Key` enum and the `MapKey` implementation of `src/io/key.rs` verbatim. The model defines them once, in `Keys`.

## Model

| member | source | states |
|---|---|---|
| Bytes.OverflowingAdd | src/machine.rs:56-61 | `u8::overflowing_add`: the value is the sum mod 256, and the carry is set exactly when the sum exceeds 255 |
| Bytes.OverflowingSub | src/machine.rs:62-67 | `u8::overflowing_sub`: the value is the difference mod 256, and the borrow is set exactly when a < b |
| Keys.KeyValue | src/io/key.rs:6-23 | a key's discriminant is a hexadecimal digit (below 16) |
| Keys.MapKey | src/io/key.rs:32-53 | `map_key` returns a key exactly for bytes 0..15 (None for every other byte), and that key's discriminant is the byte itself |
| Keys.MapKeyOfValue | src/io/key.rs:64-78 | mapping a key's own discriminant gives the key back (the `map_key_u8` test, for all keys) |
| Keys.KeyValueInjective | src/io/key.rs:6-23 | distinct keys have distinct discriminants |
| Input.Keypad.constructor | src/io/input.rs:32-36 | a new keypad has no key pressed |
| Input.Keypad.Press | src/io/input.rs:38-40 | afterwards the key is pressed; pressing an already pressed key changes nothing; every other key keeps its state |
| Input.Keypad.Release | src/io/input.rs:42-44 | afterwards the key is not pressed; releasing a key that is not pressed changes nothing; every other key keeps its state |
| Input.Keypad.IsPressed | src/io/input.rs:46-48 | whether the key is in the pressed set |
| Instructions.U4ToU8 | src/instruction.rs:45-50 | the packed byte's high nibble is the first argument mod 16 (after the wrapping multiply) and its low nibble is the second argument mod 16 |
| Instructions.U4ToU8Value | src/instruction.rs:45-50 | the packed byte equals (a mod 16) * 16 + b mod 16, so the final addition never overflows (covers the `test_u4_to_u8` cases, e.g. 0xAB, 0xCD gives 0xBD) |
| Instructions.ToBytes | src/instruction.rs:20-36 | two bytes: 6X NN, 7X NN, or 8X Y0, with X and Y the register operands mod 16; other variants are outside the precondition (the source panics) |
| Instructions.ToU16 | src/instruction.rs:38-42 | the word's high byte is the first encoded byte and its low byte the second (big-endian) |
| Instructions.ToU16Fields | src/instruction.rs:20-42 | opcode nibble 6, 7 or 8; X nibble = register or target mod 16; NN = the immediate byte, or Y nibble = source mod 16 and N nibble = 0 |
| Instructions.WordNibbles | src/instruction.rs:38-42 | the four nibbles of the word (hi << 8) + lo are those of hi followed by those of lo |
| Instructions.ToU16Injective | src/instruction.rs:20-42 | two encodable instructions with in-range registers that encode to the same word are equal |
| Instructions.ToU16Examples | src/instruction.rs:56-74 | StoreXNN(0xA, 0xBC) encodes to 0x6ABC and StoreXY(3, 7) to 0x8370 |
| Register.Registers.Model | src/register.rs:5-11 | the value of the register file always has sixteen V registers |
| Register.Registers.constructor | src/register.rs:14-21 | V0..VF and I are zero, pc is 0x200, sp is zero |
| Register.Registers.SetRegister | src/register.rs:23-25 | register `index` now holds the value; every other register, I, pc and sp are unchanged |
| Register.Registers.GetRegister | src/register.rs:27-29 | the value of register `index` |
| Register.Registers.SetFlag | src/register.rs:31-33 | VF now holds the value; nothing else changes |
| Register.Registers.GetFlag | src/register.rs:35-37 | the value of VF |
| Memory.ConcatFontAt | src/memory.rs:60-68 | after the first n sprites are laid end to end, row j of digit d sits at byte 5d + j |
| Memory.FreshMemoryLayout | src/memory.rs:53-71 | fresh memory is 4096 bytes, holds row j of digit d's sprite at byte 5d + j, and is zero past the font |
| Memory.LoadedContents | src/memory.rs:46-50 | loading copies the program byte for byte to 0x200 onwards and leaves every other byte unchanged; loading an empty program changes nothing (the `load_into_memory` test) |
| Memory.SpriteAddress | src/memory.rs:101-107 | digit d's sprite starts at a multiple of 5 (quotient d) and ends inside the font, below 0x200; digits above 0xF are outside the precondition (the source panics) |
| Memory.RAM.constructor | src/memory.rs:53-71 | the new memory is the font sprites copied one after another from address 0, followed by zeros |
| Memory.RAM.ProgramMemory | src/memory.rs:73-75 | 0xE00 bytes, byte k being memory byte 0x200 + k (the `program_memory` test) |
| Memory.RAM.GetInstruction | src/memory.rs:81-85 | the bytes at address and address + 1; an address within one byte of the end is outside the precondition (the source panics past the end of memory) |
| Memory.RAM.GetSprite | src/memory.rs:87-92 | `bytes` bytes, the k-th being memory byte address + k; a range past the end of memory is outside the precondition (the source panics) |
| Memory.RAM.LoadProgram | src/memory.rs:94-99 | the new memory is `Loaded(old memory, program)`: the program at 0x200, everything else unchanged; a program longer than 0xE00 bytes is outside the precondition (the source's slice copy panics) |
| Memory.FreshFontSprite | src/memory.rs:53-71 | on fresh memory, the five bytes at `SpriteAddress(d)` are digit d's sprite |
| Memory.FetchLoadedInstruction | src/memory.rs:94-99 | after loading, the instruction fetched at 0x200 + 2n is the program's bytes 2n and 2n + 1 |
| Machine.Execute | src/machine.rs:37-94 | step keeps 16 registers, never changes pc or sp, and changes I only for StoreNNN |
| Machine.ExecuteAll | src/machine.rs:96-103 | over a whole sequence of steps the registers stay valid, pc and sp are unchanged, and I is unchanged unless some instruction is a StoreNNN |
| Machine.Machine.constructor | src/machine.rs:22-26 | fresh memory and registers, with the one-register shift mode |
| Machine.Machine.WithSettings | src/machine.rs:28-35 | fresh memory and registers, with the given settings |
| Machine.Machine.Step | src/machine.rs:37-94 | the new register file is `Execute` of the old one under the machine's shift mode; memory is unchanged |
| Machine.Machine.StepMany | src/machine.rs:96-103 | the new register file is `ExecuteAll` of the old one: the instructions executed in order; memory is unchanged |
| Machine.Machine.Op | src/machine.rs:105-110 | the target gets op(target, source), and VF is not written |
| Machine.Machine.FlaggingOp | src/machine.rs:112-126 | the target gets the operation's value; then, if the operation sets a flag, VF gets 1 or 0 |
| Machine.StoreLaws | src/machine.rs:41-52 | StoreXNN writes NN and StoreXY the source's value into exactly the named register; I is unchanged |
| Machine.AddImmediateLaw | src/machine.rs:44-48 | AddXNN wraps mod 256 and writes no flag: every other register, VF included, keeps its value |
| Machine.AddXYLaw | src/machine.rs:56-61 | target := (t + s) mod 256; VF := 1 exactly when t + s > 255; VF is written last, so it wins when it is the target; every other register is unchanged |
| Machine.SubXYLaw | src/machine.rs:62-67 | target := (t - s) mod 256; VF := 1 exactly when t >= s (no borrow); every other register is unchanged |
| Machine.SubXYReverseLaw | src/machine.rs:76-81 | target := (s - t) mod 256; VF := 1 exactly when s >= t; every other register is unchanged |
| Machine.BitwiseLaws | src/machine.rs:53-55 | Or/And/Xor store t\|s, t&s, t^s into the target and change no other register, VF included |
| Machine.HighBitTest | src/machine.rs:88 | the ShlXY flag test `operand & 0x80 != 0` is the operand's top bit |
| Machine.ShiftLaws | src/machine.rs:68-89 | ShrXY/ShlXY shift the target's value (one-register mode) or the source's value (two-register mode); the result goes to the target; VF gets the bit shifted out; every other register is unchanged |
| Machine.StoreNNNLaw | src/machine.rs:90-92 | StoreNNN sets I to the full 16-bit value, unmasked, and changes nothing else |
| Machine.ExecuteAllAppend | src/machine.rs:96-103 | running two instruction lists one after the other is running their concatenation |
| Machine.ExecuteAllCons | src/machine.rs:96-103 | step_many on a list is step on its head followed by step_many on the rest |
| Machine.ExecuteAllSnoc | src/machine.rs:96-103 | running one more instruction of a list extends the prefix's run by one step |
| Machine.StoreXNNExample | src/machine.rs:135-162 | the `store_xnn` test: the last write to a register wins, and VF is an ordinary target |
| Machine.AddXNNExample | src/machine.rs:185-222 | the `add_xnn` test: 106, 255, wrap to 0, then 3; VF keeps 0x8F throughout |
| Machine.AddXYExample | src/machine.rs:224-265 | the `add_xy` test: 23 + 45 = 68 clears VF; doubling twice gives 16 with VF set |
| Machine.SubExample | src/machine.rs:267-290 | the `sub` test: 30 - 17 = 13 sets VF; 13 - 17 wraps to 252 and clears it |
| Machine.SubReverseExample | src/machine.rs:292-332 | the `sub_reverse` test: 0x4B - 0x2D = 0x1E sets VF; 0x2D - 0x4B = 0xE2 clears it |
| Machine.BitwiseExample | src/machine.rs:334-365 | the `bitwise` test: 0x6F, 0x09, 0x66; source and VF unchanged |
| Machine.ShiftExamples | src/machine.rs:367-407 | all eight rows of the `bit_shifts` test table, four per shift mode: result in the target, source unchanged, VF = the bit shifted out |
| Machine.StoreNNNExample | src/machine.rs:409-419 | the `store_nnn` test: I = 0x4090, V all zero |
| Timer.NextCounter | src/timer.rs:23-33 | the counter stays in 1..8 and becomes 8 exactly when it was 1 |
| Timer.CounterAfter | src/timer.rs:15-33 | the counter of a new timer stays in 1..8 after any number of calls |
| Timer.CounterAfterFormula | src/timer.rs:15-33 | after n calls the counter is 8 - n mod 8 |
| Timer.TickCadence | src/timer.rs:40-52 | call n + 1 ticks exactly when n + 1 is a multiple of 8: seven non-ticks, then one tick, forever |
| Timer.OneTickInEveryEight | src/timer.rs:40-52 | any eight consecutive calls contain exactly one tick, and its position is given |
| Timer.InstructionTimer.constructor | src/timer.rs:15-19 | the counter starts at 8 |
| Timer.InstructionTimer.ShouldTick | src/timer.rs:23-33 | returns true exactly when the counter was 1; the counter then resets to 8, otherwise decreases by one |
| Random.IndexAfter | src/random.rs:21-25 | the index always stays inside the list |
| Random.IndexAfterIsMod | src/random.rs:43-53 | after k calls the index is k mod length, so call k returns numbers[k mod length] |
| Random.FixedRandomSource.constructor | src/random.rs:11-17 | an empty list is outside the precondition (the source panics); the index starts at 0 |
| Random.FixedRandomSource.Gen | src/random.rs:21-25 | returns the number at the index, and the index advances cyclically: an index of `IndexAfter(n, k)` becomes `IndexAfter(n, k + 1)` |
| Graphics.IndexPixel | src/io/graphics.rs:71-80 | a cell exists exactly for on-screen coordinates, and then it is y * 64 + x |
| Graphics.IndexPixelInjective | src/io/graphics.rs:71-80 | distinct on-screen coordinates have distinct cells |
| Graphics.IndexPixelExamples | src/io/graphics.rs:87-99 | the `test_index_pixel` cases |
| Graphics.Blank | src/io/graphics.rs:12-16 | 2048 cells, all off |
| Graphics.Flip | src/io/graphics.rs:61-69 | exactly the addressed cell toggles; the result is its previous value; off-screen coordinates change nothing and return false |
| Graphics.FlipTwice | src/io/graphics.rs:112-122 | flipping a pixel twice restores the buffer, and for an on-screen pixel the two flips report opposite values |
| Graphics.ReversedBitIsMsbFirst | src/io/graphics.rs:36-43 | testing bit i of the reversed row selects bit 7 - i of the row: the leftmost pixel is the most significant bit |
| Graphics.SpritePixel | src/io/graphics.rs:38-43 | the pixel of column x is bit 7 - x of the sprite row |
| Graphics.Targets | src/io/graphics.rs:35-51 | the flips performed before reaching (row, col) in loop order: at most one per bit passed |
| Graphics.RowFlipsExtendTargets | src/io/graphics.rs:41-51 | drawing one row column by column continues the sprite's flips in loop order |
| Graphics.FlipAllPointwise | src/io/graphics.rs:43-49 | each cell ends up toggled exactly when an odd number of the flips address it |
| Graphics.TargetsParity | src/io/graphics.rs:35-51 | before reaching (row, col), a pixel has been flipped an odd number of times exactly when a set bit already passed covers it |
| Graphics.TargetsCollision | src/io/graphics.rs:49 | before reaching (row, col), a collision has been reported exactly when some pixel covered so far was on |
| Graphics.DrawPixels | src/io/graphics.rs:32-55 | every cell of the result is the old cell XOR whether the sprite covers it |
| Graphics.DrawCollision | src/io/graphics.rs:32-55 | `draw` reports a collision exactly when it switches off at least one pixel that was on |
| Graphics.DrawCollisionCovered | src/io/graphics.rs:49 | a collision happens exactly when the sprite covers some pixel that was on |
| Graphics.DrawMsbFirst | src/io/graphics.rs:36-47 | bit 7 - c of sprite row i toggles pixel (x + c, y + i) when that pixel is on screen |
| Graphics.DrawTwice | src/io/graphics.rs:32-55 | drawing the same sprite at the same place twice restores the buffer, and the second draw reports a collision whenever the first switched some pixel on (for every sprite length) |
| Graphics.DrawEmpty | src/io/graphics.rs:132-135 | an empty sprite changes nothing and reports no collision |
| Graphics.WrapAroundExample | src/io/graphics.rs:46-47 | with coordinates wrapping at 256, a full row drawn at x = 250 covers pixels x = 0 and x = 1 of the top row, and not x = 2 |
| Graphics.DrawClippedAtCorner | src/io/graphics.rs:45-49 | sprites are clipped, not wrapped: drawn at (63, 31), only the corner pixel can change (by the top-left bit), and a collision happens only if that pixel is switched off |
| Graphics.BlockAtCornerOfBlankScreen | src/io/graphics.rs:172-186 | the out-of-bounds test: an 8 x 8 block at (63, 31) on a blank screen lights only cell 2047, with no collision |
| Graphics.CheckerboardsComplement | src/io/graphics.rs:137-144 | in the 8 x 4 box at the origin, each pixel is covered by exactly one of the two checkerboards; outside it, by neither |
| Graphics.CheckerboardExample | src/io/graphics.rs:146-169 | the checkerboard test: no collision, no collision (box full), collision, collision (blank screen) |
| Graphics.GraphicsBuffer.constructor | src/io/graphics.rs:12-16 | every pixel off |
| Graphics.GraphicsBuffer.Clear | src/io/graphics.rs:26-30 | every pixel off afterwards |
| Graphics.GraphicsBuffer.GetPixel | src/io/graphics.rs:57-59 | Some(the cell at y * 64 + x) on screen, None off screen |
| Graphics.GraphicsBuffer.FlipPixel | src/io/graphics.rs:61-69 | the buffer and the result are `Flip` of the old buffer |
| Graphics.GraphicsBuffer.DrawRow | src/io/graphics.rs:41-51 | one pass of the outer loop: one flip per set bit of the row, most significant bit first, accumulating the collision flag |
| Graphics.GraphicsBuffer.Draw | src/io/graphics.rs:32-55 | the buffer and the collision flag are `DrawSprite` of the old buffer: the closed-form lemmas above apply to the method |

## Left out

- Display and keyboard back ends are not part of this model: the Piston window and event loop, the headless I/O adapters, and the `Chip8IO` wiring. They are I/O.
- The `graphics::Draw` trait and `HeadlessGraphics` that `Machine` is generic over are not part of this model, and neither is the `graphics` field of `Machine`. No modelled instruction draws.
- Fetching and decoding instructions from memory, advancing the program counter, the stack contents and the delay/sound timers are not part of this model, because the modelled `step` does not touch them. The pc and sp fields are modelled: pc starts at 0x200, sp at 0, and `Execute` leaves both unchanged. `on_unrecognized_instruction` is carried in `Settings` but nothing reads it.
- `Debug for RAM` is left out (formatting only), as is the `RandomSource` implementation for `rand::Rng` (a foreign random generator).
- Memory.RAM.LoadProgram models only the byte-slice `ProgramLoader`, the one implementation in the core.
- `width()` and `height()` are the constants `WIDTH_PX` and `HEIGHT_PX`.
- Machine.Machine.Step, Register.Registers.SetRegister, Register.Registers.GetRegister: a register index of 16 or more is an out-of-bounds panic in Rust. The model states the bound as a precondition instead of modelling the panic: `RegistersInRange(instruction)` for `Step`, `index < REGISTER_COUNT` for `SetRegister` and `GetRegister`.
- Memory.SpriteAddress, Random.FixedRandomSource.constructor, Instructions.ToBytes: the source panics on a digit above 0xF, on an empty list of numbers and on a variant it cannot encode. The model states each of these as a precondition instead of modelling the panic.
- Memory.RAM.GetInstruction, Memory.RAM.GetSprite, Memory.RAM.LoadProgram: a slice past the end of memory panics in Rust. The model states the bound as a precondition instead of modelling the panic.
- Graphics.GraphicsBuffer.DrawRow: the bits are reversed once per pixel (`SpritePixel`) rather than once per row as in the source. The tested bit is the same. `Draw`'s contract is unaffected.
- Graphics.DrawPixels, Graphics.DrawCollision, Graphics.DrawCollisionCovered, Graphics.DrawMsbFirst, Graphics.TargetsParity, Graphics.TargetsCollision: these closed forms assume a sprite of at most 256 rows. Past that, the `u8` row index wraps and a row is drawn again on top of an earlier one. `Draw` and `DrawSprite` themselves follow the source for every length.
- Graphics.DrawClippedAtCorner: stated for sprites of at most 225 rows. A taller sprite's row index wraps past 255 back onto row 0 of the screen.
- The `test_u4_to_u8` literal cases are covered by the general `Instructions.U4ToU8Value` rather than one lemma per case.
- The `store_xy` and `instruction_timer` tests are covered by `Machine.StoreLaws` and `Timer.TickCadence` rather than restated.
- The checkerboard slice assertions of `test_headless_graphics` are stated pointwise (`InCheckerBox`).
- The keypad and random-source tests are stated as methods without contracts (`Input.KeypadExample`, `Random.FixedSequenceExample`). The same holds for the pixel and drawing tests (`Graphics.PixelOperationsExample`, `Graphics.DrawingExample`).
