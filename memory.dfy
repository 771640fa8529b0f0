/**
 * The 4 KiB CHIP-8 memory (src/memory.rs): the interpreter region holds the
 * sixteen hexadecimal font sprites, the program region from 0x200 on holds
 * the loaded program.
 */
module Memory {
  import opened Bytes

  const ADDRESS_INTERPRETER_START := 0x0
  const ADDRESS_PROGRAM_START := 0x200
  const ADDRESS_MAX := 0xFFF
  const INTERPRETER_MEMORY_SIZE := ADDRESS_PROGRAM_START - ADDRESS_INTERPRETER_START
  const PROGRAM_MEMORY_SIZE := ADDRESS_MAX - ADDRESS_PROGRAM_START + 1
  const MEMORY_SIZE := INTERPRETER_MEMORY_SIZE + PROGRAM_MEMORY_SIZE
  const SPRITE_SIZE := 5

  /** The font: the 5-row sprite of each hexadecimal digit 0..F. */
  const HEX_SPRITES: seq<seq<uint8>> := [
    // hexadecimal digits 0 to 9
    [0xF0, 0x90, 0x90, 0x90, 0xF0],
    [0x20, 0x60, 0x20, 0x20, 0x70],
    [0xF0, 0x10, 0xF0, 0x80, 0xF0],
    [0xF0, 0x10, 0xF0, 0x10, 0xF0],
    [0x90, 0x90, 0xF0, 0x10, 0x10],
    [0xF0, 0x10, 0xF0, 0x10, 0xF0],
    [0xF0, 0x80, 0xF0, 0x90, 0xF0],
    [0xF0, 0x10, 0x20, 0x40, 0x40],
    [0xF0, 0x90, 0xF0, 0x90, 0xF0],
    [0xF0, 0x90, 0xF0, 0x10, 0xF0],
    // hexadecimal digits A to F
    [0xF0, 0x90, 0xF0, 0x90, 0x90],
    [0xE0, 0x90, 0xE0, 0x90, 0xE0],
    [0xF0, 0x80, 0x80, 0x80, 0xF0],
    [0xE0, 0x90, 0x90, 0x90, 0xE0],
    [0xF0, 0x80, 0xF0, 0x80, 0xF0],
    [0xF0, 0x80, 0xF0, 0x80, 0x80]
  ]

  /** The sprites laid end to end, in order. */
  function Concat(sprites: seq<seq<uint8>>): seq<uint8>
  {
    if sprites == [] then [] else Concat(sprites[..|sprites| - 1]) + sprites[|sprites| - 1]
  }

  /** Laying out one more sprite appends it. */
  lemma ConcatSnoc(sprites: seq<seq<uint8>>, n: nat)
    requires n < |sprites|
    ensures Concat(sprites[..n + 1]) == Concat(sprites[..n]) + sprites[n]
  {
    assert sprites[..n + 1][..n] == sprites[..n];
  }

  /** The contents of a fresh memory: the font at address 0, zero everywhere else. */
  function FreshMemory(): seq<uint8>
  {
    Concat(HEX_SPRITES) + seq(MEMORY_SIZE - SPRITE_SIZE * |HEX_SPRITES|, _ => 0)
  }

  /**
   * In the first `n` font sprites laid end to end, row `j` of digit `d`
   * sits at byte `5 * d + j`.
   */
  lemma {:induction false} ConcatFontAt(n: nat, d: nat, j: nat)
    requires n <= |HEX_SPRITES| && d < n && j < SPRITE_SIZE
    ensures |Concat(HEX_SPRITES[..n])| == SPRITE_SIZE * n
    ensures Concat(HEX_SPRITES[..n])[SPRITE_SIZE * d + j] == HEX_SPRITES[d][j]
  {
    assert HEX_SPRITES[..n][..n - 1] == HEX_SPRITES[..n - 1];
    if d < n - 1 {
      ConcatFontAt(n - 1, d, j);
    } else if n > 1 {
      ConcatFontAt(n - 1, 0, 0);
    }
  }

  /**
   * A fresh memory holds row `j` of the sprite for digit `d` at byte
   * `5 * d + j`, and zero at every byte past the font.
   */
  lemma FreshMemoryLayout(d: nat, j: nat, k: nat)
    requires d < |HEX_SPRITES| && j < SPRITE_SIZE
    requires SPRITE_SIZE * |HEX_SPRITES| <= k < MEMORY_SIZE
    ensures |FreshMemory()| == MEMORY_SIZE
    ensures FreshMemory()[SPRITE_SIZE * d + j] == HEX_SPRITES[d][j]
    ensures FreshMemory()[k] == 0
  {
    ConcatFontAt(|HEX_SPRITES|, d, j);
    assert HEX_SPRITES[..|HEX_SPRITES|] == HEX_SPRITES;
  }

  /** The memory after copying `program` to the start of the program region. */
  function Loaded(memory: seq<uint8>, program: seq<uint8>): seq<uint8>
    requires |memory| == MEMORY_SIZE && |program| <= PROGRAM_MEMORY_SIZE
  {
    memory[..ADDRESS_PROGRAM_START] + program + memory[ADDRESS_PROGRAM_START + |program|..]
  }

  /**
   * Loading copies the program byte for byte to 0x200 onwards and leaves every
   * other byte as it was; so loading an empty program changes nothing.
   */
  lemma LoadedContents(memory: seq<uint8>, program: seq<uint8>, k: nat)
    requires |memory| == MEMORY_SIZE && |program| <= PROGRAM_MEMORY_SIZE && k < MEMORY_SIZE
    ensures |Loaded(memory, program)| == MEMORY_SIZE
    ensures Loaded(memory, program)[k] ==
      if ADDRESS_PROGRAM_START <= k < ADDRESS_PROGRAM_START + |program|
      then program[k - ADDRESS_PROGRAM_START] else memory[k]
    ensures Loaded(memory, []) == memory
  {
  }

  /** `sprite_address`: where the font sprite of a hexadecimal digit starts; panics for d > 0xF. */
  function SpriteAddress(spriteNumber: uint8): (r: uint16)
    requires spriteNumber <= 0xF
    ensures r + SPRITE_SIZE <= SPRITE_SIZE * |HEX_SPRITES| < ADDRESS_PROGRAM_START
    ensures r % SPRITE_SIZE == 0 && r / SPRITE_SIZE == spriteNumber
  {
    spriteNumber * SPRITE_SIZE
  }

  class RAM {
    var value: array<uint8>

    ghost predicate Valid()
      reads this
    {
      value.Length == MEMORY_SIZE
    }

    /**
     * `RAM::new`: zeroed memory into which the font sprites are copied one
     * after another from address 0.
     */
    constructor ()
      ensures Valid() && fresh(value)
      ensures value[..] == FreshMemory()
    {
      // every byte is zero until the font is copied in
      var memory := new uint8[MEMORY_SIZE](_ => 0);
      var writeStart := ADDRESS_INTERPRETER_START;
      for s := 0 to |HEX_SPRITES|
        invariant writeStart == SPRITE_SIZE * s
        invariant memory[..writeStart] == Concat(HEX_SPRITES[..s])
        invariant forall k :: writeStart <= k < MEMORY_SIZE ==> memory[k] == 0
      {
        var sprite := HEX_SPRITES[s];
        var writeEnd := writeStart + |sprite|;
        ghost var written := memory[..writeStart];
        forall j | 0 <= j < |sprite| {
          memory[writeStart + j] := sprite[j];
        }
        assert memory[..writeEnd] == written + sprite by {
          assert forall k :: 0 <= k < writeStart ==> memory[k] == written[k];
        }
        ConcatSnoc(HEX_SPRITES, s);
        writeStart := writeEnd;
      }
      assert memory[..] == FreshMemory() by {
        assert HEX_SPRITES[..|HEX_SPRITES|] == HEX_SPRITES;
        assert memory[..] == memory[..writeStart] + memory[writeStart..];
      }
      value := memory;
    }

    /** `program_memory`: the 0xE00 bytes from 0x200 to the end of memory. */
    function ProgramMemory(): (r: seq<uint8>)
      reads this, value
      requires Valid()
      ensures |r| == PROGRAM_MEMORY_SIZE
      ensures forall k :: 0 <= k < PROGRAM_MEMORY_SIZE ==> r[k] == value[ADDRESS_PROGRAM_START + k]
    {
      value[ADDRESS_PROGRAM_START..]
    }

    /** `get_instruction`: the two bytes at `address`; panics past the end of memory. */
    function GetInstruction(address: uint16): (r: seq<uint8>)
      reads this, value
      requires Valid() && address + 2 <= MEMORY_SIZE
      ensures r == [value[address], value[address + 1]]
    {
      value[address..address + 2]
    }

    /** `get_sprite`: the `bytes` bytes from `address`; panics past the end of memory. */
    function GetSprite(address: uint16, bytes: uint8): (r: seq<uint8>)
      reads this, value
      requires Valid() && address + bytes <= MEMORY_SIZE
      ensures |r| == bytes
      ensures forall k :: 0 <= k < bytes ==> r[k] == value[address + k]
    {
      value[address..address + bytes]
    }

    /**
     * `load_program` with the byte-slice `ProgramLoader`: copies `program` into
     * the program region. A program longer than the region panics.
     */
    method LoadProgram(program: seq<uint8>)
      requires Valid() && |program| <= PROGRAM_MEMORY_SIZE
      modifies value
      ensures Valid()
      ensures value[..] == Loaded(old(value[..]), program)
    {
      for k := 0 to |program|
        invariant forall j :: 0 <= j < k ==> value[ADDRESS_PROGRAM_START + j] == program[j]
        invariant forall j :: 0 <= j < MEMORY_SIZE && !(ADDRESS_PROGRAM_START <= j < ADDRESS_PROGRAM_START + k) ==>
          value[j] == old(value[j])
      {
        value[ADDRESS_PROGRAM_START + k] := program[k];
      }
      ghost var loaded := Loaded(old(value[..]), program);
      forall j | 0 <= j < MEMORY_SIZE ensures value[j] == loaded[j] {
        LoadedContents(old(value[..]), program, j);
      }
    }
  }

  /** On a fresh memory, the five bytes at the sprite address of digit `d` are that digit's sprite. */
  lemma FreshFontSprite(ram: RAM, d: uint8)
    requires ram.Valid() && ram.value[..] == FreshMemory() && d <= 0xF
    ensures ram.GetSprite(SpriteAddress(d), SPRITE_SIZE) == HEX_SPRITES[d]
  {
    var sprite := ram.GetSprite(SpriteAddress(d), SPRITE_SIZE);
    forall j | 0 <= j < SPRITE_SIZE ensures sprite[j] == HEX_SPRITES[d][j] {
      FreshMemoryLayout(d as nat, j, SPRITE_SIZE * |HEX_SPRITES|);
      assert ram.value[SPRITE_SIZE * d + j] == ram.value[..][SPRITE_SIZE * d + j];
    }
  }

  /** After loading, fetching at 0x200 + 2n returns the program's bytes 2n and 2n + 1. */
  lemma FetchLoadedInstruction(ram: RAM, before: seq<uint8>, program: seq<uint8>, n: nat)
    requires ram.Valid() && |before| == MEMORY_SIZE && |program| <= PROGRAM_MEMORY_SIZE
    requires ram.value[..] == Loaded(before, program)
    requires 2 * n + 2 <= |program|
    ensures ram.GetInstruction(ADDRESS_PROGRAM_START + 2 * n) == program[2 * n..2 * n + 2]
  {
    LoadedContents(before, program, ADDRESS_PROGRAM_START + 2 * n);
    LoadedContents(before, program, ADDRESS_PROGRAM_START + 2 * n + 1);
    assert ram.value[ADDRESS_PROGRAM_START + 2 * n] == ram.value[..][ADDRESS_PROGRAM_START + 2 * n];
    assert ram.value[ADDRESS_PROGRAM_START + 2 * n + 1] == ram.value[..][ADDRESS_PROGRAM_START + 2 * n + 1];
  }
}
