/**
 * Creating and resetting the CPU object of 6502EMU/CPU.cs: the two
 * constructors, which copy a program image into zeroed memory, and
 * InitializeCPU, which loads PC from the reset vector at 0xFFFC/0xFFFD.
 */
module Lifecycle {
  import opened Machine
  import opened Flags
  import opened Addressing

  /**
   * `new byte[65536]` followed by `Array.Copy(b, 0, memory, 0, b.Length)`:
   * the image at address 0 and zeros after it. An image longer than the
   * memory makes the copy throw.
   */
  function LoadImage(rom: seq<Byte>): (m: Option<Memory>)
    ensures m.Some? <==> |rom| <= MemorySize
    ensures m.Some? ==> m.value[..|rom|] == rom
    ensures m.Some? ==> forall i :: |rom| <= i < MemorySize ==> m.value[i] == 0
  {
    if |rom| > MemorySize then None else Some(rom + seq(MemorySize - |rom|, _ => 0))
  }

  /**
   * The fields both constructors leave: every register 0 (C# zero-fills
   * fields, and the constructors set PC and S to 0 explicitly), the status
   * byte `0 | 0x20`, no cycles pending, no opcode fetched, not initialised.
   */
  function PowerOn(mem: Memory): CPUState
  {
    CPUState(0, 0, 0, 0, 0, ByteStatus(BitOr(0, 0x20)), mem, false, 0, 0)
  }

  /** `0 | 0x20` is 0x20. */
  lemma ReservedByte()
    ensures BitOr(0, 0x20) == 0x20
  {
  }

  /** The byte 0x20 reads as the status with only the reserved bit set. */
  lemma ReservedStatus()
    ensures ByteStatus(0x20) == Status(false, false, false, false, false, true, false, false)
  {
  }

  /** A freshly constructed CPU has only the reserved bit of its status set. */
  lemma PowerOnStatus(mem: Memory)
    ensures forall f :: IsSet(PowerOn(mem).status, f) <==> f == Reserved
  {
    ReservedByte();
    ReservedStatus();
  }

  /** The one-argument constructor: the image at address 0, PC = 0, S = 0. */
  function Create(rom: seq<Byte>): (r: Option<CPUState>)
    ensures r.Some? <==> |rom| <= MemorySize
    ensures r.Some? ==>
      && r.value.mem[..|rom|] == rom
      && r.value.pc == 0 && r.value.s == 0 && r.value.a == 0 && r.value.x == 0 && r.value.y == 0
      && !r.value.initialized && r.value.cycles == 0
  {
    var mem :- LoadImage(rom);
    Some(PowerOn(mem))
  }

  /**
   * The two-argument constructor. Like Create, but a nonzero start location
   * is then written little-endian into the reset vector at 0xFFFC/0xFFFD,
   * over whatever the image put there. A start location of 0 writes
   * nothing, so the image's own vector stays.
   */
  function CreateAt(rom: seq<Byte>, start: Word): (r: Option<CPUState>)
    ensures start == 0 ==> r == Create(rom)
    ensures r.Some? <==> |rom| <= MemorySize
    ensures start != 0 && r.Some? ==>
      var plain := Create(rom).value;
      r.value == plain.(mem := plain.mem[0xFFFC := start % 0x100][0xFFFD := start / 0x100])
  {
    var mem :- LoadImage(rom);
    if start == 0 then Some(PowerOn(mem))
    else Some(PowerOn(mem[0xFFFC := Lo(start)][0xFFFD := Hi(start)]))
  }

  /**
   * InitializeCPU, the reset: PC takes the little-endian word in the reset
   * vector and the CPU is marked initialised; nothing else changes.
   */
  function InitializeCPU(st: CPUState): (r: CPUState)
    ensures r.initialized
    ensures r == st.(pc := WordAt(st.mem, 0xFFFC), initialized := true)
  {
    var msb := st.mem[0xFFFD];
    var lsb := st.mem[0xFFFC];
    st.(pc := MakeWord(lsb, msb), initialized := true)
  }

  /**
   * The start location given to the constructor is where a reset begins
   * executing, whatever the image holds at the vector.
   */
  lemma {:induction false} ResetVectorHonoured(rom: seq<Byte>, start: Word)
    requires |rom| <= MemorySize && start != 0
    ensures CreateAt(rom, start).Some?
    ensures InitializeCPU(CreateAt(rom, start).value).pc == start
  {
    var st := CreateAt(rom, start).value;
    assert st.mem[0xFFFC] == Lo(start) && st.mem[0xFFFD] == Hi(start);
    WordRoundTrip(start);
  }

  /**
   * With start location 0 a reset begins at the image's own vector, or at 0
   * when the image is too short to reach it.
   */
  lemma ZeroStartReadsImage(rom: seq<Byte>)
    requires |rom| <= MemorySize
    ensures CreateAt(rom, 0).Some?
    ensures InitializeCPU(CreateAt(rom, 0).value).pc ==
      (if |rom| > 0xFFFC then rom[0xFFFC] as int else 0) + 0x100 * (if |rom| > 0xFFFD then rom[0xFFFD] as int else 0)
  {
    var mem := LoadImage(rom).value;
    assert mem == rom + seq(MemorySize - |rom|, _ => 0);
    assert CreateAt(rom, 0).value.mem == mem;
  }
}
