/**
 * The addressing-mode resolver of 6502EMU/CPU.cs, GetMemoryAddress: from
 * the opcode address in PC it reads the operand bytes, computes the
 * effective address and advances PC past the instruction.
 */
module Addressing {
  import opened Machine

  /** An effective address together with the state whose PC has moved past the operand. */
  datatype Operand = Operand(addr: Word, st: CPUState)

  /** Bytes an instruction occupies in each mode, the opcode included. */
  function InstructionLength(mode: Mode): nat
  {
    match mode
    case Accumulator => 1
    case Implied => 1
    case Immediate => 2
    case Relative => 2
    case ZeroPage => 2
    case ZeroPageIndexedX => 2
    case ZeroPageIndexedY => 2
    case IndexedIndirect => 2
    case IndirectIndexed => 2
    case Absolute => 3
    case AbsoluteIndexedX => 3
    case AbsoluteIndexedY => 3
    case Indirect => 3
  }

  /** The little-endian word stored at `ptr` and `ptr + 1`. */
  function WordAt(mem: Memory, ptr: nat): int
    requires ptr + 1 < MemorySize
  {
    (mem[ptr] as int) + 0x100 * (mem[ptr + 1] as int)
  }

  /**
   * The Absolute and Absolute_Indexed cases: the little-endian word after
   * the opcode plus the index register, modulo 65536 (the `ushort +=`);
   * PC advances by 3. Absolute itself adds nothing, i.e. index 0.
   */
  function AbsoluteOperand(st: CPUState, index: Byte): (r: Result<Operand>)
    ensures r.Ok? <==> st.pc + 2 < MemorySize
    ensures r.Err? ==> r == Err(IndexOutOfRange, st)
    ensures r.Ok? ==> r.value.addr == (WordAt(st.mem, st.pc + 1) + index) % MemorySize
    ensures r.Ok? && index == 0 ==> r.value.addr == WordAt(st.mem, st.pc + 1)
    ensures r.Ok? ==> r.value.st == st.(pc := (st.pc + 3) % MemorySize)
  {
    var lo :- ReadAt(st, st.pc + 1);
    var hi :- ReadAt(st, st.pc + 2);
    Ok(Operand(ToWord(MakeWord(lo, hi) + index), st.(pc := ToWord(st.pc + 3))))
  }

  /**
   * The Zero_Page and Zero_Page_Indexed cases: the byte after the opcode
   * plus the index register, brought back into page 0 by subtracting 0x100
   * when it passes 0xFF; PC advances by 2. Zero_Page itself adds nothing.
   */
  function ZeroPageOperand(st: CPUState, index: Byte): (r: Result<Operand>)
    ensures r.Ok? <==> st.pc + 1 < MemorySize
    ensures r.Err? ==> r == Err(IndexOutOfRange, st)
    ensures r.Ok? ==> r.value.addr == (st.mem[st.pc + 1] + index) % 0x100
    ensures r.Ok? ==> r.value.addr <= 0xFF
    ensures r.Ok? ==> r.value.st == st.(pc := (st.pc + 2) % MemorySize)
  {
    var zp :- ReadAt(st, st.pc + 1);
    var sum := zp + index;
    Ok(Operand(if sum > 0xFF then sum - 0x100 else sum, st.(pc := ToWord(st.pc + 2))))
  }

  /**
   * The Indexed_Indirect case, `(zp,X)`: the pointer is the operand byte
   * plus X reduced modulo 0xFF (not 256), so it never reaches 0xFF; the
   * address is the word stored there. PC advances by 2.
   */
  function IndexedIndirectOperand(st: CPUState): (r: Result<Operand>)
    ensures r.Ok? <==> st.pc + 1 < MemorySize
    ensures r.Err? ==> r == Err(IndexOutOfRange, st)
    ensures r.Ok? ==> r.value.addr == WordAt(st.mem, (st.mem[st.pc + 1] + st.x) % 0xFF)
    ensures r.Ok? ==> r.value.st == st.(pc := (st.pc + 2) % MemorySize)
  {
    var zp :- ReadAt(st, st.pc + 1);
    var ptr := (zp + st.x) % 0xFF;
    Ok(Operand(MakeWord(st.mem[ptr], st.mem[ptr + 1]), st.(pc := ToWord(st.pc + 2))))
  }

  /**
   * The Indirect_Indexed case, `(zp),Y`: the address is the word stored at
   * the zero-page pointer; Y is never added. PC advances by 2.
   */
  function IndirectIndexedOperand(st: CPUState): (r: Result<Operand>)
    ensures r.Ok? <==> st.pc + 1 < MemorySize
    ensures r.Err? ==> r == Err(IndexOutOfRange, st)
    ensures r.Ok? ==> r.value.addr == WordAt(st.mem, st.mem[st.pc + 1])
    ensures r.Ok? ==> r.value.st == st.(pc := (st.pc + 2) % MemorySize)
  {
    var zp :- ReadAt(st, st.pc + 1);
    Ok(Operand(MakeWord(st.mem[zp], st.mem[zp + 1]), st.(pc := ToWord(st.pc + 2))))
  }

  /**
   * The Indirect case: the pointer is read high byte first
   * (`memory[PC + 1] << 8 | memory[PC + 2]`), the address is the word stored
   * there, and reading the pointer's second byte raises at 0xFFFF. PC
   * advances by 3. No dispatch entry reaches this case: JMP decodes its own
   * indirect operand.
   */
  function IndirectOperand(st: CPUState): (r: Result<Operand>)
    ensures r.Ok? <==> st.pc + 2 < MemorySize && 0x100 * (st.mem[st.pc + 1] as int) + st.mem[st.pc + 2] + 1 < MemorySize
    ensures r.Err? ==> r == Err(IndexOutOfRange, st)
    ensures r.Ok? ==> r.value.addr == WordAt(st.mem, 0x100 * (st.mem[st.pc + 1] as int) + st.mem[st.pc + 2])
    ensures r.Ok? ==> r.value.st == st.(pc := (st.pc + 3) % MemorySize)
  {
    var b1 :- ReadAt(st, st.pc + 1);
    var b2 :- ReadAt(st, st.pc + 2);
    var ptr := MakeWord(b2, b1);
    var hi :- ReadAt(st, ptr + 1);
    Ok(Operand(MakeWord(st.mem[ptr], hi), st.(pc := ToWord(st.pc + 3))))
  }

  /**
   * The Relative case: PC advances by 2 first, the offset is read at the new
   * PC + 1, PC moves by the offset (less 255 when above 127), and the
   * "address" returned is the byte found at the new PC. No dispatch entry
   * reaches this case: the branches use their own helper.
   */
  function RelativeOperand(st: CPUState): (r: Result<Operand>)
    ensures r.Ok? <==> (st.pc + 2) % MemorySize + 1 < MemorySize
    ensures r.Err? ==> r == Err(IndexOutOfRange, st.(pc := (st.pc + 2) % MemorySize))
    ensures r.Ok? ==> r.value.st == st.(pc := r.value.st.pc)
    ensures r.Ok? ==> r.value.addr == st.mem[r.value.st.pc]
  {
    var moved := st.(pc := ToWord(st.pc + 2));
    var offset :- ReadAt(moved, moved.pc + 1);
    var target := if offset > 127 then ToWord(ToWord(moved.pc + offset) - 255) else ToWord(moved.pc + offset);
    Ok(Operand(moved.mem[target], moved.(pc := target)))
  }

  /**
   * The reads GetMemoryAddress makes with `int` indexes stay below 0x10000,
   * so it raises nothing. Accumulator and Implied have no case and always
   * raise.
   */
  predicate Resolvable(st: CPUState, mode: Mode)
  {
    match mode
    case Accumulator => false
    case Implied => false
    case Immediate => true
    case ZeroPage => st.pc + 1 < MemorySize
    case ZeroPageIndexedX => st.pc + 1 < MemorySize
    case ZeroPageIndexedY => st.pc + 1 < MemorySize
    case IndexedIndirect => st.pc + 1 < MemorySize
    case IndirectIndexed => st.pc + 1 < MemorySize
    case Absolute => st.pc + 2 < MemorySize
    case AbsoluteIndexedX => st.pc + 2 < MemorySize
    case AbsoluteIndexedY => st.pc + 2 < MemorySize
    case Indirect =>
      st.pc + 2 < MemorySize && 0x100 * (st.mem[st.pc + 1] as int) + st.mem[st.pc + 2] + 1 < MemorySize
    case Relative => (st.pc + 2) % MemorySize + 1 < MemorySize
  }

  /**
   * GetMemoryAddress. It fails exactly when the mode has no case or an
   * operand read runs past 0xFFFF; every mode but Relative then advances PC
   * by the instruction's length modulo 65536 and changes nothing else. The
   * Immediate operand is the byte right after the opcode.
   */
  function GetMemoryAddress(st: CPUState, mode: Mode): (r: Result<Operand>)
    ensures r.Ok? <==> Resolvable(st, mode)
    ensures r.Err? && (mode == Accumulator || mode == Implied) ==> r == Err(UnresolvableMode(mode), st)
    ensures r.Err? && mode != Accumulator && mode != Implied ==> r.fault == IndexOutOfRange
    ensures r.Err? && mode != Relative ==> r.at == st
    ensures r.Err? ==> r.at == st.(pc := r.at.pc)
    ensures r.Ok? ==> r.value.st == st.(pc := r.value.st.pc)
    ensures r.Ok? && mode != Relative ==> r.value.st.pc == (st.pc + InstructionLength(mode)) % MemorySize
    ensures r.Ok? && mode == Immediate ==> r.value.addr == (st.pc + 1) % MemorySize
  {
    match mode
    case Absolute => AbsoluteOperand(st, 0)
    case AbsoluteIndexedX => AbsoluteOperand(st, st.x)
    case AbsoluteIndexedY => AbsoluteOperand(st, st.y)
    case Immediate => Ok(Operand(ToWord(st.pc + 1), st.(pc := ToWord(st.pc + 2))))
    case IndexedIndirect => IndexedIndirectOperand(st)
    case Indirect => IndirectOperand(st)
    case IndirectIndexed => IndirectIndexedOperand(st)
    case Relative => RelativeOperand(st)
    case ZeroPage => ZeroPageOperand(st, 0)
    case ZeroPageIndexedX => ZeroPageOperand(st, st.x)
    case ZeroPageIndexedY => ZeroPageOperand(st, st.y)
    case Accumulator => Err(UnresolvableMode(mode), st)
    case Implied => Err(UnresolvableMode(mode), st)
  }

  /** Zero-page modes never leave page 0: 0xFF indexed by 2 is 0x01, not 0x101. */
  lemma ZeroPageStaysInPageZero(st: CPUState, mode: Mode)
    requires mode == ZeroPage || mode == ZeroPageIndexedX || mode == ZeroPageIndexedY
    requires st.pc + 1 < MemorySize
    ensures GetMemoryAddress(st, mode).Ok?
    ensures GetMemoryAddress(st, mode).value.addr <= 0xFF
  {
  }

  /** The wrap-around example: zero page 0xFF indexed by X = 2 resolves to 0x01. */
  lemma ZeroPageIndexedWrapExample(st: CPUState)
    requires st.pc + 1 < MemorySize && st.mem[st.pc + 1] == 0xFF && st.x == 2
    ensures GetMemoryAddress(st, ZeroPageIndexedX) == Ok(Operand(0x01, st.(pc := (st.pc + 2) % MemorySize)))
  {
  }
}
