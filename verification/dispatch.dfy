/**
 * EmulateCycle of 6502EMU/CPU.cs: refuse to run before InitializeCPU, fetch
 * the opcode at PC, record it in CurrentOPCode, and dispatch it to its
 * handler with the addressing mode the dispatch table names.
 */
module Dispatch {
  import opened Machine
  import opened Flags
  import opened Addressing
  import opened Timing
  import opened LoadStore
  import opened Arithmetic
  import opened Logic
  import opened Shifts
  import opened Control
  import opened Implied

  /**
   * The dispatch table: the 151 opcodes EmulateCycle has a case for, each
   * with the handler and the mode it passes. Handlers that take no mode
   * appear with Implied. The table is reproduced as written, including
   * 0xA1/0x81 (passed IndirectIndexed, the datasheet's `(zp,X)` opcodes),
   * 0xB1/0x91 (passed IndexedIndirect, the datasheet's `(zp),Y` opcodes),
   * and 0xBC (passed AbsoluteIndexedX, which the LDY handler rejects).
   * Apart from 0xBC, every entry whose handler ends in a mode switch names
   * a mode that switch has a cycle cost for.
   */
  function Decode(op: Byte): (r: Option<(Instr, Mode)>)
    ensures r.Some? ==> Entry(op, r.value.0, r.value.1)
  {
    DecodeLoadsXY(op)
  }

  /** The BRK, LDX and LDY cases of the table; any other opcode falls through. */
  function DecodeLoadsXY(op: Byte): (r: Option<(Instr, Mode)>)
    ensures r.Some? ==> Entry(op, r.value.0, r.value.1)
  {
    match op
    case 0x00 => Some((BRK, Implied))
    case 0xA2 => Some((LDX, Immediate))
    case 0xA6 => Some((LDX, ZeroPage))
    case 0xB6 => Some((LDX, ZeroPageIndexedY))
    case 0xAE => Some((LDX, Absolute))
    case 0xBE => Some((LDX, AbsoluteIndexedY))
    case 0xA0 => Some((LDY, Immediate))
    case 0xA4 => Some((LDY, ZeroPage))
    case 0xB4 => Some((LDY, ZeroPageIndexedX))
    case 0xAC => Some((LDY, Absolute))
    case 0xBC => Some((LDY, AbsoluteIndexedX))
    case _ => DecodeLoadsA(op)
  }

  /** The LDA cases of the table; any other opcode falls through. */
  function DecodeLoadsA(op: Byte): (r: Option<(Instr, Mode)>)
    ensures r.Some? ==> Entry(op, r.value.0, r.value.1)
  {
    match op
    case 0xA9 => Some((LDA, Immediate))
    case 0xA5 => Some((LDA, ZeroPage))
    case 0xB5 => Some((LDA, ZeroPageIndexedX))
    case 0xAD => Some((LDA, Absolute))
    case 0xBD => Some((LDA, AbsoluteIndexedX))
    case 0xB9 => Some((LDA, AbsoluteIndexedY))
    case 0xA1 => Some((LDA, IndirectIndexed))
    case 0xB1 => Some((LDA, IndexedIndirect))
    case _ => DecodeStores(op)
  }

  /** The STX, STY and STA cases of the table; any other opcode falls through. */
  function DecodeStores(op: Byte): (r: Option<(Instr, Mode)>)
    ensures r.Some? ==> Entry(op, r.value.0, r.value.1)
  {
    match op
    case 0x86 => Some((STX, ZeroPage))
    case 0x96 => Some((STX, ZeroPageIndexedY))
    case 0x8E => Some((STX, Absolute))
    case 0x84 => Some((STY, ZeroPage))
    case 0x94 => Some((STY, ZeroPageIndexedX))
    case 0x8C => Some((STY, Absolute))
    case 0x85 => Some((STA, ZeroPage))
    case 0x95 => Some((STA, ZeroPageIndexedX))
    case 0x8D => Some((STA, Absolute))
    case 0x9D => Some((STA, AbsoluteIndexedX))
    case 0x99 => Some((STA, AbsoluteIndexedY))
    case 0x81 => Some((STA, IndirectIndexed))
    case 0x91 => Some((STA, IndexedIndirect))
    case _ => DecodeFlags(op)
  }

  /** The flag instruction and BIT cases of the table; any other opcode falls through. */
  function DecodeFlags(op: Byte): (r: Option<(Instr, Mode)>)
    ensures r.Some? ==> Entry(op, r.value.0, r.value.1)
  {
    match op
    case 0x24 => Some((BIT, ZeroPage))
    case 0x2C => Some((BIT, Absolute))
    case 0x38 => Some((SEC, Implied))
    case 0x18 => Some((CLC, Implied))
    case 0xF8 => Some((SED, Implied))
    case 0xD8 => Some((CLD, Implied))
    case 0x78 => Some((SEI, Implied))
    case 0x58 => Some((CLI, Implied))
    case 0xB8 => Some((CLV, Implied))
    case _ => DecodeTransfers(op)
  }

  /** The register transfer cases of the table; any other opcode falls through. */
  function DecodeTransfers(op: Byte): (r: Option<(Instr, Mode)>)
    ensures r.Some? ==> Entry(op, r.value.0, r.value.1)
  {
    match op
    case 0x8A => Some((TXA, Implied))
    case 0xAA => Some((TAX, Implied))
    case 0x98 => Some((TYA, Implied))
    case 0xA8 => Some((TAY, Implied))
    case 0xBA => Some((TSX, Implied))
    case 0x9A => Some((TXS, Implied))
    case _ => DecodeSteps(op)
  }

  /** The increment, decrement and NOP cases of the table; any other opcode falls through. */
  function DecodeSteps(op: Byte): (r: Option<(Instr, Mode)>)
    ensures r.Some? ==> Entry(op, r.value.0, r.value.1)
  {
    match op
    case 0xE8 => Some((INX, Implied))
    case 0xC8 => Some((INY, Implied))
    case 0xE6 => Some((INC, ZeroPage))
    case 0xF6 => Some((INC, ZeroPageIndexedX))
    case 0xEE => Some((INC, Absolute))
    case 0xFE => Some((INC, AbsoluteIndexedX))
    case 0x88 => Some((DEY, Implied))
    case 0xCA => Some((DEX, Implied))
    case 0xC6 => Some((DEM, ZeroPage))
    case 0xD6 => Some((DEM, ZeroPageIndexedX))
    case 0xCE => Some((DEM, Absolute))
    case 0xDE => Some((DEM, AbsoluteIndexedX))
    case 0xEA => Some((NOP, Implied))
    case _ => DecodeAdd(op)
  }

  /** The ADC cases of the table; any other opcode falls through. */
  function DecodeAdd(op: Byte): (r: Option<(Instr, Mode)>)
    ensures r.Some? ==> Entry(op, r.value.0, r.value.1)
  {
    match op
    case 0x69 => Some((ADC, Immediate))
    case 0x65 => Some((ADC, ZeroPage))
    case 0x75 => Some((ADC, ZeroPageIndexedX))
    case 0x6D => Some((ADC, Absolute))
    case 0x7D => Some((ADC, AbsoluteIndexedX))
    case 0x79 => Some((ADC, AbsoluteIndexedY))
    case 0x61 => Some((ADC, IndexedIndirect))
    case 0x71 => Some((ADC, IndirectIndexed))
    case _ => DecodeSubtract(op)
  }

  /** The SBC cases of the table; any other opcode falls through. */
  function DecodeSubtract(op: Byte): (r: Option<(Instr, Mode)>)
    ensures r.Some? ==> Entry(op, r.value.0, r.value.1)
  {
    match op
    case 0xE9 => Some((SBC, Immediate))
    case 0xE5 => Some((SBC, ZeroPage))
    case 0xF5 => Some((SBC, ZeroPageIndexedX))
    case 0xED => Some((SBC, Absolute))
    case 0xFD => Some((SBC, AbsoluteIndexedX))
    case 0xF9 => Some((SBC, AbsoluteIndexedY))
    case 0xE1 => Some((SBC, IndexedIndirect))
    case 0xF1 => Some((SBC, IndirectIndexed))
    case _ => DecodeAnd(op)
  }

  /** The AND cases of the table; any other opcode falls through. */
  function DecodeAnd(op: Byte): (r: Option<(Instr, Mode)>)
    ensures r.Some? ==> Entry(op, r.value.0, r.value.1)
  {
    match op
    case 0x29 => Some((AND, Immediate))
    case 0x25 => Some((AND, ZeroPage))
    case 0x35 => Some((AND, ZeroPageIndexedX))
    case 0x2D => Some((AND, Absolute))
    case 0x3D => Some((AND, AbsoluteIndexedX))
    case 0x39 => Some((AND, AbsoluteIndexedY))
    case 0x21 => Some((AND, IndexedIndirect))
    case 0x31 => Some((AND, IndirectIndexed))
    case _ => DecodeOr(op)
  }

  /** The ORA cases of the table; any other opcode falls through. */
  function DecodeOr(op: Byte): (r: Option<(Instr, Mode)>)
    ensures r.Some? ==> Entry(op, r.value.0, r.value.1)
  {
    match op
    case 0x09 => Some((ORA, Immediate))
    case 0x05 => Some((ORA, ZeroPage))
    case 0x15 => Some((ORA, ZeroPageIndexedX))
    case 0x0D => Some((ORA, Absolute))
    case 0x1D => Some((ORA, AbsoluteIndexedX))
    case 0x19 => Some((ORA, AbsoluteIndexedY))
    case 0x01 => Some((ORA, IndexedIndirect))
    case 0x11 => Some((ORA, IndirectIndexed))
    case _ => DecodeExclusiveOr(op)
  }

  /** The EOR cases of the table; any other opcode falls through. */
  function DecodeExclusiveOr(op: Byte): (r: Option<(Instr, Mode)>)
    ensures r.Some? ==> Entry(op, r.value.0, r.value.1)
  {
    match op
    case 0x49 => Some((EOR, Immediate))
    case 0x45 => Some((EOR, ZeroPage))
    case 0x55 => Some((EOR, ZeroPageIndexedX))
    case 0x4D => Some((EOR, Absolute))
    case 0x5D => Some((EOR, AbsoluteIndexedX))
    case 0x59 => Some((EOR, AbsoluteIndexedY))
    case 0x41 => Some((EOR, IndexedIndirect))
    case 0x51 => Some((EOR, IndirectIndexed))
    case _ => DecodeShifts(op)
  }

  /** The ASL and LSR cases of the table; any other opcode falls through. */
  function DecodeShifts(op: Byte): (r: Option<(Instr, Mode)>)
    ensures r.Some? ==> Entry(op, r.value.0, r.value.1)
  {
    match op
    case 0x0A => Some((ASL, Accumulator))
    case 0x06 => Some((ASL, ZeroPage))
    case 0x16 => Some((ASL, ZeroPageIndexedX))
    case 0x0E => Some((ASL, Absolute))
    case 0x1E => Some((ASL, AbsoluteIndexedX))
    case 0x4A => Some((LSR, Accumulator))
    case 0x46 => Some((LSR, ZeroPage))
    case 0x56 => Some((LSR, ZeroPageIndexedX))
    case 0x4E => Some((LSR, Absolute))
    case 0x5E => Some((LSR, AbsoluteIndexedX))
    case _ => DecodeRotates(op)
  }

  /** The ROL and ROR cases of the table; any other opcode falls through. */
  function DecodeRotates(op: Byte): (r: Option<(Instr, Mode)>)
    ensures r.Some? ==> Entry(op, r.value.0, r.value.1)
  {
    match op
    case 0x2A => Some((ROL, Accumulator))
    case 0x26 => Some((ROL, ZeroPage))
    case 0x36 => Some((ROL, ZeroPageIndexedX))
    case 0x2E => Some((ROL, Absolute))
    case 0x3E => Some((ROL, AbsoluteIndexedX))
    case 0x6A => Some((ROR, Accumulator))
    case 0x66 => Some((ROR, ZeroPage))
    case 0x76 => Some((ROR, ZeroPageIndexedX))
    case 0x6E => Some((ROR, Absolute))
    case 0x7E => Some((ROR, AbsoluteIndexedX))
    case _ => DecodeCompares(op)
  }

  /** The CMP, CPX and CPY cases of the table; any other opcode falls through. */
  function DecodeCompares(op: Byte): (r: Option<(Instr, Mode)>)
    ensures r.Some? ==> Entry(op, r.value.0, r.value.1)
  {
    match op
    case 0xC9 => Some((CMP, Immediate))
    case 0xC5 => Some((CMP, ZeroPage))
    case 0xD5 => Some((CMP, ZeroPageIndexedX))
    case 0xCD => Some((CMP, Absolute))
    case 0xDD => Some((CMP, AbsoluteIndexedX))
    case 0xD9 => Some((CMP, AbsoluteIndexedY))
    case 0xC1 => Some((CMP, IndexedIndirect))
    case 0xD1 => Some((CMP, IndirectIndexed))
    case 0xE0 => Some((CPX, Immediate))
    case 0xE4 => Some((CPX, ZeroPage))
    case 0xEC => Some((CPX, Absolute))
    case 0xC0 => Some((CPY, Immediate))
    case 0xC4 => Some((CPY, ZeroPage))
    case 0xCC => Some((CPY, Absolute))
    case _ => DecodeControl(op)
  }

  /** The branch, push, pull, JMP, JSR, RTI and RTS cases of the table; no other opcode has a case. */
  function DecodeControl(op: Byte): (r: Option<(Instr, Mode)>)
    ensures r.Some? ==> Entry(op, r.value.0, r.value.1)
  {
    match op
    case 0xD0 => Some((BNE, Implied))
    case 0x90 => Some((BCC, Implied))
    case 0xB0 => Some((BCS, Implied))
    case 0xF0 => Some((BEQ, Implied))
    case 0x30 => Some((BMI, Implied))
    case 0x10 => Some((BPL, Implied))
    case 0x50 => Some((BVC, Implied))
    case 0x70 => Some((BVS, Implied))
    case 0x48 => Some((PHA, Implied))
    case 0x08 => Some((PHP, Implied))
    case 0x68 => Some((PLA, Implied))
    case 0x28 => Some((PLP, Implied))
    case 0x4C => Some((JMP, Absolute))
    case 0x6C => Some((JMP, Indirect))
    case 0x20 => Some((JSR, Absolute))
    case 0x40 => Some((RTI, Implied))
    case 0x60 => Some((RTS, Implied))
    case _ => None
  }

  /**
   * What every entry of the table satisfies: apart from 0xBC, the handler
   * accepts the mode it is passed, and only opcode 0x40 reaches RTI.
   */
  predicate Entry(op: Byte, i: Instr, mode: Mode)
  {
    (op != 0xBC ==> Costed(i, mode)) && (i == RTI ==> op == 0x40)
  }

  /**
   * The handler's closing mode switch has a cycle cost for the mode. Entries
   * with Implied name handlers that take no mode, JMP and JSR check their
   * modes themselves, and the shifts' Accumulator forms bypass the switch.
   */
  predicate Costed(i: Instr, mode: Mode)
  {
    mode != Implied && mode != Accumulator && i != JMP && i != JSR ==> CycleCost(i, mode).Some?
  }

  predicate TakesOperand(i: Instr)
  {
    i in {LDA, LDX, LDY, STA, STX, STY, ADC, SBC, AND, ORA, EOR, ASL, LSR, ROL, ROR,
          CMP, CPX, CPY, INC, DEM, BIT, JMP, JSR}
  }

  /**
   * Run one handler. Handlers that the source calls without a mode ignore
   * `mode` and never raise. No handler writes the initialisation flag or
   * the recorded opcode, even when it raises.
   */
  function Execute(st: CPUState, i: Instr, mode: Mode): (r: Result<CPUState>)
    ensures !TakesOperand(i) ==> r.Ok?
    ensures Continues(st, r)
    ensures i != RTI && i != PLP ==> KeepsReserved(st, r)
    ensures i == PLP ==> After(r).status.reserved
  {
    if TakesOperand(i) then WithOperand(st, i, mode) else Ok(WithoutOperand(st, i))
  }

  /** The handlers that take a mode. */
  function WithOperand(st: CPUState, i: Instr, mode: Mode): (r: Result<CPUState>)
    requires TakesOperand(i)
    ensures Continues(st, r)
    ensures KeepsReserved(st, r)
  {
    match i
    case LDA | LDX | LDY => Load(st, i, mode)
    case STA | STX | STY => Store(st, i, mode)
    case ADC => AddWithCarry(st, mode)
    case SBC => SubtractWithCarry(st, mode)
    case AND | ORA | EOR => Logical(st, i, mode)
    case ASL => ShiftLeft(st, mode)
    case LSR => ShiftRight(st, mode)
    case ROL => RotateLeft(st, mode)
    case ROR => RotateRight(st, mode)
    case CMP | CPX | CPY => Compare(st, i, mode)
    case INC | DEM => StepMemory(st, i, mode)
    case BIT => BitTest(st, mode)
    case JMP => Jump(st, mode)
    case JSR => JumpToSubroutine(st, mode)
  }

  /**
   * The handlers that take no mode. Only RTI and PLP write the reserved
   * status bit: RTI takes it from the pulled byte, PLP forces it to 1.
   */
  function WithoutOperand(st: CPUState, i: Instr): (r: CPUState)
    requires !TakesOperand(i)
    ensures r.initialized == st.initialized && r.opcode == st.opcode
    ensures i != RTI && i != PLP ==> r.status.reserved == st.status.reserved
    ensures i == PLP ==> r.status.reserved
  {
    if IsIndexStep(i) then IndexStep(st, i)
    else if IsFlagInstruction(i) then FlagInstruction(st, i)
    else if IsTransfer(i) then Transfer(st, i)
    else if IsBranch(i) then Branch(st, i)
    else
      match i
      case RTS => ReturnFromSubroutine(st)
      case RTI => ReturnFromInterrupt(st)
      case BRK => ForceBreak(st)
      case PHA => PushAccumulator(st)
      case PHP => PushStatus(st)
      case PLA => PullAccumulator(st)
      case PLP => PullStatus(st)
      case NOP => NoOperation(st)
  }

  /**
   * EmulateCycle. Before initialisation it raises and changes nothing. An
   * opcode without a case raises UnknownOpcode carrying the opcode and PC,
   * after CurrentOPCode has been stored. A step that gets past the fetch,
   * whether it completes or raises, leaves the CPU initialised with the
   * fetched opcode recorded.
   */
  function EmulateCycle(st: CPUState): (r: Result<CPUState>)
    ensures !st.initialized ==> r == Err(NotInitialized, st)
    ensures st.initialized && Decode(st.mem[st.pc]).None? ==>
      r == Err(UnknownOpcode(st.mem[st.pc], st.pc), st.(opcode := st.mem[st.pc]))
    ensures st.initialized ==> After(r).initialized && After(r).opcode == st.mem[st.pc]
  {
    if !st.initialized then Err(NotInitialized, st)
    else
      var op := st.mem[st.pc];
      var fetched := st.(opcode := op);
      match Decode(op)
      case None => Err(UnknownOpcode(op, st.pc), fetched)
      case Some((i, mode)) =>
        Execute(fetched, i, mode)
  }

  /**
   * A step that gets past the fetch runs the handler the table names, with
   * the table's mode, on the state with the opcode recorded.
   */
  lemma {:induction false} Dispatched(st: CPUState, i: Instr, mode: Mode)
    requires st.initialized && Decode(st.mem[st.pc]) == Some((i, mode))
    ensures EmulateCycle(st) == Execute(st.(opcode := st.mem[st.pc]), i, mode)
  {
  }

  /**
   * Bit 5 of the status register stays set across a step, unless the step
   * is RTI, which takes the whole byte from the stack. (PLP forces it on.)
   */
  lemma {:induction false} ReservedKept(st: CPUState)
    requires st.status.reserved && st.mem[st.pc] != 0x40
    ensures After(EmulateCycle(st)).status.reserved
  {
    if st.initialized {
      match Decode(st.mem[st.pc])
      case None =>
      case Some((i, mode)) => Dispatched(st, i, mode);
    }
  }
}
