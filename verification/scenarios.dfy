/**
 * Short programs run through EmulateCycle of 6502EMU/CPU.cs one step at a
 * time, from any initialised state that holds them at PC. Each step is
 * taken apart the same way: the table entry of the opcode, the handler
 * Execute routes it to, and what that handler does.
 */
module Scenarios {
  import opened Machine
  import opened Flags
  import opened Addressing
  import opened LoadStore
  import opened Arithmetic
  import opened Control
  import opened Implied
  import opened Dispatch

  /** Opcode 0xA9 is LDA Immediate. */
  lemma OpcodeA9()
    ensures Decode(0xA9) == Some((LDA, Immediate))
  {
  }

  /** Opcode 0xAA is TAX. */
  lemma OpcodeAA()
    ensures Decode(0xAA) == Some((TAX, Implied))
  {
  }

  /** Opcode 0x69 is ADC Immediate. */
  lemma Opcode69()
    ensures Decode(0x69) == Some((ADC, Immediate))
  {
  }

  /** Opcode 0xF0 is BEQ. */
  lemma OpcodeF0()
    ensures Decode(0xF0) == Some((BEQ, Implied))
  {
  }

  /** LDA runs the load handler. */
  lemma RoutesLoad(st: CPUState, mode: Mode)
    ensures Execute(st, LDA, mode) == Load(st, LDA, mode)
  {
    assert TakesOperand(LDA);
    assert Execute(st, LDA, mode) == WithOperand(st, LDA, mode);
  }

  /** TAX runs the transfer handler and cannot raise. */
  lemma RoutesTransfer(st: CPUState, mode: Mode)
    ensures Execute(st, TAX, mode) == Ok(Transfer(st, TAX))
  {
    assert !TakesOperand(TAX) && !IsIndexStep(TAX) && !IsFlagInstruction(TAX) && IsTransfer(TAX);
    assert Execute(st, TAX, mode) == Ok(WithoutOperand(st, TAX));
  }

  /** ADC runs the add handler. */
  lemma RoutesAdd(st: CPUState, mode: Mode)
    ensures Execute(st, ADC, mode) == AddWithCarry(st, mode)
  {
    assert TakesOperand(ADC);
    assert Execute(st, ADC, mode) == WithOperand(st, ADC, mode);
  }

  /** BEQ runs the branch handler and cannot raise. */
  lemma RoutesBranch(st: CPUState, mode: Mode)
    ensures Execute(st, BEQ, mode) == Ok(Branch(st, BEQ))
  {
    assert !TakesOperand(BEQ) && !IsIndexStep(BEQ) && !IsFlagInstruction(BEQ) && !IsTransfer(BEQ) && IsBranch(BEQ);
    assert Execute(st, BEQ, mode) == Ok(WithoutOperand(st, BEQ));
  }

  /**
   * A taken BEQ with offset 0xFE lands back on the branch itself: the
   * program spins on one instruction.
   */
  lemma {:induction false} BranchToItself(st: CPUState)
    requires st.initialized && st.status.zero
    requires st.mem[st.pc] == 0xF0 && st.mem[(st.pc + 1) % MemorySize] == 0xFE
    ensures EmulateCycle(st).Ok?
    ensures EmulateCycle(st).value.pc == st.pc
  {
    OpcodeF0();
    Dispatched(st, BEQ, Implied);
    RoutesBranch(st.(opcode := 0xF0), Implied);
    BranchOntoItself(st, BEQ, 0xF0);
  }

  /** The ADC handler on `#$01` with A = 0xFF and the carry set, whatever opcode is recorded. */
  lemma {:induction false} AddOneWithCarry(st: CPUState, op: Byte)
    requires st.pc + 1 < MemorySize && st.mem[st.pc + 1] == 0x01
    requires st.a == 0xFF && st.status.carry
    ensures var r := AddWithCarry(st.(opcode := op), Immediate);
      && r.Ok? && r.value.a == 1 && r.value.status.carry
      && !r.value.status.zero && !r.value.status.negative && !r.value.status.overflow
  {
    var fetched := st.(opcode := op);
    assert GetMemoryAddress(fetched, Immediate).value.addr == st.pc + 1;
  }

  /**
   * ADC #$01 with A = 0xFF and the carry set: 0xFF + 1 + 1 wraps A round
   * to 1, the carry comes out set, and Z, N and V are clear.
   */
  lemma {:induction false} AddCarriesOut(st: CPUState)
    requires st.initialized && st.pc + 1 < MemorySize
    requires st.mem[st.pc] == 0x69 && st.mem[st.pc + 1] == 0x01
    requires st.a == 0xFF && st.status.carry
    ensures EmulateCycle(st).Ok?
    ensures var r := EmulateCycle(st).value;
      && r.a == 1 && r.status.carry
      && !r.status.zero && !r.status.negative && !r.status.overflow
  {
    Opcode69();
    Dispatched(st, ADC, Immediate);
    RoutesAdd(st.(opcode := 0x69), Immediate);
    AddOneWithCarry(st, 0x69);
  }

  /**
   * The LDA handler on `#v`, whatever opcode is recorded: A holds v, Z and
   * N report it, PC is past the operand and memory is untouched.
   */
  lemma {:induction false} LoadsImmediate(st: CPUState, op: Byte)
    requires st.pc + 1 < MemorySize
    ensures var r := Load(st.(opcode := op), LDA, Immediate);
      && r.Ok? && r.value.a == st.mem[st.pc + 1] && ReportsZN(r.value.status, r.value.a)
      && r.value.pc == (st.pc + 2) % MemorySize && r.value.mem == st.mem && r.value.initialized == st.initialized
  {
    var fetched := st.(opcode := op);
    assert GetMemoryAddress(fetched, Immediate).value.addr == st.pc + 1;
  }

  /** The TAX handler: X takes A, Z and N report it, and A is kept. */
  lemma {:induction false} TransfersAX(st: CPUState)
    ensures var r := Transfer(st, TAX);
      r.x == st.a && r.a == st.a && ReportsZN(r.status, st.a)
  {
  }

  /** One step of LDA #5 from a state holding it at PC. */
  lemma {:induction false} LoadFiveStep(st: CPUState)
    requires st.initialized && st.pc + 1 < MemorySize
    requires st.mem[st.pc] == 0xA9 && st.mem[st.pc + 1] == 5
    ensures var r := EmulateCycle(st);
      && r.Ok? && r.value.a == 5 && r.value.pc == (st.pc + 2) % MemorySize && r.value.mem == st.mem && r.value.initialized
  {
    OpcodeA9();
    Dispatched(st, LDA, Immediate);
    RoutesLoad(st.(opcode := 0xA9), Immediate);
    LoadsImmediate(st, 0xA9);
  }

  /** One step of TAX from a state holding it at PC. */
  lemma {:induction false} TransferStep(st: CPUState)
    requires st.initialized && st.mem[st.pc] == 0xAA
    ensures var r := EmulateCycle(st);
      && r.Ok? && r.value.x == st.a && r.value.a == st.a && ReportsZN(r.value.status, st.a)
  {
    OpcodeAA();
    Dispatched(st, TAX, Implied);
    RoutesTransfer(st.(opcode := 0xAA), Implied);
    TransfersAX(st.(opcode := 0xAA));
  }

  /** An address below 0x10000 is its own value modulo 65536. */
  lemma NoWrap(n: int)
    requires 0 <= n < MemorySize
    ensures n % MemorySize == n
  {
  }

  /** LDA #5 followed by TAX: A and X both hold 5, and Z and N are clear. */
  lemma {:induction false} LoadThenTransfer(st: CPUState)
    requires st.initialized && st.pc + 2 < MemorySize
    requires st.mem[st.pc] == 0xA9 && st.mem[st.pc + 1] == 5 && st.mem[st.pc + 2] == 0xAA
    ensures EmulateCycle(st).Ok?
    ensures var r := EmulateCycle(EmulateCycle(st).value);
      && r.Ok? && r.value.a == 5 && r.value.x == 5
      && !r.value.status.zero && !r.value.status.negative
  {
    LoadFiveStep(st);
    NoWrap(st.pc + 2);
    TransferStep(EmulateCycle(st).value);
  }
}
