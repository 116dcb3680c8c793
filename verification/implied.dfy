/**
 * The one-byte implied-mode handlers of 6502EMU/CPU.cs: the flag
 * instructions, the register transfers, the index increments and
 * decrements, the stack pushes and pulls, and NOP. Every one of them moves
 * PC by one (modulo 65536); all but NOP also store a cycle count.
 */
module Implied {
  import opened Bits
  import opened Machine
  import opened Flags
  import opened Stack

  predicate IsFlagInstruction(i: Instr)
  {
    i == SEC || i == CLC || i == SED || i == CLD || i == SEI || i == CLI || i == CLV
  }

  /** The flag a flag instruction writes. */
  function Written(i: Instr): Flag
    requires IsFlagInstruction(i)
  {
    match i
    case SEC | CLC => Carry
    case SED | CLD => Decimal
    case SEI | CLI => Interrupt
    case _ => Overflow
  }

  /** The value a flag instruction writes: set for SEC, SED, SEI; clear otherwise. */
  function WrittenValue(i: Instr): bool
    requires IsFlagInstruction(i)
  {
    i == SEC || i == SED || i == SEI
  }

  /**
   * SEC, CLC, SED, CLD, SEI, CLI, CLV: one flag takes its value and every
   * other status bit stays; 2 cycles.
   */
  function FlagInstruction(st: CPUState, i: Instr): (r: CPUState)
    requires IsFlagInstruction(i)
    ensures IsSet(r.status, Written(i)) == WrittenValue(i)
    ensures r.status == SetFlag(st.status, Written(i), WrittenValue(i))
    ensures r == st.(status := r.status, pc := (st.pc + 1) % MemorySize, cycles := 2)
  {
    var p := SetFlag(st.status, Written(i), WrittenValue(i));
    st.(status := p, cycles := 2, pc := ToWord(st.pc + 1))
  }

  predicate IsTransfer(i: Instr)
  {
    i == TAX || i == TXA || i == TAY || i == TYA || i == TSX || i == TXS
  }

  /** The register a transfer copies from. */
  function From(i: Instr): Register
    requires IsTransfer(i)
  {
    if i == TAX || i == TAY then A
    else if i == TXA || i == TXS then X
    else if i == TYA then Y
    else S
  }

  /** The register a transfer copies into. */
  function Into(i: Instr): Register
    requires IsTransfer(i)
  {
    if i == TXA || i == TYA then A
    else if i == TAX || i == TSX then X
    else if i == TAY then Y
    else S
  }

  /**
   * The body every transfer shares: the source register's byte lands in the
   * destination register and, when `report` holds, in Z and N; PC moves by
   * one and the cost is 2 cycles.
   */
  function CopyRegister(st: CPUState, from: Register, into: Register, report: bool): (r: CPUState)
    ensures r.Get(into) == st.Get(from)
    ensures report ==> ReportsZN(r.status, st.Get(from))
    ensures !report ==> r.status == st.status
    ensures r.status == st.status.(zero := r.status.zero, negative := r.status.negative)
    ensures r == st.Set(into, st.Get(from)).(status := r.status, pc := (st.pc + 1) % MemorySize, cycles := 2)
  {
    var v := st.Get(from);
    var moved := st.Set(into, v);
    assert moved.Get(into) == v;
    var p := if report then GeneralFlagHelper(st.status, v) else st.status;
    moved.(status := p, cycles := 2, pc := ToWord(st.pc + 1))
  }

  /**
   * TAX, TXA, TAY, TYA, TSX, TXS: copy one register into another. All but
   * TXS report the copied byte in Z and N.
   */
  function Transfer(st: CPUState, i: Instr): CPUState
    requires IsTransfer(i)
  {
    CopyRegister(st, From(i), Into(i), i != TXS)
  }

  predicate IsIndexStep(i: Instr)
  {
    i == INX || i == INY || i == DEX || i == DEY
  }

  /** The index register an increment or decrement works on. */
  function Index(i: Instr): Register
    requires IsIndexStep(i)
  {
    if i == INX || i == DEX then X else Y
  }

  /**
   * The body INX, INY, DEX and DEY share: the register moves by one modulo
   * 256 (the `byte` `++` and `--` wrap) and is reported in Z and N; PC moves
   * by one and the cost is 2 cycles.
   */
  function StepIndex(st: CPUState, reg: Register, up: bool): (r: CPUState)
    ensures r.Get(reg) == if up then (st.Get(reg) + 1) % 0x100 else (st.Get(reg) - 1) % 0x100
    ensures ReportsZN(r.status, r.Get(reg))
    ensures r.status == st.status.(zero := r.status.zero, negative := r.status.negative)
    ensures r == st.Set(reg, r.Get(reg)).(status := r.status, pc := (st.pc + 1) % MemorySize, cycles := 2)
  {
    var v := st.Get(reg);
    var w := if up then ToByte(v as int + 1) else ToByte(v as int - 1);
    var stepped := st.Set(reg, w);
    assert stepped.Get(reg) == w;
    stepped.(status := GeneralFlagHelper(st.status, w), cycles := 2, pc := ToWord(st.pc + 1))
  }

  /** INX, INY, DEX, DEY. */
  function IndexStep(st: CPUState, i: Instr): CPUState
    requires IsIndexStep(i)
  {
    StepIndex(st, Index(i), i == INX || i == INY)
  }

  /** PHA: push A; 3 cycles. */
  function PushAccumulator(st: CPUState): (r: CPUState)
    ensures r.mem == st.mem[StackAddress(st.s) := st.a]
    ensures r.s == (st.s - 1) % 0x100
    ensures r == st.(mem := r.mem, s := r.s, pc := (st.pc + 1) % MemorySize, cycles := 3)
  {
    PushToStack(st, st.a).(cycles := 3, pc := ToWord(st.pc + 1))
  }

  /**
   * PHP: push the status ORed with 0x30, i.e. with B (bit 4) and the
   * reserved bit (bit 5) forced to 1; 3 cycles.
   */
  function PushStatus(st: CPUState): (r: CPUState)
    ensures ByteStatus(r.mem[StackAddress(st.s)]) == st.status.(softwareInterrupt := true, reserved := true)
    ensures r.mem == st.mem[StackAddress(st.s) := r.mem[StackAddress(st.s)]]
    ensures r.s == (st.s - 1) % 0x100
    ensures r == st.(mem := r.mem, s := r.s, pc := (st.pc + 1) % MemorySize, cycles := 3)
  {
    var p := st.status.(softwareInterrupt := true, reserved := true);
    StatusByteRoundTrip(p);
    var pushed := PushToStack(st, StatusByte(p));
    assert ByteStatus(pushed.mem[StackAddress(st.s)]) == p;
    pushed.(cycles := 3, pc := ToWord(st.pc + 1))
  }

  /** PLA: pull into A and report it in Z and N; 4 cycles. */
  function PullAccumulator(st: CPUState): (r: CPUState)
    ensures r.s == (st.s + 1) % 0x100
    ensures r.a == st.mem[StackAddress(r.s)]
    ensures ReportsZN(r.status, r.a)
    ensures r.status == st.status.(zero := r.status.zero, negative := r.status.negative)
    ensures r == st.(a := r.a, s := r.s, status := r.status, pc := (st.pc + 1) % MemorySize, cycles := 4)
  {
    var (v, pulled) := PullFromStack(st);
    pulled.(a := v, status := GeneralFlagHelper(pulled.status, v), cycles := 4, pc := ToWord(st.pc + 1))
  }

  /**
   * PLP: pull the status ORed with 0x20, i.e. with the reserved bit forced
   * to 1; every other flag, B included, is the matching bit of the pulled
   * byte. 4 cycles.
   */
  function PullStatus(st: CPUState): (r: CPUState)
    ensures r.s == (st.s + 1) % 0x100
    ensures IsSet(r.status, Reserved)
    ensures forall f :: f != Reserved ==>
      IsSet(r.status, f) == ToBits(st.mem[StackAddress(r.s)], ByteWidth)[Position(f)]
    ensures r == st.(s := r.s, status := r.status, pc := (st.pc + 1) % MemorySize, cycles := 4)
  {
    var (v, pulled) := PullFromStack(st);
    var p := ByteStatus(v);
    assert forall f :: StatusBits(p)[Position(f)] == IsSet(p, f) by {
      forall f { FlagIsBit(p, f); }
    }
    pulled.(status := p.(reserved := true), cycles := 4, pc := ToWord(st.pc + 1))
  }

  /** NOP: only PC moves; the cycle count is left as the previous instruction set it. */
  function NoOperation(st: CPUState): (r: CPUState)
    ensures r == st.(pc := (st.pc + 1) % MemorySize)
  {
    st.(pc := ToWord(st.pc + 1))
  }

  /**
   * Stepping an index register one way and then the other restores it,
   * across the wrap between 0xFF and 0x00 too. Only the flags and the
   * cycle count may differ from where the pair started, and PC has moved
   * by two.
   */
  lemma {:induction false} StepIndexUndone(st: CPUState, reg: Register, up: bool)
    requires reg == X || reg == Y
    ensures var back := StepIndex(StepIndex(st, reg, up), reg, !up);
      && back.pc == (st.pc + 2) % MemorySize
      && back == st.(status := back.status, pc := back.pc, cycles := 2)
  {
    var back := StepIndex(StepIndex(st, reg, up), reg, !up);
    StepBack(st.Get(reg));
    assert back.Get(reg) == st.Get(reg);
    WrapThenAdd(st.pc + 1, 1);
  }

  /** DEX undoes INX and DEY undoes INY, and the other way round. */
  lemma {:induction false} IndexStepUndone(st: CPUState, i: Instr, j: Instr)
    requires IsIndexStep(i) && IsIndexStep(j)
    requires Index(i) == Index(j) && (i == INX || i == INY) != (j == INX || j == INY)
    ensures var back := IndexStep(IndexStep(st, i), j);
      && back.pc == (st.pc + 2) % MemorySize
      && back == st.(status := back.status, pc := back.pc, cycles := 2)
  {
    if i == INX {
      StepIndexUndone(st, X, true);
    } else if i == DEX {
      StepIndexUndone(st, X, false);
    } else if i == INY {
      StepIndexUndone(st, Y, true);
    } else {
      StepIndexUndone(st, Y, false);
    }
  }

  /** Writing a register's own byte back into it changes nothing. */
  lemma SetSame(st: CPUState, reg: Register)
    ensures st.Set(reg, st.Get(reg)) == st
  {
  }

  /**
   * Copying a register into another and straight back: both end up
   * holding the source byte, and when either copy reports, Z and N
   * describe it. Only PC (by two) and the cycle count change besides.
   */
  lemma {:induction false} CopyBack(st: CPUState, from: Register, into: Register, first: bool, second: bool)
    requires from != into && (first || second)
    ensures var back := CopyRegister(CopyRegister(st, from, into, first), into, from, second);
      && back.Get(from) == st.Get(from)
      && back.Get(into) == st.Get(from)
      && ReportsZN(back.status, st.Get(from))
      && back.status == st.status.(zero := back.status.zero, negative := back.status.negative)
      && back == st.Set(into, st.Get(from)).(status := back.status, pc := (st.pc + 2) % MemorySize, cycles := 2)
  {
    var v := st.Get(from);
    var mid := CopyRegister(st, from, into, first);
    var back := CopyRegister(mid, into, from, second);
    assert mid.Get(into) == v && mid.Get(from) == v;
    SetSame(mid, from);
    WrapThenAdd(st.pc + 1, 1);
  }

  /** The transfer that undoes a transfer: TAX and TXA, TAY and TYA, TSX and TXS. */
  function Reverse(i: Instr): (j: Instr)
    requires IsTransfer(i)
    ensures IsTransfer(j)
  {
    if i == TAX then TXA
    else if i == TXA then TAX
    else if i == TAY then TYA
    else if i == TYA then TAY
    else if i == TSX then TXS
    else TSX
  }

  /** A transfer and its reverse move between two different registers, and at most one of them is TXS. */
  lemma ReverseReports(i: Instr)
    requires IsTransfer(i)
    ensures From(Reverse(i)) == Into(i) && Into(Reverse(i)) == From(i)
    ensures From(i) != Into(i)
    ensures i != TXS || Reverse(i) != TXS
  {
    if i == TAX {
    } else if i == TXA {
    } else if i == TAY {
    } else if i == TYA {
    } else if i == TSX {
    } else {
      assert i == TXS;
    }
  }

  /**
   * A transfer followed by its reverse, such as TAX then TXA or TXS then
   * TSX: the source register keeps its byte, the destination holds it
   * too, and Z and N report it (one of the two always reports). Nothing
   * else changes but PC, which moves by two, and the cycle count.
   */
  lemma {:induction false} TransferRoundTrip(st: CPUState, i: Instr)
    requires IsTransfer(i)
    ensures var from, into, v := From(i), Into(i), st.Get(From(i));
      var back := Transfer(Transfer(st, i), Reverse(i));
      && back.Get(from) == v
      && back.Get(into) == v
      && ReportsZN(back.status, v)
      && back.status == st.status.(zero := back.status.zero, negative := back.status.negative)
      && back == st.Set(into, v).(status := back.status, pc := (st.pc + 2) % MemorySize, cycles := 2)
  {
    var j := Reverse(i);
    var from, into := From(i), Into(i);
    ReverseReports(i);
    var mid := Transfer(st, i);
    assert mid == CopyRegister(st, from, into, i != TXS);
    assert Transfer(mid, j) == CopyRegister(mid, into, from, j != TXS);
    CopyBack(st, from, into, i != TXS, j != TXS);
  }
}
