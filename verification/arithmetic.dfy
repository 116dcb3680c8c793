/**
 * The arithmetic handlers of 6502EMU/CPU.cs: ADC, SBC, the comparisons
 * CMP/CPX/CPY, and the memory increment and decrement INC and DEM.
 *
 * These follow the code, not the datasheet. ADC is a binary add with carry
 * in and carry out and a signed-overflow flag. SBC ignores the incoming
 * carry, never sets V, and can only clear C.
 */
module Arithmetic {
  import opened Bits
  import opened Machine
  import opened Flags
  import opened Addressing
  import opened Timing

  /** The 9-bit sum ADC forms: A, the operand and the incoming carry. */
  function Sum(p: Status, a: Byte, m: Byte): nat
  {
    a + m + GetFlag(p, Carry)
  }

  /** The byte ADC leaves in A: the sum less 0x100 when it overflows a byte. */
  function SumByte(p: Status, a: Byte, m: Byte): (v: Byte)
    ensures v + 0x100 * Bit(Sum(p, a, m) > 0xFF) == Sum(p, a, m)
  {
    var sum := Sum(p, a, m);
    if sum > 0xFF then sum - 0x100 else sum
  }

  /**
   * The C and V that ADC writes before its mode switch: C is the ninth bit
   * of the sum, V is set when A and the operand have the same sign and the
   * byte result has the other one. The handler computes V twice; the first
   * value is overwritten before anything reads it.
   */
  function CarryOverflow(p: Status, a: Byte, m: Byte): (q: Status)
    ensures q.carry <==> Sum(p, a, m) > 0xFF
    ensures q.overflow <==> (a >= 0x80) == (m >= 0x80) && (SumByte(p, a, m) >= 0x80) != (a >= 0x80)
    ensures q == p.(carry := q.carry, overflow := q.overflow)
  {
    var val := SumByte(p, a, m);
    SignBitXor(a, val);
    SignBitXor(a, m);
    SignBitMask(BitXor(a, val));
    SignBitMask(BitXor(a, m));
    var overflow := BitAnd(BitXor(a, val), 0x80) != 0 && BitAnd(BitXor(a, m), 0x80) == 0;
    SetFlag(SetFlag(p, Carry, Sum(p, a, m) > 0xFF), Overflow, overflow)
  }

  /**
   * ADC. The 9-bit sum of A, the operand and the carry is split into A and
   * the new carry; V reports signed overflow; Z and N describe the new A.
   * A, C and V are written before the mode switch runs.
   */
  function AddWithCarry(st: CPUState, mode: Mode): (r: Result<CPUState>)
    ensures Continues(st, r)
    ensures KeepsReserved(st, r)
    ensures r.Ok? <==> Resolvable(st, mode) && CycleCost(ADC, mode).Some?
    ensures !Resolvable(st, mode) ==> r.Err? && r.fault == GetMemoryAddress(st, mode).fault
    ensures Resolvable(st, mode) && r.Err? ==>
      var op := GetMemoryAddress(st, mode).value;
      var m := st.mem[op.addr];
      r == Err(InvalidMode(ADC, mode), op.st.(a := SumByte(st.status, st.a, m), status := CarryOverflow(st.status, st.a, m)))
    ensures r.Ok? ==>
      var op := GetMemoryAddress(st, mode).value;
      var m := st.mem[op.addr];
      && r.value.a + 0x100 * GetFlag(r.value.status, Carry) == st.a + m + GetFlag(st.status, Carry)
      && (IsSet(r.value.status, Overflow) <==>
            (st.a >= 0x80) == (m >= 0x80) && (r.value.a >= 0x80) != (st.a >= 0x80))
      && ReportsZN(r.value.status, r.value.a)
      && var q := r.value.status;
      && q == st.status.(carry := q.carry, zero := q.zero, overflow := q.overflow, negative := q.negative)
      && r.value.cycles == CycleCost(ADC, mode).value
      && r.value == op.st.(a := r.value.a, status := r.value.status, cycles := r.value.cycles)
  {
    var op :- GetMemoryAddress(st, mode);
    var m := st.mem[op.addr];
    var val := SumByte(st.status, st.a, m);
    var p := CarryOverflow(st.status, st.a, m);
    var done :- SetCycles(op.st.(a := val, status := p), ADC, mode);
    Ok(done.(status := GeneralFlagHelper(p, val)))
  }

  /**
   * SBC. A becomes A minus the operand modulo 256, whatever the carry. C is
   * cleared when the operand exceeds A and otherwise left as it was; V is
   * never written.
   */
  function SubtractWithCarry(st: CPUState, mode: Mode): (r: Result<CPUState>)
    ensures Continues(st, r)
    ensures KeepsReserved(st, r)
    ensures r.Ok? <==> Resolvable(st, mode) && CycleCost(SBC, mode).Some?
    ensures !Resolvable(st, mode) ==> r.Err? && r.fault == GetMemoryAddress(st, mode).fault
    ensures Resolvable(st, mode) && r.Err? ==>
      var op := GetMemoryAddress(st, mode).value;
      var m := st.mem[op.addr];
      r == Err(InvalidMode(SBC, mode), op.st.(a := ToByte(st.a - m), status := Borrow(st.status, st.a, m)))
    ensures r.Ok? ==>
      var op := GetMemoryAddress(st, mode).value;
      var m := st.mem[op.addr];
      && r.value.a == (st.a - m) % 0x100
      && (IsSet(r.value.status, Carry) <==> IsSet(st.status, Carry) && m <= st.a)
      && ReportsZN(r.value.status, r.value.a)
      && var q := r.value.status;
      && q == st.status.(carry := q.carry, zero := q.zero, negative := q.negative)
      && r.value.cycles == CycleCost(SBC, mode).value
      && r.value == op.st.(a := r.value.a, status := r.value.status, cycles := r.value.cycles)
  {
    var op :- GetMemoryAddress(st, mode);
    var m := st.mem[op.addr];
    var diff := ToByte(st.a - m);
    var done :- SetCycles(op.st.(status := Borrow(st.status, st.a, m), a := diff), SBC, mode);
    Ok(done.(status := SubtractStatus(st.status, st.a, m)))
  }

  /** SBCFlagHelper: an operand above A clears C; it never sets C and touches no other flag. */
  function Borrow(p: Status, a: Byte, m: Byte): (q: Status)
    ensures q == p.(carry := p.carry && m <= a)
  {
    if m > a then SetFlag(p, Carry, false) else p
  }

  /**
   * The status SBC leaves: SBCFlagHelper can only clear C, then Z and N
   * describe the difference; V and the other bits are kept.
   */
  function SubtractStatus(p: Status, a: Byte, m: Byte): (q: Status)
    ensures IsSet(q, Carry) <==> IsSet(p, Carry) && m <= a
    ensures ReportsZN(q, (a - m) % 0x100)
    ensures q == p.(carry := q.carry, zero := q.zero, negative := q.negative)
  {
    GeneralFlagHelper(Borrow(p, a, m), ToByte(a - m))
  }

  predicate IsCompare(i: Instr)
  {
    i == CMP || i == CPX || i == CPY
  }

  /** The register a comparison reads. */
  function Compared(i: Instr): Register
    requires IsCompare(i)
  {
    match i
    case CMP => A
    case CPX => X
    case _ => Y
  }

  /**
   * CMP, CPX, CPY: the register minus the operand is computed and thrown
   * away. C records "no borrow" (operand <= register), Z equality, and N
   * bit 7 of the byte difference. Registers and memory are untouched. C is
   * written before the mode switch, so an unknown mode raises with C set.
   */
  function Compare(st: CPUState, i: Instr, mode: Mode): (r: Result<CPUState>)
    requires IsCompare(i)
    ensures Continues(st, r)
    ensures KeepsReserved(st, r)
    ensures r.Ok? <==> Resolvable(st, mode) && CycleCost(i, mode).Some?
    ensures !Resolvable(st, mode) ==> r.Err? && r.fault == GetMemoryAddress(st, mode).fault
    ensures Resolvable(st, mode) && r.Err? ==>
      var op := GetMemoryAddress(st, mode).value;
      var m := st.mem[op.addr];
      r == Err(InvalidMode(i, mode), op.st.(status := st.status.(carry := m <= st.Get(Compared(i)))))
    ensures r.Ok? ==>
      var op := GetMemoryAddress(st, mode).value;
      var m := st.mem[op.addr];
      var v := st.Get(Compared(i));
      && (IsSet(r.value.status, Carry) <==> m <= v)
      && (IsSet(r.value.status, Zero) <==> m == v)
      && (IsSet(r.value.status, Negative) <==> (v - m) % 0x100 >= 0x80)
      && var q := r.value.status;
      && q == st.status.(carry := q.carry, zero := q.zero, negative := q.negative)
      && r.value.cycles == CycleCost(i, mode).value
      && r.value == op.st.(status := r.value.status, cycles := r.value.cycles)
  {
    var op :- GetMemoryAddress(st, mode);
    var m := st.mem[op.addr];
    var v := st.Get(Compared(i));
    var done :- SetCycles(op.st.(status := SetFlag(st.status, Carry, m <= v)), i, mode);
    Ok(done.(status := CompareStatus(st.status, v, m)))
  }

  /** The status a comparison leaves: C is "no borrow", Z equality, N bit 7 of the difference. */
  function CompareStatus(p: Status, v: Byte, m: Byte): (q: Status)
    ensures IsSet(q, Carry) <==> m <= v
    ensures IsSet(q, Zero) <==> m == v
    ensures IsSet(q, Negative) <==> (v - m) % 0x100 >= 0x80
    ensures q == p.(carry := q.carry, zero := q.zero, negative := q.negative)
  {
    GeneralFlagHelper(SetFlag(p, Carry, m <= v), ToByte(v - m))
  }

  predicate IsStepMemory(i: Instr)
  {
    i == INC || i == DEM
  }

  /** `memory[memLocation] += 1` and `-= 1` on a byte: one up or down, modulo 256. */
  function Stepped(i: Instr, m: Byte): Byte
    requires IsStepMemory(i)
  {
    if i == INC then ToByte(m as int + 1) else ToByte(m as int - 1)
  }

  /**
   * INC and DEM: the byte at the effective address moves by one modulo 256
   * and is reported in Z and N. No register changes. The byte is written
   * before the mode switch runs.
   */
  function StepMemory(st: CPUState, i: Instr, mode: Mode): (r: Result<CPUState>)
    requires IsStepMemory(i)
    ensures Continues(st, r)
    ensures KeepsReserved(st, r)
    ensures r.Ok? <==> Resolvable(st, mode) && CycleCost(i, mode).Some?
    ensures !Resolvable(st, mode) ==> r.Err? && r.fault == GetMemoryAddress(st, mode).fault
    ensures Resolvable(st, mode) && r.Err? ==>
      var op := GetMemoryAddress(st, mode).value;
      r == Err(InvalidMode(i, mode), op.st.Write(op.addr, Stepped(i, st.mem[op.addr])))
    ensures r.Ok? ==>
      var op := GetMemoryAddress(st, mode).value;
      var m := st.mem[op.addr];
      var v := Stepped(i, m);
      && r.value.mem == st.mem[op.addr := v]
      && ReportsZN(r.value.status, v)
      && r.value.status == st.status.(zero := r.value.status.zero, negative := r.value.status.negative)
      && r.value.cycles == CycleCost(i, mode).value
      && r.value == op.st.(mem := r.value.mem, status := r.value.status, cycles := r.value.cycles)
  {
    var op :- GetMemoryAddress(st, mode);
    var m := st.mem[op.addr];
    var v := Stepped(i, m);
    var done :- SetCycles(op.st.Write(op.addr, v), i, mode);
    Ok(done.(status := GeneralFlagHelper(done.status, v)))
  }

  /** DEM undoes INC and INC undoes DEM, across the wrap at 0xFF and 0x00 too. */
  lemma SteppedBack(m: Byte)
    ensures Stepped(DEM, Stepped(INC, m)) == m
    ensures Stepped(INC, Stepped(DEM, m)) == m
  {
    StepBack(m);
  }

  /** Writing a byte and then writing back the old one leaves memory as it was. */
  lemma RewriteRestores(mem: Memory, addr: Word, v: Byte)
    ensures mem[addr := v][addr := mem[addr]] == mem
  {
  }

  /**
   * INC followed by DEM on the same address, possibly reached through
   * another mode, leaves memory as it was; so does DEM followed by INC.
   */
  lemma {:induction false} StepMemoryUndone(st: CPUState, i: Instr, mode: Mode, later: CPUState, j: Instr, laterMode: Mode)
    requires (i == INC && j == DEM) || (i == DEM && j == INC)
    requires StepMemory(st, i, mode).Ok?
    requires later.mem == StepMemory(st, i, mode).value.mem
    requires StepMemory(later, j, laterMode).Ok?
    requires GetMemoryAddress(later, laterMode).value.addr == GetMemoryAddress(st, mode).value.addr
    ensures StepMemory(later, j, laterMode).value.mem == st.mem
  {
    var addr := GetMemoryAddress(st, mode).value.addr;
    var m := st.mem[addr];
    SteppedBack(m);
    assert later.mem == st.mem[addr := Stepped(i, m)];
    RewriteRestores(st.mem, addr, Stepped(i, m));
  }

  /**
   * SBC leaves Z and N as a comparison of A with the operand would, and
   * its C is the comparison's "no borrow" ANDed with the incoming carry:
   * the borrow can clear C but never set it.
   */
  lemma SubtractIsGuardedCompare(p: Status, a: Byte, m: Byte)
    ensures SubtractStatus(p, a, m) == CompareStatus(p, a, m).(carry := p.carry && m <= a)
  {
  }
}

