/**
 * The shift and rotate handlers of 6502EMU/CPU.cs: ASL, LSR, ROL and ROR,
 * each with an Accumulator form that moves PC by one and costs 2 cycles,
 * and a memory form that resolves an operand and ends in a mode switch.
 *
 * The code differs from the datasheet here:
 * - The carry goes through the byte-valued setter, which can clear C but
 *   never set it.
 * - LSR never touches C.
 * - ROL hands the setter the seven low bits of the operand, so it raises
 *   unless they are 0 or 1.
 * - Both rotates AND the shifted value with a mask that is always 0, so
 *   whenever they complete they leave 0 behind.
 */
module Shifts {
  import opened Machine
  import opened Flags
  import opened Addressing
  import opened Timing

  /** The byte-valued carry setter given a bit: 0 clears C, 1 keeps it. */
  function CarryFromBit(p: Status, bit: Byte): (q: Status)
    requires bit <= 1
    ensures IsSet(q, Carry) <==> IsSet(p, Carry) && bit == 1
    ensures q == p.(carry := q.carry)
  {
    if bit == 0 then SetFlag(p, Carry, false) else p
  }

  /** The status an ASL leaves: C kept only if bit 7 was set, Z and N from the result. */
  function ShiftLeftStatus(p: Status, v: Byte): (q: Status)
    ensures IsSet(q, Carry) <==> IsSet(p, Carry) && v >= 0x80
    ensures ReportsZN(q, (v as int * 2) % 0x100)
    ensures q == p.(carry := q.carry, zero := q.zero, negative := q.negative)
  {
    GeneralFlagHelper(CarryFromBit(p, v / 0x80), ToByte(v as int * 2))
  }

  /**
   * ASL. The operand moves one bit left modulo 256; bit 7 goes to the carry
   * setter, so C survives only when that bit was 1. Z and N describe the
   * result.
   */
  function ShiftLeft(st: CPUState, mode: Mode): (r: Result<CPUState>)
    ensures Continues(st, r)
    ensures KeepsReserved(st, r)
    ensures mode == Accumulator ==>
      && r.Ok?
      && r.value.a == (st.a as int * 2) % 0x100
      && r.value.status == ShiftLeftStatus(st.status, st.a)
      && r.value == st.(a := r.value.a, status := r.value.status, pc := (st.pc + 1) % MemorySize, cycles := 2)
    ensures mode != Accumulator ==> (r.Ok? <==> Resolvable(st, mode) && CycleCost(ASL, mode).Some?)
    ensures mode != Accumulator && !Resolvable(st, mode) ==> r.Err? && r.fault == GetMemoryAddress(st, mode).fault
    ensures mode != Accumulator && Resolvable(st, mode) && r.Err? ==>
      var op := GetMemoryAddress(st, mode).value;
      var m := st.mem[op.addr];
      r == Err(InvalidMode(ASL, mode), op.st.Write(op.addr, (m as int * 2) % 0x100).(status := CarryFromBit(st.status, m / 0x80)))
    ensures mode != Accumulator && r.Ok? ==>
      var op := GetMemoryAddress(st, mode).value;
      var m := st.mem[op.addr];
      && r.value.mem == st.mem[op.addr := (m as int * 2) % 0x100]
      && r.value.status == ShiftLeftStatus(st.status, m)
      && r.value == op.st.(mem := r.value.mem, status := r.value.status, cycles := CycleCost(ASL, mode).value)
  {
    if mode == Accumulator then
      var carried := SetCarryFromByte(st, st.a / 0x80).value;
      var v := ToByte(st.a as int * 2);
      Ok(carried.(a := v, pc := ToWord(st.pc + 1), cycles := 2, status := GeneralFlagHelper(carried.status, v)))
    else
      var op :- GetMemoryAddress(st, mode);
      var m := st.mem[op.addr];
      var carried := SetCarryFromByte(op.st, m / 0x80).value;
      var v := ToByte(m as int * 2);
      var done :- SetCycles(carried.Write(op.addr, v), ASL, mode);
      Ok(done.(status := GeneralFlagHelper(done.status, v)))
  }

  /** The status an LSR leaves: N cleared, Z from the result, C and the rest kept. */
  function ShiftRightStatus(p: Status, v: Byte): (q: Status)
    ensures !IsSet(q, Negative)
    ensures IsSet(q, Zero) <==> v / 2 == 0
    ensures q == p.(zero := q.zero, negative := q.negative)
  {
    SetFlag(SetFlag(p, Negative, false), Zero, v / 2 == 0)
  }

  /**
   * LSR. The operand moves one bit right (the explicit `& 0x7F` changes
   * nothing, bit 7 is already 0); N is cleared, Z describes the result, and
   * C is never written.
   */
  function ShiftRight(st: CPUState, mode: Mode): (r: Result<CPUState>)
    ensures Continues(st, r)
    ensures KeepsReserved(st, r)
    ensures mode == Accumulator ==>
      && r.Ok?
      && r.value.a == st.a / 2
      && r.value.status == ShiftRightStatus(st.status, st.a)
      && r.value == st.(a := r.value.a, status := r.value.status, pc := (st.pc + 1) % MemorySize, cycles := 2)
    ensures mode != Accumulator ==> (r.Ok? <==> Resolvable(st, mode) && CycleCost(LSR, mode).Some?)
    ensures mode != Accumulator && !Resolvable(st, mode) ==> r.Err? && r.fault == GetMemoryAddress(st, mode).fault
    ensures mode != Accumulator && Resolvable(st, mode) && r.Err? ==>
      var op := GetMemoryAddress(st, mode).value;
      var m := st.mem[op.addr];
      r == Err(InvalidMode(LSR, mode), op.st.Write(op.addr, m / 2))
    ensures mode != Accumulator && r.Ok? ==>
      var op := GetMemoryAddress(st, mode).value;
      var m := st.mem[op.addr];
      && r.value.mem == st.mem[op.addr := m / 2]
      && r.value.status == ShiftRightStatus(st.status, m)
      && r.value == op.st.(mem := r.value.mem, status := r.value.status, cycles := CycleCost(LSR, mode).value)
  {
    if mode == Accumulator then
      HalfMask(st.a);
      var v := BitAnd(ToByte(st.a / 2), 0x7F);
      Ok(st.(a := v, pc := ToWord(st.pc + 1), cycles := 2, status := ShiftRightStatus(st.status, st.a)))
    else
      var op :- GetMemoryAddress(st, mode);
      var m := st.mem[op.addr];
      HalfMask(m);
      var v := BitAnd(ToByte(m / 2), 0x7F);
      var done :- SetCycles(op.st.Write(op.addr, v), LSR, mode);
      Ok(done.(status := ShiftRightStatus(st.status, m)))
  }

  /** The status a completed ROL leaves: C kept only if the low seven bits were 1, Z set, N clear. */
  function RotateLeftStatus(p: Status, v: Byte): (q: Status)
    requires v % 0x80 <= 1
    ensures IsSet(q, Carry) <==> IsSet(p, Carry) && v % 0x80 == 1
    ensures IsSet(q, Zero) && !IsSet(q, Negative)
    ensures q == p.(carry := q.carry, zero := q.zero, negative := q.negative)
  {
    GeneralFlagHelper(CarryFromBit(p, v % 0x80), 0)
  }

  /** `(byte)(v << 1) & carryBit`: the shifted byte is even and the carry is 0 or 1. */
  lemma RotateLeftMaskIsZero(v: Byte, carry: Byte)
    requires carry <= 1
    ensures BitAnd(ToByte(v as int * 2), carry) == 0
  {
    if carry == 1 {
      var w := ToByte(v as int * 2);
      assert w == v as int * 2 || w == v as int * 2 - 0x100;
      LowBitMask(w);
    } else {
      ZeroMask(ToByte(v as int * 2));
    }
  }

  /**
   * ROL. The carry setter receives the operand AND 0x7F, so any operand
   * whose low seven bits exceed 1 raises FlagOutOfRange before anything is
   * written. Otherwise the shifted operand is ANDed with the old carry and
   * becomes 0, Z is set, N cleared, and C survives only when the low bits
   * were exactly 1. In the memory form the flags are written before the
   * mode switch.
   */
  function RotateLeft(st: CPUState, mode: Mode): (r: Result<CPUState>)
    ensures Continues(st, r)
    ensures KeepsReserved(st, r)
    ensures mode == Accumulator ==> (r.Ok? <==> st.a % 0x80 <= 1)
    ensures mode == Accumulator && r.Err? ==> r == Err(FlagOutOfRange(Carry, st.a % 0x80), st)
    ensures mode == Accumulator && r.Ok? ==>
      && r.value.a == 0
      && r.value.status == RotateLeftStatus(st.status, st.a)
      && r.value == st.(a := 0, status := r.value.status, pc := (st.pc + 1) % MemorySize, cycles := 2)
    ensures mode != Accumulator ==>
      (r.Ok? <==> Resolvable(st, mode)
                  && st.mem[GetMemoryAddress(st, mode).value.addr] % 0x80 <= 1
                  && CycleCost(ROL, mode).Some?)
    ensures mode != Accumulator && !Resolvable(st, mode) ==> r.Err? && r.fault == GetMemoryAddress(st, mode).fault
    ensures mode != Accumulator && Resolvable(st, mode) ==>
      var op := GetMemoryAddress(st, mode).value;
      var m := st.mem[op.addr];
      && (m % 0x80 > 1 ==> r == Err(FlagOutOfRange(Carry, m % 0x80), op.st))
      && (m % 0x80 <= 1 && r.Err? ==> r.fault == InvalidMode(ROL, mode))
    ensures mode != Accumulator && r.Ok? ==>
      var op := GetMemoryAddress(st, mode).value;
      var m := st.mem[op.addr];
      && r.value.mem == st.mem[op.addr := 0]
      && r.value.status == RotateLeftStatus(st.status, m)
      && r.value == op.st.(mem := r.value.mem, status := r.value.status, cycles := CycleCost(ROL, mode).value)
  {
    if mode == Accumulator then
      var carry := GetFlag(st.status, Carry);
      LowSevenBitsMask(st.a);
      var carried :- SetCarryFromByte(st, BitAnd(st.a, 0x7F));
      RotateLeftMaskIsZero(st.a, carry);
      var v := BitAnd(ToByte(st.a as int * 2), carry);
      Ok(carried.(a := v, status := GeneralFlagHelper(carried.status, v), pc := ToWord(st.pc + 1), cycles := 2))
    else
      var op :- GetMemoryAddress(st, mode);
      var m := st.mem[op.addr];
      var carry := GetFlag(st.status, Carry);
      LowSevenBitsMask(m);
      var carried :- SetCarryFromByte(op.st, BitAnd(m, 0x7F));
      RotateLeftMaskIsZero(m, carry);
      var v := BitAnd(ToByte(m as int * 2), carry);
      var written := carried.Write(op.addr, v);
      SetCycles(written.(status := GeneralFlagHelper(written.status, v)), ROL, mode)
  }

  /** `0x7F & (carryBit << 7)`: the carry lands on bit 7, which the mask removes. */
  lemma RotateRightMaskIsZero(v: Byte, carry: Byte)
    requires carry <= 1
    ensures BitAnd(0x7F, carry * 0x80) == 0
    ensures BitAnd(v, BitAnd(0x7F, carry * 0x80)) == 0
  {
    if carry == 1 {
      SignBitMask(0x7F);
    } else {
      ZeroMask(0x7F);
    }
    ZeroMask(v);
  }

  /** The status ROR's Accumulator form leaves: C kept only if bit 0 was set, Z set, N clear. */
  function RotateRightStatus(p: Status, v: Byte): (q: Status)
    ensures IsSet(q, Carry) <==> IsSet(p, Carry) && v % 2 == 1
    ensures IsSet(q, Zero) && !IsSet(q, Negative)
    ensures q == p.(carry := q.carry, zero := q.zero, negative := q.negative)
  {
    GeneralFlagHelper(CarryFromBit(p, v % 2), 0)
  }

  /**
   * ROR. Bit 0 of the operand goes to the carry setter (C survives only if
   * it was 1); the shifted operand is ANDed with a mask that is always 0,
   * so the result is 0. The Accumulator form then sets Z and clears N; the
   * memory form writes no flag besides C.
   */
  function RotateRight(st: CPUState, mode: Mode): (r: Result<CPUState>)
    ensures Continues(st, r)
    ensures KeepsReserved(st, r)
    ensures mode == Accumulator ==>
      && r.Ok?
      && r.value.a == 0
      && r.value.status == RotateRightStatus(st.status, st.a)
      && r.value == st.(a := 0, status := r.value.status, pc := (st.pc + 1) % MemorySize, cycles := 2)
    ensures mode != Accumulator ==> (r.Ok? <==> Resolvable(st, mode) && CycleCost(ROR, mode).Some?)
    ensures mode != Accumulator && !Resolvable(st, mode) ==> r.Err? && r.fault == GetMemoryAddress(st, mode).fault
    ensures mode != Accumulator && Resolvable(st, mode) && r.Err? ==>
      var op := GetMemoryAddress(st, mode).value;
      var m := st.mem[op.addr];
      r == Err(InvalidMode(ROR, mode), op.st.Write(op.addr, 0).(status := CarryFromBit(st.status, m % 2)))
    ensures mode != Accumulator && r.Ok? ==>
      var op := GetMemoryAddress(st, mode).value;
      var m := st.mem[op.addr];
      && r.value.mem == st.mem[op.addr := 0]
      && r.value.status == CarryFromBit(st.status, m % 2)
      && r.value == op.st.(mem := r.value.mem, status := r.value.status, cycles := CycleCost(ROR, mode).value)
  {
    if mode == Accumulator then
      var carry := GetFlag(st.status, Carry);
      LowBitMask(st.a);
      var carried := SetCarryFromByte(st, BitAnd(st.a, 0x01)).value;
      RotateRightMaskIsZero(ToByte(st.a / 2), carry);
      var v := BitAnd(ToByte(st.a / 2), BitAnd(0x7F, carry * 0x80));
      Ok(carried.(a := v, status := GeneralFlagHelper(carried.status, v), pc := ToWord(st.pc + 1), cycles := 2))
    else
      var op :- GetMemoryAddress(st, mode);
      var m := st.mem[op.addr];
      var carry := GetFlag(st.status, Carry);
      LowBitMask(m);
      var carried := SetCarryFromByte(op.st, BitAnd(m, 0x01)).value;
      RotateRightMaskIsZero(ToByte(m / 2), carry);
      var v := BitAnd(ToByte(m / 2), BitAnd(0x7F, carry * 0x80));
      SetCycles(carried.Write(op.addr, v), ROR, mode)
  }
}
