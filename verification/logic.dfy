/**
 * The bitwise handlers of 6502EMU/CPU.cs: AND, ORA and EOR combine the
 * operand into A, and BIT tests the operand against A.
 */
module Logic {
  import opened Bits
  import opened Machine
  import opened Flags
  import opened Addressing
  import opened Timing

  predicate IsLogical(i: Instr)
  {
    i == AND || i == ORA || i == EOR
  }

  /** The byte operator each logical instruction applies. */
  function Combine(i: Instr, u: Byte, v: Byte): Byte
    requires IsLogical(i)
  {
    match i
    case AND => BitAnd(u, v)
    case ORA => BitOr(u, v)
    case _ => BitXor(u, v)
  }

  /** The truth table a logical instruction applies to one bit of each operand. */
  function BitOperator(i: Instr, x: bool, y: bool): bool
    requires IsLogical(i)
  {
    match i
    case AND => x && y
    case ORA => x || y
    case _ => x != y
  }

  /** Bit k of the combined byte is the instruction's truth table on bit k of each operand. */
  lemma {:induction false} CombineBitwise(i: Instr, u: Byte, v: Byte, k: nat)
    requires IsLogical(i) && k < ByteWidth
    ensures ToBits(Combine(i, u, v), ByteWidth)[k] ==
      BitOperator(i, ToBits(u, ByteWidth)[k], ToBits(v, ByteWidth)[k])
  {
    match i
    case AND => AndBitsAt(u, v, ByteWidth, k);
    case ORA => OrBitsAt(u, v, ByteWidth, k);
    case EOR => XorBitsAt(u, v, ByteWidth, k);
  }

  /** EOR with the same operand twice gives back the byte it started from. */
  lemma {:induction false} ExclusiveOrTwice(m: Byte, a: Byte)
    ensures Combine(EOR, m, Combine(EOR, m, a)) == a
  {
    assert Pow2(ByteWidth) == 0x100;
    XorBitsTwice(m, a, ByteWidth);
  }

  /**
   * AND, ORA, EOR: A becomes the operand combined with A, reported in Z and
   * N; no other flag, register or memory byte changes. A is written before
   * the mode switch runs.
   */
  function Logical(st: CPUState, i: Instr, mode: Mode): (r: Result<CPUState>)
    requires IsLogical(i)
    ensures Continues(st, r)
    ensures KeepsReserved(st, r)
    ensures r.Ok? <==> Resolvable(st, mode) && CycleCost(i, mode).Some?
    ensures !Resolvable(st, mode) ==> r.Err? && r.fault == GetMemoryAddress(st, mode).fault
    ensures Resolvable(st, mode) && r.Err? ==>
      var op := GetMemoryAddress(st, mode).value;
      r == Err(InvalidMode(i, mode), op.st.(a := Combine(i, st.mem[op.addr], st.a)))
    ensures r.Ok? ==>
      var op := GetMemoryAddress(st, mode).value;
      && r.value.a == Combine(i, st.mem[op.addr], st.a)
      && ReportsZN(r.value.status, r.value.a)
      && r.value.status == st.status.(zero := r.value.status.zero, negative := r.value.status.negative)
      && r.value.cycles == CycleCost(i, mode).value
      && r.value == op.st.(a := r.value.a, status := r.value.status, cycles := r.value.cycles)
  {
    var op :- GetMemoryAddress(st, mode);
    var v := Combine(i, st.mem[op.addr], st.a);
    var done :- SetCycles(op.st.(a := v), i, mode);
    Ok(done.(status := GeneralFlagHelper(done.status, v)))
  }

  /**
   * BIT. The carry setter receives bit 7 of the operand, so it clears C when
   * that bit is 0 and keeps C when it is 1. The overflow setter receives the
   * operand shifted right by 6, which exceeds 1 whenever bit 7 is set: every
   * negative operand raises there. Otherwise V is bit 6 of the operand and Z
   * says whether A AND the operand is 0; N is never written.
   */
  function BitTest(st: CPUState, mode: Mode): (r: Result<CPUState>)
    ensures Continues(st, r)
    ensures KeepsReserved(st, r)
    ensures r.Ok? <==>
      && Resolvable(st, mode)
      && st.mem[GetMemoryAddress(st, mode).value.addr] < 0x80
      && CycleCost(BIT, mode).Some?
    ensures !Resolvable(st, mode) ==> r.Err? && r.fault == GetMemoryAddress(st, mode).fault
    ensures Resolvable(st, mode) ==>
      var op := GetMemoryAddress(st, mode).value;
      var m := st.mem[op.addr];
      m >= 0x80 ==> r == Err(FlagOutOfRange(Overflow, m / 0x40), op.st)
    ensures r.Err? && Resolvable(st, mode) && st.mem[GetMemoryAddress(st, mode).value.addr] < 0x80 ==>
      r.fault == InvalidMode(BIT, mode)
    ensures r.Ok? ==>
      var op := GetMemoryAddress(st, mode).value;
      var m := st.mem[op.addr];
      && !IsSet(r.value.status, Carry)
      && (IsSet(r.value.status, Overflow) <==> m >= 0x40)
      && (IsSet(r.value.status, Zero) <==> BitAnd(st.a, m) == 0)
      && var q := r.value.status;
      && q == st.status.(carry := q.carry, zero := q.zero, overflow := q.overflow)
      && r.value.cycles == CycleCost(BIT, mode).value
      && r.value == op.st.(status := r.value.status, cycles := r.value.cycles)
  {
    var op :- GetMemoryAddress(st, mode);
    var m := st.mem[op.addr];
    var carried := SetCarryFromByte(op.st, m / 0x80).value;
    var overflowed :- SetOverflowFromByte(carried, m / 0x40);
    var tested := overflowed.(status := SetFlag(overflowed.status, Zero, BitAnd(st.a, m) == 0));
    SetCycles(tested, BIT, mode)
  }

  /**
   * EOR undoes itself: a second EOR whose operand is the same byte, read
   * from the same or any other address, brings A back to where the first
   * one found it.
   */
  lemma {:induction false} ExclusiveOrUndone(st: CPUState, mode: Mode, later: CPUState, laterMode: Mode)
    requires Logical(st, EOR, mode).Ok?
    requires later.a == Logical(st, EOR, mode).value.a
    requires Logical(later, EOR, laterMode).Ok?
    requires later.mem[GetMemoryAddress(later, laterMode).value.addr] == st.mem[GetMemoryAddress(st, mode).value.addr]
    ensures Logical(later, EOR, laterMode).value.a == st.a
  {
    ExclusiveOrTwice(st.mem[GetMemoryAddress(st, mode).value.addr], st.a);
  }
}
