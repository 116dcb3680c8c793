/**
 * The flag engine of 6502EMU/CPU.cs: per-flag getters and setters on the
 * status register, the byte-valued setter overloads that reject values
 * above 1, and the Zero/Negative helpers run after most data-producing
 * instructions.
 */
module Flags {
  import opened Bits
  import opened Machine

  /** The bit a flag occupies in the packed status byte. */
  function Position(f: Flag): (k: nat)
    ensures k < 8
  {
    match f
    case Carry => 0
    case Zero => 1
    case Interrupt => 2
    case Decimal => 3
    case Break => 4
    case Reserved => 5
    case Overflow => 6
    case Negative => 7
  }

  /** No two flags share a bit. */
  lemma PositionsDistinct(f: Flag, g: Flag)
    requires f != g
    ensures Position(f) != Position(g)
  {
  }

  /** Whether a flag is set. */
  predicate IsSet(p: Status, f: Flag)
  {
    match f
    case Carry => p.carry
    case Zero => p.zero
    case Interrupt => p.interrupt
    case Decimal => p.decimal
    case Break => p.softwareInterrupt
    case Reserved => p.reserved
    case Overflow => p.overflow
    case Negative => p.negative
  }

  /**
   * GetCarryFlag, GetZeroFlag, ..., GetNegativeFlag: the flag as the byte 0
   * or 1, the form the source adds into sums and compares with 0 and 1.
   */
  function GetFlag(p: Status, f: Flag): Byte
  {
    Bit(IsSet(p, f))
  }

  /** Flag `f` is bit `Position(f)` of the packed status. */
  lemma FlagIsBit(p: Status, f: Flag)
    ensures StatusBits(p)[Position(f)] == IsSet(p, f)
  {
  }

  /**
   * The getters read the packed byte as `(status >> k) & 1`: the byte
   * returned is bit `Position(f)` of the stored status.
   */
  lemma GetFlagReadsPackedBit(p: Status, f: Flag)
    ensures GetFlag(p, f) == Bit(ToBits(StatusByte(p), ByteWidth)[Position(f)])
  {
    StatusByteBits(p);
    FlagIsBit(p, f);
  }

  /**
   * The boolean setters SetCarryFlag(bool), SetZeroFlag(bool),
   * SetInterruptFlag, SetBCDFlag, SetSoftwareInterruptFlag,
   * SetOverflowFlag(bool) and SetSignFlag: one flag takes the given value
   * and every other flag keeps its own. The reserved bit has no setter.
   */
  function SetFlag(p: Status, f: Flag, on: bool): (r: Status)
    requires f != Reserved
    ensures IsSet(r, f) == on
    ensures f != Carry ==> r.carry == p.carry
    ensures f != Zero ==> r.zero == p.zero
    ensures f != Interrupt ==> r.interrupt == p.interrupt
    ensures f != Decimal ==> r.decimal == p.decimal
    ensures f != Break ==> r.softwareInterrupt == p.softwareInterrupt
    ensures r.reserved == p.reserved
    ensures f != Overflow ==> r.overflow == p.overflow
    ensures f != Negative ==> r.negative == p.negative
  {
    match f
    case Carry => p.(carry := on)
    case Zero => p.(zero := on)
    case Interrupt => p.(interrupt := on)
    case Decimal => p.(decimal := on)
    case Break => p.(softwareInterrupt := on)
    case Overflow => p.(overflow := on)
    case Negative => p.(negative := on)
  }

  /**
   * SetCarryFlag(byte): rejects values above 1, then ANDs the status byte
   * with `0xFE + b`. A 0 therefore clears the carry, but a 1 ANDs with 0xFF
   * and keeps whatever carry was already there: this overload can never set
   * the flag.
   */
  function SetCarryFromByte(st: CPUState, b: Byte): (r: Result<CPUState>)
    ensures r.Err? <==> b > 1
    ensures r.Err? ==> r.fault == FlagOutOfRange(Carry, b) && r.at == st
    ensures b == 0 ==> r == Ok(st.(status := st.status.(carry := false)))
    ensures b == 1 ==> r == Ok(st)
  {
    if b > 1 then Err(FlagOutOfRange(Carry, b), st)
    else if b == 0 then Ok(st.(status := SetFlag(st.status, Carry, false)))
    else Ok(st)
  }

  /** SetZeroFlag(byte): rejects values above 1, otherwise Z := (b == 1). */
  function SetZeroFromByte(st: CPUState, b: Byte): (r: Result<CPUState>)
    ensures r.Err? <==> b > 1
    ensures r.Err? ==> r.fault == FlagOutOfRange(Zero, b) && r.at == st
    ensures r.Ok? ==> r.value == st.(status := st.status.(zero := b == 1))
  {
    if b > 1 then Err(FlagOutOfRange(Zero, b), st)
    else Ok(st.(status := SetFlag(st.status, Zero, b == 1)))
  }

  /** SetOverflowFlag(byte): rejects values above 1, otherwise V := (b == 1). */
  function SetOverflowFromByte(st: CPUState, b: Byte): (r: Result<CPUState>)
    ensures r.Err? <==> b > 1
    ensures r.Err? ==> r.fault == FlagOutOfRange(Overflow, b) && r.at == st
    ensures r.Ok? ==> r.value == st.(status := st.status.(overflow := b == 1))
  {
    if b > 1 then Err(FlagOutOfRange(Overflow, b), st)
    else Ok(st.(status := SetFlag(st.status, Overflow, b == 1)))
  }

  /** ZeroFlagHelper: Z := (b == 0). */
  function ZeroFlagHelper(p: Status, b: Byte): Status
  {
    SetFlag(p, Zero, b == 0)
  }

  /** NegativeFlagHelper: N := (b >> 7 != 0). */
  function NegativeFlagHelper(p: Status, b: Byte): Status
  {
    SetFlag(p, Negative, b / 0x80 != 0)
  }

  /** The Zero and Negative flags of `p` describe the byte `b`. */
  predicate ReportsZN(p: Status, b: Byte)
  {
    && (p.zero <==> b == 0)
    && (p.negative <==> b >= 0x80)
  }

  /**
   * GeneralFlagHelper: Z is set iff the byte is 0 and N is its bit 7; every
   * other flag is left as it was.
   */
  function GeneralFlagHelper(p: Status, b: Byte): (r: Status)
    ensures ReportsZN(r, b)
    ensures r == p.(zero := r.zero, negative := r.negative)
  {
    NegativeFlagHelper(ZeroFlagHelper(p, b), b)
  }
}
