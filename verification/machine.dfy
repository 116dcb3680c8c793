/**
 * The machine the interpreter in 6502EMU/CPU.cs operates on: the register
 * file, the 64 KiB memory, the thirteen addressing modes, the mnemonics the
 * dispatcher knows, and the faults that end a step.
 *
 * Data bytes, registers and addresses are bounded integers with every
 * wrap-around written out. The status register is kept as its eight flags;
 * StatusByte and ByteStatus convert to and from the packed byte the source
 * stores, pushes and pulls.
 */
module Machine {
  import opened Bits

  /** An 8-bit unsigned value, the C# `byte`. */
  type Byte = b: int | 0 <= b < 0x100

  /** A 16-bit unsigned value, the C# `ushort`. */
  type Word = w: int | 0 <= w < 0x10000

  /** Bits in a byte, the width of every register but PC. */
  const ByteWidth: nat := 8

  const MemorySize: int := 0x10000

  /** The flat address space: exactly 65536 bytes, no bank switching. */
  type Memory = m: seq<Byte> | |m| == MemorySize witness seq(MemorySize, _ => 0)

  /** Adding after a wrap modulo 65536 is adding before it. */
  lemma WrapThenAdd(a: int, k: int)
    ensures (a % MemorySize + k) % MemorySize == (a + k) % MemorySize
  {
    var q := a / MemorySize;
    assert a == q * MemorySize + a % MemorySize;
    assert a + k == q * MemorySize + (a % MemorySize + k);
  }

  /** What a `(byte)` cast or a `byte` compound assignment keeps of an int. */
  function ToByte(n: int): Byte
  {
    n % 0x100
  }

  /** A byte stepped up and back down, or down and back up, modulo 256 is where it began. */
  lemma StepBack(v: Byte)
    ensures ((v as int + 1) % 0x100 - 1) % 0x100 == v
    ensures ((v as int - 1) % 0x100 + 1) % 0x100 == v
  {
    if v == 0xFF {
      assert (v + 1) % 0x100 == 0;
    } else if v == 0 {
      assert (v - 1) % 0x100 == 0xFF;
    }
  }

  /** What a `(ushort)` cast or a `ushort` compound assignment keeps of an int. */
  function ToWord(n: int): Word
  {
    n % 0x10000
  }

  /** The little-endian word `(hi << 8) | lo`. */
  function MakeWord(lo: Byte, hi: Byte): Word
  {
    lo + 0x100 * hi
  }

  /** `(byte)(w & 0xFF)`. */
  function Lo(w: Word): Byte
  {
    w % 0x100
  }

  /** `(byte)((w >> 8) & 0xFF)`. */
  function Hi(w: Word): Byte
  {
    w / 0x100
  }

  /** Joining two bytes into a word and splitting it again gives the bytes back. */
  lemma ByteRoundTrip(lo: Byte, hi: Byte)
    ensures Lo(MakeWord(lo, hi)) == lo && Hi(MakeWord(lo, hi)) == hi
  {
  }

  /** Splitting a word into its bytes and joining them again is the identity. */
  lemma WordRoundTrip(w: Word)
    ensures MakeWord(Lo(w), Hi(w)) == w
  {
  }

  /** The two bytes of a word join back into that word. */
  lemma JoinBytes(lo: Byte, hi: Byte, w: Word)
    requires lo == Lo(w) && hi == Hi(w)
    ensures MakeWord(lo, hi) == w
  {
  }

  /**
   * The status register, flag by flag. In the packed byte, bit 7 down to
   * bit 0 is N V R B D I Z C; the reserved bit R has no setter, and B is
   * what the source's SetSoftwareInterruptFlag writes.
   */
  datatype Status = Status(
    carry: bool,
    zero: bool,
    interrupt: bool,
    decimal: bool,
    softwareInterrupt: bool,
    reserved: bool,
    overflow: bool,
    negative: bool)

  /** The flags in bit order, bit 0 first. */
  function StatusBits(p: Status): (bits: seq<bool>)
    ensures |bits| == 8
  {
    [p.carry, p.zero, p.interrupt, p.decimal, p.softwareInterrupt, p.reserved, p.overflow, p.negative]
  }

  /** The status register with bit `k` of `bits` as its k-th flag. */
  function StatusOfBits(bits: seq<bool>): (p: Status)
    requires |bits| == 8
    ensures StatusBits(p) == bits
  {
    var p := Status(bits[0], bits[1], bits[2], bits[3], bits[4], bits[5], bits[6], bits[7]);
    assert forall k | 0 <= k < 8 :: StatusBits(p)[k] == bits[k];
    p
  }

  /** The byte a status register value is stored as: flag k is bit k. */
  function StatusByte(p: Status): Byte
  {
    assert Pow2(ByteWidth) == 0x100;
    FromBits(StatusBits(p))
  }

  /** The status register value a byte read from memory becomes: bit k is flag k. */
  function ByteStatus(b: Byte): Status
  {
    StatusOfBits(ToBits(b, ByteWidth))
  }

  /** The bits of a stored status byte are the flags, bit k being flag k. */
  lemma StatusByteBits(p: Status)
    ensures ToBits(StatusByte(p), ByteWidth) == StatusBits(p)
  {
    ToFromBits(StatusBits(p));
  }

  /** The flags a byte is read as are its bits, flag k being bit k. */
  lemma ByteStatusBits(b: Byte)
    ensures StatusBits(ByteStatus(b)) == ToBits(b, ByteWidth)
  {
  }

  /** Storing a status value and reading it back gives the same value. */
  lemma StatusByteRoundTrip(p: Status)
    ensures ByteStatus(StatusByte(p)) == p
  {
    StatusByteBits(p);
    ByteStatusBits(StatusByte(p));
    assert StatusBits(ByteStatus(StatusByte(p))) == StatusBits(p);
  }

  /** Reading a stored byte as a status value and storing it again gives the same byte. */
  lemma ByteStatusRoundTrip(b: Byte)
    ensures StatusByte(ByteStatus(b)) == b
  {
    assert Pow2(ByteWidth) == 0x100;
    FromToBits(b, ByteWidth);
  }

  /** C#'s `&` on two bytes. */
  function BitAnd(u: Byte, v: Byte): Byte
  {
    assert Pow2(ByteWidth) == 0x100;
    AndBits(u, v, ByteWidth)
  }

  /** C#'s `|` on two bytes. */
  function BitOr(u: Byte, v: Byte): Byte
  {
    assert Pow2(ByteWidth) == 0x100;
    OrBits(u, v, ByteWidth)
  }

  /** C#'s `^` on two bytes. */
  function BitXor(u: Byte, v: Byte): Byte
  {
    assert Pow2(ByteWidth) == 0x100;
    XorBits(u, v, ByteWidth)
  }

  /** Masking with 0x80 keeps exactly the sign bit. */
  lemma SignBitMask(u: Byte)
    ensures (BitAnd(u, 0x80) != 0) <==> u >= 0x80
  {
    assert Pow2(7) == 0x80;
    AndTopBit(u, 7);
  }

  /** The exclusive or of two bytes is negative iff exactly one of them is. */
  lemma SignBitXor(u: Byte, v: Byte)
    ensures (BitXor(u, v) >= 0x80) <==> ((u >= 0x80) != (v >= 0x80))
  {
    assert Pow2(7) == 0x80;
    XorTopBit(u, v, 7);
  }

  /** Masking with 0x01 keeps the parity bit. */
  lemma LowBitMask(u: Byte)
    ensures BitAnd(u, 0x01) == u % 2
  {
    AndZero(u / 2, 7);
  }

  /** Masking with 0x00 clears everything. */
  lemma ZeroMask(u: Byte)
    ensures BitAnd(u, 0) == 0
  {
    AndZero(u, ByteWidth);
  }

  /** Masking with 0x7F keeps the seven low bits. */
  lemma LowSevenBitsMask(u: Byte)
    ensures BitAnd(u, 0x7F) == u % 0x80
  {
    assert Pow2(7) == 0x80;
    assert BitAnd(u, 0x7F) == AndBits(u, Pow2(7) - 1, ByteWidth);
    if u >= 0x80 {
      AndLowMaskLarge(u, 7);
      assert u % 0x80 == u - 0x80;
    } else {
      AndLowMaskSmall(u, 7);
      assert u % 0x80 == u;
    }
  }

  /** A byte halved fits in seven bits, so the byte cast keeps it. */
  lemma HalfFits(u: Byte)
    ensures u / 2 < 0x80 && ToByte(u / 2) == u / 2
  {
    assert u == 2 * (u / 2) + u % 2;
  }

  /** Masking with 0x7F keeps a value that fits in seven bits. */
  lemma SevenBitsKept(u: Byte)
    requires u < 0x80
    ensures BitAnd(u, 0x7F) == u
  {
    assert Pow2(7) == 0x80;
    assert BitAnd(u, 0x7F) == AndBits(u, Pow2(7) - 1, ByteWidth);
    AndLowMaskSmall(u, 7);
  }

  /** A value shifted right by one already has bit 7 clear. */
  lemma HalfMask(u: Byte)
    ensures BitAnd(ToByte(u / 2), 0x7F) == u / 2
  {
    HalfFits(u);
    SevenBitsKept(u / 2);
  }

  /** `MemoryAddressingMode`: the thirteen ways an operand is located. */
  datatype Mode =
    | Accumulator
    | Immediate
    | Implied
    | Relative
    | Absolute
    | ZeroPage
    | Indirect
    | AbsoluteIndexedX
    | AbsoluteIndexedY
    | ZeroPageIndexedX
    | ZeroPageIndexedY
    | IndexedIndirect
    | IndirectIndexed

  /** The instructions the dispatcher knows, named as the handlers are (DEM is DEC). */
  datatype Instr =
    | LDA | LDX | LDY | STA | STX | STY
    | ADC | SBC | AND | ORA | EOR
    | ASL | LSR | ROL | ROR
    | CMP | CPX | CPY
    | INC | DEM | INX | INY | DEX | DEY
    | BIT
    | JMP | JSR | RTS | RTI | BRK | NOP
    | SEC | CLC | SED | CLD | SEI | CLI | CLV
    | TAX | TXA | TAY | TYA | TSX | TXS
    | PHA | PHP | PLA | PLP
    | BCC | BCS | BNE | BEQ | BMI | BPL | BVC | BVS

  /** The bits of the status register. */
  datatype Flag = Carry | Zero | Interrupt | Decimal | Break | Reserved | Overflow | Negative

  /** The registers a handler may name as its source or target. */
  datatype Register = A | X | Y | S

  /** The exceptions that end a step. */
  datatype Fault =
      /** InvalidOperationException: stepping before InitializeCPU. */
    | NotInitialized
      /** ArgumentException from the dispatcher's default case. */
    | UnknownOpcode(opcode: Byte, pc: Word)
      /** ArgumentException from the resolver's default case. */
    | UnresolvableMode(mode: Mode)
      /** ArgumentException from a handler's own mode switch. */
    | InvalidMode(instr: Instr, mode: Mode)
      /** ArgumentOutOfRangeException from a byte-valued flag setter. */
    | FlagOutOfRange(flag: Flag, value: Byte)
      /** IndexOutOfRangeException from an `int` memory index past 0xFFFF. */
    | IndexOutOfRange

  /**
   * The fields of the `CPU` object. `cycles` is `cycleDelayCounter`, `opcode`
   * is `CurrentOPCode`, `initialized` is the flag InitializeCPU sets.
   */
  datatype CPUState = CPUState(
    a: Byte,
    x: Byte,
    y: Byte,
    s: Byte,
    pc: Word,
    status: Status,
    mem: Memory,
    initialized: bool,
    cycles: nat,
    opcode: Byte)
  {
    /** The value of a register. */
    function Get(r: Register): Byte
    {
      match r
      case A => a
      case X => x
      case Y => y
      case S => s
    }

    /** The state with one register replaced. */
    function Set(r: Register, v: Byte): (st: CPUState)
      ensures st.Get(r) == v
      ensures r != A ==> st.a == a
      ensures r != X ==> st.x == x
      ensures r != Y ==> st.y == y
      ensures r != S ==> st.s == s
      ensures st.pc == pc && st.status == status && st.mem == mem
      ensures st.initialized == initialized && st.cycles == cycles && st.opcode == opcode
    {
      match r
      case A => this.(a := v)
      case X => this.(x := v)
      case Y => this.(y := v)
      case S => this.(s := v)
    }

    /** The state with one memory byte replaced. */
    function Write(addr: Word, v: Byte): CPUState
    {
      this.(mem := mem[addr := v])
    }
  }

  /**
   * The outcome of an operation: a value, or the fault raised together with
   * the state of the CPU object at the moment it was raised (the source
   * mutates fields in place, so a fault can follow partial effects).
   */
  datatype Result<+T> = Ok(value: T) | Err(fault: Fault, at: CPUState)
  {
    predicate IsFailure()
    {
      Err?
    }

    function PropagateFailure<U>(): Result<U>
      requires Err?
    {
      Err(fault, at)
    }

    function Extract(): T
      requires Ok?
    {
      value
    }
  }

  datatype Option<+T> = None | Some(value: T)
  {
    predicate IsFailure()
    {
      None?
    }

    function PropagateFailure<U>(): Option<U>
      requires None?
    {
      None
    }

    function Extract(): T
      requires Some?
    {
      value
    }
  }

  /** The state an operation ends in, whether it completed or raised. */
  function After(r: Result<CPUState>): CPUState
  {
    if r.Ok? then r.value else r.at
  }

  /**
   * An operation neither resets the initialisation flag nor overwrites the
   * recorded opcode: only InitializeCPU and the fetch in EmulateCycle write
   * those.
   */
  predicate Continues(st: CPUState, r: Result<CPUState>)
  {
    After(r).initialized == st.initialized && After(r).opcode == st.opcode
  }

  /** An operation leaves the reserved status bit (bit 5) as it found it. */
  predicate KeepsReserved(st: CPUState, r: Result<CPUState>)
  {
    After(r).status.reserved == st.status.reserved
  }

  /**
   * `memory[i]` for an index the source computes in `int` (`memory[PC + 1]`,
   * `memory[memLocation + 1]`): an index past 0xFFFF raises instead of wrapping.
   */
  function ReadAt(st: CPUState, i: nat): (r: Result<Byte>)
    ensures r.Ok? <==> i < MemorySize
    ensures r.Ok? ==> r.value == st.mem[i]
    ensures r.Err? ==> r.fault == IndexOutOfRange && r.at == st
  {
    if i < MemorySize then Ok(st.mem[i]) else Err(IndexOutOfRange, st)
  }
}
