/**
 * The control-flow handlers of 6502EMU/CPU.cs: JMP, JSR, RTS, RTI, BRK and
 * the eight conditional branches with their shared BranchHelper.
 */
module Control {
  import opened Bits
  import opened Machine
  import opened Flags
  import opened Stack
  import opened Addressing

  /**
   * JMP. It decodes its own operand. Absolute jumps to the little-endian
   * word after the opcode. Indirect reads that word as a pointer, also
   * little-endian, and jumps to the word stored at the pointer. The
   * Indirect form sets its 5 cycles before any read, so a read past 0xFFFF
   * raises with the cycles already stored. Any other mode raises
   * InvalidMode before touching anything.
   */
  function Jump(st: CPUState, mode: Mode): (r: Result<CPUState>)
    ensures Continues(st, r)
    ensures KeepsReserved(st, r)
    ensures mode != Absolute && mode != Indirect ==> r == Err(InvalidMode(JMP, mode), st)
    ensures mode == Absolute ==>
      if st.pc + 2 < MemorySize
      then r == Ok(st.(pc := WordAt(st.mem, st.pc + 1), cycles := 3))
      else r == Err(IndexOutOfRange, st)
    ensures mode == Indirect ==>
      if st.pc + 2 < MemorySize && WordAt(st.mem, st.pc + 1) + 1 < MemorySize
      then r == Ok(st.(pc := WordAt(st.mem, WordAt(st.mem, st.pc + 1)), cycles := 5))
      else r == Err(IndexOutOfRange, st.(cycles := 5))
  {
    match mode
    case Absolute =>
      var lo :- ReadAt(st, st.pc + 1);
      var hi :- ReadAt(st, st.pc + 2);
      Ok(st.(pc := MakeWord(lo, hi), cycles := 3))
    case Indirect =>
      var timed := st.(cycles := 5);
      var lo :- ReadAt(timed, st.pc + 1);
      var hi :- ReadAt(timed, st.pc + 2);
      var ptr := MakeWord(lo, hi);
      var target :- ReadAt(timed, ptr + 1);
      Ok(timed.(pc := MakeWord(timed.mem[ptr], target)))
    case _ => Err(InvalidMode(JMP, mode), st)
  }

  /** Stepping back one from the address after a three-byte instruction gives its last byte. */
  lemma LastByte(pc: Word)
    requires pc + 2 < MemorySize
    ensures ToWord((pc + 3) % MemorySize - 1) == pc + 2
  {
  }

  /**
   * JSR. Only Absolute is accepted. The return address pushed is the
   * address of the instruction's last byte, PC + 2: high byte first, then
   * low byte. PC then moves to the operand word.
   */
  function JumpToSubroutine(st: CPUState, mode: Mode): (r: Result<CPUState>)
    ensures Continues(st, r)
    ensures KeepsReserved(st, r)
    ensures mode != Absolute ==> r == Err(InvalidMode(JSR, mode), st)
    ensures mode == Absolute ==> (r.Ok? <==> st.pc + 2 < MemorySize)
    ensures mode == Absolute && r.Err? ==> r == Err(IndexOutOfRange, st)
    ensures r.Ok? ==>
      && r.value.pc == WordAt(st.mem, st.pc + 1)
      && r.value.s == ToByte(st.s - 2)
      && r.value.mem == st.mem[StackAddress(st.s) := Hi(st.pc + 2)][StackAddress(ToByte(st.s - 1)) := Lo(st.pc + 2)]
      && r.value == st.(pc := r.value.pc, s := r.value.s, mem := r.value.mem, cycles := 3)
  {
    if mode != Absolute then Err(InvalidMode(JSR, mode), st)
    else
      // GetMemoryAddress's Absolute case.
      var op :- AbsoluteOperand(st, 0);
      LastByte(st.pc);
      Ok(CallFrom(op.st, op.addr))
  }

  /**
   * The rest of JSR once its operand is read and PC names the next
   * instruction: PC steps back to the JSR's last byte, that address is
   * pushed high byte first, and PC moves to `target`.
   */
  function CallFrom(st: CPUState, target: Word): (r: CPUState)
    ensures r.pc == target
    ensures r.s == ToByte(st.s - 2)
    ensures r.mem == st.mem[StackAddress(st.s) := Hi(ToWord(st.pc - 1))][StackAddress(ToByte(st.s - 1)) := Lo(ToWord(st.pc - 1))]
    ensures r == st.(pc := r.pc, s := r.s, mem := r.mem, cycles := 3)
  {
    var ret := ToWord(st.pc - 1);
    var pushed := PushTwo(st.(pc := ret), Hi(ret), Lo(ret));
    pushed.(pc := target, cycles := 3)
  }

  /**
   * RTS: pull the low byte, then the high byte, and continue one past that
   * address (modulo 65536).
   */
  function ReturnFromSubroutine(st: CPUState): (r: CPUState)
    ensures r == st.(pc := (MakeWord(Peek(st, 1), Peek(st, 2)) + 1) % MemorySize, s := (st.s + 2) % 0x100, cycles := 6)
  {
    var (lo, afterLo) := PullFromStack(st);
    var (hi, afterHi) := PullFromStack(afterLo);
    PullNext(st, afterLo, 1);
    afterHi.(cycles := 6, pc := ToWord(MakeWord(lo, hi) + 1))
  }

  /**
   * RTI: pull the status ANDed with 0xEF, i.e. with B (bit 4) cleared and
   * the reserved bit taken as pulled, then the low and high bytes of the
   * return address, which is used as is.
   */
  function ReturnFromInterrupt(st: CPUState): (r: CPUState)
    ensures r == st.(status := ByteStatus(Peek(st, 1)).(softwareInterrupt := false),
                     pc := MakeWord(Peek(st, 2), Peek(st, 3)), s := (st.s + 3) % 0x100, cycles := 6)
  {
    var (p, afterP) := PullFromStack(st);
    var restored := afterP.(status := ByteStatus(p).(softwareInterrupt := false));
    var (lo, afterLo) := PullFromStack(restored);
    var (hi, afterHi) := PullFromStack(afterLo);
    PullNext(st, restored, 1);
    PullNext(st, afterLo, 2);
    afterHi.(cycles := 6, pc := MakeWord(lo, hi))
  }

  /**
   * BRK. It pushes a high byte taken from PC + 3 and a low byte taken from
   * PC + 2, then the status ORed with 0x30, i.e. with B (bit 4) and the
   * reserved bit (bit 5) set. It then sets I and jumps through the vector
   * at 0xFFFE/0xFFFF.
   */
  function ForceBreak(st: CPUState): (r: CPUState)
    ensures r == st.(s := (st.s - 3) % 0x100,
                     mem := st.mem[StackAddress(st.s) := Hi(ToWord(st.pc + 3))]
                                  [StackAddress((st.s - 1) % 0x100) := Lo(ToWord(st.pc + 2))]
                                  [StackAddress((st.s - 2) % 0x100) := StatusByte(st.status.(softwareInterrupt := true, reserved := true))],
                     status := st.status.(interrupt := true),
                     pc := WordAt(st.mem, 0xFFFE), cycles := 7)
  {
    var pushedHi := PushToStack(st, Hi(ToWord(st.pc + 3)));
    var pushedLo := PushToStack(pushedHi, Lo(ToWord(st.pc + 2)));
    var pushedP := PushToStack(pushedLo, StatusByte(st.status.(softwareInterrupt := true, reserved := true)));
    var masked := pushedP.(status := SetFlag(st.status, Interrupt, true));
    Descend(st.s);
    assert masked.mem[0xFFFE] == st.mem[0xFFFE] && masked.mem[0xFFFF] == st.mem[0xFFFF];
    masked.(pc := MakeWord(masked.mem[0xFFFE], masked.mem[0xFFFF]), cycles := 7)
  }

  predicate IsBranch(i: Instr)
  {
    i == BCC || i == BCS || i == BNE || i == BEQ || i == BMI || i == BPL || i == BVC || i == BVS
  }

  /** The flag a branch tests. */
  function Tested(i: Instr): Flag
    requires IsBranch(i)
  {
    match i
    case BCC | BCS => Carry
    case BNE | BEQ => Zero
    case BMI | BPL => Negative
    case _ => Overflow
  }

  /** Whether a branch is taken when its flag is set (BCS, BEQ, BMI, BVS) or when it is clear. */
  function TakenWhenSet(i: Instr): bool
    requires IsBranch(i)
  {
    match i
    case BCS | BEQ | BMI | BVS => true
    case _ => false
  }

  /** A branch offset as a two's-complement byte. */
  function Signed(v: Byte): int
  {
    if v < 0x80 then v else v - 0x100
  }

  /**
   * BranchHelper. It reads the offset at PC + 1 and moves PC to the
   * instruction after the branch plus the signed offset. The exception is
   * offset 0xFF: it becomes a movement of 0 (255 - 255) and lands on
   * PC + 2, not PC + 1. Costs 3 cycles.
   */
  function BranchHelper(st: CPUState): (r: CPUState)
    ensures var offset := st.mem[(st.pc + 1) % MemorySize];
      r.pc == if offset == 0xFF then (st.pc + 2) % MemorySize else (st.pc + 2 + Signed(offset)) % MemorySize
    ensures r == st.(pc := r.pc, cycles := 3)
  {
    var pc := ToWord(st.pc + 1);
    var offset := st.mem[pc];
    WrapThenAdd(st.pc + 1, 1);
    WrapThenAdd(st.pc + 1, 1 + Signed(offset));
    st.(pc := BranchTarget(pc, offset), cycles := 3)
  }

  /**
   * The PC BranchHelper computes from the address of the offset byte: an
   * offset above 127 becomes the movement `offset - 255`, a non-negative
   * movement is added and then one more, a negative one is subtracted.
   */
  function BranchTarget(pc: Word, offset: Byte): (target: Word)
    ensures target == if offset == 0xFF then (pc + 1) % MemorySize else (pc + 1 + Signed(offset)) % MemorySize
  {
    var movement := if offset > 127 then offset as int - 255 else offset as int;
    if movement >= 0 then ToWord(ToWord(pc + movement) + 1)
    else ToWord(pc - (-1 * movement))
  }

  /**
   * BNE, BEQ, BCC, BCS, BMI, BPL, BVC, BVS: each handler compares its flag's
   * byte with 1 or 0, and the branch is taken exactly when the flag has the
   * value that takes it.
   */
  function Branch(st: CPUState, i: Instr): (r: CPUState)
    requires IsBranch(i)
    ensures r == BranchOn(st, IsSet(st.status, Tested(i)) == TakenWhenSet(i))
    ensures IsSet(st.status, Tested(i)) == TakenWhenSet(i) ==> r == BranchHelper(st)
    ensures IsSet(st.status, Tested(i)) != TakenWhenSet(i) ==> r == st.(pc := (st.pc + 2) % MemorySize, cycles := 2)
  {
    BranchOn(st, GetFlag(st.status, Tested(i)) == Bit(TakenWhenSet(i)))
  }

  /**
   * The common tail of the branch handlers, given whether the condition
   * held: a taken branch goes through BranchHelper, otherwise PC skips the
   * two-byte instruction at a cost of 2 cycles. Nothing but PC and the
   * cycle count changes either way.
   */
  function BranchOn(st: CPUState, taken: bool): (r: CPUState)
    ensures taken ==> r == BranchHelper(st)
    ensures !taken ==> r == st.(pc := (st.pc + 2) % MemorySize, cycles := 2)
  {
    var timed := st.(cycles := 2);
    if taken then BranchHelper(timed)
    else timed.(pc := ToWord(st.pc + 2), cycles := 2)
  }

  /**
   * JMP through a pointer goes where JMP Absolute goes when the pointed-to
   * word is written as its operand; only the cycle count differs.
   */
  lemma {:induction false} IndirectIsAbsoluteToStoredWord(st: CPUState)
    requires st.pc + 2 < MemorySize && WordAt(st.mem, st.pc + 1) + 1 < MemorySize
    ensures var ptr := WordAt(st.mem, st.pc + 1);
      var direct := st.(mem := st.mem[st.pc + 1 := st.mem[ptr]][st.pc + 2 := st.mem[ptr + 1]]);
      && Jump(direct, Absolute).Ok?
      && Jump(st, Indirect) == Ok(Jump(direct, Absolute).value.(mem := st.mem, cycles := 5))
  {
    var ptr := WordAt(st.mem, st.pc + 1);
    var direct := st.(mem := st.mem[st.pc + 1 := st.mem[ptr]][st.pc + 2 := st.mem[ptr + 1]]);
    assert WordAt(direct.mem, st.pc + 1) == WordAt(st.mem, ptr);
  }

  /** BranchHelper with offset 0xFE moves PC back onto the branch's own opcode. */
  lemma HelperOntoItself(st: CPUState)
    requires st.mem[(st.pc + 1) % MemorySize] == 0xFE
    ensures BranchHelper(st).pc == st.pc
  {
    assert st.pc + 2 + Signed(0xFE) == st.pc;
  }

  /**
   * A taken branch with offset 0xFE lands back on its own opcode, whatever
   * opcode the state has recorded.
   */
  lemma {:induction false} BranchOntoItself(st: CPUState, i: Instr, op: Byte)
    requires IsBranch(i) && IsSet(st.status, Tested(i)) == TakenWhenSet(i)
    requires st.mem[(st.pc + 1) % MemorySize] == 0xFE
    ensures Branch(st.(opcode := op), i).pc == st.pc
  {
    var fetched := st.(opcode := op);
    assert fetched.status == st.status && fetched.mem == st.mem && fetched.pc == st.pc;
    HelperOntoItself(fetched);
  }
}
