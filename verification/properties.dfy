/**
 * Properties that relate several operations of 6502EMU/CPU.cs: the stack
 * round trips of JSR/RTS, BRK/RTI, PHP/PLP and PHA/PLA, a load reading
 * back a store, and the fate of opcode 0xBC.
 */
module Properties {
  import opened Bits
  import opened Machine
  import opened Flags
  import opened Stack
  import opened Addressing
  import opened Timing
  import opened LoadStore
  import opened Control
  import opened Implied
  import opened Dispatch

  /**
   * The frame JSR leaves: the low byte of the return address PC + 2 on
   * top, its high byte below, S two slots down; besides those two stack
   * slots only PC and the cycle count differ.
   */
  lemma {:induction false} SubroutineFrame(st: CPUState)
    requires st.pc + 2 < MemorySize
    ensures JumpToSubroutine(st, Absolute).Ok?
    ensures var called := JumpToSubroutine(st, Absolute).value;
      && called.s == (st.s - 2) % 0x100
      && Peek(called, 1) == Lo(st.pc + 2)
      && Peek(called, 2) == Hi(st.pc + 2)
      && called == st.(pc := called.pc, s := called.s, mem := called.mem, cycles := 3)
  {
    PeekTwo(JumpToSubroutine(st, Absolute).value, st.s, st.mem, Hi(st.pc + 2), Lo(st.pc + 2));
  }

  /**
   * RTS from any state whose top two stack bytes join into the return
   * address JSR pushes from `st`, and which otherwise differs from `st` only
   * in PC, S two slots down, memory and the cycle count, resumes at the
   * instruction after the JSR with S restored.
   */
  lemma {:induction false} ReturnToCaller(st: CPUState, called: CPUState)
    requires st.pc + 2 < MemorySize
    requires called.s == (st.s - 2) % 0x100
    requires MakeWord(Peek(called, 1), Peek(called, 2)) == st.pc + 2
    requires called == st.(pc := called.pc, s := called.s, mem := called.mem, cycles := 3)
    ensures ReturnFromSubroutine(called) == st.(pc := (st.pc + 3) % MemorySize, mem := called.mem, cycles := 6)
  {
    ClimbBack(st.s, called.s, 2);
  }

  /**
   * JSR at p followed at once by RTS resumes at p + 3, the instruction
   * after the JSR, with S back where it was. Only the two stack slots the
   * JSR wrote differ from the state before the call.
   */
  lemma {:induction false} SubroutineRoundTrip(st: CPUState)
    requires st.pc + 2 < MemorySize
    ensures JumpToSubroutine(st, Absolute).Ok?
    ensures var called := JumpToSubroutine(st, Absolute).value;
      ReturnFromSubroutine(called) == st.(pc := (st.pc + 3) % MemorySize, mem := called.mem, cycles := 6)
  {
    SubroutineFrame(st);
    var called := JumpToSubroutine(st, Absolute).value;
    JoinBytes(Peek(called, 1), Peek(called, 2), st.pc + 2);
    ReturnToCaller(st, called);
  }

  /**
   * The frame BRK leaves: the pushed status on top, then the low byte of
   * p + 2, then the high byte of p + 3.
   */
  lemma {:induction false} BreakFrame(st: CPUState)
    ensures BreakFrameOf(st, ForceBreak(st))
  {
    Ascend(st.s);
    DistinctSlots(st.s);
  }

  /** RTI over a frame holding a stored status and a return address restores both. */
  lemma {:induction false} ReturnFromFrame(st: CPUState, p: Status, lo: Byte, hi: Byte)
    requires Peek(st, 1) == StatusByte(p) && Peek(st, 2) == lo && Peek(st, 3) == hi
    ensures ReturnFromInterrupt(st) ==
      st.(status := p.(softwareInterrupt := false), pc := MakeWord(lo, hi), s := (st.s + 3) % 0x100, cycles := 6)
  {
    StatusByteRoundTrip(p);
  }

  /** The frame BRK pushes from `st`, seen from the state `broke` it leaves. */
  predicate BreakFrameOf(st: CPUState, broke: CPUState)
  {
    && broke.s == (st.s - 3) % 0x100
    && Peek(broke, 1) == StatusByte(st.status.(softwareInterrupt := true, reserved := true))
    && Peek(broke, 2) == Lo(ToWord(st.pc + 2))
    && Peek(broke, 3) == Hi(ToWord(st.pc + 3))
  }

  /** RTI over a BRK frame restores the flags BRK found, with B cleared. */
  lemma {:induction false} ResumedFlags(st: CPUState, broke: CPUState)
    requires BreakFrameOf(st, broke)
    ensures ReturnFromInterrupt(broke).status == st.status.(softwareInterrupt := false, reserved := true)
  {
    var p := st.status.(softwareInterrupt := true, reserved := true);
    ReturnFromFrame(broke, p, Lo(ToWord(st.pc + 2)), Hi(ToWord(st.pc + 3)));
  }

  /** RTI three pushes below S = s brings S back to s. */
  lemma {:induction false} ResumedStack(st: CPUState, broke: CPUState)
    requires broke.s == (st.s - 3) % 0x100
    ensures ReturnFromInterrupt(broke).s == st.s
  {
    ClimbBack(st.s, broke.s, 3);
  }

  /**
   * RTI from any state laid out as the BRK frame of `st` restores S and
   * the flags BRK pushed, with B cleared, and resumes at the pushed address.
   */
  lemma {:induction false} ResumeAfterBreak(st: CPUState, broke: CPUState)
    requires BreakFrameOf(st, broke)
    ensures var back := ReturnFromInterrupt(broke);
      && back.s == st.s
      && back.status == st.status.(softwareInterrupt := false, reserved := true)
      && back.pc == MakeWord(Lo(ToWord(st.pc + 2)), Hi(ToWord(st.pc + 3)))
  {
    ResumedFlags(st, broke);
    ResumedStack(st, broke);
  }

  /**
   * BRK followed at once by RTI restores S and every flag BRK found,
   * including I, except that B comes back clear and the reserved bit set.
   * The resume address joins the low byte of p + 2 with the high byte of
   * p + 3.
   */
  lemma {:induction false} BreakThenReturn(st: CPUState)
    ensures var back := ReturnFromInterrupt(ForceBreak(st));
      && back.s == st.s
      && back.status == st.status.(softwareInterrupt := false, reserved := true)
      && back.pc == MakeWord(Lo(ToWord(st.pc + 2)), Hi(ToWord(st.pc + 3)))
  {
    BreakFrame(st);
    ResumeAfterBreak(st, ForceBreak(st));
  }

  /**
   * The address BRK/RTI resumes at is p + 2 exactly when p + 2 is not the
   * last byte of a page; otherwise the high byte of p + 3 is one page on.
   */
  lemma {:induction false} PaddedResume(pc: Word)
    ensures MakeWord(Lo(ToWord(pc + 2)), Hi(ToWord(pc + 3))) == ToWord(pc + 2)
        <==> (pc + 2) % 0x100 != 0xFF
  {
    var two, three := ToWord(pc + 2), ToWord(pc + 3);
    var q, r := two / 0x100, two % 0x100;
    assert two == 0x100 * q + r;
    if pc + 2 < MemorySize {
      assert two == pc + 2;
    } else {
      assert two == pc + 2 - MemorySize;
    }
    assert (pc + 2) % 0x100 == r;
    assert Lo(two) == r;
    if two == 0xFFFF {
      assert three == 0;
    } else {
      assert three == two + 1;
      if r == 0xFF {
        assert three == 0x100 * (q + 1);
        assert Hi(three) == q + 1;
      } else {
        assert three == 0x100 * q + (r + 1);
        assert Hi(three) == q;
      }
    }
  }

  /**
   * The BRK/RTI pair resumes at p + 2 exactly when p + 2 is not the last
   * byte of a page; otherwise the high byte of p + 3 sends it one page on.
   */
  lemma {:induction false} BreakResumesAfterPadding(st: CPUState)
    ensures ReturnFromInterrupt(ForceBreak(st)).pc == ToWord(st.pc + 2)
        <==> (st.pc + 2) % 0x100 != 0xFF
  {
    BreakThenReturn(st);
    var back := ReturnFromInterrupt(ForceBreak(st));
    PaddedResume(st.pc);
    assert back.pc == ToWord(st.pc + 2) <==> (st.pc + 2) % 0x100 != 0xFF;
  }

  /** From 0x10FD, the bytes BRK pushes make up 0x11FF. */
  lemma CrossedResume(pc: Word)
    requires pc == 0x10FD
    ensures MakeWord(Lo(ToWord(pc + 2)), Hi(ToWord(pc + 3))) == 0x11FF
  {
  }

  /** BRK at 0x10FD resumes at 0x11FF rather than at 0x10FF. */
  lemma {:induction false} BreakReturnCrossesPage(st: CPUState)
    requires st.pc == 0x10FD
    ensures ReturnFromInterrupt(ForceBreak(st)).pc == 0x11FF
  {
    BreakThenReturn(st);
    CrossedResume(st.pc);
  }

  /**
   * PLP from a state whose next stacked byte reads as the status `q` loads
   * `q`, with the reserved bit forced on.
   */
  lemma {:induction false} PulledFlags(st: CPUState, q: Status)
    requires ByteStatus(st.mem[StackAddress((st.s + 1) % 0x100)]) == q
    ensures PullStatus(st).status == q.(reserved := true)
  {
    var b := st.mem[StackAddress((st.s + 1) % 0x100)];
    var r := PullStatus(st).status;
    ByteStatusBits(b);
    forall f
      ensures IsSet(r, f) == IsSet(q.(reserved := true), f)
    {
      FlagIsBit(q, f);
    }
  }

  /**
   * PHP followed at once by PLP restores S and every flag, except that B
   * and the reserved bit come back set: PHP pushed them set and PLP keeps
   * the pulled B.
   */
  lemma {:induction false} StatusRoundTrip(st: CPUState)
    ensures var back := PullStatus(PushStatus(st));
      back.s == st.s && back.status == st.status.(softwareInterrupt := true, reserved := true)
  {
    var pushed := PushStatus(st);
    ClimbBack(st.s, pushed.s, 1);
    PulledFlags(pushed, st.status.(softwareInterrupt := true, reserved := true));
  }

  /** PHA followed at once by PLA gives A back, reported in Z and N, with S restored. */
  lemma {:induction false} AccumulatorRoundTrip(st: CPUState)
    ensures var back := PullAccumulator(PushAccumulator(st));
      && back.a == st.a && back.s == st.s
      && ReportsZN(back.status, st.a)
      && back.mem == PushAccumulator(st).mem
  {
    Ascend(st.s);
    assert ((st.s - 1) % 0x100 + 1) % 0x100 == st.s;
  }

  /** A load whose operand resolves to an address holding `v` loads `v`. */
  lemma {:induction false} ReadsBack(stored: CPUState, addr: Word, v: Byte, j: Instr, loadMode: Mode)
    requires IsLoad(j) && stored.mem[addr] == v
    requires Load(stored, j, loadMode).Ok?
    requires GetMemoryAddress(stored, loadMode).value.addr == addr
    ensures Load(stored, j, loadMode).value.Get(Target(j)) == v
  {
  }

  /** A completed store leaves the register's value at its effective address. */
  lemma {:induction false} StoredAt(st: CPUState, i: Instr, storeMode: Mode)
    requires IsStore(i) && Store(st, i, storeMode).Ok?
    ensures Resolvable(st, storeMode)
    ensures Store(st, i, storeMode).value.mem[GetMemoryAddress(st, storeMode).value.addr] == st.Get(Target(i))
  {
  }

  /**
   * A load whose operand resolves to the address a store just wrote reads
   * back the stored register.
   */
  lemma {:induction false} StoreThenLoad(st: CPUState, i: Instr, storeMode: Mode, j: Instr, loadMode: Mode)
    requires IsStore(i) && IsLoad(j)
    requires Store(st, i, storeMode).Ok?
    requires var stored := Store(st, i, storeMode).value;
      && Load(stored, j, loadMode).Ok?
      && GetMemoryAddress(stored, loadMode).value.addr == GetMemoryAddress(st, storeMode).value.addr
    ensures Load(Store(st, i, storeMode).value, j, loadMode).value.Get(Target(j)) == st.Get(Target(i))
  {
    StoredAt(st, i, storeMode);
    var addr := GetMemoryAddress(st, storeMode).value.addr;
    ReadsBack(Store(st, i, storeMode).value, addr, st.Get(Target(i)), j, loadMode);
  }

  /**
   * Opcode 0xBC (LDY with AbsoluteIndexedX) never completes. When its
   * operand can be read it raises InvalidMode with Y already loaded from
   * the indexed address and PC already past the instruction.
   */
  lemma {:induction false} LoadYIndexedAlwaysFails(st: CPUState)
    requires st.initialized && st.mem[st.pc] == 0xBC
    ensures FailsWithYLoaded(st, EmulateCycle(st))
  {
    assert Decode(0xBC) == Some((LDY, AbsoluteIndexedX));
    Dispatched(st, LDY, AbsoluteIndexedX);
    LoadYIndexed(st, 0xBC);
  }
}
