/**
 * The load and store handlers of 6502EMU/CPU.cs: LDA, LDX, LDY copy the
 * byte at the effective address into a register and report it in Z and N;
 * STA, STX, STY copy a register to the effective address and touch no flag.
 */
module LoadStore {
  import opened Machine
  import opened Flags
  import opened Addressing
  import opened Timing

  predicate IsLoad(i: Instr)
  {
    i == LDA || i == LDX || i == LDY
  }

  predicate IsStore(i: Instr)
  {
    i == STA || i == STX || i == STY
  }

  /** The register a load fills or a store empties. */
  function Target(i: Instr): Register
    requires IsLoad(i) || IsStore(i)
  {
    match i
    case LDA | STA => A
    case LDX | STX => X
    case _ => Y
  }

  /**
   * LDA, LDX, LDY. The register is written before the mode switch runs, so
   * a mode the switch lacks (LDY with AbsoluteIndexedX) raises with the
   * register loaded and PC already advanced, and the flags not yet updated.
   */
  function Load(st: CPUState, i: Instr, mode: Mode): (r: Result<CPUState>)
    requires IsLoad(i)
    ensures Continues(st, r)
    ensures KeepsReserved(st, r)
    ensures r.Ok? <==> Resolvable(st, mode) && CycleCost(i, mode).Some?
    ensures !Resolvable(st, mode) ==> r.Err? && r.fault == GetMemoryAddress(st, mode).fault
    ensures Resolvable(st, mode) ==>
      var op := GetMemoryAddress(st, mode).value;
      var v := st.mem[op.addr];
      if r.Ok? then
        && r.value.Get(Target(i)) == v
        && ReportsZN(r.value.status, v)
        && r.value.status == st.status.(zero := r.value.status.zero, negative := r.value.status.negative)
        && r.value.cycles == CycleCost(i, mode).value
        && r.value == op.st.Set(Target(i), v).(status := r.value.status, cycles := r.value.cycles)
      else
        r == Err(InvalidMode(i, mode), op.st.Set(Target(i), v))
  {
    var op :- GetMemoryAddress(st, mode);
    var v := op.st.mem[op.addr];
    var done :- SetCycles(op.st.Set(Target(i), v), i, mode);
    Ok(done.(status := GeneralFlagHelper(done.status, v)))
  }

  /**
   * STA, STX, STY: the register's value lands at the effective address and
   * nothing else in memory, the registers or the flags changes; PC moves
   * past the instruction.
   */
  function Store(st: CPUState, i: Instr, mode: Mode): (r: Result<CPUState>)
    requires IsStore(i)
    ensures Continues(st, r)
    ensures KeepsReserved(st, r)
    ensures r.Ok? <==> Resolvable(st, mode) && CycleCost(i, mode).Some?
    ensures !Resolvable(st, mode) ==> r.Err? && r.fault == GetMemoryAddress(st, mode).fault
    ensures Resolvable(st, mode) && r.Err? ==>
      var op := GetMemoryAddress(st, mode).value;
      r == Err(InvalidMode(i, mode), op.st.Write(op.addr, st.Get(Target(i))))
    ensures r.Ok? ==>
      var op := GetMemoryAddress(st, mode).value;
      && r.value.mem == st.mem[op.addr := st.Get(Target(i))]
      && r.value.pc == op.st.pc
      && r.value.cycles == CycleCost(i, mode).value
      && r.value.(mem := st.mem, pc := st.pc, cycles := st.cycles) == st
  {
    var op :- GetMemoryAddress(st, mode);
    SetCycles(op.st.Write(op.addr, op.st.Get(Target(i))), i, mode)
  }

  /**
   * How LDY with AbsoluteIndexedX ends, measured against the state `st` it
   * starts from: it never completes, and once its operand can be read it
   * raises InvalidMode with Y already loaded from the indexed address and
   * PC already past the instruction.
   */
  predicate FailsWithYLoaded(st: CPUState, r: Result<CPUState>)
  {
    && r.Err?
    && (st.pc + 2 < MemorySize ==>
          && r.fault == InvalidMode(LDY, AbsoluteIndexedX)
          && r.at.y == st.mem[(WordAt(st.mem, st.pc + 1) + st.x) % MemorySize]
          && r.at.pc == (st.pc + 3) % MemorySize)
  }

  /** LDY with AbsoluteIndexedX, whatever opcode the state has recorded. */
  lemma {:induction false} LoadYIndexed(st: CPUState, op: Byte)
    ensures FailsWithYLoaded(st, Load(st.(opcode := op), LDY, AbsoluteIndexedX))
  {
    var fetched := st.(opcode := op);
    if st.pc + 2 < MemorySize {
      var operand := GetMemoryAddress(fetched, AbsoluteIndexedX).value;
      assert operand.addr == (WordAt(st.mem, st.pc + 1) + st.x) % MemorySize;
      assert operand.st.pc == (st.pc + 3) % MemorySize;
    }
  }
}
