/**
 * The cycle counts the handlers of 6502EMU/CPU.cs store in
 * `cycleDelayCounter`. Each handler that takes an operand ends in a switch
 * over the addressing mode; a mode missing from that switch raises an
 * ArgumentException after the handler's effects have already happened.
 * No page-crossing penalty is ever added.
 */
module Timing {
  import opened Machine

  /**
   * The cost a handler's mode switch assigns, or None where the switch has
   * no case for the mode. Accumulator forms of the shifts and rotates, and
   * the implied-mode instructions, set their cost outside any switch and
   * are not listed here.
   */
  function CycleCost(i: Instr, mode: Mode): Option<nat>
  {
    match i
    case LDA | ADC | SBC | AND | ORA | EOR | CMP =>
      (match mode
       case Immediate => Some(2)
       case ZeroPage => Some(3)
       case ZeroPageIndexedX => Some(4)
       case Absolute => Some(4)
       case AbsoluteIndexedX => Some(4)
       case AbsoluteIndexedY => Some(4)
       case IndexedIndirect => Some(6)
       case IndirectIndexed => Some(5)
       case _ => None)
    case LDX =>
      (match mode
       case Immediate => Some(2)
       case ZeroPage => Some(3)
       case ZeroPageIndexedY => Some(4)
       case Absolute => Some(4)
       case AbsoluteIndexedY => Some(4)
       case _ => None)
    case LDY =>
      (match mode
       case Immediate => Some(2)
       case ZeroPage => Some(3)
       case ZeroPageIndexedX => Some(4)
       case Absolute => Some(4)
       case AbsoluteIndexedY => Some(4)
       case _ => None)
    case STA =>
      (match mode
       case ZeroPage => Some(3)
       case ZeroPageIndexedX => Some(4)
       case Absolute => Some(4)
       case AbsoluteIndexedX => Some(5)
       case AbsoluteIndexedY => Some(5)
       case IndexedIndirect => Some(6)
       case IndirectIndexed => Some(6)
       case _ => None)
    case STX =>
      (match mode
       case ZeroPage => Some(3)
       case ZeroPageIndexedY => Some(4)
       case Absolute => Some(4)
       case _ => None)
    case STY =>
      (match mode
       case ZeroPage => Some(3)
       case ZeroPageIndexedX => Some(4)
       case Absolute => Some(4)
       case _ => None)
    case ASL | LSR | ROL | ROR | INC | DEM =>
      (match mode
       case ZeroPage => Some(5)
       case ZeroPageIndexedX => Some(6)
       case Absolute => Some(6)
       case AbsoluteIndexedX => Some(7)
       case _ => None)
    case CPX | CPY =>
      (match mode
       case Immediate => Some(2)
       case ZeroPage => Some(3)
       case Absolute => Some(4)
       case _ => None)
    case BIT =>
      (match mode
       case ZeroPage => Some(3)
       case Absolute => Some(4)
       case _ => None)
    case _ => None
  }

  /**
   * The closing mode switch of a handler: store the cost, or raise
   * InvalidMode with the state as the handler left it.
   */
  function SetCycles(st: CPUState, i: Instr, mode: Mode): (r: Result<CPUState>)
    ensures r.Ok? <==> CycleCost(i, mode).Some?
    ensures r.Ok? ==> r.value == st.(cycles := CycleCost(i, mode).value)
    ensures r.Err? ==> r == Err(InvalidMode(i, mode), st)
  {
    match CycleCost(i, mode)
    case Some(c) => Ok(st.(cycles := c))
    case None => Err(InvalidMode(i, mode), st)
  }
}
