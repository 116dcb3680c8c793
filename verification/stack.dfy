/**
 * The stack engine of 6502EMU/CPU.cs: PushToStack and PullFromStack on the
 * fixed page 0x0100-0x01FF, addressed by the 8-bit stack pointer S, which
 * wraps within the page.
 */
module Stack {
  import opened Machine

  /**
   * `(ushort)(0x0100 | S)`. S is below 0x100, so the OR is an addition and
   * the address never leaves page 1.
   */
  function StackAddress(s: Byte): (addr: Word)
    ensures 0x0100 <= addr <= 0x01FF
  {
    0x0100 + s
  }

  /**
   * PushToStack: store at `0x0100 | S`, then decrement S modulo 256, so
   * that S again names the free slot below the byte just stored.
   */
  function PushToStack(st: CPUState, b: Byte): (r: CPUState)
    ensures r == st.(mem := st.mem[StackAddress(st.s) := b], s := (st.s - 1) % 0x100)
  {
    st.Write(StackAddress(st.s), b).(s := ToByte(st.s - 1))
  }

  /**
   * A push changes exactly one byte of memory, inside page 1, and S, which
   * moves down one slot: incrementing it again gives back the old S.
   */
  lemma PushTouchesOneSlot(st: CPUState, b: Byte)
    ensures var r := PushToStack(st, b);
      && r.mem[StackAddress(st.s)] == b
      && (forall i :: 0 <= i < MemorySize && i != StackAddress(st.s) ==> r.mem[i] == st.mem[i])
      && (r.s + 1) % 0x100 == st.s
      && r.(mem := st.mem, s := st.s) == st
  {
  }

  /** Two and three decrements of S modulo 256 are one decrement by two and by three. */
  lemma Descend(s: Byte)
    ensures ((s - 1) % 0x100 - 1) % 0x100 == (s - 2) % 0x100
    ensures (((s - 1) % 0x100 - 1) % 0x100 - 1) % 0x100 == (s - 3) % 0x100
  {
    if s < 3 {
      assert s == 0 || s == 1 || s == 2;
    }
  }

  /**
   * Pulls after two or three pushes walk S back up through the slots the
   * pushes used, ending where it started.
   */
  lemma Ascend(s: Byte)
    ensures ((s - 2) % 0x100 + 1) % 0x100 == (s - 1) % 0x100
    ensures ((s - 2) % 0x100 + 2) % 0x100 == s
    ensures ((s - 3) % 0x100 + 1) % 0x100 == (s - 2) % 0x100
    ensures ((s - 3) % 0x100 + 2) % 0x100 == (s - 1) % 0x100
    ensures ((s - 3) % 0x100 + 3) % 0x100 == s
  {
    if s < 3 {
      assert s == 0 || s == 1 || s == 2;
    }
  }

  /** After `k` pushes from S = s, `k` pulls bring S back to s. */
  lemma ClimbBack(s: Byte, t: Byte, k: nat)
    requires k <= 3 && t == (s - k) % 0x100
    ensures (t + k) % 0x100 == s
  {
    if s < k {
      assert t == s - k + 0x100;
    }
  }

  /** Three pushes in a row write three different slots. */
  lemma DistinctSlots(s: Byte)
    ensures (s - 1) % 0x100 != s && (s - 2) % 0x100 != s && (s - 2) % 0x100 != (s - 1) % 0x100
  {
  }

  /** PullFromStack: increment S modulo 256, then read `0x0100 | S`. */
  function PullFromStack(st: CPUState): (r: (Byte, CPUState))
    ensures r.1.s == (st.s + 1) % 0x100
    ensures r.0 == st.mem[StackAddress(r.1.s)]
    ensures r.1 == st.(s := r.1.s)
  {
    var s := ToByte(st.s + 1);
    (st.mem[StackAddress(s)], st.(s := s))
  }

  /**
   * A pull right after a push returns the pushed byte and restores S; only
   * the stack slot written by the push differs from the state before it.
   */
  lemma PullAfterPush(st: CPUState, b: Byte)
    ensures PullFromStack(PushToStack(st, b)) == (b, st.Write(StackAddress(st.s), b))
  {
  }

  /**
   * Two pushes in a row: `first` lands at S, `second` one slot below it,
   * and S drops by two, wrapping within page 1.
   */
  function PushTwo(st: CPUState, first: Byte, second: Byte): (r: CPUState)
    ensures r == st.(mem := st.mem[StackAddress(st.s) := first][StackAddress(ToByte(st.s - 1)) := second],
                     s := ToByte(st.s - 2))
  {
    Descend(st.s);
    PushToStack(PushToStack(st, first), second)
  }

  /** The byte `k` slots above the top of the stack, i.e. the k-th byte a run of pulls returns. */
  function Peek(st: CPUState, k: nat): Byte
  {
    st.mem[StackAddress((st.s + k) % 0x100)]
  }

  /** After `k` pulls from `st`, the next pull returns the byte `k + 1` slots up. */
  lemma PullNext(st: CPUState, later: CPUState, k: nat)
    requires later.s == (st.s + k) % 0x100 && later.mem == st.mem
    ensures PullFromStack(later).0 == Peek(st, k + 1)
    ensures PullFromStack(later).1.s == (st.s + k + 1) % 0x100
  {
  }

  /**
   * After two pushes from S = s over memory `mem`, the top of the stack
   * holds the second byte and the slot above it the first.
   */
  lemma {:induction false} PeekTwo(st: CPUState, s: Byte, mem: Memory, first: Byte, second: Byte)
    requires st.s == ToByte(s - 2)
    requires st.mem == mem[StackAddress(s) := first][StackAddress(ToByte(s - 1)) := second]
    ensures Peek(st, 1) == second
    ensures Peek(st, 2) == first
  {
    Ascend(s);
    DistinctSlots(s);
  }

  /** With S = 0x00 a push writes 0x0100 and leaves S = 0xFF: no carry out of page 1. */
  lemma PushWrapsWithinPage(st: CPUState, b: Byte)
    requires st.s == 0
    ensures PushToStack(st, b).mem[0x0100] == b
    ensures PushToStack(st, b).s == 0xFF
  {
  }
}
