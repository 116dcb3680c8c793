# A verified model of the Csharp6502 interpreter core

This project models the `CPU` class of `6502EMU/CPU.cs`, a MOS 6502
interpreter written in C#. The class owns a 64 KiB memory, the registers A,
X, Y, S and PC, and a packed status byte. `EmulateCycle` fetches the opcode
at PC and runs its handler through a 151-case switch. Each handler resolves
its operand through `GetMemoryAddress`, updates the registers, memory and
flags, moves PC past the instruction, and stores a cycle count.

The model is written as pure functions over an immutable `CPUState`:

- Bytes and words are bounded integers, and every wrap-around is explicit.
- The status register is a record of eight flags. `StatusByte` and
  `ByteStatus` convert it to and from the packed byte the source stores.
- Every exception a step can throw is a `Fault`. A failed operation
  returns `Err(fault, at)`, where `at` is the CPU state at the moment of the
  throw. The source mutates fields in place, so a handler can fail after
  part of its work is done. The constructors' one failure, an image too
  long for `Array.Copy` into 64 KiB, is `None` from `Lifecycle.LoadImage`,
  `Create` and `CreateAt` instead.

The model follows the code, including where the code departs from the 6502
datasheet, and keeps the code's behaviour:

- SBC ignores the incoming carry, never writes V, and can only clear C.
- LSR never writes C.
- `SetCarryFlag(byte)` ANDs with `0xFE + b`, so it can clear C but never set
  it. ASL, ROL, ROR and BIT pass the carry through this overload.
- ROL and ROR always leave 0. ROL raises when the low seven bits of its
  operand exceed 1.
- BIT raises for every operand of 0x80 or more.
- `Indexed_Indirect` reduces its pointer modulo 0xFF, not 0x100.
  `Indirect_Indexed` never adds Y.
- The table passes `Indirect_Indexed` for 0xA1/0x81 and `Indexed_Indirect`
  for 0xB1/0x91.
- The table sends 0xBC to LDY with `Absolute_Indexed_X`, a mode LDY's
  switch lacks. The step raises after Y and PC have already changed.
- BRK pushes the high byte of PC + 3 and the low byte of PC + 2.
- RTI keeps the pulled reserved bit (it only masks bit 4).
- A branch offset of 0xFF lands on PC + 2.
- JSR takes 3 cycles. NOP leaves the cycle count as it was.
- The constructors copy the image to address 0. An `int` index past 0xFFFF
  (`memory[PC + 2]` with PC = 0xFFFE, for example) raises
  IndexOutOfRangeException instead of wrapping.

Modules follow the parts of the class:

| module | file | part of `CPU.cs` |
|---|---|---|
| `Bits` | bits.dfy | bitwise `&`, `\|`, `^` on bytes, defined bit by bit |
| `Machine` | machine.dfy | fields, status packing, modes, mnemonics, faults |
| `Flags` | flags.dfy | the flag getters and setters and the Z/N helpers |
| `Stack` | stack.dfy | `PushToStack`, `PullFromStack` |
| `Timing` | timing.dfy | the handlers' closing cycle-count switches |
| `Addressing` | addressing.dfy | `GetMemoryAddress` |
| `LoadStore`, `Arithmetic`, `Logic`, `Shifts`, `Control`, `Implied` | | the handlers |
| `Dispatch` | dispatch.dfy | `EmulateCycle` and its opcode table |
| `Lifecycle` | lifecycle.dfy | the constructors and `InitializeCPU` |
| `Properties`, `Scenarios` | properties.dfy, scenarios.dfy | properties across several operations, and short programs run step by step |

## Model

| member | source | states |
|---|---|---|
| Machine.ReadAt | 6502EMU/CPU.cs:2171-2173 | An `int`-indexed memory read succeeds exactly below 0x10000 and returns that byte; past it, it raises IndexOutOfRange with the state unchanged. |
| Machine.StatusByteRoundTrip | 6502EMU/CPU.cs:53-57 | Packing the eight flags into the status byte and reading them back gives the same flags. |
| Machine.ByteStatusRoundTrip | 6502EMU/CPU.cs:53-57 | Reading any byte as flags and packing them again gives the same byte, so every pulled status byte is representable. |
| Machine.StatusByteBits | 6502EMU/CPU.cs:53-57 | Bit k of the packed status byte is the k-th flag, in the order C Z I D B R V N. |
| Machine.ByteRoundTrip | 6502EMU/CPU.cs:1395-1396 | Splitting a word joined from two bytes into its high and low byte gives those bytes back. |
| Machine.WordRoundTrip | 6502EMU/CPU.cs:1435-1436 | Joining a word's low and high byte gives the word back. |
| Machine.SignBitMask | 6502EMU/CPU.cs:932 | `v & 0x80` is nonzero exactly when v is 0x80 or more. |
| Machine.SignBitXor | 6502EMU/CPU.cs:932 | `u ^ v` has bit 7 set exactly when u and v differ in sign. |
| Machine.LowSevenBitsMask | 6502EMU/CPU.cs:2007-2053 | `v & 0x7F` is v modulo 0x80, the value ROL hands to the carry setter. |
| Flags.Position | 6502EMU/CPU.cs:53-57 | The bit a flag occupies, below 8. |
| Flags.PositionsDistinct | 6502EMU/CPU.cs:53-57 | No two flags share a bit of the status byte. |
| Flags.FlagIsBit | 6502EMU/CPU.cs:53-57 | Flag f is bit Position(f) of the status layout. |
| Flags.GetFlagReadsPackedBit | 6502EMU/CPU.cs:2285-2303 | Each getter returns bit Position(f) of the stored status byte, as 0 or 1. |
| Flags.SetFlag | 6502EMU/CPU.cs:2269-2415 | A boolean setter gives its flag the value passed and leaves every other flag, the reserved bit included, as it was. |
| Flags.SetCarryFromByte | 6502EMU/CPU.cs:2260-2267 | It raises for values above 1. A 0 clears C. A 1 leaves the state unchanged, so this overload never sets C. |
| Flags.SetZeroFromByte | 6502EMU/CPU.cs:2305-2323 | It raises for values above 1; otherwise Z becomes (b == 1) and nothing else changes. |
| Flags.SetOverflowFromByte | 6502EMU/CPU.cs:2375-2390 | It raises for values above 1; otherwise V becomes (b == 1) and nothing else changes. |
| Flags.GeneralFlagHelper | 6502EMU/CPU.cs:2131-2162 | Z is set exactly when the byte is 0 and N is its bit 7; no other flag changes. |
| Stack.StackAddress | 6502EMU/CPU.cs:2105 | `0x0100 \| S` always lies in page 1 (0x0100 to 0x01FF). |
| Stack.PushToStack | 6502EMU/CPU.cs:2103-2108 | A push stores at `0x0100 \| S`, then S drops by one modulo 256. |
| Stack.PushTouchesOneSlot | 6502EMU/CPU.cs:2103-2108 | A push changes one memory byte and S, nothing else, and incrementing the new S gives the old one. |
| Stack.PullFromStack | 6502EMU/CPU.cs:2110-2116 | A pull raises S by one modulo 256 first, then returns the byte at the new `0x0100 \| S`; nothing else changes. |
| Stack.PullAfterPush | 6502EMU/CPU.cs:2103-2116 | A pull right after a push returns the pushed byte and restores S. |
| Stack.PullNext | 6502EMU/CPU.cs:2110-2116 | After k pulls, the next pull returns the byte k + 1 slots above the original top of the stack. |
| Stack.PushTwo | 6502EMU/CPU.cs:1397-1398 | Two pushes put the first byte at S and the second one slot below, and S drops by two within page 1. |
| Stack.PeekTwo | 6502EMU/CPU.cs:1397-1398 | After two pushes, the top of the stack holds the second byte and the slot above it holds the first. |
| Stack.PushWrapsWithinPage | 6502EMU/CPU.cs:2103-2108 | With S = 0x00, a push writes 0x0100 and leaves S = 0xFF. |
| Timing.SetCycles | 6502EMU/CPU.cs:946-974 | A handler's closing switch succeeds exactly when it has a case for the mode, and then stores that case's cost. Otherwise it raises InvalidMode with the state as the handler left it. |
| Addressing.AbsoluteOperand | 6502EMU/CPU.cs:2171-2184 | The Absolute modes add the index to the little-endian word after the opcode, modulo 65536, and advance PC by 3. They raise exactly when PC + 2 is past 0xFFFF. |
| Addressing.ZeroPageOperand | 6502EMU/CPU.cs:2228-2247 | The zero-page modes add the index to the operand byte, modulo 256, so the address stays in page 0; PC advances by 2. |
| Addressing.IndexedIndirectOperand | 6502EMU/CPU.cs:2189-2197 | The address is the word stored at `(operand + X) % 0xFF`, and PC advances by 2. |
| Addressing.IndirectIndexedOperand | 6502EMU/CPU.cs:2206-2213 | The address is the word stored at the zero-page operand, with Y never added; PC advances by 2. |
| Addressing.IndirectOperand | 6502EMU/CPU.cs:2198-2205 | The pointer is read high byte first; the address is the word stored there; the read past a pointer of 0xFFFF raises. |
| Addressing.RelativeOperand | 6502EMU/CPU.cs:2214-2227 | PC advances by 2 before the offset is read. The read fails exactly when the new PC + 1 is past 0xFFFF, and then only PC has changed. |
| Addressing.GetMemoryAddress | 6502EMU/CPU.cs:2164-2253 | The resolver fails exactly when the mode has no case or an operand read runs past 0xFFFF. Otherwise every mode but Relative advances PC by the instruction's length, and nothing else changes. The Immediate operand is PC + 1. |
| Addressing.ZeroPageStaysInPageZero | 6502EMU/CPU.cs:2228-2247 | Every zero-page mode resolves to an address at most 0xFF. |
| Addressing.ZeroPageIndexedWrapExample | 6502EMU/CPU.cs:2232-2239 | Zero page 0xFF indexed by X = 2 resolves to 0x01. |
| LoadStore.Load | 6502EMU/CPU.cs:719-828 | LDA, LDX and LDY load the byte at the effective address into the register and report it in Z and N. The register and PC change before the mode switch, so a mode without a case raises with them changed. |
| LoadStore.Store | 6502EMU/CPU.cs:830-917 | STA, STX and STY write the register at the effective address. No register or flag changes, and memory changes nowhere else. A mode without a case raises InvalidMode after the byte is written and PC has moved. |
| LoadStore.LoadYIndexed | 6502EMU/CPU.cs:754-785 | LDY with AbsoluteIndexedX always raises. When its operand is readable, the fault is InvalidMode, and Y is already loaded from the indexed address with PC past the instruction. |
| Arithmetic.SumByte | 6502EMU/CPU.cs:931-945 | The byte ADC keeps, plus 0x100 when the sum overflows, is A + M + C. |
| Arithmetic.CarryOverflow | 6502EMU/CPU.cs:931-943 | C is the ninth bit of A + M + C. V is set when A and M agree in sign and the result disagrees. No other flag changes. |
| Arithmetic.AddWithCarry | 6502EMU/CPU.cs:919-976 | A + 0x100·C after ADC equals A + M + C before it. V is signed overflow, Z and N describe the new A, and only A, C, Z, V, N, PC and the cycles change. A mode without a case raises InvalidMode on the state at the throw, with A and C, V already written. |
| Arithmetic.SubtractWithCarry | 6502EMU/CPU.cs:1184-1224 | A becomes (A − M) mod 256 whatever the carry. C ends set only if it was set and M ≤ A. V is untouched. A mode without a case raises InvalidMode on the state at the throw, with A and the borrow already written. |
| Arithmetic.Borrow | 6502EMU/CPU.cs:2123-2129 | SBCFlagHelper clears C when M > A and otherwise keeps it; no other flag changes. |
| Arithmetic.SubtractStatus | 6502EMU/CPU.cs:2123-2129 | SBCFlagHelper can only clear C; Z and N then describe the difference. |
| Arithmetic.Compare | 6502EMU/CPU.cs:1226-1346 | CMP, CPX and CPY: C iff M ≤ register, Z iff equal, N is bit 7 of the byte difference. No register or memory changes. A mode without a case raises InvalidMode on the state at the throw, with C already written. |
| Arithmetic.CompareStatus | 6502EMU/CPU.cs:1226-1278 | The status a comparison leaves, flag by flag, with every other flag kept. |
| Arithmetic.SubtractIsGuardedCompare | 6502EMU/CPU.cs:1184-1278 | SBC's status is CMP's on the same A and M, except that C is CMP's "no borrow" ANDed with the incoming carry. |
| Arithmetic.StepMemory | 6502EMU/CPU.cs:1640-1686 | INC and DEC move the byte at the effective address by one, modulo 256, and report it in Z and N. No register changes. A mode without a case raises InvalidMode on the state at the throw, with the byte already written. |
| Arithmetic.SteppedBack | 6502EMU/CPU.cs:1640-1686 | The byte decrement undoes the byte increment, and the other way round, including at 0xFF and 0x00. |
| Arithmetic.StepMemoryUndone | 6502EMU/CPU.cs:1640-1686 | INC then DEC on the same address, through any modes, restores memory, and so does DEC then INC. |
| Logic.Logical | 6502EMU/CPU.cs:978-1097 | AND, ORA and EOR set A to the bitwise combination of A and M and report it in Z and N; no other flag changes. A mode without a case raises InvalidMode on the state at the throw, with A already written. |
| Logic.CombineBitwise | 6502EMU/CPU.cs:985-1066 | Bit k of the byte AND, ORA or EOR leaves in A is the AND, OR or XOR of bit k of M and bit k of A. |
| Logic.ExclusiveOrTwice | 6502EMU/CPU.cs:1066 | XOR with the same byte twice is the identity on every byte. |
| Logic.ExclusiveOrUndone | 6502EMU/CPU.cs:1059-1097 | A second EOR whose operand is the same byte restores the A the first EOR found. |
| Logic.BitTest | 6502EMU/CPU.cs:1694-1724 | BIT raises for M ≥ 0x80. Otherwise C is cleared, V is bit 6 of M, Z says whether A & M is 0, N is untouched and A is kept. |
| Shifts.CarryFromBit | 6502EMU/CPU.cs:2260-2267 | The byte carry setter, given 0 or 1, keeps C only when given 1. |
| Shifts.ShiftLeftStatus | 6502EMU/CPU.cs:1099-1138 | After ASL, C survives only if bit 7 was set, and Z and N describe the shifted byte. |
| Shifts.ShiftLeft | 6502EMU/CPU.cs:1099-1138 | ASL doubles the operand modulo 256, in A (2 cycles, PC + 1) or at the effective address. A mode without a case raises InvalidMode on the state at the throw, with the byte and C already written. |
| Shifts.ShiftRightStatus | 6502EMU/CPU.cs:1140-1182 | After LSR, N is clear, Z describes the halved byte, and C is never written. |
| Shifts.ShiftRight | 6502EMU/CPU.cs:1140-1182 | LSR halves the operand, in A or at the effective address. A mode without a case raises InvalidMode on the state at the throw, with the byte already written. |
| Shifts.RotateLeftStatus | 6502EMU/CPU.cs:2007-2053 | A completed ROL sets Z, clears N, and keeps C only if the low seven bits were 1. |
| Shifts.RotateLeftMaskIsZero | 6502EMU/CPU.cs:2007-2053 | The shifted byte ANDed with the old carry is 0. |
| Shifts.RotateLeft | 6502EMU/CPU.cs:2007-2053 | ROL raises when the low seven bits exceed 1. Otherwise it leaves 0 in A or at the effective address. |
| Shifts.RotateRightMaskIsZero | 6502EMU/CPU.cs:2055-2100 | `0x7F & (carry << 7)` is 0, so ROR's result is 0. |
| Shifts.RotateRightStatus | 6502EMU/CPU.cs:2055-2100 | ROR on A sets Z, clears N, and keeps C only if bit 0 was 1. |
| Shifts.RotateRight | 6502EMU/CPU.cs:2055-2100 | ROR leaves 0 in A or at the effective address. The memory form writes no flag besides C. A mode without a case raises InvalidMode on the state at the throw, with the 0 and C already written. |
| Control.Jump | 6502EMU/CPU.cs:1348-1381 | JMP Absolute goes to the word after the opcode, in 3 cycles. JMP Indirect goes to the word stored at that pointer, in 5 cycles, which are stored before any read. Other modes raise with nothing changed. |
| Control.LastByte | 6502EMU/CPU.cs:1393 | Stepping back one from PC + 3 gives the JSR's last byte, PC + 2. |
| Control.JumpToSubroutine | 6502EMU/CPU.cs:1383-1407 | JSR accepts only Absolute. It pushes PC + 2, high byte first, moves PC to the operand word and takes 3 cycles. |
| Control.CallFrom | 6502EMU/CPU.cs:1393-1401 | Once the operand is read, PC − 1 is pushed high byte first and PC moves to the target. |
| Control.ReturnFromSubroutine | 6502EMU/CPU.cs:1427-1440 | RTS pulls the low byte, then the high byte, continues one past that address and takes 6 cycles. |
| Control.ReturnFromInterrupt | 6502EMU/CPU.cs:1409-1425 | RTI pulls the status with B cleared and the reserved bit as pulled, then the return address, which it uses as is. |
| Control.ForceBreak | 6502EMU/CPU.cs:1726-1759 | BRK pushes Hi(PC + 3), Lo(PC + 2) and the status with B and bit 5 set. Then it sets I, loads PC from 0xFFFE/0xFFFF and takes 7 cycles. |
| Control.BranchHelper | 6502EMU/CPU.cs:1918-1949 | A taken branch goes to PC + 2 plus the signed offset, except that offset 0xFF goes to PC + 2; it takes 3 cycles. |
| Control.BranchTarget | 6502EMU/CPU.cs:1920-1934 | The target computed from the offset byte's address, as the signed offset plus one, with 0xFF as the exception. |
| Control.Branch | 6502EMU/CPU.cs:1763-1916 | Each of the eight branches is taken exactly when its flag has the value that takes it: a taken branch is BranchHelper, an untaken one moves PC by 2 in 2 cycles. |
| Control.BranchOn | 6502EMU/CPU.cs:1763-1779 | A taken branch runs BranchHelper. An untaken one skips two bytes in 2 cycles. Only PC and the cycles change. |
| Control.IndirectIsAbsoluteToStoredWord | 6502EMU/CPU.cs:1360-1375 | JMP Indirect goes where JMP Absolute would go with the pointed-to word as its operand. |
| Control.HelperOntoItself | 6502EMU/CPU.cs:1918-1934 | BranchHelper with offset 0xFE moves PC back onto the branch's opcode. |
| Control.BranchOntoItself | 6502EMU/CPU.cs:1918-1934 | A taken branch with offset 0xFE lands back on its own opcode. |
| Implied.FlagInstruction | 6502EMU/CPU.cs:1442-1519 | SEC, CLC, SED, CLD, SEI, CLI and CLV set one flag to its value and keep every other, in 2 cycles. |
| Implied.CopyRegister | 6502EMU/CPU.cs:1521-1590 | A transfer copies one register into another and, unless it is TXS, reports the byte in Z and N. |
| Implied.CopyBack | 6502EMU/CPU.cs:1521-1590 | Copying a register into another and straight back leaves both holding the source byte; if either copy reports, Z and N describe it; only PC (+2) and the cycles change besides. |
| Implied.TransferRoundTrip | 6502EMU/CPU.cs:1521-1590 | A transfer and its reverse (TAX/TXA, TAY/TYA, TSX/TXS, either order) leave both registers holding the source byte, reported in Z and N, with PC + 2, 2 cycles and nothing else changed. |
| Implied.StepIndex | 6502EMU/CPU.cs:1592-1638 | INX, INY, DEX and DEY move the register by one modulo 256 and report it in Z and N. |
| Implied.StepIndexUndone | 6502EMU/CPU.cs:1592-1638 | Stepping an index register up then down, or down then up, restores it across the wrap; only the flags, PC + 2 and the cycles differ. |
| Implied.IndexStepUndone | 6502EMU/CPU.cs:1592-1638 | DEX undoes INX and DEY undoes INY, and the other way round. |
| Implied.PushAccumulator | 6502EMU/CPU.cs:1954-1963 | PHA pushes A in 3 cycles. |
| Implied.PushStatus | 6502EMU/CPU.cs:1965-1976 | PHP pushes the status with B and bit 5 forced on, in 3 cycles. |
| Implied.PullAccumulator | 6502EMU/CPU.cs:1978-1992 | PLA pulls into A and reports it in Z and N, in 4 cycles. |
| Implied.PullStatus | 6502EMU/CPU.cs:1994-2005 | PLP loads every flag, B included, from the pulled byte and forces bit 5 on. |
| Implied.NoOperation | 6502EMU/CPU.cs:2118-2121 | NOP moves PC by one and changes nothing else, not even the cycle count. |
| Dispatch.Decode | 6502EMU/CPU.cs:156-717 | Every table entry except 0xBC names a mode its handler's switch accepts, and only 0x40 reaches RTI. |
| Dispatch.DecodeLoadsXY | 6502EMU/CPU.cs:158-195 | The same, for the BRK, LDX and LDY cases. |
| Dispatch.DecodeLoadsA | 6502EMU/CPU.cs:197-221 | The same, for the LDA cases. |
| Dispatch.DecodeStores | 6502EMU/CPU.cs:223-267 | The same, for the store cases. |
| Dispatch.DecodeFlags | 6502EMU/CPU.cs:269-310 | The same, for the flag instructions and BIT. |
| Dispatch.DecodeTransfers | 6502EMU/CPU.cs:312-341 | The same, for the register transfers. |
| Dispatch.DecodeSteps | 6502EMU/CPU.cs:342-393 | The same, for INX, INY, INC, DEY, DEX, DEC and NOP. |
| Dispatch.DecodeAdd | 6502EMU/CPU.cs:395-419 | The same, for the ADC cases. |
| Dispatch.DecodeSubtract | 6502EMU/CPU.cs:421-445 | The same, for the SBC cases. |
| Dispatch.DecodeAnd | 6502EMU/CPU.cs:447-471 | The same, for the AND cases. |
| Dispatch.DecodeOr | 6502EMU/CPU.cs:473-497 | The same, for the ORA cases. |
| Dispatch.DecodeExclusiveOr | 6502EMU/CPU.cs:499-523 | The same, for the EOR cases. |
| Dispatch.DecodeShifts | 6502EMU/CPU.cs:525-557 | The same, for the ASL and LSR cases. |
| Dispatch.DecodeRotates | 6502EMU/CPU.cs:673-705 | The same, for the ROL and ROR cases. |
| Dispatch.DecodeCompares | 6502EMU/CPU.cs:559-605 | The same, for CMP, CPX and CPY. |
| Dispatch.DecodeControl | 6502EMU/CPU.cs:608-671 | The same, for the branches, PHA, PHP, PLA, PLP, JMP, JSR, RTI and RTS. |
| Dispatch.Execute | 6502EMU/CPU.cs:156-717 | Handlers called without a mode never raise. No handler resets the initialised flag or the recorded opcode. Only RTI and PLP write bit 5, and PLP forces it on. |
| Dispatch.WithOperand | 6502EMU/CPU.cs:156-717 | The handlers that take a mode keep the initialised flag, the recorded opcode and bit 5. |
| Dispatch.WithoutOperand | 6502EMU/CPU.cs:156-717 | The handlers that take no mode keep the initialised flag and the recorded opcode. Only RTI and PLP write bit 5. |
| Dispatch.EmulateCycle | 6502EMU/CPU.cs:126-717 | Before initialisation a step raises and changes nothing. An opcode without a case raises UnknownOpcode with the opcode and PC. A step past the fetch records the opcode. |
| Dispatch.Dispatched | 6502EMU/CPU.cs:139-716 | A step on an opcode with a table entry runs that entry's handler, with its mode, on the state with the opcode recorded. |
| Dispatch.ReservedKept | 6502EMU/CPU.cs:126-717 | If bit 5 of the status is set, it stays set across any step that is not RTI, whether the step completes or raises. |
| Lifecycle.LoadImage | 6502EMU/CPU.cs:74-75 | The image is copied to address 0 with zeros after it; an image longer than 64 KiB makes the copy fail. |
| Lifecycle.PowerOnStatus | 6502EMU/CPU.cs:77 | A freshly constructed CPU has only bit 5 of its status set. |
| Lifecycle.Create | 6502EMU/CPU.cs:72-84 | The one-argument constructor holds the image at 0, with every register 0 and the CPU not initialised. |
| Lifecycle.CreateAt | 6502EMU/CPU.cs:86-113 | A nonzero start location overwrites 0xFFFC/0xFFFD little-endian; start 0 is the one-argument constructor. |
| Lifecycle.InitializeCPU | 6502EMU/CPU.cs:115-123 | The reset loads PC from the little-endian word at 0xFFFC and marks the CPU initialised; nothing else changes. |
| Lifecycle.ResetVectorHonoured | 6502EMU/CPU.cs:104-120 | After constructing with a nonzero start location and resetting, PC is that start location. |
| Lifecycle.ZeroStartReadsImage | 6502EMU/CPU.cs:104-120 | With start location 0 the reset reads the vector from the image, or 0 where the image is too short. |
| Properties.SubroutineFrame | 6502EMU/CPU.cs:1383-1407 | JSR leaves Lo(PC + 2) on top of the stack and Hi(PC + 2) below it, with S two slots down. |
| Properties.ReturnToCaller | 6502EMU/CPU.cs:1427-1440 | RTS over such a frame resumes at PC + 3 with S restored. |
| Properties.SubroutineRoundTrip | 6502EMU/CPU.cs:1383-1440 | JSR then RTS resumes at the instruction after the JSR with every register restored; only the two stack slots differ. |
| Properties.BreakFrame | 6502EMU/CPU.cs:1726-1759 | BRK leaves the pushed status on top, then Lo(PC + 2), then Hi(PC + 3). |
| Properties.ReturnFromFrame | 6502EMU/CPU.cs:1409-1425 | RTI over a stored status and return address restores both, with B cleared. |
| Properties.ResumedFlags | 6502EMU/CPU.cs:1409-1425 | RTI over a BRK frame restores the flags BRK found, with B clear and bit 5 set. |
| Properties.ResumedStack | 6502EMU/CPU.cs:1409-1425 | RTI three slots below S brings S back. |
| Properties.ResumeAfterBreak | 6502EMU/CPU.cs:1409-1425 | RTI over a BRK frame restores S and the flags and resumes at the pushed address. |
| Properties.BreakThenReturn | 6502EMU/CPU.cs:1726-1759 | BRK then RTI restores S and every flag (I included), with B clear and bit 5 set. It resumes at Lo(PC + 2) joined with Hi(PC + 3). |
| Properties.PaddedResume | 6502EMU/CPU.cs:1738-1739 | Lo(PC + 2) joined with Hi(PC + 3) is PC + 2 exactly when PC + 2 is not the last byte of a page. |
| Properties.BreakResumesAfterPadding | 6502EMU/CPU.cs:1738-1739 | BRK then RTI resumes at PC + 2 exactly when PC + 2 is not the last byte of a page. |
| Properties.CrossedResume | 6502EMU/CPU.cs:1738-1739 | From 0x10FD, the bytes BRK pushes join to 0x11FF. |
| Properties.BreakReturnCrossesPage | 6502EMU/CPU.cs:1738-1739 | BRK at 0x10FD followed by RTI resumes at 0x11FF, not 0x10FF. |
| Properties.PulledFlags | 6502EMU/CPU.cs:1994-2005 | PLP of a byte that reads as status q loads q with bit 5 forced on. |
| Properties.StatusRoundTrip | 6502EMU/CPU.cs:1965-2005 | PHP then PLP restores S and every flag, except that B and bit 5 come back set. |
| Properties.AccumulatorRoundTrip | 6502EMU/CPU.cs:1954-1992 | PHA then PLA gives A back, reported in Z and N, with S restored. |
| Properties.ReadsBack | 6502EMU/CPU.cs:719-828 | A load whose operand resolves to an address holding v loads v. |
| Properties.StoredAt | 6502EMU/CPU.cs:830-917 | A completed store leaves the register's value at its effective address. |
| Properties.StoreThenLoad | 6502EMU/CPU.cs:719-917 | A load from the address a store just wrote reads back the stored register. |
| Properties.LoadYIndexedAlwaysFails | 6502EMU/CPU.cs:193-195 | A step on opcode 0xBC never completes. Once its operand is readable, it raises InvalidMode with Y loaded and PC moved. |
| Scenarios.OpcodeA9 | 6502EMU/CPU.cs:198-200 | Opcode 0xA9 is LDA Immediate. |
| Scenarios.OpcodeAA | 6502EMU/CPU.cs:318-320 | Opcode 0xAA is TAX. |
| Scenarios.Opcode69 | 6502EMU/CPU.cs:396-398 | Opcode 0x69 is ADC Immediate. |
| Scenarios.OpcodeF0 | 6502EMU/CPU.cs:618-620 | Opcode 0xF0 is BEQ. |
| Scenarios.RoutesLoad | 6502EMU/CPU.cs:787-828 | Executing LDA runs the load handler. |
| Scenarios.RoutesTransfer | 6502EMU/CPU.cs:1533-1543 | Executing TAX runs the transfer and cannot raise. |
| Scenarios.RoutesAdd | 6502EMU/CPU.cs:919-976 | Executing ADC runs the add handler. |
| Scenarios.RoutesBranch | 6502EMU/CPU.cs:1781-1801 | Executing BEQ runs the branch and cannot raise. |
| Scenarios.BranchToItself | 6502EMU/CPU.cs:1781-1801 | A step on BEQ with Z set and offset 0xFE completes with PC back on the branch. |
| Scenarios.AddOneWithCarry | 6502EMU/CPU.cs:919-976 | ADC #$01 with A = 0xFF and C set gives A = 1 with C set and Z, N, V clear. |
| Scenarios.AddCarriesOut | 6502EMU/CPU.cs:919-976 | The same as one whole step of EmulateCycle. |
| Scenarios.LoadsImmediate | 6502EMU/CPU.cs:787-828 | LDA #v loads v, reports it in Z and N, moves PC past the operand and leaves memory alone. |
| Scenarios.TransfersAX | 6502EMU/CPU.cs:1533-1543 | TAX copies A into X and reports it in Z and N. |
| Scenarios.LoadFiveStep | 6502EMU/CPU.cs:198-200 | One step on LDA #5 leaves A = 5 and PC two bytes on. |
| Scenarios.TransferStep | 6502EMU/CPU.cs:318-320 | One step on TAX leaves X = A and reports it in Z and N. |
| Scenarios.LoadThenTransfer | 6502EMU/CPU.cs:198-320 | LDA #5 then TAX, two steps, leaves A = X = 5 with Z and N clear. |

## Left out

- Debug output is not modelled. This covers the `DEBUG` field, every `Console.WriteLine` in the handlers, `DebugPrintFlags`, and the `Console.WriteLine(PC)` in InitializeCPU (CPU.cs:122). It is I/O with no effect on the state.
- `ConsoleMain.cs` is not part of this model. It reads a ROM file and loops over EmulateCycle, which is host I/O.
- Page-crossing and taken-branch cycle penalties are not modelled, because the source never adds them. Its cycle counts are the fixed values of each mode switch.
- Decimal mode is not modelled beyond the D flag, because ADC and SBC never read D.
- The commented-out cycle countdown at the top of EmulateCycle is not modelled: it is dead code.
- `Addressing.RelativeOperand` and `Addressing.IndirectOperand` model resolver cases no table entry reaches. The branches and JMP read their own operands. Both are kept for completeness of GetMemoryAddress and have no lemma beyond their contracts.
- `GetReservedFlag`, `GetBreakFlag`, `GetDecimalFlag` and `GetInterruptFlag` are debugging getters. They are covered by `Flags.GetFlagReadsPackedBit`, which holds for every flag.
- Dispatch.Decode: its contract states the property every entry has, not the table itself. The table is in the function body, case for case.
- Dispatch.EmulateCycle: its contract covers the fetch and the two early faults. The link from a decoded step to its handler is `Dispatch.Dispatched`.
- Timing.CycleCost has no contract of its own. Its costs are stated through `Timing.SetCycles` and every handler's `cycles` clause.
- Scenarios.LoadThenTransfer: it does not state the final PC or cycle count; the single-step lemmas state PC for the first step.
