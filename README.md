# A verified model of the `chip8` interpreter core

This project models the CHIP-8 virtual machine of `src/chip8.cpp` and `src/chip8.hpp` in Dafny.
The machine has:

- 16 byte registers V0..VF, with VF also serving as the flag register;
- 4096 bytes of memory;
- a 16-bit index register I and a 16-bit program counter;
- a 16-slot return stack with a stack pointer;
- a delay timer and a sound timer;
- the latched opcode;
- a 64 x 32 framebuffer of 32-bit cells (0 or 0xFFFFFFFF);
- 16 key flags.

The model has two layers:

- **Values.** `Semantics.State` is the machine state as a value. `Semantics` gives:
  - one function per handler;
  - `Exec`, the dispatch of a decoded instruction;
  - `Step`, one `cycle`;
  - `LoadRom`, the ROM copy of `load_rom`.

  `Decoder.Decode` replaces the tables of member-function pointers with a pure function onto the datatype `Decoder.Instr`. The function routes exactly as the primary table and the four secondary tables do, and it keeps the slots that have no handler as `Unmapped` or `Nop`. `Framebuffer` gives DRW's nested row/column loop as a function over (row, column) positions.
- **The object.** `Machine.Chip8` is the class with the source's fields. The byte arrays are Dafny arrays; the scalars are mutable fields. Every handler, the constructor, the ROM copy and `cycle` are methods with loops where the source has loops. Each method's postcondition ties `Snapshot()`, the object's state as a `Semantics.State`, to the specification function applied to the old state.

The lemmas are in `Framebuffer`, `Decoder`, `Properties` and `StepProperties`. They state what the source promises about those functions: flags, the stack round trip, DRW's collision and XOR behaviour, BCD, the store/load round trip, table routing and one cycle.

Behaviour the C++ leaves undefined is an explicit `Semantics.Fault`. Every operation that faults leaves the state unchanged. The faults are:

- CALL with 16 frames in use, and RET with none;
- a fetch at pc = 0xFFF or above;
- I + offset past memory in DRW, Fx33, Fx55 and Fx65;
- a framebuffer cell address past 2047 in DRW;
- a key number of 16 or more in Ex9E/ExA1;
- a null or out-of-range dispatch slot;
- a ROM longer than 4096 - 0x200 bytes.

The files, in dependency order:

- `types.dfy`: byte, word, nibble and address types, and 8/16-bit wrap-around.
- `layout.dfy`: constants and the font set.
- `decoder.dfy`: decoding, encoding and routing.
- `framebuffer.dfy`: DRW's pixel loop.
- `semantics.dfy`: the state and handler functions.
- `properties.dfy`: handler properties.
- `step_properties.dfy`: properties of one cycle.
- `machine.dfy`: the class.

## Model

| member | source | states |
|---|---|---|
| Layout.LowNibblesZeroDigits0To3 | src/chip8.hpp:13-16 | the glyph bytes of 0..3 have a zero low nibble |
| Layout.LowNibblesZeroDigits4To7 | src/chip8.hpp:17-20 | the glyph bytes of 4..7 have a zero low nibble |
| Layout.LowNibblesZeroDigits8ToB | src/chip8.hpp:21-24 | the glyph bytes of 8..B have a zero low nibble |
| Layout.LowNibblesZeroDigitsCToF | src/chip8.hpp:25-28 | the glyph bytes of C..F have a zero low nibble |
| Layout.FontsetLowNibblesZero | src/chip8.hpp:11-29 | the font set has 80 bytes, and every one has a zero low nibble |
| Layout.LayoutFits | src/chip8.hpp:6-10 | the font set has FONTSET_SIZE bytes; the font ends at 0x0A0, not past the program start 0x200; the framebuffer has 2048 cells |
| Decoder.Unpack | src/chip8.cpp:115-116 | the nibble and byte fields extracted by the handlers' masks and shifts recover the fields an opcode was built from |
| Decoder.UnpackByte | src/chip8.cpp:148-149 | the x and kk fields of an xkk opcode are recovered |
| Decoder.UnpackAddr | src/chip8.cpp:101 | the nnn field of an nnn opcode is recovered |
| Decoder.RoundTripClearAndReturn | src/chip8.cpp:34-35 | 00E0 decodes to CLS and 00EE to RET |
| Decoder.RoundTripNoHandler | src/chip8.hpp:49-53 | the OP_NULL slot, a null slot and a slot past a table each have an opcode that decodes back to them |
| Decoder.RoundTripAddress | src/chip8.cpp:18-28 | decoding the encoding of 1nnn, 2nnn, Annn and Bnnn gives the instruction back |
| Decoder.RoundTripImmediate | src/chip8.cpp:20-29 | decoding the encoding of 3xkk, 4xkk, 6xkk, 7xkk and Cxkk gives the instruction back |
| Decoder.RoundTripRegisterPair | src/chip8.cpp:22-40 | decoding the encoding of 5xy0, 9xy0, 8xy0, 8xy1 and 8xy2 gives the instruction back |
| Decoder.RoundTripArithmetic | src/chip8.cpp:40-45 | decoding the encoding of 8xy3 .. 8xy7 and 8xyE gives the instruction back |
| Decoder.RoundTripDraw | src/chip8.cpp:30 | decoding the encoding of Dxyn gives the instruction back |
| Decoder.RoundTripKeysAndTimers | src/chip8.cpp:47-53 | decoding the encoding of Ex9E, ExA1, Fx07, Fx0A, Fx15 and Fx18 gives the instruction back |
| Decoder.RoundTripIndex | src/chip8.cpp:54-58 | decoding the encoding of Fx1E, Fx29, Fx33, Fx55 and Fx65 gives the instruction back |
| Decoder.DecodeEncode | src/chip8.cpp:17-58 | every instruction, gap included, is decoded from its encoding |
| Decoder.RoutingFamily0 | src/chip8.hpp:96-99 | in family 0 only the low nibble routes: 0 gives CLS, E gives RET, F is past table0, anything else is a null slot |
| Decoder.RoutingFamily8 | src/chip8.hpp:101-104 | in family 8 only the low nibble routes, to the nine ALU handlers (0-7, E); 8-D are null slots and F is past table8 |
| Decoder.RoutingFamilyE | src/chip8.hpp:106-109 | in family E only the low nibble routes: 0 gives OP_NULL, 1 SKNP, E SKP, 2-D null, F past tableE |
| Decoder.RoutingFamilyF | src/chip8.hpp:111-114 | in family F the low byte routes: 00 gives OP_NULL, the nine assigned bytes give their handlers, other bytes up to 0x65 are null, above 0x65 past tableF |
| Decoder.RoutingPrimary | src/chip8.cpp:17-32 | the twelve other families always reach a handler |
| Decoder.UnmappedExactly | src/chip8.hpp:49-53 | an opcode has no handler exactly when its secondary slot is unassigned past slot 0, or lies past its table |
| Decoder.NopExactly | src/chip8.hpp:116 | only E with low nibble 0 and F with low byte 00 reach OP_NULL |
| Decoder.Table0 | src/chip8.hpp:96-99 | slot 0 is CLS, slot E is RET, an index of 0xF or more is past table0, and every other slot is null |
| Decoder.Table8 | src/chip8.hpp:101-104 | an index of 0xF or more is past table8, and an index reaches no handler exactly when it is 8 or more and not E |
| Decoder.TableE | src/chip8.hpp:106-109 | slot 0 is OP_NULL, an index of 0xF or more is past tableE, and every slot but 0, 1 and E has no handler |
| Decoder.TableF | src/chip8.hpp:111-114 | slot 00 is OP_NULL and an index above 0x65 is past tableF |
| Decoder.DecodeEncodeAddressOrImmediate | src/chip8.cpp:17-35 | decoding the encoding of a no-operand, address or immediate instruction, or of DRW, gives it back |
| Decoder.DecodeEncodeRegisters | src/chip8.cpp:17-58 | decoding the encoding of a register-pair, key, timer or index instruction gives it back |
| Framebuffer.TargetInside | src/chip8.cpp:371 | when the sprite fits, every cell address `(yPos+row)*64 + (xPos+col)` is below 2048 |
| Framebuffer.TargetInjective | src/chip8.cpp:371 | distinct (row, col) pixels of one sprite target distinct cells |
| Framebuffer.Plot | src/chip8.cpp:364-386 | the framebuffer keeps its 2048 cells through the loop |
| Framebuffer.PlotStep | src/chip8.cpp:370-384 | one inner-loop step XORs the target cell with 0xFFFFFFFF when its sprite bit is set, and reports a hit when that cell was fully on; otherwise nothing changes |
| Framebuffer.PlotCells | src/chip8.cpp:364-386 | after the loop, exactly the cells covered by a set sprite bit are XORed with 0xFFFFFFFF; all others are unchanged |
| Framebuffer.PlotCollision | src/chip8.cpp:374-380 | the loop reports a hit iff some set sprite bit targets a cell that was 0xFFFFFFFF |
| Framebuffer.DrawnTwice | src/chip8.cpp:383 | drawing the same sprite at the same place twice restores the framebuffer |
| Framebuffer.DrawnKeepsBinary | src/chip8.cpp:383 | a framebuffer of 0 / 0xFFFFFFFF cells stays so after a draw |
| Framebuffer.Drawn | src/chip8.cpp:364-386 | the whole sprite drawn keeps the framebuffer's 2048 cells; PlotCells and PlotCollision at row n state which cells it XORs and when it reports a hit |
| Semantics.FontImage | src/chip8.cpp:10-13 | memory after the font copy has 4096 bytes: font byte i at 0x050 + i, zero below 0x050 and from 0x0A0 on |
| Semantics.Sprite | src/chip8.cpp:364-366 | the sprite read for a height of n has exactly n rows, and row r is the memory byte at I + r |
| Semantics.FirstPressed | src/chip8.cpp:423-486 | the result is a pressed key, no lower key is pressed, and there is no result iff no key is pressed |
| Semantics.Exec | src/chip8.cpp:551 | each handler the dispatch reaches keeps the state well formed and the latched opcode |
| Semantics.ExecControl | src/chip8.cpp:88-144 | the control-flow handlers, OP_NULL and the gaps keep the state well formed and the opcode when they do not fault; CallPushes, RetUnderflow, JumpTargets and SkipAdvances give their results |
| Semantics.ExecArithmetic | src/chip8.cpp:162-288 | the table8 handlers keep the state well formed and the opcode; AddRegCarry, SubBorrow, SubNBorrow and the shift lemmas give their results |
| Semantics.ExecTransfer | src/chip8.cpp:412-516 | 6xkk, 7xkk, Cxkk, Fx07, Fx0A, Fx15, Fx18, Fx1E and Fx29 keep the state well formed and the opcode |
| Semantics.ExecChecked | src/chip8.cpp:352-410 | DRW, SKP, SKNP, Fx33, Fx55 and Fx65 keep the state well formed and the opcode when they do not fault |
| Semantics.Initial | src/chip8.cpp:7-13 | a new machine is well formed; InitialLayout gives its fields |
| Semantics.LoadRom | src/chip8.cpp:79-82 | a ROM that fits leaves the state well formed; LoadRomPlaces gives where it lands |
| Semantics.SetRegister | src/chip8.cpp:146-152 | a register write keeps the state well formed and the opcode |
| Semantics.SkipIf | src/chip8.cpp:113-144 | a skip changes only pc, and a failed test changes nothing |
| Semantics.Cls | src/chip8.cpp:88-91 | 00E0 changes only the framebuffer and keeps its 2048 cells; ClsClears says they are zero |
| Semantics.Ret | src/chip8.cpp:93-97 | a return that does not fault keeps the state well formed and the opcode; RetUnderflow gives the result |
| Semantics.Jump | src/chip8.cpp:99-103 | 1nnn changes only pc |
| Semantics.Call | src/chip8.cpp:105-111 | a call that does not fault keeps the state well formed and the opcode; CallPushes gives the result |
| Semantics.AddByte | src/chip8.cpp:154-160 | 7xkk keeps the state well formed and the opcode |
| Semantics.AddReg | src/chip8.cpp:195-212 | 8xy4 keeps the state well formed and the opcode; AddRegCarry gives the result |
| Semantics.Sub | src/chip8.cpp:214-229 | 8xy5 keeps the state well formed and the opcode; SubBorrow gives the result |
| Semantics.ShiftRight | src/chip8.cpp:231-244 | 8xy6 keeps the state well formed and the opcode; ShiftRightFlag gives the result |
| Semantics.SubN | src/chip8.cpp:246-261 | 8xy7 keeps the state well formed and the opcode; SubNBorrow gives the result |
| Semantics.ShiftLeft | src/chip8.cpp:280-288 | 8xyE keeps the state well formed and the opcode; ShiftLeftFlag gives the result |
| Semantics.JumpV0 | src/chip8.cpp:308-312 | Bnnn changes only pc, to at least nnn |
| Semantics.Random | src/chip8.cpp:314-320 | Cxkk keeps the state well formed and the opcode; RandomMasked gives the result |
| Semantics.Draw | src/chip8.cpp:352-387 | a draw that does not fault keeps the state well formed and the opcode; DrawFaults, DrawCollision and DrawCells give the result |
| Semantics.SkipOnKey | src/chip8.cpp:389-410 | Ex9E/ExA1 keep the state well formed and the opcode when they do not fault; SkipOnKeyTests gives the result |
| Semantics.WaitKey | src/chip8.cpp:419-491 | Fx0A keeps the state well formed and the opcode; WaitKeyPicksLowest gives the result |
| Semantics.AddIndex | src/chip8.cpp:505-509 | Fx1E changes only I |
| Semantics.LoadFont | src/chip8.cpp:511-516 | Fx29 changes only I, and I stays between 0x050 and the end of memory |
| Semantics.StoreBcd | src/chip8.cpp:518-527 | Fx33 keeps the state well formed and the opcode when it does not fault; StoreBcdDigits gives the result |
| Semantics.StoreRegs | src/chip8.cpp:529-536 | Fx55 keeps the state well formed and the opcode when it does not fault; StoreRegsWrites gives the result |
| Semantics.LoadRegs | src/chip8.cpp:538-545 | Fx65 keeps the state well formed and the opcode when it does not fault; LoadRegsReads gives the result |
| Semantics.Fetch | src/chip8.cpp:549 | the fetched word has memory[pc] as its high byte and memory[pc + 1] as its low byte |
| Semantics.Step | src/chip8.cpp:547-562 | a cycle that does not fault keeps the state well formed; the StepProperties lemmas give its result |
| Properties.InitialLayout | src/chip8.cpp:7-13 | a new machine has pc 0x200, the font at 0x050..0x09F, and zero in every other field, memory byte, register, stack slot, key and cell |
| Properties.GlyphInMemory | src/chip8.cpp:10-13 | glyph d sits in a new machine's memory at 0x050 + 5d |
| Properties.LoadRomPlaces | src/chip8.cpp:79-82 | the ROM faults iff it is longer than 4096 - 0x200 bytes; otherwise byte i lands at 0x200 + i and nothing else changes |
| Properties.AddRegCarry | src/chip8.cpp:195-212 | 8xy4, x != F: VF = 1 iff Vx + Vy > 255, Vx' = (Vx + Vy) mod 256, other registers unchanged |
| Properties.AddRegIntoFlag | src/chip8.cpp:206-211 | 8Fy4: the sum overwrites the carry, since VF is written before Vx |
| Properties.SubBorrow | src/chip8.cpp:214-229 | 8xy5, x, y != F: VF = 1 iff Vx > Vy, Vx' = (Vx - Vy) mod 256; only registers change |
| Properties.SubNBorrow | src/chip8.cpp:246-261 | 8xy7, x, y != F: VF = 1 iff Vy > Vx, Vx' = (Vy - Vx) mod 256; only registers change |
| Properties.SubReadsFlag | src/chip8.cpp:219-228 | 8xF5 with y = F subtracts the freshly written flag, not the old VF |
| Properties.LowBit | src/chip8.cpp:234 | `v & 1` is non-zero iff v is odd, which is what `v & 0x01u == 1` tests |
| Properties.HighBit | src/chip8.cpp:285 | `(v & 0x80) >> 7` is v div 128 |
| Properties.ShiftRightFlag | src/chip8.cpp:231-244 | 8xy6, x != F: VF = old bit 0, Vx' = Vx div 2; only registers change |
| Properties.ShiftLeftFlag | src/chip8.cpp:280-288 | 8xyE, x != F: VF = old bit 7, Vx' = 2 Vx mod 256; only registers change |
| Properties.RandomMasked | src/chip8.cpp:314-320 | Cxkk: Vx = r & kk for the supplied byte r, 0 when kk = 0; no other register and no other field changes |
| Properties.CallPushes | src/chip8.cpp:105-111 | 2nnn faults iff all 16 slots are in use; otherwise it stores pc at stack[sp], increments sp, jumps to nnn, and leaves other slots alone |
| Properties.RetUnderflow | src/chip8.cpp:93-97 | 00EE faults iff sp = 0; otherwise the new state is the old one with pc = stack[sp - 1] and sp - 1, and nothing else changed |
| Properties.CallThenRet | src/chip8.cpp:93-111 | CALL then RET restores every field but the stack slot the call wrote |
| Properties.JumpTargets | src/chip8.cpp:99-103 | 1nnn sets pc = nnn, and Bnnn sets pc = nnn + V0 (at most 0x10FE); nothing else changes |
| Properties.SkipAdvances | src/chip8.cpp:113-122 | a skip adds 2 to pc (mod 65536) exactly when its test holds, and changes nothing else |
| Properties.ClsClears | src/chip8.cpp:88-91 | 00E0 zeroes all 2048 cells and nothing else |
| Properties.DrawFaults | src/chip8.cpp:352-387 | Dxyn faults iff a sprite row would be read past memory or a cell address would pass 2047; the memory fault takes precedence |
| Properties.DrawCollision | src/chip8.cpp:362-380 | Dxyn: VF' = 1 iff some set sprite bit targets a fully-on cell, else 0; V0..VE unchanged; only registers and framebuffer change |
| Properties.DrawCells | src/chip8.cpp:364-386 | Dxyn XORs exactly the targeted cells with 0xFFFFFFFF and leaves the rest; only registers and framebuffer change |
| Properties.DrawKeepsBinary | src/chip8.cpp:383 | Dxyn keeps every cell in {0, 0xFFFFFFFF} |
| Properties.DrawTwice | src/chip8.cpp:352-387 | x, y != F: repeating a Dxyn restores the framebuffer |
| Properties.LoadFontGlyph | src/chip8.cpp:511-516 | Fx29 with Vx < 16, on any memory that holds the font set at 0x050..0x09F, points I at the 5-byte glyph of Vx |
| Properties.LoadRomKeepsFont | src/chip8.cpp:79-82 | loading any ROM that fits into a new machine keeps the font set at 0x050..0x09F, so Fx29 finds its glyphs after `load_rom` |
| Properties.StoreBcdDigits | src/chip8.cpp:518-527 | Fx33 faults iff I + 2 is past memory; otherwise it writes three digits < 10 at I, I+1, I+2 whose value is Vx, and nothing else changes |
| Properties.StoreBcd157 | src/chip8.cpp:518-527 | Fx33 with Vx = 157 writes 1, 5, 7 |
| Properties.StoreRegsWrites | src/chip8.cpp:529-536 | Fx55 faults iff I + x is past memory; otherwise memory[I+k] = Vk for k <= x, nothing else changes |
| Properties.LoadRegsReads | src/chip8.cpp:538-545 | Fx65 faults iff I + x is past memory; otherwise Vk = memory[I+k] for k <= x, higher registers and everything else unchanged |
| Properties.StoreThenLoad | src/chip8.cpp:529-545 | Fx55 followed by Fx65 with the same x and I changes nothing beyond what Fx55 wrote |
| Properties.WaitKeyPicksLowest | src/chip8.cpp:419-491 | Fx0A stores a pressed key with no lower key pressed into Vx and changes nothing else; with no key pressed only pc changes, dropping by 2 mod 65536 |
| Properties.SkipOnKeyTests | src/chip8.cpp:389-410 | Ex9E/ExA1 fault iff Vx >= 16; otherwise they skip iff the key's state matches, and only pc changes |
| Properties.AddIndexWraps | src/chip8.cpp:505-509 | Fx1E: I' = (I + Vx) mod 65536, no flag |
| StepProperties.StepFetchFault | src/chip8.cpp:549 | a cycle faults on the fetch iff pc + 1 is past memory |
| StepProperties.StepLatchesOpcode | src/chip8.cpp:549 | the latched opcode is memory[pc] * 256 + memory[pc + 1] |
| StepProperties.StepUnmapped | src/chip8.cpp:551 | an opcode with a null or out-of-table slot faults the cycle, with nothing changed |
| StepProperties.StepNop | src/chip8.hpp:116 | an opcode that reaches OP_NULL only advances pc by 2 and ticks the timers |
| StepProperties.ExecTimers | src/chip8.cpp:493-503 | only Fx15 and Fx18 write the timers |
| StepProperties.StepTimers | src/chip8.cpp:547-562 | after the handler each timer is ticked once: it ends one below its value when that is positive, else 0, where the value is Vx after Fx15/Fx18 and the old timer otherwise |
| StepProperties.StepSkipEqByte | src/chip8.cpp:113-122 | a 3xkk cycle leaves pc 4 past the instruction when Vx = kk and 2 past it otherwise |
| StepProperties.StepCallThenRet | src/chip8.cpp:105-111 | a CALL to an address holding 00EE returns, after two cycles, to the instruction after the call, with sp, registers and memory restored |
| StepProperties.FirstInstruction | src/chip8.cpp:146-152 | ROM 60 0A on a new machine: one cycle gives V0 = 10 and pc = 0x202 |
| Machine.Chip8.constructor | src/chip8.cpp:7-60 | the new object's state is `Initial()`, with fresh arrays |
| Machine.Chip8.CopyFontset | src/chip8.cpp:10-13 | the font copy loop leaves memory equal to `FontImage()` |
| Machine.Chip8.LoadRom | src/chip8.cpp:79-82 | the copy loop gives `LoadRom`'s state, or reports RomTooLarge and changes nothing |
| Machine.Chip8.Cls | src/chip8.cpp:88-91 | the state after the clear loop is `Cls` of the old state |
| Machine.Chip8.Ret | src/chip8.cpp:93-97 | the new state or fault is `Ret`'s |
| Machine.Chip8.Jump | src/chip8.cpp:99-103 | the new state is `Jump`'s |
| Machine.Chip8.Call | src/chip8.cpp:105-111 | the new state or fault is `Call`'s |
| Machine.Chip8.SkipIf | src/chip8.cpp:113-144 | the new state is `SkipIf`'s (3xkk, 4xkk, 5xy0, 9xy0) |
| Machine.Chip8.AddByte | src/chip8.cpp:154-160 | the new state is `AddByte`'s |
| Machine.Chip8.SetRegister | src/chip8.cpp:146-152 | the new state is `SetRegister`'s (6xkk, 8xy0-8xy3, Cxkk, Fx07) |
| Machine.Chip8.AddReg | src/chip8.cpp:195-212 | the new state is `AddReg`'s |
| Machine.Chip8.Sub | src/chip8.cpp:214-229 | the new state is `Sub`'s |
| Machine.Chip8.ShiftRight | src/chip8.cpp:231-244 | the new state is `ShiftRight`'s |
| Machine.Chip8.SubN | src/chip8.cpp:246-261 | the new state is `SubN`'s |
| Machine.Chip8.ShiftLeft | src/chip8.cpp:280-288 | the new state is `ShiftLeft`'s |
| Machine.Chip8.LoadIndex | src/chip8.cpp:302-306 | only I changes, to nnn |
| Machine.Chip8.JumpV0 | src/chip8.cpp:308-312 | the new state is `JumpV0`'s |
| Machine.Chip8.Draw | src/chip8.cpp:352-387 | the nested loops give `Draw`'s state, or its fault with nothing changed |
| Machine.Chip8.DrawRows | src/chip8.cpp:364-386 | the row loop leaves the framebuffer and VF as `Drawn` gives them for the sprite rows at I, starting from VF = 0, and no other register changes |
| Machine.Chip8.DrawRow | src/chip8.cpp:368-385 | one pass of the column loop advances the framebuffer and VF from `Plot` at (row, 0) to `Plot` at (row + 1, 0), and no other register changes |
| Machine.Chip8.DrawPixel | src/chip8.cpp:374-384 | a set bit toggles the cell and sets VF on a fully-on cell; a clear bit changes nothing |
| Machine.Chip8.SkipOnKey | src/chip8.cpp:389-410 | the new state or fault is `SkipOnKey`'s |
| Machine.Chip8.WaitKey | src/chip8.cpp:419-491 | the new state is `WaitKey`'s |
| Machine.Chip8.SetDelay | src/chip8.cpp:493-497 | only the delay timer changes, to Vx |
| Machine.Chip8.SetSound | src/chip8.cpp:499-503 | only the sound timer changes, to Vx |
| Machine.Chip8.AddIndex | src/chip8.cpp:505-509 | the new state is `AddIndex`'s |
| Machine.Chip8.LoadFont | src/chip8.cpp:511-516 | the new state is `LoadFont`'s |
| Machine.Chip8.StoreBcd | src/chip8.cpp:518-527 | the new state or fault is `StoreBcd`'s |
| Machine.Chip8.StoreRegs | src/chip8.cpp:529-536 | the copy loop gives `StoreRegs`'s state or fault |
| Machine.Chip8.LoadRegs | src/chip8.cpp:538-545 | the copy loop gives `LoadRegs`'s state or fault |
| Machine.Chip8.Dispatch | src/chip8.cpp:551 | the call through the tables gives `Exec`'s state or fault for the decoded instruction |
| Machine.Chip8.DispatchControl | src/chip8.cpp:17-35 | the control-flow handlers, OP_NULL and the gaps give `ExecControl`'s result |
| Machine.Chip8.DispatchArithmetic | src/chip8.hpp:101-104 | the table8 handlers give `ExecArithmetic`'s state |
| Machine.Chip8.DispatchTransfer | src/chip8.cpp:50-55 | the Fx07 .. Fx29 handlers and 6xkk, 7xkk and Cxkk give `ExecTransfer`'s state |
| Machine.Chip8.DispatchChecked | src/chip8.cpp:352-545 | DRW, SKP, SKNP, Fx33, Fx55 and Fx65 give `ExecChecked`'s result |
| Machine.Chip8.Cycle | src/chip8.cpp:547-562 | fetch, advance, dispatch and tick give `Step`'s state, or its fault with nothing changed |
| Machine.Chip8.FetchOpcode | src/chip8.cpp:549-550 | the opcode is latched from memory[pc], memory[pc + 1] and pc advances by 2, as `Fetched` gives |
| Machine.Chip8.TickTimers | src/chip8.cpp:553-561 | each timer drops by one when positive and stays 0 otherwise, and nothing else changes |

## Left out

- File reading in `load_rom` (src/chip8.cpp:62-78, 84) is I/O. `LoadRom` takes the ROM as a byte sequence, and a file that does not open is not modelled. The `char` to `uint8_t` conversion of each byte is the identity on the bytes.
- The random engine and its clock seed (src/chip8.cpp:7, 15) are outside the model. Cxkk takes the random byte as a parameter.
- Member-function pointers and the table arrays (src/chip8.hpp:48-53, 98-113) are not modelled as pointers. `Decoder.Decode` computes the slot they reach.
- Calling a null member pointer is undefined, and so is reading past the end of a table. Both become an `UnmappedOpcode` fault; they are not treated as a no-op.
- The commented-out older SHL and DRW (src/chip8.cpp:263-278, 322-351) are dead code.
- Rendering, keyboard mapping, sound and frame pacing are the host's job. Key flags are an input the model only reads.
- Every fault leaves the whole state unchanged, pc included, even when the fault comes from the handler after pc has already advanced. This is the model's policy for behaviour the source leaves undefined.
- Machine.Chip8.Draw: it faults as soon as the cell address of any of the 8n pixels passes 2047, lit or not, because line 371 forms that address for every pixel. The one case where this is stricter than the source is an unlit pixel at index exactly 2048, a one-past-the-end pointer that is not dereferenced.
- Concurrency with the host, which writes `input_keys` between cycles, is outside the model. Keys change only between calls.
- Framebuffer.Drawn: its own contract states only that the framebuffer keeps 2048 cells. Which cells it XORs and when it reports a hit are stated by PlotCells and PlotCollision at row n, so that proofs unfolding `Draw` do not carry those quantifiers.
