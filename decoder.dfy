/**
 * The two-level dispatch of chip8.hpp / chip8.cpp, as a pure decoder.
 *
 * The primary table is indexed by the top nibble of the opcode.  Its slots
 * 0x0, 0x8 and 0xE are secondary tables indexed by the low nibble (each with
 * 0xE + 1 slots), and slot 0xF is a secondary table indexed by the low byte
 * (0x65 + 1 slots).  A brace initialiser puts OP_NULL in slot 0 of every table;
 * every other slot that the constructor does not assign holds a null member
 * pointer.  Decoding yields either an instruction with its operand fields,
 * `Nop` for an OP_NULL slot, or `Unmapped` for a null slot or an index past the
 * end of a secondary table.
 */
module Decoder {
  import opened Types

  /** Why an opcode reaches no handler. */
  datatype Gap =
    | NullSlot    // the slot exists but holds a null member pointer
    | PastTable   // the low nibble or low byte indexes past the end of the secondary table

  datatype Instr =
    | Cls                                 // 00E0
    | Ret                                 // 00EE
    | Jump(nnn: addr)                     // 1nnn
    | Call(nnn: addr)                     // 2nnn
    | SkipEqByte(x: nibble, kk: byte)     // 3xkk
    | SkipNeByte(x: nibble, kk: byte)     // 4xkk
    | SkipEqReg(x: nibble, y: nibble)     // 5xy0
    | LoadByte(x: nibble, kk: byte)       // 6xkk
    | AddByte(x: nibble, kk: byte)        // 7xkk
    | LoadReg(x: nibble, y: nibble)       // 8xy0
    | Or(x: nibble, y: nibble)            // 8xy1
    | And(x: nibble, y: nibble)           // 8xy2
    | Xor(x: nibble, y: nibble)           // 8xy3
    | AddReg(x: nibble, y: nibble)        // 8xy4
    | Sub(x: nibble, y: nibble)           // 8xy5
    | ShiftRight(x: nibble)               // 8xy6
    | SubN(x: nibble, y: nibble)          // 8xy7
    | ShiftLeft(x: nibble)                // 8xyE
    | SkipNeReg(x: nibble, y: nibble)     // 9xy0
    | LoadIndex(nnn: addr)                // Annn
    | JumpV0(nnn: addr)                   // Bnnn
    | Random(x: nibble, kk: byte)         // Cxkk
    | Draw(x: nibble, y: nibble, n: nibble) // Dxyn
    | SkipKey(x: nibble)                  // Ex9E
    | SkipNotKey(x: nibble)               // ExA1
    | LoadDelay(x: nibble)                // Fx07
    | WaitKey(x: nibble)                  // Fx0A
    | SetDelay(x: nibble)                 // Fx15
    | SetSound(x: nibble)                 // Fx18
    | AddIndex(x: nibble)                 // Fx1E
    | LoadFont(x: nibble)                 // Fx29
    | StoreBcd(x: nibble)                 // Fx33
    | StoreRegs(x: nibble)                // Fx55
    | LoadRegs(x: nibble)                 // Fx65
    | Nop                                 // OP_NULL
    | Unmapped(gap: Gap)

  const PRIMARY_TABLE_SIZE := 0xF + 1
  const NIBBLE_TABLE_SIZE := 0xE + 1
  const BYTE_TABLE_SIZE := 0x65 + 1

  // Operand fields, as the handlers extract them with masks and shifts.

  /** `(opcode & 0xF000) >> 12`: the primary table index. */
  function Family(op: word): nibble { (op as int / 0x1000) as nibble }
  /** `(opcode & 0x0F00) >> 8`. */
  function X(op: word): nibble { (op as int / 0x100 % 0x10) as nibble }
  /** `(opcode & 0x00F0) >> 4`. */
  function Y(op: word): nibble { (op as int / 0x10 % 0x10) as nibble }
  /** `opcode & 0x000F`: the index into table0, table8 and tableE, and the sprite height. */
  function N(op: word): nibble { (op as int % 0x10) as nibble }
  /** `opcode & 0x00FF`: the index into tableF, and the immediate byte. */
  function KK(op: word): byte { (op as int % 0x100) as byte }
  /** `opcode & 0x0FFF`. */
  function NNN(op: word): addr { (op as int % 0x1000) as addr }

  /** table0: slot 0x0 is CLS, slot 0xE is RET. */
  function Table0(index: nat): (r: Instr)
    ensures r == Cls <==> index == 0x0
    ensures r == Ret <==> index == 0xE
    ensures r == Unmapped(PastTable) <==> index >= NIBBLE_TABLE_SIZE
    ensures r.Unmapped? <==> index != 0x0 && index != 0xE
  {
    if index >= NIBBLE_TABLE_SIZE then Unmapped(PastTable)
    else if index == 0x0 then Cls
    else if index == 0xE then Ret
    else Unmapped(NullSlot)
  }

  /** table8: slots 0x0 to 0x7 and 0xE are the register-register ALU operations. */
  function Table8(index: nat, x: nibble, y: nibble): (r: Instr)
    ensures r == Unmapped(PastTable) <==> index >= NIBBLE_TABLE_SIZE
    ensures r.Unmapped? <==> 0x8 <= index && index != 0xE
  {
    if index >= NIBBLE_TABLE_SIZE then Unmapped(PastTable)
    else match index
      case 0x0 => LoadReg(x, y)
      case 0x1 => Or(x, y)
      case 0x2 => And(x, y)
      case 0x3 => Xor(x, y)
      case 0x4 => AddReg(x, y)
      case 0x5 => Sub(x, y)
      case 0x6 => ShiftRight(x)
      case 0x7 => SubN(x, y)
      case 0xE => ShiftLeft(x)
      case _ => Unmapped(NullSlot)
  }

  /** tableE: slot 0x1 is SKNP and slot 0xE is SKP; slot 0x0 keeps OP_NULL. */
  function TableE(index: nat, x: nibble): (r: Instr)
    ensures r == Nop <==> index == 0x0
    ensures r == Unmapped(PastTable) <==> index >= NIBBLE_TABLE_SIZE
    ensures r.Unmapped? <==> index !in {0x0, 0x1, 0xE}
  {
    if index >= NIBBLE_TABLE_SIZE then Unmapped(PastTable)
    else if index == 0x0 then Nop
    else if index == 0x1 then SkipNotKey(x)
    else if index == 0xE then SkipKey(x)
    else Unmapped(NullSlot)
  }

  /** tableF, indexed by the low byte; slot 0x00 keeps OP_NULL. */
  function TableF(index: nat, x: nibble): (r: Instr)
    ensures r == Nop <==> index == 0x00
    ensures r == Unmapped(PastTable) <==> index >= BYTE_TABLE_SIZE
  {
    if index >= BYTE_TABLE_SIZE then Unmapped(PastTable)
    else match index
      case 0x00 => Nop
      case 0x07 => LoadDelay(x)
      case 0x0A => WaitKey(x)
      case 0x15 => SetDelay(x)
      case 0x18 => SetSound(x)
      case 0x1E => AddIndex(x)
      case 0x29 => LoadFont(x)
      case 0x33 => StoreBcd(x)
      case 0x55 => StoreRegs(x)
      case 0x65 => LoadRegs(x)
      case _ => Unmapped(NullSlot)
  }

  /** The primary table: one slot per top nibble, all sixteen assigned. */
  function Decode(op: word): Instr
  {
    var x, y := X(op), Y(op);
    match Family(op)
      case 0x0 => Table0(N(op) as nat)
      case 0x1 => Jump(NNN(op))
      case 0x2 => Call(NNN(op))
      case 0x3 => SkipEqByte(x, KK(op))
      case 0x4 => SkipNeByte(x, KK(op))
      case 0x5 => SkipEqReg(x, y)
      case 0x6 => LoadByte(x, KK(op))
      case 0x7 => AddByte(x, KK(op))
      case 0x8 => Table8(N(op) as nat, x, y)
      case 0x9 => SkipNeReg(x, y)
      case 0xA => LoadIndex(NNN(op))
      case 0xB => JumpV0(NNN(op))
      case 0xC => Random(x, KK(op))
      case 0xD => Draw(x, y, N(op))
      case 0xE => TableE(N(op) as nat, x)
      case 0xF => TableF(KK(op) as nat, x)
  }

  /** The opcode with nibbles `f x y n`, most significant first. */
  function Pack(f: nibble, x: nibble, y: nibble, n: nibble): word
  {
    (f as int * 0x1000 + x as int * 0x100 + y as int * 0x10 + n as int) as word
  }

  function PackByte(f: nibble, x: nibble, kk: byte): word
  {
    Pack(f, x, (kk as int / 0x10) as nibble, (kk as int % 0x10) as nibble)
  }

  function PackAddr(f: nibble, nnn: addr): word
  {
    Pack(f, (nnn as int / 0x100) as nibble, (nnn as int / 0x10 % 0x10) as nibble, (nnn as int % 0x10) as nibble)
  }

  /**
   * The canonical opcode of an instruction: the fields a handler ignores are
   * zero, `Nop` is E000 (tableE slot 0), a null slot is 0001 and an index past
   * a secondary table is 000F.
   */
  function Encode(i: Instr): word
  {
    match i
      case Cls => 0x00E0
      case Ret => 0x00EE
      case Jump(nnn) => PackAddr(0x1, nnn)
      case Call(nnn) => PackAddr(0x2, nnn)
      case SkipEqByte(x, kk) => PackByte(0x3, x, kk)
      case SkipNeByte(x, kk) => PackByte(0x4, x, kk)
      case SkipEqReg(x, y) => Pack(0x5, x, y, 0x0)
      case LoadByte(x, kk) => PackByte(0x6, x, kk)
      case AddByte(x, kk) => PackByte(0x7, x, kk)
      case LoadReg(x, y) => Pack(0x8, x, y, 0x0)
      case Or(x, y) => Pack(0x8, x, y, 0x1)
      case And(x, y) => Pack(0x8, x, y, 0x2)
      case Xor(x, y) => Pack(0x8, x, y, 0x3)
      case AddReg(x, y) => Pack(0x8, x, y, 0x4)
      case Sub(x, y) => Pack(0x8, x, y, 0x5)
      case ShiftRight(x) => Pack(0x8, x, 0x0, 0x6)
      case SubN(x, y) => Pack(0x8, x, y, 0x7)
      case ShiftLeft(x) => Pack(0x8, x, 0x0, 0xE)
      case SkipNeReg(x, y) => Pack(0x9, x, y, 0x0)
      case LoadIndex(nnn) => PackAddr(0xA, nnn)
      case JumpV0(nnn) => PackAddr(0xB, nnn)
      case Random(x, kk) => PackByte(0xC, x, kk)
      case Draw(x, y, n) => Pack(0xD, x, y, n)
      case SkipKey(x) => Pack(0xE, x, 0x9, 0xE)
      case SkipNotKey(x) => Pack(0xE, x, 0xA, 0x1)
      case LoadDelay(x) => Pack(0xF, x, 0x0, 0x7)
      case WaitKey(x) => Pack(0xF, x, 0x0, 0xA)
      case SetDelay(x) => Pack(0xF, x, 0x1, 0x5)
      case SetSound(x) => Pack(0xF, x, 0x1, 0x8)
      case AddIndex(x) => Pack(0xF, x, 0x1, 0xE)
      case LoadFont(x) => Pack(0xF, x, 0x2, 0x9)
      case StoreBcd(x) => Pack(0xF, x, 0x3, 0x3)
      case StoreRegs(x) => Pack(0xF, x, 0x5, 0x5)
      case LoadRegs(x) => Pack(0xF, x, 0x6, 0x5)
      case Nop => 0xE000
      case Unmapped(NullSlot) => 0x0001
      case Unmapped(PastTable) => 0x000F
  }

  /** The field extractors take a packed opcode apart again. */
  lemma Unpack(f: nibble, x: nibble, y: nibble, n: nibble)
    ensures Family(Pack(f, x, y, n)) == f && X(Pack(f, x, y, n)) == x
    ensures Y(Pack(f, x, y, n)) == y && N(Pack(f, x, y, n)) == n
    ensures KK(Pack(f, x, y, n)) as int == y as int * 0x10 + n as int
    ensures NNN(Pack(f, x, y, n)) as int == x as int * 0x100 + y as int * 0x10 + n as int
  {
    var op := Pack(f, x, y, n) as int;
    var low := y as int * 0x10 + n as int;
    assert op == (f as int * 0x10 + x as int) * 0x100 + low;
    assert op / 0x100 == f as int * 0x10 + x as int;
    assert op / 0x10 == (f as int * 0x10 + x as int) * 0x10 + y as int;
    assert op % 0x1000 == x as int * 0x100 + low;
  }

  lemma UnpackByte(f: nibble, x: nibble, kk: byte)
    ensures Family(PackByte(f, x, kk)) == f && X(PackByte(f, x, kk)) == x && KK(PackByte(f, x, kk)) == kk
  {
    Unpack(f, x, (kk as int / 0x10) as nibble, (kk as int % 0x10) as nibble);
  }

  lemma UnpackAddr(f: nibble, nnn: addr)
    ensures Family(PackAddr(f, nnn)) == f && NNN(PackAddr(f, nnn)) == nnn
  {
    Unpack(f, (nnn as int / 0x100) as nibble, (nnn as int / 0x10 % 0x10) as nibble, (nnn as int % 0x10) as nibble);
  }

  // The round trip, one lemma per operand shape: each keeps its proof small.

  lemma RoundTripClearAndReturn()
    ensures Decode(Encode(Cls)) == Cls && Decode(Encode(Ret)) == Ret
  {
  }

  lemma RoundTripNoHandler()
    ensures Decode(Encode(Nop)) == Nop
    ensures Decode(Encode(Unmapped(NullSlot))) == Unmapped(NullSlot)
    ensures Decode(Encode(Unmapped(PastTable))) == Unmapped(PastTable)
  {
    assert Family(0xE000) == 0xE && N(0xE000) == 0x0;
    assert Family(0x0001) == 0x0 && N(0x0001) == 0x1;
    assert Family(0x000F) == 0x0 && N(0x000F) == 0xF;
  }

  lemma RoundTripAddress(nnn: addr)
    ensures Decode(Encode(Jump(nnn))) == Jump(nnn) && Decode(Encode(Call(nnn))) == Call(nnn)
    ensures Decode(Encode(LoadIndex(nnn))) == LoadIndex(nnn) && Decode(Encode(JumpV0(nnn))) == JumpV0(nnn)
  {
    UnpackAddr(0x1, nnn);
    UnpackAddr(0x2, nnn);
    UnpackAddr(0xA, nnn);
    UnpackAddr(0xB, nnn);
  }

  lemma RoundTripImmediate(x: nibble, kk: byte)
    ensures Decode(Encode(SkipEqByte(x, kk))) == SkipEqByte(x, kk)
    ensures Decode(Encode(SkipNeByte(x, kk))) == SkipNeByte(x, kk)
    ensures Decode(Encode(LoadByte(x, kk))) == LoadByte(x, kk)
    ensures Decode(Encode(AddByte(x, kk))) == AddByte(x, kk)
    ensures Decode(Encode(Random(x, kk))) == Random(x, kk)
  {
    UnpackByte(0x3, x, kk);
    UnpackByte(0x4, x, kk);
    UnpackByte(0x6, x, kk);
    UnpackByte(0x7, x, kk);
    UnpackByte(0xC, x, kk);
  }

  lemma RoundTripRegisterPair(x: nibble, y: nibble)
    ensures Decode(Encode(SkipEqReg(x, y))) == SkipEqReg(x, y)
    ensures Decode(Encode(SkipNeReg(x, y))) == SkipNeReg(x, y)
    ensures Decode(Encode(LoadReg(x, y))) == LoadReg(x, y)
    ensures Decode(Encode(Or(x, y))) == Or(x, y)
    ensures Decode(Encode(And(x, y))) == And(x, y)
  {
    Unpack(0x5, x, y, 0x0);
    Unpack(0x9, x, y, 0x0);
    Unpack(0x8, x, y, 0x0);
    Unpack(0x8, x, y, 0x1);
    Unpack(0x8, x, y, 0x2);
  }

  lemma RoundTripArithmetic(x: nibble, y: nibble)
    ensures Decode(Encode(Xor(x, y))) == Xor(x, y)
    ensures Decode(Encode(AddReg(x, y))) == AddReg(x, y)
    ensures Decode(Encode(Sub(x, y))) == Sub(x, y)
    ensures Decode(Encode(SubN(x, y))) == SubN(x, y)
    ensures Decode(Encode(ShiftRight(x))) == ShiftRight(x)
    ensures Decode(Encode(ShiftLeft(x))) == ShiftLeft(x)
  {
    Unpack(0x8, x, y, 0x3);
    Unpack(0x8, x, y, 0x4);
    Unpack(0x8, x, y, 0x5);
    Unpack(0x8, x, y, 0x7);
    Unpack(0x8, x, 0x0, 0x6);
    Unpack(0x8, x, 0x0, 0xE);
  }

  lemma RoundTripDraw(x: nibble, y: nibble, n: nibble)
    ensures Decode(Encode(Draw(x, y, n))) == Draw(x, y, n)
  {
    Unpack(0xD, x, y, n);
  }

  lemma RoundTripKeysAndTimers(x: nibble)
    ensures Decode(Encode(SkipKey(x))) == SkipKey(x)
    ensures Decode(Encode(SkipNotKey(x))) == SkipNotKey(x)
    ensures Decode(Encode(LoadDelay(x))) == LoadDelay(x)
    ensures Decode(Encode(WaitKey(x))) == WaitKey(x)
    ensures Decode(Encode(SetDelay(x))) == SetDelay(x)
    ensures Decode(Encode(SetSound(x))) == SetSound(x)
  {
    Unpack(0xE, x, 0x9, 0xE);
    Unpack(0xE, x, 0xA, 0x1);
    Unpack(0xF, x, 0x0, 0x7);
    Unpack(0xF, x, 0x0, 0xA);
    Unpack(0xF, x, 0x1, 0x5);
    Unpack(0xF, x, 0x1, 0x8);
  }

  lemma RoundTripIndex(x: nibble)
    ensures Decode(Encode(AddIndex(x))) == AddIndex(x)
    ensures Decode(Encode(LoadFont(x))) == LoadFont(x)
    ensures Decode(Encode(StoreBcd(x))) == StoreBcd(x)
    ensures Decode(Encode(StoreRegs(x))) == StoreRegs(x)
    ensures Decode(Encode(LoadRegs(x))) == LoadRegs(x)
  {
    Unpack(0xF, x, 0x1, 0xE);
    Unpack(0xF, x, 0x2, 0x9);
    Unpack(0xF, x, 0x3, 0x3);
    Unpack(0xF, x, 0x5, 0x5);
    Unpack(0xF, x, 0x6, 0x5);
  }

  /** The instructions whose canonical opcode has no register-pair or key/timer/index operand. */
  predicate AddressOrImmediate(i: Instr)
  {
    i.Cls? || i.Ret? || i.Nop? || i.Unmapped? || i.Jump? || i.Call? || i.LoadIndex? || i.JumpV0? ||
    i.SkipEqByte? || i.SkipNeByte? || i.LoadByte? || i.AddByte? || i.Random? || i.Draw?
  }

  lemma DecodeEncodeAddressOrImmediate(i: Instr)
    requires AddressOrImmediate(i)
    ensures Decode(Encode(i)) == i
  {
    match i
      case Cls | Ret => RoundTripClearAndReturn();
      case Nop | Unmapped(_) => RoundTripNoHandler();
      case Jump(nnn) => RoundTripAddress(nnn);
      case Call(nnn) => RoundTripAddress(nnn);
      case LoadIndex(nnn) => RoundTripAddress(nnn);
      case JumpV0(nnn) => RoundTripAddress(nnn);
      case SkipEqByte(x, kk) => RoundTripImmediate(x, kk);
      case SkipNeByte(x, kk) => RoundTripImmediate(x, kk);
      case LoadByte(x, kk) => RoundTripImmediate(x, kk);
      case AddByte(x, kk) => RoundTripImmediate(x, kk);
      case Random(x, kk) => RoundTripImmediate(x, kk);
      case Draw(x, y, n) => RoundTripDraw(x, y, n);
  }

  lemma DecodeEncodeRegisters(i: Instr)
    requires !AddressOrImmediate(i)
    ensures Decode(Encode(i)) == i
  {
    match i
      case SkipEqReg(x, y) => RoundTripRegisterPair(x, y);
      case SkipNeReg(x, y) => RoundTripRegisterPair(x, y);
      case LoadReg(x, y) => RoundTripRegisterPair(x, y);
      case Or(x, y) => RoundTripRegisterPair(x, y);
      case And(x, y) => RoundTripRegisterPair(x, y);
      case Xor(x, y) => RoundTripArithmetic(x, y);
      case AddReg(x, y) => RoundTripArithmetic(x, y);
      case Sub(x, y) => RoundTripArithmetic(x, y);
      case SubN(x, y) => RoundTripArithmetic(x, y);
      case ShiftRight(x) => RoundTripArithmetic(x, 0);
      case ShiftLeft(x) => RoundTripArithmetic(x, 0);
      case SkipKey(x) => RoundTripKeysAndTimers(x);
      case SkipNotKey(x) => RoundTripKeysAndTimers(x);
      case LoadDelay(x) => RoundTripKeysAndTimers(x);
      case WaitKey(x) => RoundTripKeysAndTimers(x);
      case SetDelay(x) => RoundTripKeysAndTimers(x);
      case SetSound(x) => RoundTripKeysAndTimers(x);
      case AddIndex(x) => RoundTripIndex(x);
      case LoadFont(x) => RoundTripIndex(x);
      case StoreBcd(x) => RoundTripIndex(x);
      case StoreRegs(x) => RoundTripIndex(x);
      case LoadRegs(x) => RoundTripIndex(x);
  }

  /** Decoding the canonical opcode of any instruction gives that instruction back. */
  lemma DecodeEncode(i: Instr)
    ensures Decode(Encode(i)) == i
  {
    if AddressOrImmediate(i) {
      DecodeEncodeAddressOrImmediate(i);
    } else {
      DecodeEncodeRegisters(i);
    }
  }

  // Routing: which handler an opcode reaches depends only on the top nibble
  // and, for the secondary tables, on the low nibble (table0, table8, tableE)
  // or the low byte (tableF); the middle nibbles are operands only.

  lemma RoutingFamily0(op: word)
    requires Family(op) == 0x0
    ensures Decode(op) == Cls <==> N(op) == 0x0
    ensures Decode(op) == Ret <==> N(op) == 0xE
    ensures Decode(op) == Unmapped(PastTable) <==> N(op) == 0xF
    ensures Decode(op) == Unmapped(NullSlot) <==> N(op) !in {0x0, 0xE, 0xF}
  {
  }

  lemma RoutingFamily8(op: word)
    requires Family(op) == 0x8
    ensures Decode(op) == LoadReg(X(op), Y(op)) <==> N(op) == 0x0
    ensures Decode(op) == Or(X(op), Y(op)) <==> N(op) == 0x1
    ensures Decode(op) == And(X(op), Y(op)) <==> N(op) == 0x2
    ensures Decode(op) == Xor(X(op), Y(op)) <==> N(op) == 0x3
    ensures Decode(op) == AddReg(X(op), Y(op)) <==> N(op) == 0x4
    ensures Decode(op) == Sub(X(op), Y(op)) <==> N(op) == 0x5
    ensures Decode(op) == ShiftRight(X(op)) <==> N(op) == 0x6
    ensures Decode(op) == SubN(X(op), Y(op)) <==> N(op) == 0x7
    ensures Decode(op) == ShiftLeft(X(op)) <==> N(op) == 0xE
    ensures Decode(op) == Unmapped(PastTable) <==> N(op) == 0xF
    ensures Decode(op) == Unmapped(NullSlot) <==> 0x8 <= N(op) <= 0xD
  {
  }

  lemma RoutingFamilyE(op: word)
    requires Family(op) == 0xE
    ensures Decode(op) == Nop <==> N(op) == 0x0
    ensures Decode(op) == SkipNotKey(X(op)) <==> N(op) == 0x1
    ensures Decode(op) == SkipKey(X(op)) <==> N(op) == 0xE
    ensures Decode(op) == Unmapped(PastTable) <==> N(op) == 0xF
    ensures Decode(op) == Unmapped(NullSlot) <==> 0x2 <= N(op) <= 0xD
  {
  }

  /** The slots of tableF that the constructor assigns. */
  const ASSIGNED_F: set<int> := {0x07, 0x0A, 0x15, 0x18, 0x1E, 0x29, 0x33, 0x55, 0x65}

  lemma RoutingFamilyF(op: word)
    requires Family(op) == 0xF
    ensures Decode(op) == Nop <==> KK(op) == 0x00
    ensures Decode(op) == LoadDelay(X(op)) <==> KK(op) == 0x07
    ensures Decode(op) == WaitKey(X(op)) <==> KK(op) == 0x0A
    ensures Decode(op) == SetDelay(X(op)) <==> KK(op) == 0x15
    ensures Decode(op) == SetSound(X(op)) <==> KK(op) == 0x18
    ensures Decode(op) == AddIndex(X(op)) <==> KK(op) == 0x1E
    ensures Decode(op) == LoadFont(X(op)) <==> KK(op) == 0x29
    ensures Decode(op) == StoreBcd(X(op)) <==> KK(op) == 0x33
    ensures Decode(op) == StoreRegs(X(op)) <==> KK(op) == 0x55
    ensures Decode(op) == LoadRegs(X(op)) <==> KK(op) == 0x65
    ensures Decode(op) == Unmapped(PastTable) <==> KK(op) > 0x65
    ensures Decode(op) == Unmapped(NullSlot) <==> 0x00 < KK(op) <= 0x65 && KK(op) as int !in ASSIGNED_F
  {
  }

  /** Every slot of the primary table is assigned, so the other twelve families always reach a handler. */
  lemma RoutingPrimary(op: word)
    requires Family(op) !in {0x0, 0x8, 0xE, 0xF}
    ensures !Decode(op).Unmapped? && Decode(op) != Nop
  {
  }

  /** An opcode reaches no handler exactly when its secondary-table slot is null or past the table's end. */
  lemma UnmappedExactly(op: word)
    ensures Decode(op).Unmapped? <==>
      (Family(op) == 0x0 && N(op) !in {0x0, 0xE}) ||
      (Family(op) == 0x8 && N(op) !in {0x0, 0x1, 0x2, 0x3, 0x4, 0x5, 0x6, 0x7, 0xE}) ||
      (Family(op) == 0xE && N(op) !in {0x0, 0x1, 0xE}) ||
      (Family(op) == 0xF && KK(op) != 0x00 && KK(op) as int !in ASSIGNED_F)
  {
  }

  /** Only the two OP_NULL slots, E with low nibble 0 and F with low byte 00, decode to `Nop`. */
  lemma NopExactly(op: word)
    ensures Decode(op) == Nop <==> (Family(op) == 0xE && N(op) == 0x0) || (Family(op) == 0xF && KK(op) == 0x00)
  {
  }
}
