/**
 * The `chip8` class: the machine state in fields that the handlers update in
 * place.  Every method is proved against the `Semantics` function that
 * specifies it, through `Snapshot()`, the state as a value.
 */
module Machine {
  import opened Types
  import opened Layout
  import S = Semantics
  import D = Decoder
  import F = Framebuffer

  class Chip8 {
    const registers: array<byte>
    const memory: array<byte>
    var index: word
    var pc: word
    const stack: array<word>
    var sp: byte
    var delayTimer: byte
    var soundTimer: byte
    var opcode: word
    const display: array<cell>
    /** Written by the host between cycles; the interpreter only reads it. */
    const keys: array<byte>

    /** The array sizes of chip8.hpp, and a stack pointer within the stack. */
    ghost predicate Valid()
      reads this
    {
      registers.Length == REGISTER_COUNT && memory.Length == MEMORY_SIZE && stack.Length == STACK_DEPTH &&
      display.Length == DISPLAY_SIZE && keys.Length == KEY_COUNT && sp as int <= STACK_DEPTH &&
      registers != memory && registers != keys && memory != keys
    }

    /** The whole machine state as a value. */
    ghost function Snapshot(): (s: S.State)
      reads this, registers, memory, stack, display, keys
      ensures Valid() ==> S.WellFormed(s)
    {
      S.State(registers[..], memory[..], index, pc, stack[..], sp, delayTimer, soundTimer, opcode, display[..], keys[..])
    }

    /** Everything zero except pc = 0x200 and the font copied to 0x050. */
    constructor ()
      ensures Valid() && Snapshot() == S.Initial()
      ensures fresh(registers) && fresh(memory) && fresh(stack) && fresh(display) && fresh(keys)
    {
      registers := new byte[REGISTER_COUNT](_ => 0);
      memory := new byte[MEMORY_SIZE](_ => 0);
      stack := new word[STACK_DEPTH](_ => 0);
      display := new cell[DISPLAY_SIZE](_ => 0);
      keys := new byte[KEY_COUNT](_ => 0);
      index, sp, delayTimer, soundTimer, opcode := 0, 0, 0, 0, 0;
      pc := START_ADDRESS as word;
      new;
      CopyFontset();
      assert registers[..] == S.Zeros(REGISTER_COUNT, 0) && keys[..] == S.Zeros(KEY_COUNT, 0);
      assert stack[..] == S.Zeros(STACK_DEPTH, 0) && display[..] == S.Zeros(DISPLAY_SIZE, 0);
    }

    /** The constructor's loop: the 80 font bytes to 0x050 onwards, in zeroed memory. */
    method CopyFontset()
      requires memory.Length == MEMORY_SIZE && forall a :: 0 <= a < MEMORY_SIZE ==> memory[a] == 0
      modifies memory
      ensures memory[..] == S.FontImage()
    {
      LayoutFits();
      for i := 0 to FONTSET_SIZE
        invariant forall a :: 0 <= a < MEMORY_SIZE ==>
          memory[a] == if FONTSET_START_ADDRESS <= a < FONTSET_START_ADDRESS + i then FONTSET[a - FONTSET_START_ADDRESS] else 0
      {
        memory[FONTSET_START_ADDRESS + i] := FONTSET[i];
      }
      ghost var image := S.FontImage();
      assert forall a :: 0 <= a < MEMORY_SIZE ==> memory[..][a] == image[a];
    }

    /** The copy loop of `load_rom`, on the bytes the file held. */
    method LoadRom(rom: seq<byte>) returns (err: Option<S.Fault>)
      requires Valid()
      modifies memory
      ensures Valid() && S.Reflects(old(Snapshot()), S.LoadRom(old(Snapshot()), rom), err, Snapshot())
    {
      if |rom| > MEMORY_SIZE - START_ADDRESS {
        return Some(S.RomTooLarge);
      }
      for i := 0 to |rom|
        invariant forall a :: 0 <= a < MEMORY_SIZE ==>
          memory[a] == if START_ADDRESS <= a < START_ADDRESS + i then rom[a - START_ADDRESS] else old(memory[a])
      {
        memory[START_ADDRESS + i] := rom[i];
      }
      assert memory[..] == old(memory[..])[..START_ADDRESS] + rom + old(memory[..])[START_ADDRESS + |rom|..];
      err := None;
    }
    // ---- The handlers, one per OP_ member; operands come from the decoder ----

    /** OP_00E0_CLS. */
    method Cls()
      requires Valid()
      modifies display
      ensures Valid() && Snapshot() == S.Cls(old(Snapshot()))
    {
      for k := 0 to DISPLAY_SIZE
        invariant forall j :: 0 <= j < DISPLAY_SIZE ==> display[j] == if j < k then 0 else old(display[j])
      {
        display[k] := 0;
      }
      assert display[..] == S.Zeros(DISPLAY_SIZE, 0);
    }

    /** OP_00EE_RET. */
    method Ret() returns (err: Option<S.Fault>)
      requires Valid()
      modifies this
      ensures Valid() && S.Reflects(old(Snapshot()), S.Ret(old(Snapshot())), err, Snapshot())
    {
      if sp == 0 {
        return Some(S.StackUnderflow);
      }
      sp := sp - 1;
      pc := stack[sp];
      err := None;
    }

    /** OP_1nnn_JP. */
    method Jump(nnn: addr)
      requires Valid()
      modifies this
      ensures Valid() && Snapshot() == S.Jump(old(Snapshot()), nnn)
    {
      pc := nnn as word;
    }

    /** OP_2nnn_CAL. */
    method Call(nnn: addr) returns (err: Option<S.Fault>)
      requires Valid()
      modifies this, stack
      ensures Valid() && S.Reflects(old(Snapshot()), S.Call(old(Snapshot()), nnn), err, Snapshot())
    {
      if sp as int >= STACK_DEPTH {
        return Some(S.StackOverflow);
      }
      stack[sp] := pc;
      sp := sp + 1;
      pc := nnn as word;
      err := None;
    }

    /** `pc += 2` when `condition` holds: the body of the six skip handlers. */
    method SkipIf(condition: bool)
      requires Valid()
      modifies this
      ensures Valid() && Snapshot() == S.SkipIf(old(Snapshot()), condition)
    {
      if condition {
        pc := Wrap16(pc as int + 2);
      }
    }

    /** OP_7xkk_ADD. */
    method AddByte(x: nibble, kk: byte)
      requires Valid()
      modifies registers
      ensures Valid() && Snapshot() == S.AddByte(old(Snapshot()), x, kk)
    {
      registers[x] := Wrap8(registers[x] as int + kk as int);
    }

    /** OP_6xkk_LD, OP_8xy0_LD, OP_8xy1_OR, OP_8xy2_AND, OP_8xy3_XOR, OP_Cxkk_RND, OP_Fx07_LD: Vx := b. */
    method SetRegister(x: nibble, b: byte)
      requires Valid()
      modifies registers
      ensures Valid() && Snapshot() == S.SetRegister(old(Snapshot()), x, b)
    {
      registers[x] := b;
    }

    /** OP_8xy4_ADD. */
    method AddReg(x: nibble, y: nibble)
      requires Valid()
      modifies registers
      ensures Valid() && Snapshot() == S.AddReg(old(Snapshot()), x, y)
    {
      var sum := registers[x] as int + registers[y] as int;
      registers[VF] := if sum / 0x100 != 0 then 1 else 0;
      registers[x] := Wrap8(sum);
    }

    /** OP_8xy5_SUB. */
    method Sub(x: nibble, y: nibble)
      requires Valid()
      modifies registers
      ensures Valid() && Snapshot() == S.Sub(old(Snapshot()), x, y)
    {
      registers[VF] := if registers[x] > registers[y] then 1 else 0;
      registers[x] := Wrap8(registers[x] as int - registers[y] as int);
    }

    /** OP_8xy6_SHR. */
    method ShiftRight(x: nibble)
      requires Valid()
      modifies registers
      ensures Valid() && Snapshot() == S.ShiftRight(old(Snapshot()), x)
    {
      registers[VF] := if (registers[x] as bv8) & 1 != 0 then 1 else 0;
      registers[x] := registers[x] / 2;
    }

    /** OP_8xy7_SUBN. */
    method SubN(x: nibble, y: nibble)
      requires Valid()
      modifies registers
      ensures Valid() && Snapshot() == S.SubN(old(Snapshot()), x, y)
    {
      registers[VF] := if registers[y] > registers[x] then 1 else 0;
      registers[x] := Wrap8(registers[y] as int - registers[x] as int);
    }

    /** OP_8xyE_SHL. */
    method ShiftLeft(x: nibble)
      requires Valid()
      modifies registers
      ensures Valid() && Snapshot() == S.ShiftLeft(old(Snapshot()), x)
    {
      registers[VF] := (((registers[x] as bv8) & 0x80) >> 7) as byte;
      registers[x] := Wrap8(registers[x] as int * 2);
    }

    /** OP_Annn_LD. */
    method LoadIndex(nnn: addr)
      requires Valid()
      modifies this
      ensures Valid() && Snapshot() == old(Snapshot()).(index := nnn as word)
    {
      index := nnn as word;
    }

    /** OP_Bnnn_JP. */
    method JumpV0(nnn: addr)
      requires Valid()
      modifies this
      ensures Valid() && Snapshot() == S.JumpV0(old(Snapshot()), nnn)
    {
      pc := (nnn as int + registers[0] as int) as word;
    }

    /** OP_Dxyn_DRW: VF is cleared, then each lit sprite pixel sets VF on a lit cell and XORs the cell with all ones. */
    method Draw(x: nibble, y: nibble, n: nibble) returns (err: Option<S.Fault>)
      requires Valid()
      modifies registers, display
      ensures Valid() && S.Reflects(old(Snapshot()), S.Draw(old(Snapshot()), x, y, n), err, Snapshot())
    {
      var xPos := registers[x] as int % VIDEO_WIDTH;
      var yPos := registers[y] as int % VIDEO_HEIGHT;
      if n > 0 && index as int + n as int > MEMORY_SIZE {
        return Some(S.MemoryOutOfBounds);
      }
      if !F.Fits(xPos, yPos, n as nat) {
        return Some(S.DisplayOutOfBounds);
      }
      ghost var pre := Snapshot();
      ghost var sprite := S.Sprite(pre, n);
      registers[VF] := 0;
      DrawRows(xPos, yPos, n, sprite);
      assert registers[..] == pre.registers[VF := if F.Drawn(pre.display, xPos, yPos, sprite).1 then 1 else 0];
      err := None;
    }

    /** The row loop of the drawing: rows 0 .. n - 1 of the sprite at I, starting with VF = 0. */
    method DrawRows(xPos: nat, yPos: nat, n: nibble, ghost sprite: seq<byte>)
      requires Valid() && |sprite| == n as int && F.Fits(xPos, yPos, n as nat) && (n == 0 || index as int + n as int <= MEMORY_SIZE)
      requires forall r :: 0 <= r < n as int ==> sprite[r] == memory[index as int + r]
      requires registers[VF] == 0
      modifies registers, display
      ensures display[..] == F.Drawn(old(display[..]), xPos, yPos, sprite).0
      ensures registers[..] == old(registers[..])[VF := if F.Drawn(old(display[..]), xPos, yPos, sprite).1 then 1 else 0]
    {
      ghost var d0 := display[..];
      for row := 0 to n as int
        invariant F.Plot(d0, xPos, yPos, sprite, row, 0).0 == display[..]
        invariant registers[VF] == if F.Plot(d0, xPos, yPos, sprite, row, 0).1 then 1 else 0
        invariant forall k :: 0 <= k < REGISTER_COUNT && k != VF as int ==> registers[k] == old(registers[k])
      {
        DrawRow(xPos, yPos, row, memory[index as int + row], d0, sprite);
      }
    }

    /** One row of the drawing loop: the eight pixels of `spriteByte`, most significant bit first. */
    method DrawRow(xPos: nat, yPos: nat, row: nat, spriteByte: byte, ghost d0: seq<cell>, ghost sprite: seq<byte>)
      requires Valid() && |d0| == DISPLAY_SIZE && F.Fits(xPos, yPos, |sprite|) && row < |sprite| && sprite[row] == spriteByte
      requires F.Plot(d0, xPos, yPos, sprite, row, 0).0 == display[..]
      requires registers[VF] == if F.Plot(d0, xPos, yPos, sprite, row, 0).1 then 1 else 0
      modifies registers, display
      ensures F.Plot(d0, xPos, yPos, sprite, row + 1, 0).0 == display[..]
      ensures registers[VF] == if F.Plot(d0, xPos, yPos, sprite, row + 1, 0).1 then 1 else 0
      ensures forall k :: 0 <= k < REGISTER_COUNT && k != VF as int ==> registers[k] == old(registers[k])
    {
      for col := 0 to 8
        invariant F.Plot(d0, xPos, yPos, sprite, row, col).0 == display[..]
        invariant registers[VF] == if F.Plot(d0, xPos, yPos, sprite, row, col).1 then 1 else 0
        invariant forall k :: 0 <= k < REGISTER_COUNT && k != VF as int ==> registers[k] == old(registers[k])
      {
        F.PlotStep(d0, xPos, yPos, sprite, row, col, display[..], F.Plot(d0, xPos, yPos, sprite, row, col).1);
        DrawPixel(F.SpriteBit(spriteByte, col), (yPos + row) * VIDEO_WIDTH + (xPos + col));
      }
    }

    /** One pixel of the drawing loop: a lit sprite pixel sets VF on a lit cell and flips the cell. */
    method DrawPixel(lit: bool, cell: nat)
      requires Valid() && cell < DISPLAY_SIZE
      modifies registers, display
      ensures display[..] == if lit then old(display[..])[cell := old(display[cell]) ^ F.ON] else old(display[..])
      ensures registers[..] == if lit && old(display[cell]) == F.ON then old(registers[..])[VF := 1] else old(registers[..])
    {
      if lit {
        if display[cell] == F.ON {
          registers[VF] := 1;
        }
        display[cell] := display[cell] ^ F.ON;
      }
    }

    /** OP_Ex9E_SKP (`pressed`) and OP_ExA1_SKNP (`!pressed`). */
    method SkipOnKey(x: nibble, pressed: bool) returns (err: Option<S.Fault>)
      requires Valid()
      modifies this
      ensures Valid() && S.Reflects(old(Snapshot()), S.SkipOnKey(old(Snapshot()), x, pressed), err, Snapshot())
    {
      var key := registers[x];
      if key as int >= KEY_COUNT {
        return Some(S.KeyOutOfRange);
      }
      if (keys[key] != 0) == pressed {
        pc := Wrap16(pc as int + 2);
      }
      err := None;
    }

    /** OP_Fx0A_LD: the chain of tests from key 0 to key 15. */
    method WaitKey(x: nibble)
      requires Valid()
      modifies this, registers
      ensures Valid() && Snapshot() == S.WaitKey(old(Snapshot()), x)
    {
      match S.FirstPressed(keys[..], 0)
        case Some(k) =>
          registers[x] := k as byte;
        case None =>
          pc := Wrap16(pc as int - 2);
    }

    /** OP_Fx15_LD. */
    method SetDelay(x: nibble)
      requires Valid()
      modifies this
      ensures Valid() && Snapshot() == old(Snapshot()).(delayTimer := old(registers[x]))
    {
      delayTimer := registers[x];
    }

    /** OP_Fx18_LD. */
    method SetSound(x: nibble)
      requires Valid()
      modifies this
      ensures Valid() && Snapshot() == old(Snapshot()).(soundTimer := old(registers[x]))
    {
      soundTimer := registers[x];
    }

    /** OP_Fx1E_ADD. */
    method AddIndex(x: nibble)
      requires Valid()
      modifies this
      ensures Valid() && Snapshot() == S.AddIndex(old(Snapshot()), x)
    {
      index := Wrap16(index as int + registers[x] as int);
    }

    /** OP_Fx29_LD. */
    method LoadFont(x: nibble)
      requires Valid()
      modifies this
      ensures Valid() && Snapshot() == S.LoadFont(old(Snapshot()), x)
    {
      index := (FONTSET_START_ADDRESS + GLYPH_HEIGHT * registers[x] as int) as word;
    }

    /** OP_Fx33_LD. */
    method StoreBcd(x: nibble) returns (err: Option<S.Fault>)
      requires Valid()
      modifies memory
      ensures Valid() && S.Reflects(old(Snapshot()), S.StoreBcd(old(Snapshot()), x), err, Snapshot())
    {
      if index as int + 2 >= MEMORY_SIZE {
        return Some(S.MemoryOutOfBounds);
      }
      var v := registers[x];
      memory[index as int + 2] := v % 10;
      v := v / 10;
      memory[index as int + 1] := v % 10;
      v := v / 10;
      memory[index] := v;
      err := None;
    }

    /** OP_Fx55_LD. */
    method StoreRegs(x: nibble) returns (err: Option<S.Fault>)
      requires Valid()
      modifies memory
      ensures Valid() && S.Reflects(old(Snapshot()), S.StoreRegs(old(Snapshot()), x), err, Snapshot())
    {
      if index as int + x as int >= MEMORY_SIZE {
        return Some(S.MemoryOutOfBounds);
      }
      ghost var i0 := index as int;
      for i := 0 to x as int + 1
        invariant forall a :: 0 <= a < MEMORY_SIZE ==>
          memory[a] == if i0 <= a < i0 + i then registers[a - i0] else old(memory[a])
      {
        memory[index as int + i] := registers[i];
      }
      assert memory[..] == old(memory[..])[..i0] + registers[..x as int + 1] + old(memory[..])[i0 + x as int + 1..];
      err := None;
    }

    /** OP_Fx65_LD. */
    method LoadRegs(x: nibble) returns (err: Option<S.Fault>)
      requires Valid()
      modifies registers
      ensures Valid() && S.Reflects(old(Snapshot()), S.LoadRegs(old(Snapshot()), x), err, Snapshot())
    {
      if index as int + x as int >= MEMORY_SIZE {
        return Some(S.MemoryOutOfBounds);
      }
      for i := 0 to x as int + 1
        invariant forall k :: 0 <= k < REGISTER_COUNT ==>
          registers[k] == if k < i then memory[index as int + k] else old(registers[k])
      {
        registers[i] := memory[index as int + i];
      }
      assert registers[..] == memory[index .. index as int + x as int + 1] + old(registers[..])[x as int + 1..];
      err := None;
    }
    // ---- Dispatch and the cycle ----

    /** The call through the function-pointer tables, after decoding: the handler for `ins`, or a fault for an empty slot. */
    method Dispatch(ins: D.Instr, rnd: byte) returns (err: Option<S.Fault>)
      requires Valid()
      modifies this, registers, memory, stack, display
      ensures Valid() && S.Reflects(old(Snapshot()), S.Exec(old(Snapshot()), ins, rnd), err, Snapshot())
    {
      if S.ControlFlow(ins) {
        err := DispatchControl(ins);
      } else if S.Arithmetic(ins) {
        DispatchArithmetic(ins);
        err := None;
      } else if S.Transfer(ins) {
        DispatchTransfer(ins, rnd);
        err := None;
      } else {
        err := DispatchChecked(ins, rnd);
      }
    }

    method DispatchControl(ins: D.Instr) returns (err: Option<S.Fault>)
      requires Valid() && S.ControlFlow(ins)
      modifies this, stack, display
      ensures Valid() && S.Reflects(old(Snapshot()), S.ExecControl(old(Snapshot()), ins), err, Snapshot())
    {
      err := None;
      match ins
        case Cls => Cls();
        case Ret => err := Ret();
        case Jump(nnn) => Jump(nnn);
        case Call(nnn) => err := Call(nnn);
        case SkipEqByte(x, kk) => SkipIf(registers[x] == kk);
        case SkipNeByte(x, kk) => SkipIf(registers[x] != kk);
        case SkipEqReg(x, y) => SkipIf(registers[x] == registers[y]);
        case SkipNeReg(x, y) => SkipIf(registers[x] != registers[y]);
        case LoadIndex(nnn) => LoadIndex(nnn);
        case JumpV0(nnn) => JumpV0(nnn);
        case Nop =>
        case Unmapped(gap) => err := Some(S.UnmappedOpcode(gap));
    }

    /** The handlers of `Table8`. */
    method DispatchArithmetic(ins: D.Instr)
      requires Valid() && S.Arithmetic(ins)
      modifies registers
      ensures Valid() && S.ExecArithmetic(old(Snapshot()), ins) == Snapshot()
    {
      match ins
        case LoadReg(x, y) => SetRegister(x, registers[y]);
        case Or(x, y) => SetRegister(x, S.BitOr(registers[x], registers[y]));
        case And(x, y) => SetRegister(x, S.BitAnd(registers[x], registers[y]));
        case Xor(x, y) => SetRegister(x, S.BitXor(registers[x], registers[y]));
        case AddReg(x, y) => AddReg(x, y);
        case Sub(x, y) => Sub(x, y);
        case ShiftRight(x) => ShiftRight(x);
        case SubN(x, y) => SubN(x, y);
        case ShiftLeft(x) => ShiftLeft(x);
    }

    method DispatchTransfer(ins: D.Instr, rnd: byte)
      requires Valid() && S.Transfer(ins)
      modifies this, registers
      ensures Valid() && S.ExecTransfer(old(Snapshot()), ins, rnd) == Snapshot()
    {
      match ins
        case LoadByte(x, kk) => SetRegister(x, kk);
        case AddByte(x, kk) => AddByte(x, kk);
        case Random(x, kk) => SetRegister(x, S.BitAnd(rnd, kk));
        case LoadDelay(x) => SetRegister(x, delayTimer);
        case WaitKey(x) => WaitKey(x);
        case SetDelay(x) => SetDelay(x);
        case SetSound(x) => SetSound(x);
        case AddIndex(x) => AddIndex(x);
        case LoadFont(x) => LoadFont(x);
    }

    method DispatchChecked(ins: D.Instr, rnd: byte) returns (err: Option<S.Fault>)
      requires Valid() && !S.ControlFlow(ins) && !S.Arithmetic(ins) && !S.Transfer(ins)
      modifies this, registers, memory, display
      ensures Valid() && S.Reflects(old(Snapshot()), S.ExecChecked(old(Snapshot()), ins), err, Snapshot())
    {
      match ins
        case Draw(x, y, n) => err := Draw(x, y, n);
        case SkipKey(x) => err := SkipOnKey(x, true);
        case SkipNotKey(x) => err := SkipOnKey(x, false);
        case StoreBcd(x) => err := StoreBcd(x);
        case StoreRegs(x) => err := StoreRegs(x);
        case LoadRegs(x) => err := LoadRegs(x);
    }

    /**
     * `cycle`: fetch the big-endian opcode at pc, advance pc by 2, run its
     * handler, then tick both timers.  A fault leaves the machine as it was.
     */
    method Cycle(rnd: byte) returns (err: Option<S.Fault>)
      requires Valid()
      modifies this, registers, memory, stack, display
      ensures Valid() && S.Reflects(old(Snapshot()), S.Step(old(Snapshot()), rnd), err, Snapshot())
    {
      if pc as int + 1 >= MEMORY_SIZE {
        return Some(S.FetchOutOfBounds);
      }
      ghost var pre := Snapshot();
      var savedPc, savedOpcode := pc, opcode;
      FetchOpcode();
      ghost var r := S.Exec(S.Fetched(pre), D.Decode(opcode), rnd);
      assert S.Step(pre, rnd) == S.Ticked(r);
      err := Dispatch(D.Decode(opcode), rnd);
      if err.Some? {
        pc, opcode := savedPc, savedOpcode;
        assert Snapshot() == pre;
        return;
      }
      TickTimers();
    }

    /** The fetch at the start of `cycle`: latch the big-endian word at pc, then advance pc by 2. */
    method FetchOpcode()
      requires Valid() && pc as int + 1 < MEMORY_SIZE
      modifies this
      ensures Valid() && Snapshot() == S.Fetched(old(Snapshot()))
    {
      opcode := (memory[pc] as int * 0x100 + memory[pc as int + 1] as int) as word;
      pc := Wrap16(pc as int + 2);
    }

    /** The end of `cycle`: each timer that is positive drops by one. */
    method TickTimers()
      requires Valid()
      modifies this
      ensures Valid() && Snapshot() == old(Snapshot()).(delayTimer := S.Tick(old(delayTimer)), soundTimer := S.Tick(old(soundTimer)))
    {
      if delayTimer > 0 {
        delayTimer := delayTimer - 1;
      }
      if soundTimer > 0 {
        soundTimer := soundTimer - 1;
      }
    }
  }

}
