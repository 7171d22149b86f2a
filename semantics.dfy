/**
 * The machine state of the `chip8` class as a value, and what each handler,
 * one cycle and the ROM copy do to it.  These functions are the specification
 * that the methods of `Machine.Chip8` are proved against.
 *
 * Every case the C++ leaves undefined is an explicit `Fault`, and a faulting
 * operation changes nothing.
 */
module Semantics {
  import opened Types
  import opened Layout
  import D = Decoder
  import F = Framebuffer

  datatype State = State(
    registers: seq<byte>,   // V0 .. VF
    memory: seq<byte>,
    index: word,            // I
    pc: word,
    stack: seq<word>,
    sp: byte,               // the next free stack slot
    delayTimer: byte,
    soundTimer: byte,
    opcode: word,           // the opcode latched by the last fetch
    display: seq<cell>,     // 64 x 32, row-major
    keys: seq<byte>)        // non-zero: pressed; written only by the host

  /** The fixed sizes of the arrays of chip8.hpp; the stack pointer never passes the stack's depth. */
  predicate WellFormed(s: State)
  {
    |s.registers| == REGISTER_COUNT && |s.memory| == MEMORY_SIZE && |s.stack| == STACK_DEPTH &&
    s.sp as int <= STACK_DEPTH && |s.display| == DISPLAY_SIZE && |s.keys| == KEY_COUNT
  }

  datatype Fault =
    | FetchOutOfBounds       // pc + 1 is not a memory address
    | StackOverflow          // CALL with all 16 stack slots in use
    | StackUnderflow         // RET with an empty stack
    | MemoryOutOfBounds      // I + offset is not a memory address (DRW, Fx33, Fx55, Fx65)
    | DisplayOutOfBounds     // DRW forms a cell address past the framebuffer
    | KeyOutOfRange          // SKP / SKNP with Vx >= 16
    | UnmappedOpcode(gap: D.Gap)  // the dispatch slot is null or past its table
    | RomTooLarge            // the ROM does not fit between 0x200 and the end of memory

  /**
   * `post` is the state after an operation whose specification is `r`, and
   * `err` is what the operation reported: the new state on success, the
   * unchanged state on a fault.
   */
  predicate Reflects(pre: State, r: Result<State, Fault>, err: Option<Fault>, post: State)
  {
    match r
      case Ok(s) => err == None && post == s
      case Err(e) => err == Some(e) && post == pre
  }

  function Zeros<T>(n: nat, zero: T): (z: seq<T>)
    ensures |z| == n && forall i :: 0 <= i < n ==> z[i] == zero
  {
    seq(n, _ => zero)
  }

  /** Memory right after construction: the font at 0x050, zero elsewhere. */
  function FontImage(): (m: seq<byte>)
    ensures |m| == MEMORY_SIZE
    ensures forall a :: 0 <= a < FONTSET_START_ADDRESS ==> m[a] == 0
    ensures forall i :: 0 <= i < FONTSET_SIZE ==> m[FONTSET_START_ADDRESS + i] == FONTSET[i]
    ensures forall a :: FONTSET_START_ADDRESS + FONTSET_SIZE <= a < MEMORY_SIZE ==> m[a] == 0
  {
    LayoutFits();
    seq(MEMORY_SIZE, a requires 0 <= a < MEMORY_SIZE =>
      if FONTSET_START_ADDRESS <= a < FONTSET_START_ADDRESS + FONTSET_SIZE then FONTSET[a - FONTSET_START_ADDRESS] else 0)
  }

  /** The state the constructor builds. */
  function Initial(): (s: State)
    ensures WellFormed(s)
  {
    State(Zeros(REGISTER_COUNT, 0), FontImage(), 0, START_ADDRESS as word, Zeros(STACK_DEPTH, 0), 0, 0, 0, 0,
          Zeros(DISPLAY_SIZE, 0), Zeros(KEY_COUNT, 0))
  }

  /** The copy loop of `load_rom`: the ROM's bytes at 0x200 onwards. */
  function LoadRom(s: State, rom: seq<byte>): (r: Result<State, Fault>)
    requires WellFormed(s)
    ensures r.Ok? ==> WellFormed(r.value)
  {
    if |rom| > MEMORY_SIZE - START_ADDRESS then Err(RomTooLarge)
    else Ok(s.(memory := s.memory[..START_ADDRESS] + rom + s.memory[START_ADDRESS + |rom|..]))
  }

  // ---- The handlers ----

  function SetRegister(s: State, x: nibble, b: byte): (r: State)
    requires WellFormed(s)
    ensures WellFormed(r) && r.opcode == s.opcode
  {
    s.(registers := s.registers[x := b])
  }

  /** Advance past the next instruction when `condition` holds (`pc += 2`). */
  function SkipIf(s: State, condition: bool): (r: State)
    ensures r == s.(pc := r.pc) && (!condition ==> r == s)
  {
    if condition then s.(pc := Wrap16(s.pc as int + 2)) else s
  }

  /** 00E0: every framebuffer cell becomes 0. */
  function Cls(s: State): (r: State)
    ensures r == s.(display := r.display) && |r.display| == DISPLAY_SIZE
  {
    s.(display := Zeros(DISPLAY_SIZE, 0))
  }

  /** 00EE: pop the return address into pc; an empty stack faults. */
  function Ret(s: State): (r: Result<State, Fault>)
    requires WellFormed(s)
    ensures r.Ok? ==> WellFormed(r.value) && r.value.opcode == s.opcode
  {
    if s.sp == 0 then Err(StackUnderflow)
    else Ok(s.(sp := s.sp - 1, pc := s.stack[s.sp - 1]))
  }

  /** 1nnn. */
  function Jump(s: State, nnn: addr): (r: State)
    ensures r == s.(pc := r.pc)
  {
    s.(pc := nnn as word)
  }

  /** 2nnn: push pc and jump to nnn; a full stack faults. */
  function Call(s: State, nnn: addr): (r: Result<State, Fault>)
    requires WellFormed(s)
    ensures r.Ok? ==> WellFormed(r.value) && r.value.opcode == s.opcode
  {
    if s.sp as int >= STACK_DEPTH then Err(StackOverflow)
    else Ok(s.(stack := s.stack[s.sp := s.pc], sp := s.sp + 1, pc := nnn as word))
  }

  /** 7xkk: `Vx += kk`, wrapping, no flag. */
  function AddByte(s: State, x: nibble, kk: byte): (r: State)
    requires WellFormed(s)
    ensures WellFormed(r) && r.opcode == s.opcode
  {
    SetRegister(s, x, Wrap8(s.registers[x] as int + kk as int))
  }

  function BitOr(a: byte, b: byte): byte { ((a as bv8) | (b as bv8)) as byte }
  function BitAnd(a: byte, b: byte): byte { ((a as bv8) & (b as bv8)) as byte }
  function BitXor(a: byte, b: byte): byte { ((a as bv8) ^ (b as bv8)) as byte }

  /** 8xy4: VF is written first, from the 16-bit sum's high byte; then Vx gets the low byte. */
  function AddReg(s: State, x: nibble, y: nibble): (r: State)
    requires WellFormed(s)
    ensures WellFormed(r) && r.opcode == s.opcode
  {
    var sum := s.registers[x] as int + s.registers[y] as int;
    var flagged := s.registers[VF := if sum / 0x100 != 0 then 1 else 0];
    s.(registers := flagged[x := Wrap8(sum)])
  }

  /** 8xy5: VF = (Vx > Vy) is written first; the difference is then taken from the updated registers. */
  function Sub(s: State, x: nibble, y: nibble): (r: State)
    requires WellFormed(s)
    ensures WellFormed(r) && r.opcode == s.opcode
  {
    var flagged := s.registers[VF := if s.registers[x] > s.registers[y] then 1 else 0];
    s.(registers := flagged[x := Wrap8(flagged[x] as int - flagged[y] as int)])
  }

  /**
   * 8xy6: the test `Vx & 0x01u == 1` parses as `Vx & (0x01u == 1)`, that is
   * `Vx & 1`; VF is written first and Vx is then shifted from the updated registers.
   */
  function ShiftRight(s: State, x: nibble): (r: State)
    requires WellFormed(s)
    ensures WellFormed(r) && r.opcode == s.opcode
  {
    var flagged := s.registers[VF := if (s.registers[x] as bv8) & 1 != 0 then 1 else 0];
    s.(registers := flagged[x := flagged[x] / 2])
  }

  /** 8xy7: VF = (Vy > Vx) is written first; Vx = Vy - Vx is then taken from the updated registers. */
  function SubN(s: State, x: nibble, y: nibble): (r: State)
    requires WellFormed(s)
    ensures WellFormed(r) && r.opcode == s.opcode
  {
    var flagged := s.registers[VF := if s.registers[y] > s.registers[x] then 1 else 0];
    s.(registers := flagged[x := Wrap8(flagged[y] as int - flagged[x] as int)])
  }

  /** 8xyE: VF = (Vx & 0x80) >> 7 is written first; Vx is then doubled from the updated registers, wrapping. */
  function ShiftLeft(s: State, x: nibble): (r: State)
    requires WellFormed(s)
    ensures WellFormed(r) && r.opcode == s.opcode
  {
    var flagged := s.registers[VF := (((s.registers[x] as bv8) & 0x80) >> 7) as byte];
    s.(registers := flagged[x := Wrap8(flagged[x] as int * 2)])
  }

  /** Bnnn: `pc = nnn + V0`; the sum is at most 0x10FE, so it fits the 16-bit counter. */
  function JumpV0(s: State, nnn: addr): (r: State)
    requires WellFormed(s)
    ensures r == s.(pc := r.pc) && r.pc as int >= nnn as int
  {
    s.(pc := (nnn as int + s.registers[0] as int) as word)
  }

  /** Cxkk, with the random byte supplied by the caller. */
  function Random(s: State, x: nibble, kk: byte, rnd: byte): (r: State)
    requires WellFormed(s)
    ensures WellFormed(r) && r.opcode == s.opcode
  {
    SetRegister(s, x, BitAnd(rnd, kk))
  }

  /** The `n` sprite rows at I.  Nothing is read when `n` is 0. */
  function Sprite(s: State, n: nibble): (sprite: seq<byte>)
    requires WellFormed(s) && (n == 0 || s.index as int + n as int <= MEMORY_SIZE)
    ensures |sprite| == n as int
    ensures forall r :: 0 <= r < n as int ==> sprite[r] == s.memory[s.index as int + r]
  {
    if n == 0 then [] else s.memory[s.index .. s.index as int + n as int]
  }

  /**
   * Dxyn: the start is (Vx mod 64, Vy mod 32), computed before VF is
   * cleared; VF ends as 1 if a collision was reported and 0 otherwise.
   */
  function Draw(s: State, x: nibble, y: nibble, n: nibble): (r: Result<State, Fault>)
    requires WellFormed(s)
    ensures r.Ok? ==> WellFormed(r.value) && r.value.opcode == s.opcode
  {
    var xPos := s.registers[x] as int % VIDEO_WIDTH;
    var yPos := s.registers[y] as int % VIDEO_HEIGHT;
    if n > 0 && s.index as int + n as int > MEMORY_SIZE then Err(MemoryOutOfBounds)
    else if !F.Fits(xPos, yPos, n as nat) then Err(DisplayOutOfBounds)
    else
      var plotted := F.Drawn(s.display, xPos, yPos, Sprite(s, n));
      Ok(s.(registers := s.registers[VF := if plotted.1 then 1 else 0], display := plotted.0))
  }

  /** Ex9E (`pressed`) and ExA1 (`!pressed`): the key numbered by the value of Vx is tested. */
  function SkipOnKey(s: State, x: nibble, pressed: bool): (r: Result<State, Fault>)
    requires WellFormed(s)
    ensures r.Ok? ==> WellFormed(r.value) && r.value.opcode == s.opcode
  {
    var key := s.registers[x];
    if key as int >= KEY_COUNT then Err(KeyOutOfRange)
    else Ok(SkipIf(s, (s.keys[key] != 0) == pressed))
  }

  /** The lowest-numbered pressed key at or after `k`: the if/else-if chain of Fx0A. */
  function FirstPressed(keys: seq<byte>, k: nat): (r: Option<nat>)
    requires k <= |keys|
    ensures r.Some? ==> k <= r.value < |keys| && keys[r.value] != 0
    ensures r.Some? ==> forall j :: k <= j < r.value ==> keys[j] == 0
    ensures r.None? <==> forall j :: k <= j < |keys| ==> keys[j] == 0
    decreases |keys| - k
  {
    if k == |keys| then None
    else if keys[k] != 0 then Some(k)
    else FirstPressed(keys, k + 1)
  }

  /** Fx0A: Vx = the lowest pressed key; with no key pressed, `pc -= 2` so that the instruction runs again. */
  function WaitKey(s: State, x: nibble): (r: State)
    requires WellFormed(s)
    ensures WellFormed(r) && r.opcode == s.opcode
  {
    match FirstPressed(s.keys, 0)
      case Some(k) => SetRegister(s, x, k as byte)
      case None => s.(pc := Wrap16(s.pc as int - 2))
  }

  /** Fx1E: `I += Vx`, wrapping at 16 bits, no flag. */
  function AddIndex(s: State, x: nibble): (r: State)
    requires WellFormed(s)
    ensures r == s.(index := r.index)
  {
    s.(index := Wrap16(s.index as int + s.registers[x] as int))
  }

  /** Fx29: I = 0x050 + 5 * Vx, the glyph of digit Vx (the value is not masked to a digit). */
  function LoadFont(s: State, x: nibble): (r: State)
    requires WellFormed(s)
    ensures r == s.(index := r.index) && FONTSET_START_ADDRESS <= r.index as int < MEMORY_SIZE
  {
    s.(index := (FONTSET_START_ADDRESS + GLYPH_HEIGHT * s.registers[x] as int) as word)
  }

  /** Fx33: ones at I + 2, tens at I + 1, hundreds at I, written in that order. */
  function StoreBcd(s: State, x: nibble): (r: Result<State, Fault>)
    requires WellFormed(s)
    ensures r.Ok? ==> WellFormed(r.value) && r.value.opcode == s.opcode
  {
    var i := s.index as int;
    var v := s.registers[x];
    if i + 2 >= MEMORY_SIZE then Err(MemoryOutOfBounds)
    else Ok(s.(memory := s.memory[i + 2 := v % 10][i + 1 := v / 10 % 10][i := v / 10 / 10]))
  }

  /** Fx55: memory[I + k] = Vk for k = 0 .. x. */
  function StoreRegs(s: State, x: nibble): (r: Result<State, Fault>)
    requires WellFormed(s)
    ensures r.Ok? ==> WellFormed(r.value) && r.value.opcode == s.opcode
  {
    var i := s.index as int;
    if i + x as int >= MEMORY_SIZE then Err(MemoryOutOfBounds)
    else Ok(s.(memory := s.memory[..i] + s.registers[..x as int + 1] + s.memory[i + x as int + 1..]))
  }

  /** Fx65: Vk = memory[I + k] for k = 0 .. x. */
  function LoadRegs(s: State, x: nibble): (r: Result<State, Fault>)
    requires WellFormed(s)
    ensures r.Ok? ==> WellFormed(r.value) && r.value.opcode == s.opcode
  {
    var i := s.index as int;
    if i + x as int >= MEMORY_SIZE then Err(MemoryOutOfBounds)
    else Ok(s.(registers := s.memory[i .. i + x as int + 1] + s.registers[x as int + 1..]))
  }

  /** The handlers whose only effect is on pc, I, the stack or the framebuffer clear, and the two table gaps. */
  predicate ControlFlow(ins: D.Instr)
  {
    ins.Cls? || ins.Ret? || ins.Jump? || ins.Call? || ins.SkipEqByte? || ins.SkipNeByte? || ins.SkipEqReg? ||
    ins.SkipNeReg? || ins.LoadIndex? || ins.JumpV0? || ins.Nop? || ins.Unmapped?
  }

  /** The 8xy_ handlers reached through `Table8`. */
  predicate Arithmetic(ins: D.Instr)
  {
    ins.LoadReg? || ins.Or? || ins.And? || ins.Xor? || ins.AddReg? || ins.Sub? || ins.ShiftRight? || ins.SubN? || ins.ShiftLeft?
  }

  /** The handlers that move a value into a register, a timer or I and cannot fault. */
  predicate Transfer(ins: D.Instr)
  {
    ins.LoadByte? || ins.AddByte? || ins.Random? || ins.LoadDelay? || ins.WaitKey? || ins.SetDelay? || ins.SetSound? ||
    ins.AddIndex? || ins.LoadFont?
  }

  /** Run the handler the decoder selected, on the state after the fetch. */
  function Exec(s: State, ins: D.Instr, rnd: byte): (r: Result<State, Fault>)
    requires WellFormed(s)
    ensures r.Ok? ==> WellFormed(r.value) && r.value.opcode == s.opcode
  {
    if ControlFlow(ins) then ExecControl(s, ins)
    else if Arithmetic(ins) then Ok(ExecArithmetic(s, ins))
    else if Transfer(ins) then Ok(ExecTransfer(s, ins, rnd))
    else ExecChecked(s, ins)
  }

  function ExecControl(s: State, ins: D.Instr): (r: Result<State, Fault>)
    requires WellFormed(s) && ControlFlow(ins)
    ensures r.Ok? ==> WellFormed(r.value) && r.value.opcode == s.opcode
  {
    match ins
      case Cls => Ok(Cls(s))
      case Ret => Ret(s)
      case Jump(nnn) => Ok(Jump(s, nnn))
      case Call(nnn) => Call(s, nnn)
      case SkipEqByte(x, kk) => Ok(SkipIf(s, s.registers[x] == kk))
      case SkipNeByte(x, kk) => Ok(SkipIf(s, s.registers[x] != kk))
      case SkipEqReg(x, y) => Ok(SkipIf(s, s.registers[x] == s.registers[y]))
      case SkipNeReg(x, y) => Ok(SkipIf(s, s.registers[x] != s.registers[y]))
      case LoadIndex(nnn) => Ok(s.(index := nnn as word))
      case JumpV0(nnn) => Ok(JumpV0(s, nnn))
      case Nop => Ok(s)
      case Unmapped(gap) => Err(UnmappedOpcode(gap))
  }

  function ExecArithmetic(s: State, ins: D.Instr): (r: State)
    requires WellFormed(s) && Arithmetic(ins)
    ensures WellFormed(r) && r.opcode == s.opcode
  {
    match ins
      case LoadReg(x, y) => SetRegister(s, x, s.registers[y])
      case Or(x, y) => SetRegister(s, x, BitOr(s.registers[x], s.registers[y]))
      case And(x, y) => SetRegister(s, x, BitAnd(s.registers[x], s.registers[y]))
      case Xor(x, y) => SetRegister(s, x, BitXor(s.registers[x], s.registers[y]))
      case AddReg(x, y) => AddReg(s, x, y)
      case Sub(x, y) => Sub(s, x, y)
      case ShiftRight(x) => ShiftRight(s, x)
      case SubN(x, y) => SubN(s, x, y)
      case ShiftLeft(x) => ShiftLeft(s, x)
  }

  function ExecTransfer(s: State, ins: D.Instr, rnd: byte): (r: State)
    requires WellFormed(s) && Transfer(ins)
    ensures WellFormed(r) && r.opcode == s.opcode
  {
    match ins
      case LoadByte(x, kk) => SetRegister(s, x, kk)
      case AddByte(x, kk) => AddByte(s, x, kk)
      case Random(x, kk) => Random(s, x, kk, rnd)
      case LoadDelay(x) => SetRegister(s, x, s.delayTimer)
      case WaitKey(x) => WaitKey(s, x)
      case SetDelay(x) => s.(delayTimer := s.registers[x])
      case SetSound(x) => s.(soundTimer := s.registers[x])
      case AddIndex(x) => AddIndex(s, x)
      case LoadFont(x) => LoadFont(s, x)
  }

  /** The handlers that check an address or a key index and fault when it is out of range. */
  function ExecChecked(s: State, ins: D.Instr): (r: Result<State, Fault>)
    requires WellFormed(s) && !ControlFlow(ins) && !Arithmetic(ins) && !Transfer(ins)
    ensures r.Ok? ==> WellFormed(r.value) && r.value.opcode == s.opcode
  {
    match ins
      case Draw(x, y, n) => Draw(s, x, y, n)
      case SkipKey(x) => SkipOnKey(s, x, true)
      case SkipNotKey(x) => SkipOnKey(s, x, false)
      case StoreBcd(x) => StoreBcd(s, x)
      case StoreRegs(x) => StoreRegs(s, x)
      case LoadRegs(x) => LoadRegs(s, x)
  }

  /** A timer after one cycle: one less, but never below zero. */
  function Tick(t: byte): (r: byte)
    ensures r as int == if t > 0 then t as int - 1 else 0
  {
    if t > 0 then t - 1 else t
  }

  /** `memory[pc] << 8 | memory[pc + 1]`: big-endian. */
  function Fetch(s: State): (op: word)
    requires WellFormed(s) && s.pc as int + 1 < MEMORY_SIZE
    ensures op as int / 0x100 == s.memory[s.pc] as int && op as int % 0x100 == s.memory[s.pc as int + 1] as int
  {
    (s.memory[s.pc] as int * 0x100 + s.memory[s.pc as int + 1] as int) as word
  }

  /** The state the handler runs on: the opcode at pc latched and pc advanced by 2. */
  function Fetched(s: State): (r: State)
    requires WellFormed(s) && s.pc as int + 1 < MEMORY_SIZE
    ensures WellFormed(r)
  {
    s.(opcode := Fetch(s), pc := Wrap16(s.pc as int + 2))
  }

  /** The end of a cycle: a handler's fault is passed on, otherwise both timers tick. */
  function Ticked(r: Result<State, Fault>): Result<State, Fault>
  {
    match r
      case Err(e) => Err(e)
      case Ok(t) => Ok(t.(delayTimer := Tick(t.delayTimer), soundTimer := Tick(t.soundTimer)))
  }

  /** One `cycle`: fetch, `pc += 2`, dispatch, then tick both timers. */
  function Step(s: State, rnd: byte): (r: Result<State, Fault>)
    requires WellFormed(s)
    ensures r.Ok? ==> WellFormed(r.value)
  {
    if s.pc as int + 1 >= MEMORY_SIZE then Err(FetchOutOfBounds)
    else Ticked(Exec(Fetched(s), D.Decode(Fetch(s)), rnd))
  }
}
