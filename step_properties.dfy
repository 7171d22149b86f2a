/** What one `cycle` promises: the fetch, the dispatch, the timers, and short programs run to completion. */
module StepProperties {
  import opened Types
  import opened Layout
  import opened Semantics
  import D = Decoder

  /** A cycle faults on the fetch exactly when pc + 1 is not a memory address. */
  lemma StepFetchFault(s: State, rnd: byte)
    requires WellFormed(s)
    ensures Step(s, rnd) == Err(FetchOutOfBounds) <==> s.pc as int + 1 >= MEMORY_SIZE
  {
  }

  /** The opcode is the big-endian word at pc, and it stays latched after the handler. */
  lemma StepLatchesOpcode(s: State, rnd: byte)
    requires WellFormed(s) && Step(s, rnd).Ok?
    ensures Step(s, rnd).value.opcode as int == s.memory[s.pc] as int * 0x100 + s.memory[s.pc as int + 1] as int
  {
  }

  /** An opcode whose slot is null or past its table faults, with nothing changed. */
  lemma StepUnmapped(s: State, rnd: byte)
    requires WellFormed(s) && s.pc as int + 1 < MEMORY_SIZE && D.Decode(Fetch(s)).Unmapped?
    ensures Step(s, rnd) == Err(UnmappedOpcode(D.Decode(Fetch(s)).gap))
  {
  }

  /** The two OP_NULL slots (E0 and F0 in the low byte) do nothing: the cycle only advances pc and ticks the timers. */
  lemma StepNop(s: State, rnd: byte)
    requires WellFormed(s) && s.pc as int + 1 < MEMORY_SIZE && D.Decode(Fetch(s)) == D.Nop
    ensures Step(s, rnd) == Ok(s.(opcode := Fetch(s), pc := Wrap16(s.pc as int + 2),
                                  delayTimer := Tick(s.delayTimer), soundTimer := Tick(s.soundTimer)))
  {
  }

  /** Only Fx15 and Fx18 write the timers. */
  lemma ExecTimers(s: State, ins: D.Instr, rnd: byte)
    requires WellFormed(s) && Exec(s, ins, rnd).Ok?
    ensures var t := Exec(s, ins, rnd).value;
      t.delayTimer == (if ins.SetDelay? then s.registers[ins.x] else s.delayTimer) &&
      t.soundTimer == (if ins.SetSound? then s.registers[ins.x] else s.soundTimer)
  {
    if ControlFlow(ins) {
      assert Exec(s, ins, rnd) == ExecControl(s, ins);
    } else if Arithmetic(ins) {
      assert Exec(s, ins, rnd) == Ok(ExecArithmetic(s, ins));
    } else if Transfer(ins) {
      assert Exec(s, ins, rnd) == Ok(ExecTransfer(s, ins, rnd));
    } else {
      assert Exec(s, ins, rnd) == ExecChecked(s, ins);
    }
  }

  /** Both timers tick once per cycle, after the handler: one less when positive, else 0; Fx15 and Fx18 load the value that is then ticked. */
  lemma StepTimers(s: State, rnd: byte)
    requires WellFormed(s) && Step(s, rnd).Ok?
    ensures var t, ins := Step(s, rnd).value, D.Decode(Fetch(s));
      var d := if ins.SetDelay? then s.registers[ins.x] else s.delayTimer;
      var e := if ins.SetSound? then s.registers[ins.x] else s.soundTimer;
      t.delayTimer as int == (if d > 0 then d as int - 1 else 0) &&
      t.soundTimer as int == (if e > 0 then e as int - 1 else 0)
  {
    ExecTimers(Fetched(s), D.Decode(Fetch(s)), rnd);
  }

  /** 3xkk: pc ends 4 past the instruction when Vx = kk and 2 past it otherwise. */
  lemma StepSkipEqByte(s: State, rnd: byte, x: nibble, kk: byte)
    requires WellFormed(s) && s.pc as int + 1 < MEMORY_SIZE && D.Decode(Fetch(s)) == D.SkipEqByte(x, kk)
    ensures Step(s, rnd).Ok?
    ensures Step(s, rnd).value.pc as int == (s.pc as int + if s.registers[x] == kk then 4 else 2) % 0x1_0000
  {
    var f := Fetched(s);
    assert Exec(f, D.SkipEqByte(x, kk), rnd) == Ok(SkipIf(f, f.registers[x] == kk));
  }

  /** 2nnn at pc and 00EE at nnn: two cycles return to the instruction after the call with the stack depth restored. */
  lemma StepCallThenRet(s: State, rnd1: byte, rnd2: byte)
    requires WellFormed(s) && s.pc as int + 1 < MEMORY_SIZE && s.sp as int < STACK_DEPTH
    requires D.Family(Fetch(s)) == 0x2
    requires var nnn := D.NNN(Fetch(s)) as int; nnn + 1 < MEMORY_SIZE && s.memory[nnn] == 0x00 && s.memory[nnn + 1] == 0xEE
    ensures Step(s, rnd1).Ok? && Step(Step(s, rnd1).value, rnd2).Ok?
    ensures var u := Step(Step(s, rnd1).value, rnd2).value;
      u.pc == Wrap16(s.pc as int + 2) && u.sp == s.sp && u.registers == s.registers && u.memory == s.memory
  {
    var t := Step(s, rnd1).value;
    assert t.pc == D.NNN(Fetch(s)) as word;
    assert Fetch(t) == 0x00EE;
    assert D.Decode(0x00EE) == D.Ret;
  }

  /** A fresh machine with the ROM 60 0A runs `LD V0, 0x0A` first: V0 = 10 and pc = 0x202. */
  lemma FirstInstruction(rnd: byte)
    ensures LoadRom(Initial(), [0x60, 0x0A]).Ok?
    ensures var s := LoadRom(Initial(), [0x60, 0x0A]).value;
      Step(s, rnd).Ok? && Step(s, rnd).value.registers[0] == 10 && Step(s, rnd).value.pc == 0x202
  {
    var s := LoadRom(Initial(), [0x60, 0x0A]).value;
    assert s.memory[0x200] == 0x60 && s.memory[0x201] == 0x0A;
    assert Fetch(s) == 0x600A;
    assert D.Decode(0x600A) == D.LoadByte(0, 0x0A);
  }
}
