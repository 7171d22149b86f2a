/** What the handlers and one cycle of the interpreter promise, stated on `Semantics`. */
module Properties {
  import opened Types
  import opened Layout
  import opened Semantics
  import D = Decoder
  import F = Framebuffer

  // ---- Construction and the ROM ----

  /** The constructor's memory: the font at 0x050 .. 0x09F and zero everywhere else; pc = 0x200. */
  lemma InitialLayout()
    ensures var s := Initial();
      s.pc == 0x200 && s.index == 0 && s.sp == 0 && s.delayTimer == 0 && s.soundTimer == 0 && s.opcode == 0 &&
      (forall i :: 0 <= i < FONTSET_SIZE ==> s.memory[FONTSET_START_ADDRESS + i] == FONTSET[i]) &&
      (forall a :: 0 <= a < MEMORY_SIZE && !(FONTSET_START_ADDRESS <= a < FONTSET_START_ADDRESS + FONTSET_SIZE) ==>
         s.memory[a] == 0) &&
      (forall k :: 0 <= k < REGISTER_COUNT ==> s.registers[k] == 0 && s.keys[k] == 0 && s.stack[k] == 0) &&
      (forall k :: 0 <= k < DISPLAY_SIZE ==> s.display[k] == 0)
  {
    LayoutFits();
  }

  /** The glyph of digit `d` lies at 0x050 + 5 d in the constructor's memory. */
  lemma GlyphInMemory(d: nibble)
    ensures var a := FONTSET_START_ADDRESS + GLYPH_HEIGHT * d as int;
      a + GLYPH_HEIGHT <= MEMORY_SIZE && Initial().memory[a .. a + GLYPH_HEIGHT] == Glyph(d)
  {
    InitialLayout();
    var a := FONTSET_START_ADDRESS + GLYPH_HEIGHT * d as int;
    var m := Initial().memory;
    forall r | 0 <= r < GLYPH_HEIGHT ensures m[a .. a + GLYPH_HEIGHT][r] == Glyph(d)[r] {
      assert m[a + r] == FONTSET[GLYPH_HEIGHT * d as int + r];
    }
  }

  /** A ROM of up to 4096 - 0x200 bytes lands at 0x200 onwards; nothing else changes.  A longer one is refused. */
  lemma LoadRomPlaces(s: State, rom: seq<byte>)
    requires WellFormed(s)
    ensures LoadRom(s, rom).Err? <==> |rom| > MEMORY_SIZE - START_ADDRESS
    ensures LoadRom(s, rom).Err? ==> LoadRom(s, rom).error == RomTooLarge
    ensures LoadRom(s, rom).Ok? ==>
      var t := LoadRom(s, rom).value;
      (forall i :: 0 <= i < |rom| ==> t.memory[START_ADDRESS + i] == rom[i]) &&
      (forall a :: 0 <= a < MEMORY_SIZE && !(START_ADDRESS <= a < START_ADDRESS + |rom|) ==> t.memory[a] == s.memory[a]) &&
      t == s.(memory := t.memory)
  {
  }

  // ---- The arithmetic and logic handlers ----

  /** 8xy4 with x != F: VF is the carry out of the 8-bit sum and Vx its low byte. */
  lemma AddRegCarry(s: State, x: nibble, y: nibble)
    requires WellFormed(s) && x != VF
    ensures var t := AddReg(s, x, y); var sum := s.registers[x] as int + s.registers[y] as int;
      t.registers[VF] == (if sum > 0xFF then 1 else 0) && t.registers[x] as int == sum % 0x100 &&
      (forall k :: 0 <= k < REGISTER_COUNT && k != x as int && k != VF as int ==> t.registers[k] == s.registers[k]) &&
      t == s.(registers := t.registers)
  {
  }

  /** 8Fy4: the sum's low byte is written to VF after the flag, so the carry is lost. */
  lemma AddRegIntoFlag(s: State, y: nibble)
    requires WellFormed(s)
    ensures AddReg(s, VF, y).registers[VF] as int == (s.registers[VF] as int + s.registers[y] as int) % 0x100
  {
  }

  /** 8xy5 with x, y != F: VF = 1 exactly when Vx > Vy (no borrow), and Vx = Vx - Vy mod 256. */
  lemma SubBorrow(s: State, x: nibble, y: nibble)
    requires WellFormed(s) && x != VF && y != VF
    ensures var t := Sub(s, x, y); var a, b := s.registers[x] as int, s.registers[y] as int;
      t.registers[VF] == (if a > b then 1 else 0) && t.registers[x] as int == (a - b) % 0x100 &&
      (forall k :: 0 <= k < REGISTER_COUNT && k != x as int && k != VF as int ==> t.registers[k] == s.registers[k]) &&
      t == s.(registers := t.registers)
  {
  }

  /** 8xy7 with x, y != F: VF = 1 exactly when Vy > Vx, and Vx = Vy - Vx mod 256. */
  lemma SubNBorrow(s: State, x: nibble, y: nibble)
    requires WellFormed(s) && x != VF && y != VF
    ensures var t := SubN(s, x, y); var a, b := s.registers[x] as int, s.registers[y] as int;
      t.registers[VF] == (if b > a then 1 else 0) && t.registers[x] as int == (b - a) % 0x100 &&
      (forall k :: 0 <= k < REGISTER_COUNT && k != x as int && k != VF as int ==> t.registers[k] == s.registers[k]) &&
      t == s.(registers := t.registers)
  {
  }

  /** 8xy5 with y = F: the flag is written before the difference is taken, so Vx loses the flag, not the old VF. */
  lemma SubReadsFlag(s: State, x: nibble)
    requires WellFormed(s) && x != VF
    ensures var a := s.registers[x] as int;
      Sub(s, x, VF).registers[x] as int == (a - (if a > s.registers[VF] as int then 1 else 0)) % 0x100
  {
  }

  /** `b & 1` as a bit-vector is the low bit of `b`. */
  lemma LowBit(b: byte)
    ensures ((b as bv8) & 1 != 0) <==> b % 2 == 1
  {
    assert ((b as bv8) & 1) as int == b as int % 2;
  }

  /** `(b & 0x80) >> 7` as a bit-vector is the top bit of `b`. */
  lemma HighBit(b: byte)
    ensures (((b as bv8) & 0x80) >> 7) as int == b as int / 0x80
  {
    assert (b as bv8) & 0x80 == if b >= 0x80 then 0x80 else 0;
  }

  /** 8xy6 with x != F: VF is the bit shifted out and Vx = Vx / 2. */
  lemma ShiftRightFlag(s: State, x: nibble)
    requires WellFormed(s) && x != VF
    ensures var t := ShiftRight(s, x); var a := s.registers[x] as int;
      t.registers[VF] as int == a % 2 && t.registers[x] as int == a / 2 &&
      (forall k :: 0 <= k < REGISTER_COUNT && k != x as int && k != VF as int ==> t.registers[k] == s.registers[k]) &&
      t == s.(registers := t.registers)
  {
    LowBit(s.registers[x]);
  }

  /** 8xyE with x != F: VF is the bit shifted out of the top and Vx = 2 Vx mod 256. */
  lemma ShiftLeftFlag(s: State, x: nibble)
    requires WellFormed(s) && x != VF
    ensures var t := ShiftLeft(s, x); var a := s.registers[x] as int;
      t.registers[VF] as int == a / 0x80 && t.registers[x] as int == (2 * a) % 0x100 &&
      (forall k :: 0 <= k < REGISTER_COUNT && k != x as int && k != VF as int ==> t.registers[k] == s.registers[k]) &&
      t == s.(registers := t.registers)
  {
    HighBit(s.registers[x]);
  }

  /** Cxkk: Vx becomes the random byte masked by kk, so kk = 0 clears it; no other register changes. */
  lemma RandomMasked(s: State, x: nibble, kk: byte, rnd: byte)
    requires WellFormed(s)
    ensures var t := Random(s, x, kk, rnd);
      t.registers[x] == BitAnd(rnd, kk) && (kk == 0 ==> t.registers[x] == 0) &&
      (forall k :: 0 <= k < REGISTER_COUNT && k != x as int ==> t.registers[k] == s.registers[k]) &&
      t == s.(registers := t.registers)
  {
  }

  // ---- The stack ----

  /** 2nnn with a free slot pushes the return address; with all 16 slots in use it faults. */
  lemma CallPushes(s: State, nnn: addr)
    requires WellFormed(s)
    ensures Call(s, nnn).Err? <==> s.sp as int == STACK_DEPTH
    ensures Call(s, nnn).Ok? ==>
      var t := Call(s, nnn).value;
      t.pc as int == nnn as int && t.sp == s.sp + 1 && t.stack[s.sp] == s.pc &&
      (forall k :: 0 <= k < STACK_DEPTH && k != s.sp as int ==> t.stack[k] == s.stack[k])
  {
  }

  /** 00EE on an empty stack faults. */
  lemma RetUnderflow(s: State)
    requires WellFormed(s)
    ensures Ret(s).Err? <==> s.sp == 0
    ensures Ret(s).Ok? ==> Ret(s).value == s.(pc := s.stack[s.sp - 1], sp := s.sp - 1)
  {
  }

  /** A call followed by a return restores pc and sp; only the stack slot written by the call differs. */
  lemma CallThenRet(s: State, nnn: addr)
    requires WellFormed(s) && s.sp as int < STACK_DEPTH
    ensures Call(s, nnn).Ok? && Ret(Call(s, nnn).value).Ok?
    ensures Ret(Call(s, nnn).value).value == s.(stack := s.stack[s.sp := s.pc])
  {
  }

  // ---- Jumps, skips and the screen clear ----

  /** 1nnn sets pc to nnn; Bnnn sets it to nnn + V0, which never exceeds 0x10FE and so never wraps. */
  lemma JumpTargets(s: State, nnn: addr)
    requires WellFormed(s)
    ensures Jump(s, nnn).pc as int == nnn as int && Jump(s, nnn) == s.(pc := Jump(s, nnn).pc)
    ensures JumpV0(s, nnn).pc as int == nnn as int + s.registers[0] as int <= 0x10FE
    ensures JumpV0(s, nnn) == s.(pc := JumpV0(s, nnn).pc)
  {
  }

  /** The four register skips move pc by 4 from the instruction when their test holds, by 2 otherwise (16-bit wrap). */
  lemma SkipAdvances(s: State, condition: bool)
    ensures SkipIf(s, condition).pc as int == (s.pc as int + if condition then 2 else 0) % 0x1_0000
    ensures SkipIf(s, condition) == s.(pc := SkipIf(s, condition).pc)
  {
  }

  /** 00E0 zeroes all 2048 cells and nothing else. */
  lemma ClsClears(s: State)
    ensures |Cls(s).display| == DISPLAY_SIZE && forall k :: 0 <= k < DISPLAY_SIZE ==> Cls(s).display[k] == 0
    ensures Cls(s) == s.(display := Cls(s).display)
  {
  }

  // ---- Dxyn ----

  /** Dxyn faults exactly when it would read past memory or form a cell address past the framebuffer. */
  lemma DrawFaults(s: State, x: nibble, y: nibble, n: nibble)
    requires WellFormed(s)
    ensures var xPos, yPos := s.registers[x] as int % VIDEO_WIDTH, s.registers[y] as int % VIDEO_HEIGHT;
      (Draw(s, x, y, n).Err? <==> (n > 0 && s.index as int + n as int > MEMORY_SIZE) || !F.Fits(xPos, yPos, n as nat)) &&
      (Draw(s, x, y, n) == Err(MemoryOutOfBounds) <==> n > 0 && s.index as int + n as int > MEMORY_SIZE)
  {
  }

  /** After Dxyn, VF is 1 exactly when some lit sprite pixel lands on a cell that was lit; the other registers keep their values. */
  lemma DrawCollision(s: State, x: nibble, y: nibble, n: nibble)
    requires WellFormed(s) && Draw(s, x, y, n).Ok?
    ensures var t, xPos, yPos := Draw(s, x, y, n).value, s.registers[x] as int % VIDEO_WIDTH, s.registers[y] as int % VIDEO_HEIGHT;
      (t.registers[VF] == 1 <==> F.Collides(s.display, xPos, yPos, Sprite(s, n), n as nat, 0)) &&
      (t.registers[VF] == 0 <==> !F.Collides(s.display, xPos, yPos, Sprite(s, n), n as nat, 0)) &&
      (forall k :: 0 <= k < VF as int ==> t.registers[k] == s.registers[k]) &&
      t == s.(registers := t.registers, display := t.display)
  {
    var xPos, yPos := s.registers[x] as int % VIDEO_WIDTH, s.registers[y] as int % VIDEO_HEIGHT;
    F.PlotCollision(s.display, xPos, yPos, Sprite(s, n), n as nat, 0);
  }

  /** After Dxyn every cell under a lit sprite pixel is XORed with all ones and every other cell is unchanged. */
  lemma DrawCells(s: State, x: nibble, y: nibble, n: nibble)
    requires WellFormed(s) && Draw(s, x, y, n).Ok?
    ensures var t, xPos, yPos := Draw(s, x, y, n).value, s.registers[x] as int % VIDEO_WIDTH, s.registers[y] as int % VIDEO_HEIGHT;
      (forall k :: 0 <= k < DISPLAY_SIZE ==>
        t.display[k] == if F.Covered(xPos, yPos, Sprite(s, n), n as nat, 0, k) then s.display[k] ^ F.ON else s.display[k]) &&
      t == s.(registers := t.registers, display := t.display)
  {
    var xPos, yPos := s.registers[x] as int % VIDEO_WIDTH, s.registers[y] as int % VIDEO_HEIGHT;
    F.PlotCells(s.display, xPos, yPos, Sprite(s, n), n as nat, 0);
  }

  /** Dxyn keeps every cell fully on or fully off. */
  lemma DrawKeepsBinary(s: State, x: nibble, y: nibble, n: nibble)
    requires WellFormed(s) && Draw(s, x, y, n).Ok? && F.Binary(s.display)
    ensures F.Binary(Draw(s, x, y, n).value.display)
  {
    var xPos, yPos := s.registers[x] as int % VIDEO_WIDTH, s.registers[y] as int % VIDEO_HEIGHT;
    F.DrawnKeepsBinary(s.display, xPos, yPos, Sprite(s, n));
  }

  /** Running the same Dxyn twice (x, y != F, so the flag write moves nothing) restores the framebuffer. */
  lemma DrawTwice(s: State, x: nibble, y: nibble, n: nibble)
    requires WellFormed(s) && Draw(s, x, y, n).Ok? && x != VF && y != VF
    ensures Draw(Draw(s, x, y, n).value, x, y, n).Ok?
    ensures Draw(Draw(s, x, y, n).value, x, y, n).value.display == s.display
  {
    var t := Draw(s, x, y, n).value;
    var xPos, yPos := s.registers[x] as int % VIDEO_WIDTH, s.registers[y] as int % VIDEO_HEIGHT;
    assert t.registers[x] == s.registers[x] && t.registers[y] == s.registers[y];
    assert Sprite(t, n) == Sprite(s, n);
    F.DrawnTwice(s.display, xPos, yPos, Sprite(s, n));
  }

  // ---- Fx29, Fx33, Fx55, Fx65 ----

  /** Fx29 for a digit: I points at that digit's glyph whenever the font region still holds the font. */
  lemma LoadFontGlyph(s: State, x: nibble)
    requires WellFormed(s) && s.registers[x] < 16
    requires s.memory[FONTSET_START_ADDRESS .. FONTSET_START_ADDRESS + FONTSET_SIZE] == FONTSET
    ensures var i := LoadFont(s, x).index as int;
      i + GLYPH_HEIGHT <= MEMORY_SIZE && s.memory[i .. i + GLYPH_HEIGHT] == Glyph(s.registers[x] as nibble)
  {
    var d := s.registers[x] as int;
    var i := FONTSET_START_ADDRESS + GLYPH_HEIGHT * d;
    var font, g := s.memory[FONTSET_START_ADDRESS .. FONTSET_START_ADDRESS + FONTSET_SIZE], Glyph(s.registers[x] as nibble);
    forall r | 0 <= r < GLYPH_HEIGHT ensures s.memory[i .. i + GLYPH_HEIGHT][r] == g[r] {
      assert font[GLYPH_HEIGHT * d + r] == s.memory[i + r];
    }
  }

  /** Loading a ROM leaves the font of a new machine in place, so Fx29 finds its glyphs after `load_rom`. */
  lemma LoadRomKeepsFont(rom: seq<byte>)
    ensures LoadRom(Initial(), rom).Ok? ==>
      LoadRom(Initial(), rom).value.memory[FONTSET_START_ADDRESS .. FONTSET_START_ADDRESS + FONTSET_SIZE] == FONTSET
  {
    if LoadRom(Initial(), rom).Ok? {
      var m := LoadRom(Initial(), rom).value.memory;
      LoadRomPlaces(Initial(), rom);
      InitialLayout();
      LayoutFits();
      forall i | 0 <= i < FONTSET_SIZE
        ensures m[FONTSET_START_ADDRESS .. FONTSET_START_ADDRESS + FONTSET_SIZE][i] == FONTSET[i]
      {
        assert m[FONTSET_START_ADDRESS + i] == Initial().memory[FONTSET_START_ADDRESS + i];
      }
    }
  }

  /** Fx33: hundreds, tens and ones of Vx at I, I + 1 and I + 2, each a decimal digit; the rest of memory is untouched. */
  lemma StoreBcdDigits(s: State, x: nibble)
    requires WellFormed(s)
    ensures StoreBcd(s, x).Err? <==> s.index as int + 2 >= MEMORY_SIZE
    ensures StoreBcd(s, x).Ok? ==>
      var m, i := StoreBcd(s, x).value.memory, s.index as int;
      m[i] < 10 && m[i + 1] < 10 && m[i + 2] < 10 &&
      100 * m[i] as int + 10 * m[i + 1] as int + m[i + 2] as int == s.registers[x] as int &&
      (forall a :: 0 <= a < MEMORY_SIZE && !(i <= a <= i + 2) ==> m[a] == s.memory[a]) &&
      StoreBcd(s, x).value == s.(memory := m)
  {
  }

  /** Fx33 with Vx = 157 writes 1, 5, 7. */
  lemma StoreBcd157(s: State, x: nibble)
    requires WellFormed(s) && s.registers[x] == 157 && s.index as int + 2 < MEMORY_SIZE
    ensures var m, i := StoreBcd(s, x).value.memory, s.index as int;
      m[i] == 1 && m[i + 1] == 5 && m[i + 2] == 7
  {
  }

  /** Fx55: V0 .. Vx land at I .. I + x; I and the rest of memory are unchanged. */
  lemma StoreRegsWrites(s: State, x: nibble)
    requires WellFormed(s)
    ensures StoreRegs(s, x).Err? <==> s.index as int + x as int >= MEMORY_SIZE
    ensures StoreRegs(s, x).Ok? ==>
      var t, i := StoreRegs(s, x).value, s.index as int;
      (forall k :: 0 <= k <= x as int ==> t.memory[i + k] == s.registers[k]) &&
      (forall a :: 0 <= a < MEMORY_SIZE && !(i <= a <= i + x as int) ==> t.memory[a] == s.memory[a]) &&
      t == s.(memory := t.memory)
  {
  }

  /** Fx65: V0 .. Vx are read from I .. I + x; I and the registers above x are unchanged. */
  lemma LoadRegsReads(s: State, x: nibble)
    requires WellFormed(s)
    ensures LoadRegs(s, x).Err? <==> s.index as int + x as int >= MEMORY_SIZE
    ensures LoadRegs(s, x).Ok? ==>
      var t, i := LoadRegs(s, x).value, s.index as int;
      (forall k :: 0 <= k <= x as int ==> t.registers[k] == s.memory[i + k]) &&
      (forall k :: x as int < k < REGISTER_COUNT ==> t.registers[k] == s.registers[k]) &&
      t == s.(registers := t.registers)
  {
  }

  /** Fx55 then Fx65 with the same x and I gives back the registers that were stored. */
  lemma StoreThenLoad(s: State, x: nibble)
    requires WellFormed(s) && s.index as int + x as int < MEMORY_SIZE
    ensures StoreRegs(s, x).Ok? && LoadRegs(StoreRegs(s, x).value, x).Ok?
    ensures LoadRegs(StoreRegs(s, x).value, x).value == StoreRegs(s, x).value
  {
    var t := StoreRegs(s, x).value;
    StoreRegsWrites(s, x);
    LoadRegsReads(t, x);
    assert LoadRegs(t, x).value.registers == s.registers;
  }

  // ---- Fx0A ----

  /** Fx0A: with a key pressed Vx gets the lowest pressed key; with none pressed pc steps back by 2. */
  lemma WaitKeyPicksLowest(s: State, x: nibble)
    requires WellFormed(s)
    ensures var t := WaitKey(s, x);
      if exists k :: 0 <= k < KEY_COUNT && s.keys[k] != 0 then
        t == s.(registers := s.registers[x := t.registers[x]]) && s.keys[t.registers[x]] != 0 &&
        (forall k :: 0 <= k < t.registers[x] as int ==> s.keys[k] == 0)
      else
        t == s.(pc := t.pc) && t.pc as int == (s.pc as int - 2) % 0x1_0000
  {
  }

  // ---- Ex9E, ExA1 and Fx1E ----

  /** Ex9E / ExA1 fault when Vx is not a key number; otherwise they skip exactly when the key's state matches. */
  lemma SkipOnKeyTests(s: State, x: nibble, pressed: bool)
    requires WellFormed(s)
    ensures SkipOnKey(s, x, pressed).Err? <==> s.registers[x] as int >= KEY_COUNT
    ensures SkipOnKey(s, x, pressed).Err? ==> SkipOnKey(s, x, pressed).error == KeyOutOfRange
    ensures SkipOnKey(s, x, pressed).Ok? ==>
      var t := SkipOnKey(s, x, pressed).value;
      t == s.(pc := t.pc) &&
      t.pc as int == (s.pc as int + if (s.keys[s.registers[x]] != 0) == pressed then 2 else 0) % 0x1_0000
  {
  }

  /** Fx1E adds Vx to I modulo 2^16 and sets no flag. */
  lemma AddIndexWraps(s: State, x: nibble)
    requires WellFormed(s)
    ensures AddIndex(s, x).index as int == (s.index as int + s.registers[x] as int) % 0x1_0000
    ensures AddIndex(s, x) == s.(index := AddIndex(s, x).index)
  {
  }
}
