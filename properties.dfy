/**
 * What one step of the interpreter does, opcode by opcode, stated against
 * `Semantics.Exec` (which `Interpreter.Chip8.Step` is proved to be), and a
 * few multi-step consequences: a call followed by a return, and a short
 * program run from its load address.
 */
module Properties {
  import opened Bytes
  import opened Semantics
  import Graphics

  /** The state after one step. */
  function After(m: Machine, random: u8): Machine
    requires CanStep(m)
  {
    Exec(m, random).1
  }

  /** Two machines agree on everything but the program counter and the registers. */
  predicate SameExceptPcAndV(m: Machine, m': Machine) {
    m'.ram == m.ram && m'.i == m.i && m'.sp == m.sp && m'.stack == m.stack && m'.screen == m.screen
  }

  /** Registers other than `x` keep their values. */
  predicate OthersKept(m: Machine, m': Machine, x: u8)
    requires Wf(m) && Wf(m')
  {
    forall r :: 0 <= r < REGISTER_COUNT && r != x as int ==> m'.v[r] == m.v[r]
  }

  // ---------------------------------------------------------------------
  // Dispatch as a whole

  /**
   * A step fails exactly on the words the dispatch does not handle; it then
   * reports the two bytes at `pc` and changes nothing.
   */
  lemma UnrecognisedExactly(m: Machine, random: u8)
    requires CanStep(m)
    ensures Exec(m, random).0.Err? <==> !Dispatched(HighByte(m), LowByte(m))
    ensures !Dispatched(HighByte(m), LowByte(m)) ==>
      Exec(m, random) == (Err(UnrecognisedInstruction(HighByte(m), LowByte(m))), m)
  {
  }

  /** The word 0xFFFF is reported as unrecognised, with its bytes, and nothing changes. */
  lemma UnrecognisedAllOnes(m: Machine, random: u8)
    requires CanStep(m) && HighByte(m) == 0xFF && LowByte(m) == 0xFF
    ensures Exec(m, random) == (Err(UnrecognisedInstruction(0xFF, 0xFF)), m)
  {
    assert High(0xFF) == 0xF;
  }

  /** A step keeps the machine well formed. */
  lemma StepKeepsWf(m: Machine, random: u8)
    requires CanStep(m)
    ensures Wf(After(m, random))
  {
  }

  /**
   * Every handled instruction other than a jump, a call, a return or a skip
   * continues at the next instruction.
   */
  lemma NextInstruction(m: Machine, random: u8)
    requires CanStep(m) && Dispatched(HighByte(m), LowByte(m))
    requires !(High(HighByte(m)) in {0x1, 0x2, 0x3, 0x4, 0x5})
    requires !(High(HighByte(m)) == 0x0 && LowByte(m) == 0xEE)
    ensures Exec(m, random).0 == Ok && After(m, random).pc == m.pc + 2
  {
  }

  // ---------------------------------------------------------------------
  // Control flow

  /** 00E0: the screen is blank and nothing else changes. */
  lemma ClearScreen(m: Machine, random: u8)
    requires CanStep(m) && HighByte(m) == 0x00 && LowByte(m) == 0xE0
    ensures var m' := After(m, random);
      Exec(m, random).0 == Ok && Graphics.Blank(m'.screen) &&
      m' == m.(screen := m'.screen, pc := m.pc + 2)
  {
  }

  /** 1nnn: the next instruction is at nnn, a twelve-bit address; nothing else changes. */
  lemma JumpTarget(m: Machine, random: u8)
    requires CanStep(m) && High(HighByte(m)) == 0x1
    ensures var m' := After(m, random);
      Exec(m, random).0 == Ok && m'.pc <= 0xFFF &&
      m'.pc == Low(HighByte(m)) as int * 256 + LowByte(m) as int &&
      m' == m.(pc := m'.pc)
  {
  }

  /** 2nnn: `pc` is saved in the free slot, the stack grows by one and execution continues at nnn. */
  lemma CallPushes(m: Machine, random: u8)
    requires CanStep(m) && High(HighByte(m)) == 0x2
    ensures var m' := After(m, random);
      Exec(m, random).0 == Ok && m'.sp == m.sp + 1 && m'.stack[m.sp] == m.pc &&
      (forall s :: 0 <= s < STACK_SIZE && s != m.sp ==> m'.stack[s] == m.stack[s]) &&
      m'.pc == Low(HighByte(m)) as int * 256 + LowByte(m) as int &&
      m'.ram == m.ram && m'.v == m.v && m'.i == m.i && m'.screen == m.screen
  {
  }

  /** 00EE: the stack shrinks by one and execution resumes after the saved address. */
  lemma ReturnPops(m: Machine, random: u8)
    requires CanStep(m) && HighByte(m) == 0x00 && LowByte(m) == 0xEE
    ensures var m' := After(m, random);
      Exec(m, random).0 == Ok && m'.sp == m.sp - 1 && m'.pc == m.stack[m.sp - 1] + 2 &&
      m' == m.(sp := m'.sp, pc := m'.pc)
  {
  }

  /**
   * A call whose target is a return comes back to the instruction after the
   * call, with the stack pointer as before; only the stack slot is left
   * holding the call site.
   */
  lemma CallThenReturn(m: Machine, random: u8, random': u8)
    requires CanStep(m) && High(HighByte(m)) == 0x2
    requires CanStep(After(m, random))
    requires HighByte(After(m, random)) == 0x00 && LowByte(After(m, random)) == 0xEE
    ensures var m'' := After(After(m, random), random');
      m''.pc == m.pc + 2 && m''.sp == m.sp &&
      m'' == m.(stack := m.stack[m.sp := m.pc], pc := m.pc + 2)
  {
    CallPushes(m, random);
    ReturnPops(After(m, random), random');
  }

  /** 3xkk: skips the next instruction exactly when Vx = kk; nothing else changes. */
  lemma SkipIfEqual(m: Machine, random: u8)
    requires CanStep(m) && High(HighByte(m)) == 0x3
    ensures var m' := After(m, random);
      Exec(m, random).0 == Ok && m' == m.(pc := m'.pc) &&
      (m'.pc == m.pc + 4 <==> m.v[X(m)] == LowByte(m)) &&
      (m'.pc == m.pc + 2 <==> m.v[X(m)] != LowByte(m))
  {
  }

  /** 4xkk: skips the next instruction exactly when Vx is not kk; nothing else changes. */
  lemma SkipIfNotEqual(m: Machine, random: u8)
    requires CanStep(m) && High(HighByte(m)) == 0x4
    ensures var m' := After(m, random);
      Exec(m, random).0 == Ok && m' == m.(pc := m'.pc) &&
      (m'.pc == m.pc + 4 <==> m.v[X(m)] != LowByte(m)) &&
      (m'.pc == m.pc + 2 <==> m.v[X(m)] == LowByte(m))
  {
  }

  /**
   * 5xy?: skips the next instruction exactly when Vx = Vy, whatever the last
   * nibble is; nothing else changes.
   */
  lemma SkipIfRegistersEqual(m: Machine, random: u8)
    requires CanStep(m) && High(HighByte(m)) == 0x5
    ensures var m' := After(m, random);
      Exec(m, random).0 == Ok && m' == m.(pc := m'.pc) &&
      (m'.pc == m.pc + 4 <==> m.v[X(m)] == m.v[Y(m)]) &&
      (m'.pc == m.pc + 2 <==> m.v[X(m)] != m.v[Y(m)])
  {
  }

  // ---------------------------------------------------------------------
  // Registers

  /** 6xkk: Vx reads back as kk; no other register changes. */
  lemma LoadImmediate(m: Machine, random: u8)
    requires CanStep(m) && High(HighByte(m)) == 0x6
    ensures var m' := After(m, random);
      Exec(m, random).0 == Ok && m'.v[X(m)] == LowByte(m) && OthersKept(m, m', X(m)) &&
      SameExceptPcAndV(m, m') && m'.pc == m.pc + 2
  {
  }

  /** 7xkk: Vx := (Vx + kk) mod 256; VF is not written (unless it is Vx). */
  lemma AddImmediate(m: Machine, random: u8)
    requires CanStep(m) && High(HighByte(m)) == 0x7
    ensures var m' := After(m, random);
      Exec(m, random).0 == Ok &&
      m'.v[X(m)] as int == (m.v[X(m)] as int + LowByte(m) as int) % 256 &&
      OthersKept(m, m', X(m)) && SameExceptPcAndV(m, m') && m'.pc == m.pc + 2
  {
  }

  /** 8xy0: Vx := Vy. */
  lemma CopyRegister(m: Machine, random: u8)
    requires CanStep(m) && High(HighByte(m)) == 0x8 && Low(LowByte(m)) == 0x0
    ensures var m' := After(m, random);
      Exec(m, random).0 == Ok && m'.v[X(m)] == m.v[Y(m)] && OthersKept(m, m', X(m)) &&
      SameExceptPcAndV(m, m') && m'.pc == m.pc + 2
  {
  }

  /** 8xy2: Vx := Vx AND Vy, which keeps only bits of both. */
  lemma AndRegisters(m: Machine, random: u8)
    requires CanStep(m) && High(HighByte(m)) == 0x8 && Low(LowByte(m)) == 0x2
    ensures var m' := After(m, random);
      Exec(m, random).0 == Ok &&
      m'.v[X(m)] as int == BitAnd(m.v[X(m)] as nat, m.v[Y(m)] as nat) &&
      m'.v[X(m)] <= m.v[X(m)] && m'.v[X(m)] <= m.v[Y(m)] &&
      OthersKept(m, m', X(m)) && SameExceptPcAndV(m, m') && m'.pc == m.pc + 2
  {
    BitAndCommutes(m.v[X(m)] as nat, m.v[Y(m)] as nat);
  }

  /**
   * 8xy4: VF := 1 when Vx + Vy exceeds 255 and 0 otherwise, then Vx := the
   * sum mod 256. For x = F the sum overwrites the flag.
   */
  lemma AddRegisters(m: Machine, random: u8)
    requires CanStep(m) && High(HighByte(m)) == 0x8 && Low(LowByte(m)) == 0x4
    ensures var m' := After(m, random); var sum := m.v[X(m)] as int + m.v[Y(m)] as int;
      Exec(m, random).0 == Ok && m'.v[X(m)] as int == sum % 256 &&
      (X(m) != VF ==> (m'.v[VF] == 1 <==> sum > 255) && (m'.v[VF] == 0 <==> sum <= 255)) &&
      (forall r :: 0 <= r < REGISTER_COUNT && r != X(m) as int && r != VF as int ==> m'.v[r] == m.v[r]) &&
      SameExceptPcAndV(m, m') && m'.pc == m.pc + 2
  {
  }

  /** 8xy6: Vx := Vx / 2, then VF := 0 whatever bit was shifted out. */
  lemma ShiftRight(m: Machine, random: u8)
    requires CanStep(m) && High(HighByte(m)) == 0x8 && Low(LowByte(m)) == 0x6
    ensures var m' := After(m, random);
      Exec(m, random).0 == Ok && m'.v[VF] == 0 &&
      (X(m) != VF ==> m'.v[X(m)] as int == m.v[X(m)] as int / 2) &&
      (forall r :: 0 <= r < REGISTER_COUNT && r != X(m) as int && r != VF as int ==> m'.v[r] == m.v[r]) &&
      SameExceptPcAndV(m, m') && m'.pc == m.pc + 2
  {
    assert Shr(m.v[X(m)] as nat, 1) == m.v[X(m)] as nat / 2;
  }

  /** 8xyE: Vx := (Vx * 2) mod 256, then VF := 0 whatever bit was shifted out. */
  lemma ShiftLeft(m: Machine, random: u8)
    requires CanStep(m) && High(HighByte(m)) == 0x8 && Low(LowByte(m)) == 0xE
    ensures var m' := After(m, random);
      Exec(m, random).0 == Ok && m'.v[VF] == 0 &&
      (X(m) != VF ==> m'.v[X(m)] as int == (m.v[X(m)] as int * 2) % 256) &&
      (forall r :: 0 <= r < REGISTER_COUNT && r != X(m) as int && r != VF as int ==> m'.v[r] == m.v[r]) &&
      SameExceptPcAndV(m, m') && m'.pc == m.pc + 2
  {
    assert Pow2(1) == 2;
  }

  /** Cxkk: Vx := the random byte AND kk, so at most kk. */
  lemma RandomMasked(m: Machine, random: u8)
    requires CanStep(m) && High(HighByte(m)) == 0xC
    ensures var m' := After(m, random);
      Exec(m, random).0 == Ok &&
      m'.v[X(m)] as int == BitAnd(random as nat, LowByte(m) as nat) &&
      m'.v[X(m)] <= LowByte(m) && OthersKept(m, m', X(m)) &&
      SameExceptPcAndV(m, m') && m'.pc == m.pc + 2
  {
  }

  // ---------------------------------------------------------------------
  // The index register, memory and the screen

  /** Annn: I := nnn, a twelve-bit address. */
  lemma LoadIndex(m: Machine, random: u8)
    requires CanStep(m) && High(HighByte(m)) == 0xA
    ensures var m' := After(m, random);
      Exec(m, random).0 == Ok && m'.i <= 0xFFF &&
      m'.i as int == Low(HighByte(m)) as int * 256 + LowByte(m) as int &&
      m' == m.(i := m'.i, pc := m.pc + 2)
  {
  }

  /** Fx1E: I := (I + Vx) mod 65536; VF is not written. */
  lemma AddToIndex(m: Machine, random: u8)
    requires CanStep(m) && High(HighByte(m)) == 0xF && LowByte(m) == 0x1E
    ensures var m' := After(m, random);
      Exec(m, random).0 == Ok && m'.i as int == (m.i as int + m.v[X(m)] as int) % 0x1_0000 &&
      m' == m.(i := m'.i, pc := m.pc + 2)
  {
  }

  /** Fx55: V0..Vx are written to I..I+x; the rest of memory, the registers and I are kept. */
  lemma StoreRegisters(m: Machine, random: u8)
    requires CanStep(m) && High(HighByte(m)) == 0xF && LowByte(m) == 0x55
    ensures var m' := After(m, random);
      Exec(m, random).0 == Ok &&
      (forall k :: 0 <= k <= X(m) as int ==> m'.ram[m.i as int + k] == m.v[k]) &&
      (forall a :: 0 <= a < RAM_SIZE && !(m.i as int <= a <= m.i as int + X(m) as int) ==> m'.ram[a] == m.ram[a]) &&
      m' == m.(ram := m'.ram, pc := m.pc + 2)
  {
  }

  /** Fx65: V0..Vx are read from I..I+x; registers above x, memory and I are kept. */
  lemma LoadRegisters(m: Machine, random: u8)
    requires CanStep(m) && High(HighByte(m)) == 0xF && LowByte(m) == 0x65
    ensures var m' := After(m, random);
      Exec(m, random).0 == Ok &&
      (forall k :: 0 <= k <= X(m) as int ==> m'.v[k] == m.ram[m.i as int + k]) &&
      (forall r :: X(m) as int < r < REGISTER_COUNT ==> m'.v[r] == m.v[r]) &&
      m' == m.(v := m'.v, pc := m.pc + 2)
  {
  }

  /**
   * Dxyn: the n bytes at I are drawn at (Vx, Vy); memory, I and the stack are
   * kept; VF := 1 when the draw reports a collision, else 0; no other register changes.
   */
  lemma DrawSprite(m: Machine, random: u8)
    requires CanStep(m) && High(HighByte(m)) == 0xD
    ensures var m' := After(m, random); var n := Low(LowByte(m)) as int;
      var bytes := m.ram[m.i .. m.i as int + n];
      var vx, vy := m.v[X(m)] as nat, m.v[Y(m)] as nat;
      Exec(m, random).0 == Ok &&
      m'.screen == Graphics.Composite(m.screen, bytes, vx, vy) &&
      (m'.v[VF] == 1 <==> Graphics.Collides(m'.screen, bytes, vx, vy)) &&
      (m'.v[VF] == 0 <==> !Graphics.Collides(m'.screen, bytes, vx, vy)) &&
      OthersKept(m, m', VF) && m'.ram == m.ram && m'.i == m.i &&
      m'.sp == m.sp && m'.stack == m.stack && m'.pc == m.pc + 2
  {
  }

  // ---------------------------------------------------------------------
  // A program

  /** 6005 (V0 := 5), then 7003 (V0 := V0 + 3). */
  const PROGRAM: seq<u8> := [0x60, 0x05, 0x70, 0x03]

  /** After loading, the first instruction at `pc` is 6005 and the second 7003. */
  lemma ProgramLoaded(m: Machine)
    requires Wf(m)
    ensures var m0 := LoadRom(m, PROGRAM);
      m0.pc == NORMAL_START_INDEX && m0.v == m.v &&
      m0.ram[512] == 0x60 && m0.ram[513] == 0x05 && m0.ram[514] == 0x70 && m0.ram[515] == 0x03
  {
    var m0 := LoadRom(m, PROGRAM);
    assert m0.ram[512..516] == PROGRAM;
    assert m0.ram[512] == m0.ram[512..516][0] && m0.ram[513] == m0.ram[512..516][1];
    assert m0.ram[514] == m0.ram[512..516][2] && m0.ram[515] == m0.ram[512..516][3];
  }

  /** 7003 at `pc` with V0 = 5 leaves V0 = 8 and VF as it was. */
  lemma AddThreeToFive(m: Machine, random: u8)
    requires Wf(m) && m.pc + 1 < RAM_SIZE && m.ram[m.pc] == 0x70 && m.ram[m.pc + 1] == 0x03 && m.v[0] == 5
    ensures CanStep(m) && Exec(m, random).0 == Ok
    ensures After(m, random).v[0] == 8 && After(m, random).pc == m.pc + 2 && After(m, random).v[VF] == m.v[VF]
  {
    assert High(0x70) == 7 && Low(0x70) == 0;
    AddImmediate(m, random);
  }

  /**
   * The program 6005 7003 loaded at 512 and run for two steps leaves V0 = 8,
   * `pc` four bytes on, and VF as it was.
   */
  lemma LoadThenAdd(m: Machine, random: u8, random': u8)
    requires Wf(m)
    ensures var m0 := LoadRom(m, PROGRAM);
      CanStep(m0) && Exec(m0, random).0 == Ok && CanStep(After(m0, random)) &&
      var m2 := After(After(m0, random), random');
      Exec(After(m0, random), random').0 == Ok &&
      m2.v[0] == 8 && m2.pc == NORMAL_START_INDEX + 4 && m2.v[VF] == m.v[VF]
  {
    var m0 := LoadRom(m, PROGRAM);
    ProgramLoaded(m);
    assert High(0x60) == 6 && Low(0x60) == 0;
    LoadImmediate(m0, random);
    var m1 := After(m0, random);
    assert m1.ram == m0.ram && m1.pc == 514;
    AddThreeToFive(m1, random');
  }
}
