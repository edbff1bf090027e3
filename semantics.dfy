/**
 * The instruction engine of chip8.rs as functions on a value: the machine
 * state, one function per opcode handler giving the state after it (the
 * program counter included), and `Exec`, which fetches the two bytes at
 * `pc`, dispatches as `step` does and reports an unrecognised word.
 */
module Semantics {
  import opened Bytes
  import Graphics

  const RAM_SIZE: nat := 4096
  const REGISTER_COUNT: nat := 16
  const STACK_SIZE: nat := 16
  /** Where `load_rom` puts a program and starts it. */
  const NORMAL_START_INDEX: nat := 512
  /** Register VF, the flag register. */
  const VF: u8 := 0xF

  /** The hexadecimal digit sprites 0..F, five rows each, as the source lists them. */
  const FONT: seq<u8> := [
    0xF0, 0x90, 0x90, 0x90, 0xF0, // 0
    0x20, 0x60, 0x20, 0x20, 0x70, // 1
    0xF0, 0x10, 0xF0, 0x80, 0xF0, // 2
    0xF0, 0x10, 0xF0, 0x10, 0xF0, // 3
    0x90, 0x90, 0xF0, 0x10, 0x10, // 4
    0xF0, 0x80, 0xF0, 0x10, 0xF0, // 5
    0xF0, 0x80, 0xF0, 0x90, 0xF0, // 6
    0xF0, 0x10, 0x20, 0x40, 0x40, // 7
    0xF0, 0x90, 0xF0, 0x90, 0xF0, // 8
    0xF0, 0x90, 0xF0, 0x10, 0xF0, // 9
    0xF0, 0x90, 0xF0, 0x90, 0x90, // A
    0xE0, 0x90, 0xE0, 0x90, 0xE0, // B
    0xF0, 0x80, 0x80, 0x80, 0xF0, // C
    0xE9, 0x90, 0x90, 0x90, 0xE0, // D
    0xF0, 0x80, 0xF0, 0x80, 0xF9, // E
    0xF0, 0x80, 0xF0, 0x80, 0x80  // F
  ]

  datatype Error = UnrecognisedInstruction(high: u8, low: u8)

  /** `Result<(), Error>` */
  datatype StepResult = Ok | Err(error: Error)

  /**
   * The whole machine: memory, the sixteen registers V0..VF and I, the
   * program counter, the stack pointer (the next free slot), the stack of
   * return addresses and the display's pixels.
   */
  datatype Machine = Machine(
    ram: seq<u8>,
    v: seq<u8>,
    i: u16,
    pc: nat,
    sp: nat,
    stack: seq<nat>,
    screen: seq<bool>)

  predicate Wf(m: Machine) {
    |m.ram| == RAM_SIZE && |m.v| == REGISTER_COUNT && |m.stack| == STACK_SIZE &&
    |m.screen| == Graphics.PIXEL_COUNT && m.sp <= STACK_SIZE
  }

  /** Zeroed memory with the font in its first 80 bytes; everything else zero or off. */
  function Initial(): (m: Machine)
    ensures Wf(m) && m.ram[..|FONT|] == FONT && m.pc == 0 && m.sp == 0 && m.i == 0
    ensures forall a :: |FONT| <= a < RAM_SIZE ==> m.ram[a] == 0
    ensures forall r :: 0 <= r < REGISTER_COUNT ==> m.v[r] == 0
    ensures forall s :: 0 <= s < STACK_SIZE ==> m.stack[s] == 0
    ensures Graphics.Blank(m.screen)
  {
    Machine(FONT + seq(RAM_SIZE - |FONT|, _ => 0), seq(REGISTER_COUNT, _ => 0), 0, 0, 0,
            seq(STACK_SIZE, _ => 0), seq(Graphics.PIXEL_COUNT, _ => false))
  }

  /** The copy loop of `load_rom`: the program at offset 512 and `pc` there. */
  function LoadRom(m: Machine, bytes: seq<u8>): (m': Machine)
    requires Wf(m) && |bytes| <= RAM_SIZE - NORMAL_START_INDEX
    ensures Wf(m') && m'.pc == NORMAL_START_INDEX
    ensures forall k :: 0 <= k < |bytes| ==> m'.ram[NORMAL_START_INDEX + k] == bytes[k]
    ensures forall a :: 0 <= a < RAM_SIZE && !(NORMAL_START_INDEX <= a < NORMAL_START_INDEX + |bytes|) ==>
      m'.ram[a] == m.ram[a]
    ensures m' == m.(ram := m'.ram, pc := NORMAL_START_INDEX)
  {
    m.(ram := m.ram[..NORMAL_START_INDEX] + bytes + m.ram[NORMAL_START_INDEX + |bytes|..],
       pc := NORMAL_START_INDEX)
  }

  // ---------------------------------------------------------------------
  // Decoding

  /** `high`: the upper nibble of a byte. */
  function High(b: u8): (r: u8)
    ensures r < 16
  {
    (b as int / 16) as u8
  }

  /** `low`: the lower nibble of a byte. */
  function Low(b: u8): (r: u8)
    ensures r < 16
  {
    (b as int % 16) as u8
  }

  /** `instruction`: the two bytes, most significant first, as one word. */
  function Instruction(hb: u8, lb: u8): u16 {
    (hb as int * 256 + lb as int) as u16
  }

  /** `addr`: nnn, the low twelve bits of the word. */
  function Addr(hb: u8, lb: u8): (a: u16)
    ensures a <= 0xFFF
  {
    (Instruction(hb, lb) as int % 0x1000) as u16
  }

  /** `high` computes `(b & (0xF << 4)) >> 4`, which is the upper nibble. */
  lemma HighMasks(b: u8)
    ensures Shr(BitAnd(b as nat, 0xF * Pow2(4)), 4) == High(b) as nat
  {
    BitAndHighNibble(b as nat);
    assert Pow2(4) == 16;
    var q := b as nat / 16;
    assert (16 * q) / 2 == 8 * q && (8 * q) / 2 == 4 * q && (4 * q) / 2 == 2 * q && (2 * q) / 2 == q;
    assert Shr(16 * q, 4) == Shr(8 * q, 3) == Shr(4 * q, 2) == Shr(2 * q, 1) == Shr(q, 0);
  }

  /** `low` computes `b & ((1 << 4) - 1)`, which is the lower nibble. */
  lemma LowMasks(b: u8)
    ensures BitAnd(b as nat, Pow2(4) - 1) == Low(b) as nat
  {
    BitAndLowMask(b as nat, 4);
    assert Pow2(4) == 16;
  }

  /** `instruction` computes `(hb << 8) | lb`, which puts the high byte above the low one. */
  lemma InstructionOrs(hb: u8, lb: u8)
    ensures BitOr(Shl16(hb as u16, 8) as nat, lb as nat) == Instruction(hb, lb) as nat
  {
    assert Pow2(8) == 256 by { Pow2Small(); }
    assert Shl16(hb as u16, 8) as nat == hb as nat * 256;
    BitOrDisjoint(hb as nat, lb as nat, 8);
  }

  /** The word splits back into the two bytes it was made of. */
  lemma InstructionSplits(hb: u8, lb: u8)
    ensures Instruction(hb, lb) as int / 256 == hb as int && Instruction(hb, lb) as int % 256 == lb as int
  {
    DivModUnique(Instruction(hb, lb) as int, 256, hb as int, lb as int);
  }

  /**
   * `addr` computes `instruction & ((1 << 12) - 1)`: the low nibble of the
   * high byte, then the low byte.
   */
  lemma AddrMasks(hb: u8, lb: u8)
    ensures BitAnd(Instruction(hb, lb) as nat, Pow2(12) - 1) == Addr(hb, lb) as nat
    ensures Addr(hb, lb) as int == Low(hb) as int * 256 + lb as int
  {
    BitAndLowMask(Instruction(hb, lb) as nat, 12);
    Pow2Small();
    DivModUnique(Instruction(hb, lb) as int, 0x1000, hb as int / 16, Low(hb) as int * 256 + lb as int);
  }

  function HighByte(m: Machine): u8
    requires Wf(m) && m.pc + 1 < RAM_SIZE
  {
    m.ram[m.pc]
  }

  function LowByte(m: Machine): u8
    requires Wf(m) && m.pc + 1 < RAM_SIZE
  {
    m.ram[m.pc + 1]
  }

  /** x: the register in the lower nibble of the high byte. */
  function X(m: Machine): u8
    requires Wf(m) && m.pc + 1 < RAM_SIZE
  {
    Low(HighByte(m))
  }

  /** y: the register in the upper nibble of the low byte. */
  function Y(m: Machine): u8
    requires Wf(m) && m.pc + 1 < RAM_SIZE
  {
    High(LowByte(m))
  }

  /** Whether `step` dispatches the word to a handler (and does not report it). */
  predicate Dispatched(hb: u8, lb: u8) {
    match High(hb)
    case 0x0 => lb == 0xE0 || lb == 0xEE
    case 0x8 => Low(lb) == 0x0 || Low(lb) == 0x2 || Low(lb) == 0x4 || Low(lb) == 0x6 || Low(lb) == 0xE
    case 0xF => lb == 0x1E || lb == 0x55 || lb == 0x65
    case 0x1 => true
    case 0x2 => true
    case 0x3 => true
    case 0x4 => true
    case 0x5 => true
    case 0x6 => true
    case 0x7 => true
    case 0xA => true
    case 0xC => true
    case 0xD => true
    case _ => false
  }

  /**
   * What `step` demands so that nothing panics: both bytes at `pc` inside
   * memory, a free stack slot for CALL, a saved address for RET, the DRW
   * sprite inside memory, and the Fx55/Fx65 block inside memory.
   */
  predicate CanStep(m: Machine) {
    Wf(m) && m.pc + 1 < RAM_SIZE &&
    var hb, lb := m.ram[m.pc], m.ram[m.pc + 1];
    (High(hb) == 0x0 && lb == 0xEE ==> m.sp > 0) &&
    (High(hb) == 0x2 ==> m.sp < STACK_SIZE) &&
    (High(hb) == 0xD ==> m.i as int + Low(lb) as int <= RAM_SIZE) &&
    (High(hb) == 0xF && (lb == 0x55 || lb == 0x65) ==> m.i as int + Low(hb) as int < RAM_SIZE)
  }

  /** The value an instruction writes into VF for a condition. */
  function Flag(b: bool): u8 {
    if b then 1 else 0
  }

  // ---------------------------------------------------------------------
  // The handlers: each gives the state after the instruction, `pc` being
  // the value the handler returns.

  /** 00E0 CLS */
  function Clear(m: Machine): (m': Machine)
    requires Wf(m)
  {
    m.(screen := seq(Graphics.PIXEL_COUNT, _ => false), pc := m.pc + 2)
  }

  /** 00EE RET: pop, then resume after the saved call site. */
  function Ret(m: Machine): (m': Machine)
    requires Wf(m) && 0 < m.sp
  {
    m.(sp := m.sp - 1, pc := m.stack[m.sp - 1] + 2)
  }

  /** 1nnn JP addr */
  function Jump(m: Machine): (m': Machine)
    requires Wf(m) && m.pc + 1 < RAM_SIZE
  {
    m.(pc := Addr(HighByte(m), LowByte(m)) as nat)
  }

  /** 2nnn CALL addr: save `pc` in the free slot, then push. */
  function Call(m: Machine): (m': Machine)
    requires Wf(m) && m.pc + 1 < RAM_SIZE && m.sp < STACK_SIZE
  {
    m.(stack := m.stack[m.sp := m.pc], sp := m.sp + 1, pc := Addr(HighByte(m), LowByte(m)) as nat)
  }

  /** 3xkk SE Vx, byte */
  function SkipEq(m: Machine): (m': Machine)
    requires Wf(m) && m.pc + 1 < RAM_SIZE
  {
    m.(pc := if m.v[X(m)] == LowByte(m) then m.pc + 4 else m.pc + 2)
  }

  /** 4xkk SNE Vx, byte */
  function SkipNeq(m: Machine): (m': Machine)
    requires Wf(m) && m.pc + 1 < RAM_SIZE
  {
    m.(pc := if m.v[X(m)] != LowByte(m) then m.pc + 4 else m.pc + 2)
  }

  /** 5xy? SE Vx, Vy (the last nibble is not looked at) */
  function SkipEqReg(m: Machine): (m': Machine)
    requires Wf(m) && m.pc + 1 < RAM_SIZE
  {
    m.(pc := if m.v[X(m)] == m.v[Y(m)] then m.pc + 4 else m.pc + 2)
  }

  /** 6xkk LD Vx, byte */
  function LoadVx(m: Machine): (m': Machine)
    requires Wf(m) && m.pc + 1 < RAM_SIZE
  {
    m.(v := m.v[X(m) := LowByte(m)], pc := m.pc + 2)
  }

  /** 7xkk ADD Vx, byte: the carry is thrown away. */
  function AddVx(m: Machine): (m': Machine)
    requires Wf(m) && m.pc + 1 < RAM_SIZE
  {
    var (result, _) := OverflowingAdd8(m.v[X(m)], LowByte(m));
    m.(v := m.v[X(m) := result], pc := m.pc + 2)
  }

  /** 8xy0 LD Vx, Vy */
  function SetVxToVy(m: Machine): (m': Machine)
    requires Wf(m) && m.pc + 1 < RAM_SIZE
  {
    m.(v := m.v[X(m) := m.v[Y(m)]], pc := m.pc + 2)
  }

  /** 8xy2 AND Vx, Vy */
  function VxAndVy(m: Machine): (m': Machine)
    requires Wf(m) && m.pc + 1 < RAM_SIZE
  {
    m.(v := m.v[X(m) := And8(m.v[Y(m)], m.v[X(m)])], pc := m.pc + 2)
  }

  /** 8xy4 ADD Vx, Vy: VF is written with the carry first, then Vx with the sum. */
  function AddVxAndVy(m: Machine): (m': Machine)
    requires Wf(m) && m.pc + 1 < RAM_SIZE
  {
    var (result, carry) := OverflowingAdd8(m.v[X(m)], m.v[Y(m)]);
    var flagged := m.v[VF := Flag(carry)];
    m.(v := flagged[X(m) := result], pc := m.pc + 2)
  }

  /** 8xy6 SHR Vx: Vx is written first, then VF with what `overflowing_shr` reports. */
  function VxShr(m: Machine): (m': Machine)
    requires Wf(m) && m.pc + 1 < RAM_SIZE
  {
    var (result, carry) := OverflowingShr8(m.v[X(m)], 1);
    var shifted := m.v[X(m) := result];
    m.(v := shifted[VF := Flag(carry)], pc := m.pc + 2)
  }

  /** 8xyE SHL Vx: Vx is written first, then VF with what `overflowing_shl` reports. */
  function VxShl(m: Machine): (m': Machine)
    requires Wf(m) && m.pc + 1 < RAM_SIZE
  {
    var (result, carry) := OverflowingShl8(m.v[X(m)], 1);
    var shifted := m.v[X(m) := result];
    m.(v := shifted[VF := Flag(carry)], pc := m.pc + 2)
  }

  /** Annn LD I, addr */
  function LoadI(m: Machine): (m': Machine)
    requires Wf(m) && m.pc + 1 < RAM_SIZE
  {
    m.(i := Addr(HighByte(m), LowByte(m)), pc := m.pc + 2)
  }

  /** Cxkk RND Vx, byte, with `random` the byte the generator produced. */
  function Rand(m: Machine, random: u8): (m': Machine)
    requires Wf(m) && m.pc + 1 < RAM_SIZE
  {
    m.(v := m.v[X(m) := And8(random, LowByte(m))], pc := m.pc + 2)
  }

  /** The n bytes of a DRW sprite, read from I on. */
  function SpriteBytes(m: Machine): (bytes: seq<u8>)
    requires Wf(m) && m.pc + 1 < RAM_SIZE && m.i as int + Low(LowByte(m)) as int <= RAM_SIZE
    ensures |bytes| == Low(LowByte(m)) as int <= Graphics.MAX_SPRITE_LEN
  {
    m.ram[m.i .. m.i as int + Low(LowByte(m)) as int]
  }

  /** Dxyn DRW Vx, Vy, nibble: VF := 1 when the draw reports a collision, else 0. */
  function Draw(m: Machine): (m': Machine)
    requires Wf(m) && m.pc + 1 < RAM_SIZE && m.i as int + Low(LowByte(m)) as int <= RAM_SIZE
  {
    var bytes := SpriteBytes(m);
    var vx, vy := m.v[X(m)] as nat, m.v[Y(m)] as nat;
    var screen := Graphics.Composite(m.screen, bytes, vx, vy);
    var collision := Graphics.Collides(screen, bytes, vx, vy);
    m.(screen := screen, v := m.v[VF := Flag(collision)], pc := m.pc + 2)
  }

  /** Fx1E ADD I, Vx: a 16-bit wrapping add. */
  function Add(m: Machine): (m': Machine)
    requires Wf(m) && m.pc + 1 < RAM_SIZE
  {
    var (result, _) := OverflowingAdd16(m.i, m.v[X(m)] as u16);
    m.(i := result, pc := m.pc + 2)
  }

  /** Memory with registers V0..V(count-1) written at I.. I+count-1. */
  function StoredUpTo(ram: seq<u8>, v: seq<u8>, i: nat, count: nat): (ram': seq<u8>)
    requires |v| == REGISTER_COUNT && count <= REGISTER_COUNT && i + count <= |ram|
    ensures |ram'| == |ram|
  {
    seq(|ram|, a requires 0 <= a < |ram| => if i <= a < i + count then v[a - i] else ram[a])
  }

  /** Registers with V0..V(count-1) read from I.. I+count-1. */
  function LoadedUpTo(v: seq<u8>, ram: seq<u8>, i: nat, count: nat): (v': seq<u8>)
    requires |v| == REGISTER_COUNT && count <= REGISTER_COUNT && i + count <= |ram|
    ensures |v'| == |v|
  {
    seq(|v|, r requires 0 <= r < |v| => if r < count then ram[i + r] else v[r])
  }

  /** Fx55 LD [I], Vx */
  function StoreArray(m: Machine): (m': Machine)
    requires Wf(m) && m.pc + 1 < RAM_SIZE && m.i as int + X(m) as int < RAM_SIZE
  {
    m.(ram := StoredUpTo(m.ram, m.v, m.i as nat, X(m) as nat + 1), pc := m.pc + 2)
  }

  /** Fx65 LD Vx, [I] */
  function LoadArray(m: Machine): (m': Machine)
    requires Wf(m) && m.pc + 1 < RAM_SIZE && m.i as int + X(m) as int < RAM_SIZE
  {
    m.(v := LoadedUpTo(m.v, m.ram, m.i as nat, X(m) as nat + 1), pc := m.pc + 2)
  }

  // ---------------------------------------------------------------------
  // One step.

  function Unrecognised(m: Machine): (StepResult, Machine)
    requires Wf(m) && m.pc + 1 < RAM_SIZE
  {
    (Err(UnrecognisedInstruction(HighByte(m), LowByte(m))), m)
  }

  /** `step`, with `random` the byte Cxkk would draw. */
  function Exec(m: Machine, random: u8): (StepResult, Machine)
    requires CanStep(m)
  {
    var hb, lb := HighByte(m), LowByte(m);
    match High(hb)
    case 0x0 =>
      if lb == 0xE0 then (Ok, Clear(m))
      else if lb == 0xEE then (Ok, Ret(m))
      else Unrecognised(m)
    case 0x1 => (Ok, Jump(m))
    case 0x2 => (Ok, Call(m))
    case 0x3 => (Ok, SkipEq(m))
    case 0x4 => (Ok, SkipNeq(m))
    case 0x5 => (Ok, SkipEqReg(m))
    case 0x6 => (Ok, LoadVx(m))
    case 0x7 => (Ok, AddVx(m))
    case 0x8 =>
      if Low(lb) == 0x0 then (Ok, SetVxToVy(m))
      else if Low(lb) == 0x2 then (Ok, VxAndVy(m))
      else if Low(lb) == 0x4 then (Ok, AddVxAndVy(m))
      else if Low(lb) == 0x6 then (Ok, VxShr(m))
      else if Low(lb) == 0xE then (Ok, VxShl(m))
      else Unrecognised(m)
    case 0xA => (Ok, LoadI(m))
    case 0xC => (Ok, Rand(m, random))
    case 0xD => (Ok, Draw(m))
    case 0xF =>
      if lb == 0x1E then (Ok, Add(m))
      else if lb == 0x55 then (Ok, StoreArray(m))
      else if lb == 0x65 then (Ok, LoadArray(m))
      else Unrecognised(m)
    case _ => Unrecognised(m)
  }
}
