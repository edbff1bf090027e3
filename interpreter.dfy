/**
 * The interpreter of chip8.rs as it runs: a `Chip8` object whose memory,
 * stack, registers and display are arrays updated in place. Every handler
 * is a method that changes the state and returns the next program counter;
 * each is proved to do what the matching function of `Semantics` says, and
 * `Step` is proved to be `Semantics.Exec`.
 */
module Interpreter {
  import opened Bytes
  import opened Semantics
  import Graphics

  /** V0..VF and I. */
  class Registers {
    const v: array<u8>
    var i: u16

    ghost predicate Valid() {
      v.Length == REGISTER_COUNT
    }

    constructor ()
      ensures Valid() && fresh(v) && v[..] == seq(REGISTER_COUNT, _ => 0) && i == 0
    {
      v := new u8[REGISTER_COUNT](_ => 0);
      i := 0;
    }

    /** Writes `value` into `register`; no other register, and not I, changes. */
    method Put(register: u8, value: u8)
      requires Valid() && register <= 0xF
      modifies v
      ensures v[..] == old(v[..])[register := value]
      ensures Get(register) == value
      ensures forall r: u8 :: r <= 0xF && r != register ==> Get(r) == old(Get(r))
      ensures i == old(i)
    {
      v[register] := value;
    }

    function Get(register: u8): u8
      reads v
      requires Valid() && register <= 0xF
    {
      v[register]
    }
  }

  class Chip8 {
    const ram: array<u8>
    const registers: Registers
    var pc: nat
    var sp: nat
    const stack: array<nat>
    const display: Graphics.Display

    ghost predicate Valid()
      reads this
    {
      ram.Length == RAM_SIZE && stack.Length == STACK_SIZE && registers.Valid() &&
      display.Valid() && ram != registers.v && sp <= STACK_SIZE
    }

    /** The state as a value. */
    ghost function State(): (m: Machine)
      reads this, ram, registers, registers.v, stack, display.memory
      ensures Valid() ==> Wf(m)
    {
      Machine(ram[..], registers.v[..], registers.i, pc, sp, stack[..], display.memory[..])
    }

    /** Everything zero and the display blank, except the font at the bottom of memory. */
    constructor ()
      ensures Valid() && State() == Initial()
      ensures fresh(ram) && fresh(registers) && fresh(registers.v) && fresh(stack)
      ensures fresh(display) && fresh(display.memory)
    {
      ram := new u8[RAM_SIZE](_ => 0);
      registers := new Registers();
      pc := 0;
      sp := 0;
      stack := new nat[STACK_SIZE](_ => 0);
      display := new Graphics.Display();
      new;
      LoadHexadecimalDisplayBytes();
      assert display.memory[..] == seq(Graphics.PIXEL_COUNT, _ => false);
    }

    method LoadHexadecimalDisplayBytes()
      requires ram.Length == RAM_SIZE
      modifies ram
      ensures ram[..] == FONT + old(ram[..])[|FONT|..]
    {
      var bytes := FONT;
      for index := 0 to |bytes|
        invariant forall k :: 0 <= k < index ==> ram[k] == bytes[k]
        invariant forall k :: index <= k < RAM_SIZE ==> ram[k] == old(ram[k])
      {
        ram[index] := bytes[index];
      }
      assert ram[..] == bytes + old(ram[..])[|bytes|..];
    }

    /** The copy loop of `load_rom`, given the file's bytes. */
    method LoadRom(bytes: seq<u8>)
      requires Valid() && |bytes| <= RAM_SIZE - NORMAL_START_INDEX
      modifies this, ram
      ensures Valid() && State() == Semantics.LoadRom(old(State()), bytes)
    {
      for index := 0 to |bytes|
        modifies ram
        invariant forall k :: 0 <= k < index ==> ram[NORMAL_START_INDEX + k] == bytes[k]
        invariant forall a :: 0 <= a < RAM_SIZE && !(NORMAL_START_INDEX <= a < NORMAL_START_INDEX + index) ==>
          ram[a] == old(ram[a])
      {
        ram[NORMAL_START_INDEX + index] := bytes[index];
      }
      ghost var loaded := Semantics.LoadRom(old(State()), bytes);
      assert ram[..] == loaded.ram by {
        forall a | 0 <= a < RAM_SIZE ensures ram[a] == loaded.ram[a] {
          if NORMAL_START_INDEX <= a < NORMAL_START_INDEX + |bytes| {
            assert ram[NORMAL_START_INDEX + (a - NORMAL_START_INDEX)] == bytes[a - NORMAL_START_INDEX];
          }
        }
      }
      pc := NORMAL_START_INDEX;
    }

    function HighByte(): u8
      reads this, ram
      requires Valid() && pc + 1 < RAM_SIZE
    {
      ram[pc]
    }

    function LowByte(): u8
      reads this, ram
      requires Valid() && pc + 1 < RAM_SIZE
    {
      ram[pc + 1]
    }

    /** Executes the instruction at `pc`; `random` is the byte Cxkk draws. */
    method Step(random: u8) returns (result: StepResult)
      requires Valid() && CanStep(State())
      modifies this, ram, stack, registers, registers.v, display.memory
      ensures Valid()
      ensures (result, State()) == Exec(old(State()), random)
    {
      var hb := HighByte();
      var lb := LowByte();
      result := Ok;
      var op := High(hb);
      if op == 0x0 {
        if lb == 0xE0 {
          pc := Clear();
        } else if lb == 0xEE {
          pc := Ret();
        } else {
          return Err(UnrecognisedInstruction(hb, lb));
        }
      } else if op == 0x1 {
        pc := Jump();
      } else if op == 0x2 {
        pc := Call();
      } else if op == 0x3 {
        pc := SkipEq();
      } else if op == 0x4 {
        pc := SkipNeq();
      } else if op == 0x5 {
        pc := SkipEqReg();
      } else if op == 0x6 {
        pc := LoadVx();
      } else if op == 0x7 {
        pc := AddVx();
      } else if op == 0x8 {
        if Low(lb) == 0x0 {
          pc := SetVxToVy();
        } else if Low(lb) == 0x2 {
          pc := VxAndVy();
        } else if Low(lb) == 0x4 {
          pc := AddVxAndVy();
        } else if Low(lb) == 0x6 {
          pc := VxShr();
        } else if Low(lb) == 0xE {
          pc := VxShl();
        } else {
          return Err(UnrecognisedInstruction(hb, lb));
        }
      } else if op == 0xA {
        pc := LoadI();
      } else if op == 0xC {
        pc := Rand(random);
      } else if op == 0xD {
        pc := Draw();
      } else if op == 0xF {
        if lb == 0x1E {
          pc := Add();
        } else if lb == 0x55 {
          pc := StoreArray();
        } else if lb == 0x65 {
          pc := LoadArray();
        } else {
          return Err(UnrecognisedInstruction(hb, lb));
        }
      } else {
        return Err(UnrecognisedInstruction(hb, lb));
      }
    }

    /** 00E0 CLS */
    method Clear() returns (next: nat)
      requires Valid() && pc + 1 < RAM_SIZE
      modifies display.memory
      ensures State().(pc := next) == Semantics.Clear(old(State()))
    {
      display.Clear();
      assert display.memory[..] == seq(Graphics.PIXEL_COUNT, _ => false);
      next := pc + 2;
    }

    /** 00EE RET */
    method Ret() returns (next: nat)
      requires Valid() && pc + 1 < RAM_SIZE && 0 < sp
      modifies this
      ensures pc == old(pc) && Valid()
      ensures State().(pc := next) == Semantics.Ret(old(State()))
    {
      sp := sp - 1;
      next := stack[sp] + 2;
    }

    /** 1nnn JP addr */
    method Jump() returns (next: nat)
      requires Valid() && pc + 1 < RAM_SIZE
      ensures State().(pc := next) == Semantics.Jump(State())
    {
      var addr := Addr(HighByte(), LowByte());
      next := addr as nat;
    }

    /** 2nnn CALL addr */
    method Call() returns (next: nat)
      requires Valid() && pc + 1 < RAM_SIZE && sp < STACK_SIZE
      modifies this, stack
      ensures pc == old(pc) && Valid()
      ensures State().(pc := next) == Semantics.Call(old(State()))
    {
      var addr := Addr(HighByte(), LowByte());
      stack[sp] := pc;
      sp := sp + 1;
      next := addr as nat;
    }

    /** 3xkk SE Vx, byte */
    method SkipEq() returns (next: nat)
      requires Valid() && pc + 1 < RAM_SIZE
      ensures State().(pc := next) == Semantics.SkipEq(State())
    {
      var x := Low(HighByte());
      var contents := registers.Get(x);
      if contents == LowByte() {
        next := pc + 4;
      } else {
        next := pc + 2;
      }
    }

    /** 4xkk SNE Vx, byte */
    method SkipNeq() returns (next: nat)
      requires Valid() && pc + 1 < RAM_SIZE
      ensures State().(pc := next) == Semantics.SkipNeq(State())
    {
      var x := Low(HighByte());
      var contents := registers.Get(x);
      if contents != LowByte() {
        next := pc + 4;
      } else {
        next := pc + 2;
      }
    }

    /** 5xy0 SE Vx, Vy */
    method SkipEqReg() returns (next: nat)
      requires Valid() && pc + 1 < RAM_SIZE
      ensures State().(pc := next) == Semantics.SkipEqReg(State())
    {
      var x := Low(HighByte());
      var y := High(LowByte());
      if registers.Get(x) == registers.Get(y) {
        next := pc + 4;
      } else {
        next := pc + 2;
      }
    }

    /** 6xkk LD Vx, byte */
    method LoadVx() returns (next: nat)
      requires Valid() && pc + 1 < RAM_SIZE
      modifies registers.v
      ensures State().(pc := next) == Semantics.LoadVx(old(State()))
    {
      var x := Low(HighByte());
      registers.Put(x, LowByte());
      next := pc + 2;
    }

    /** 7xkk ADD Vx, byte */
    method AddVx() returns (next: nat)
      requires Valid() && pc + 1 < RAM_SIZE
      modifies registers.v
      ensures State().(pc := next) == Semantics.AddVx(old(State()))
    {
      var x := Low(HighByte());
      var (result, _) := OverflowingAdd8(registers.Get(x), LowByte());
      registers.Put(x, result);
      next := pc + 2;
    }

    /** 8xy0 LD Vx, Vy */
    method SetVxToVy() returns (next: nat)
      requires Valid() && pc + 1 < RAM_SIZE
      modifies registers.v
      ensures State().(pc := next) == Semantics.SetVxToVy(old(State()))
    {
      var x := Low(HighByte());
      var y := High(LowByte());
      registers.Put(x, registers.Get(y));
      next := pc + 2;
    }

    /** 8xy2 AND Vx, Vy */
    method VxAndVy() returns (next: nat)
      requires Valid() && pc + 1 < RAM_SIZE
      modifies registers.v
      ensures State().(pc := next) == Semantics.VxAndVy(old(State()))
    {
      var x := Low(HighByte());
      var y := High(LowByte());
      registers.Put(x, And8(registers.Get(y), registers.Get(x)));
      next := pc + 2;
    }

    /** 8xy4 ADD Vx, Vy */
    method AddVxAndVy() returns (next: nat)
      requires Valid() && pc + 1 < RAM_SIZE
      modifies registers.v
      ensures State().(pc := next) == Semantics.AddVxAndVy(old(State()))
    {
      var x := Low(HighByte());
      var y := High(LowByte());
      var (result, carry) := OverflowingAdd8(registers.Get(x), registers.Get(y));
      if carry {
        registers.v[VF] := 1;
      } else {
        registers.v[VF] := 0;
      }
      registers.Put(x, result);
      next := pc + 2;
    }

    /** 8xy6 SHR Vx */
    method VxShr() returns (next: nat)
      requires Valid() && pc + 1 < RAM_SIZE
      modifies registers.v
      ensures State().(pc := next) == Semantics.VxShr(old(State()))
    {
      var x := Low(HighByte());
      var (result, carry) := OverflowingShr8(registers.Get(x), 1);
      registers.Put(x, result);
      registers.v[VF] := Flag(carry);
      next := pc + 2;
    }

    /** 8xyE SHL Vx */
    method VxShl() returns (next: nat)
      requires Valid() && pc + 1 < RAM_SIZE
      modifies registers.v
      ensures State().(pc := next) == Semantics.VxShl(old(State()))
    {
      var x := Low(HighByte());
      var (result, carry) := OverflowingShl8(registers.Get(x), 1);
      registers.Put(x, result);
      registers.v[VF] := Flag(carry);
      next := pc + 2;
    }

    /** Annn LD I, addr */
    method LoadI() returns (next: nat)
      requires Valid() && pc + 1 < RAM_SIZE
      modifies registers
      ensures State().(pc := next) == Semantics.LoadI(old(State()))
    {
      registers.i := Addr(HighByte(), LowByte());
      next := pc + 2;
    }

    /** Cxkk RND Vx, byte */
    method Rand(random: u8) returns (next: nat)
      requires Valid() && pc + 1 < RAM_SIZE
      modifies registers.v
      ensures State().(pc := next) == Semantics.Rand(old(State()), random)
    {
      var x := Low(HighByte());
      registers.Put(x, And8(random, LowByte()));
      next := pc + 2;
    }

    /** Dxyn DRW Vx, Vy, nibble */
    method Draw() returns (next: nat)
      requires Valid() && pc + 1 < RAM_SIZE && registers.i as int + Low(LowByte()) as int <= RAM_SIZE
      modifies display.memory, registers.v
      ensures State().(pc := next) == Semantics.Draw(old(State()))
    {
      ghost var m := State();
      var x := Low(HighByte());
      var y := High(LowByte());
      var n := Low(LowByte());
      var address := registers.i;
      var bytes := ram[address .. address as int + n as int];
      assert bytes == SpriteBytes(m);
      var vx := registers.Get(x);
      var vy := registers.Get(y);
      assert vx == m.v[X(m)] && vy == m.v[Y(m)];
      var sprite := Graphics.Sprite.New(bytes);
      var collision := sprite.Draw(vx as nat, vy as nat, display);
      assert registers.v[..] == m.v && ram[..] == m.ram;
      if collision == Graphics.True {
        registers.v[VF] := 1;
      } else {
        registers.v[VF] := 0;
      }
      next := pc + 2;
    }

    /** Fx1E ADD I, Vx */
    method Add() returns (next: nat)
      requires Valid() && pc + 1 < RAM_SIZE
      modifies registers
      ensures State().(pc := next) == Semantics.Add(old(State()))
    {
      var x := Low(HighByte());
      var (result, _) := OverflowingAdd16(registers.i, registers.Get(x) as u16);
      registers.i := result;
      next := pc + 2;
    }

    /** Fx55 LD [I], Vx */
    method StoreArray() returns (next: nat)
      requires Valid() && pc + 1 < RAM_SIZE && registers.i as int + Low(HighByte()) as int < RAM_SIZE
      modifies ram
      ensures State().(pc := next) == Semantics.StoreArray(old(State()))
    {
      var x := Low(HighByte());
      var i := registers.i;
      for n := 0 to x as int + 1
        invariant ram[..] == StoredUpTo(old(ram[..]), registers.v[..], i as nat, n)
      {
        ram[i as int + n] := registers.Get(n as u8);
      }
      next := pc + 2;
    }

    /** Fx65 LD Vx, [I] */
    method LoadArray() returns (next: nat)
      requires Valid() && pc + 1 < RAM_SIZE && registers.i as int + Low(HighByte()) as int < RAM_SIZE
      modifies registers.v
      ensures State().(pc := next) == Semantics.LoadArray(old(State()))
    {
      var x := Low(HighByte());
      var i := registers.i;
      for n := 0 to x as int + 1
        invariant registers.v[..] == LoadedUpTo(old(registers.v[..]), ram[..], i as nat, n)
      {
        registers.Put(n as u8, ram[i as int + n]);
      }
      next := pc + 2;
    }
  }
}
