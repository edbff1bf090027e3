# crab-8 in Dafny

A model of the interpreter core of crab-8, a CHIP-8 interpreter written in
Rust. The CHIP-8 machine has:

- 4 KiB of memory, with the hexadecimal font at its bottom;
- sixteen 8-bit registers V0..VF (VF doubles as the flag register) and a
  16-bit index register I;
- a program counter, and a stack pointer over a 16-slot stack of return
  addresses;
- a 64×32 monochrome screen that sprites are XORed onto.

The model covers the instruction engine (`src/chip8.rs`), the display and its
sprite drawing (`src/display.rs`) and the keyboard map (`src/keymap.rs`).

Modules, following the program's own structure:

- `Bytes` (`bytes.dfy`): the Rust unsigned types `u8` and `u16`, and the
  operators the interpreter uses on them.
  - `&` and `|` are written out bit by bit.
  - Shifts are multiplication or division by powers of two.
  - `overflowing_add`, `overflowing_shr` and `overflowing_shl` have Rust's
    wrap-around and Rust's meaning of "overflow".
- `Graphics` (`display.rs` as `display.dfy`):
  - `Display` is a class over a 2048-cell `array<bool>`.
  - `Sprite` is a value holding its bytes.
  - `Collision` is a datatype.
  - The pure specification of a draw: `Cell` is the footprint of sprite row r,
    bit c. `Composite` is the screen after XORing a sprite onto it. `Collides`
    is what a draw reports.
- `Keyboard` (`keymap.rs` as `keymap.dfy`):
  - The host key codes, with everything that is not one of the 16 mapped keys
    folded into `Other`.
  - The translation table.
  - A `KeyMap` class holding the set of pressed keypad values.
- `Semantics` (`semantics.dfy`): `chip8.rs` as functions on a `Machine` value.
  - The decoding functions.
  - One function per opcode handler, giving the next state.
  - `Exec`, which fetches the two bytes at `pc` and dispatches as `step` does.
    It reports an unrecognised word with its two bytes.
- `Interpreter` (`interpreter.dfy`): `chip8.rs` as it runs.
  - `Registers` and `Chip8` are classes over arrays, updated in place.
  - Every handler is a method returning the next program counter, proved to
    agree with its function in `Semantics`.
  - `Chip8.Step` is proved to be `Semantics.Exec`.
  - The ROM and font loaders are loops.
- `Properties` (`properties.dfy`): what each opcode does, stated against
  `Exec`, and multi-step consequences: a call then a return, and a two-instruction
  program run from its load address.

Things the code does that a CHIP-8 reference description would not. The model
follows the code:

- **8xy6 and 8xyE always leave VF = 0.** The flag comes from
  `overflowing_shr(1)` and `overflowing_shl(1)`. These report only whether the
  shift amount is at least 8, never a bit shifted out.
- **`Display::set` reports "erased" whenever the pixel is off afterwards.**
  That includes off → off, not only on → off. So a draw reports a collision
  as soon as any footprint pixel under a clear sprite bit is off, which is
  broader than "a lit pixel was erased". `Graphics.CollisionMeans` and
  `Graphics.DrawTwice` state exactly when it happens.
- **8xy4 writes VF first and the sum second.** For x = F, VF is left holding
  the sum, not the carry.
- **5xy? does not check the last nibble.**
- **0nnn other than 00E0 and 00EE is an error.** A reference interpreter would
  ignore such a word (a machine-code call) and move on to pc + 2. This code
  reports it as an unrecognised instruction with its two bytes.
- **The font is the table as written.** The first row of "D" is 0xE9 and the
  last row of "E" is 0xF9.
- **A panic in the Rust code is a precondition here.** `Semantics.CanStep`
  gathers what a step needs:
  - both instruction bytes lie inside memory;
  - CALL has a free stack slot;
  - RET has a saved address;
  - the DRW sprite lies inside memory;
  - the Fx55/Fx65 block lies inside memory.

  `Registers::put` and `get` panic on a register above 0xF; their models
  require register ≤ 0xF.

## Model

| member | source | states |
|---|---|---|
| `Bytes.OverflowingAdd8` | src/chip8.rs:270-280 | `u8::overflowing_add`: the wrapped sum, plus 256 when it reports a carry, is the true sum |
| `Bytes.OverflowingAdd16` | src/chip8.rs:440-443 | `u16::overflowing_add`: the wrapped sum, plus 65536 when it reports a carry, is the true sum |
| `Bytes.And8` | src/chip8.rs:300-302 | `a & b` on bytes is at most each operand |
| `Bytes.BitAndCommutes` | src/chip8.rs:300-302 | `&` is commutative, so `Vy & Vx` is `Vx & Vy` |
| `Bytes.BitAndLowMask` | src/chip8.rs:578-581 | masking with `(1 << k) - 1` keeps the value modulo 2^k |
| `Bytes.BitAndHighNibble` | src/chip8.rs:573-576 | masking a byte with `0xF << 4` keeps 16 × (b / 16) |
| `Bytes.BitOrDisjoint` | src/chip8.rs:498-500 | OR of a value shifted past k bits and a value below 2^k is their sum |
| `Bytes.OverflowingShr8` | src/chip8.rs:338 | `u8::overflowing_shr(n)`: the value is a / 2^(n mod 8), and the flag is set iff n ≥ 8, so never for the shift by 1 of 8xy6 |
| `Bytes.OverflowingShl8` | src/chip8.rs:359 | `u8::overflowing_shl(n)`: the value is a × 2^(n mod 8) mod 256, and the flag is set iff n ≥ 8, so never for the shift by 1 of 8xyE |
| `Bytes.BitAnd` | src/chip8.rs:300-302 | bitwise `&`, bit by bit; the result is at most each operand |
| `Bytes.BitOr` | src/chip8.rs:499 | bitwise OR, bit by bit; the result is at least each operand and at most their sum |
| `Bytes.Shr` | src/chip8.rs:575 | `>> k` as k halvings; the result is at most the operand |
| `Bytes.ShrIsDivision` | src/chip8.rs:575 | `a >> k` is a / 2^k |
| `Bytes.Shl16` | src/chip8.rs:499 | `<< k` on u16: a × 2^k with the bits above bit 15 lost |
| `Semantics.Initial` | src/chip8.rs:48-61 | the new machine: font in the first 80 bytes, the rest of memory, the registers, I, pc, sp and the stack zero, the screen blank |
| `Semantics.LoadRom` | src/chip8.rs:63-76 | the program lies at 512.., every other byte of memory is kept, pc = 512, nothing else changes |
| `Semantics.High` | src/chip8.rs:573-576 | the upper nibble b / 16, below 16 (`HighMasks` ties it to the Rust mask and shift) |
| `Semantics.Low` | src/chip8.rs:578-581 | the lower nibble b mod 16, below 16 (`LowMasks` ties it to the Rust mask) |
| `Semantics.Instruction` | src/chip8.rs:498-500 | the word high byte × 256 + low byte (`InstructionOrs` ties it to the Rust shift and OR) |
| `Semantics.Addr` | src/chip8.rs:493-496 | nnn, the word mod 4096, at most 0xFFF (`AddrMasks` ties it to the Rust mask) |
| `Semantics.Exec` | src/chip8.rs:78-154 | `step`: fetch the bytes at pc and dispatch on the high nibble, then on the low byte or its low nibble, to the handler functions; any other word is an unrecognised-instruction error with both bytes and the machine unchanged (the `Properties` lemmas state each case) |
| `Semantics.HighMasks` | src/chip8.rs:573-576 | `high` computes `(b & (0xF << 4)) >> 4`, which is b / 16, the upper nibble |
| `Semantics.LowMasks` | src/chip8.rs:578-581 | `low` computes `b & ((1 << 4) - 1)`, which is b mod 16, the lower nibble |
| `Semantics.InstructionOrs` | src/chip8.rs:498-500 | `hb << 8` ORed with `lb`, in 16 bits, is hb × 256 + lb |
| `Semantics.InstructionSplits` | src/chip8.rs:498-500 | the word gives back its high byte (word / 256) and its low byte (word mod 256) |
| `Semantics.AddrMasks` | src/chip8.rs:493-496 | `instruction & ((1 << 12) - 1)` is nnn = low(high byte) × 256 + low byte |
| `Semantics.SpriteBytes` | src/chip8.rs:409-413 | DRW reads n bytes, n = low nibble, at most 15 |
| `Graphics.CellInverse` | src/display.rs:84-111 | the cell of sprite row r, bit c is on screen, and its row and column give back r and c |
| `Graphics.IndexInverse` | src/display.rs:84-111 | every screen index is the cell of exactly the (row, column) offset computed from it |
| `Graphics.FootprintDistinct` | src/display.rs:76-111 | with at most 15 rows and 8 columns, distinct (r, c) land on distinct cells |
| `Graphics.CompositeAt` | src/display.rs:84-111 | row r, bit c lands at ((y mod 32 + r) mod 32) × 64 + (x mod 64 + c) mod 64, XORed with bit 7 − c of byte r |
| `Graphics.CompositeElsewhere` | src/display.rs:84-111 | cells outside the footprint keep their value |
| `Graphics.CompositeTwice` | src/display.rs:25-38 | drawing the same sprite twice at the same place restores the screen |
| `Graphics.CollisionMeans` | src/display.rs:95-102 | a draw reports a collision iff some footprint pixel equalled the sprite bit XORed into it |
| `Graphics.DrawTwice` | src/display.rs:81-114 | the second of two identical draws restores the screen, and reports a collision iff some footprint pixel was off before the first |
| `Graphics.CompositeEmpty` | src/display.rs:87-113 | a sprite of no bytes changes nothing and reports no collision |
| `Graphics.WrapExample` | src/display.rs:84-111 | a draw at x = 60, y = 31 covers columns 60, 61, 62, 63, 0, 1, 2, 3 and rows 31, 0 |
| `Graphics.Display.constructor` | src/display.rs:19-23 | a new display is blank |
| `Graphics.Display.ToIndex` | src/display.rs:48-50 | index y × 64 + x is column x of row y (for x < 64) |
| `Graphics.Display.Get` | src/display.rs:40-42 | the cell at `ToIndex(x, y)`, for an index on screen |
| `Graphics.Display.Set` | src/display.rs:25-38 | only cell (x, y) changes, to old XOR pixel; the result is true iff that cell is now off |
| `Graphics.Display.Clear` | src/display.rs:44-46 | every cell is off |
| `Graphics.Sprite.New` | src/display.rs:74-79 | a sprite holds its bytes, at most 15 of them |
| `Graphics.Sprite.Draw` | src/display.rs:81-114 | the display becomes `Composite` of the old one, and the result is `True` iff `Collides` |
| `Graphics.Sprite.ToPixels` | src/display.rs:116-127 | pixel c is bit 7 − c of the byte, most significant bit leftmost |
| `Graphics.LeadingOne` | src/display.rs:120 | `leading_ones() > 0` on a byte: true iff the byte is at least 0x80, that is its top bit is set |
| `Graphics.RotateLeft1` | src/display.rs:123 | `rotate_left(1)`: shifted left by one, with the top bit brought round to bit 0 |
| `Keyboard.ToChip8Key` | src/keymap.rs:54-74 | the sixteen-entry table; a mapped key gives a value below 16, and exactly `Other` gives `None` |
| `Keyboard.KeyFor` | src/keymap.rs:54-74 | every keypad value has a host key that is not `Other` |
| `Keyboard.LayoutPreserved` | src/keymap.rs:4-14 | the host key at each position of the keyboard grid maps to the keypad value at the same position of the keypad grid |
| `Keyboard.KeyForInverse` | src/keymap.rs:54-74 | the host key chosen for a keypad value translates back to that value |
| `Keyboard.ToChip8KeyBijective` | src/keymap.rs:54-74 | the 16 mapped keys give values below 16, each value from exactly one key (`KeyFor`), and only `Other` gives `None` |
| `Keyboard.ToChip8KeyInjective` | src/keymap.rs:54-74 | two keys with the same value are the same key |
| `Keyboard.KeyMap.IsKeyPressed` | src/keymap.rs:50-52 | keypad value `key` is pressed iff it is in the set of active values |
| `Keyboard.KeyMap.constructor` | src/keymap.rs:26-30 | no key is pressed |
| `Keyboard.KeyMap.AddKey` | src/keymap.rs:32-39 | the mapped value becomes pressed, no other value changes, adding a pressed key again changes nothing, and an unmapped key changes nothing |
| `Keyboard.KeyMap.RemoveKey` | src/keymap.rs:41-48 | the mapped value becomes released, no other value changes, and an unmapped key changes nothing |
| `Interpreter.Registers.constructor` | src/chip8.rs:610-630 | all sixteen registers and I are zero |
| `Interpreter.Registers.Get` | src/chip8.rs:657-680 | register `register` (≤ 0xF) read from the 16-element array |
| `Interpreter.Registers.Put` | src/chip8.rs:632-655 | the register reads back as the value; every other register, and I, is unchanged |
| `Interpreter.Chip8.constructor` | src/chip8.rs:48-61 | the state is `Semantics.Initial` |
| `Interpreter.Chip8.LoadHexadecimalDisplayBytes` | src/chip8.rs:502-529 | the first 80 bytes of memory are the font; the rest is kept |
| `Interpreter.Chip8.LoadRom` | src/chip8.rs:63-76 | the copy loop leaves the state `Semantics.LoadRom` describes |
| `Interpreter.Chip8.HighByte` | src/chip8.rs:485-487 | the memory byte at pc, which `State()` reads as `Semantics.HighByte` |
| `Interpreter.Chip8.LowByte` | src/chip8.rs:489-491 | the memory byte at pc + 1, which `State()` reads as `Semantics.LowByte` |
| `Interpreter.Chip8.Step` | src/chip8.rs:78-154 | the result and the new state are `Semantics.Exec` of the old state |
| `Interpreter.Chip8.Clear` | src/chip8.rs:157-164 | the new state is `Semantics.Clear` of the old |
| `Interpreter.Chip8.Ret` | src/chip8.rs:167-181 | the new state is `Semantics.Ret`: sp goes down by one, then pc is the saved address + 2 |
| `Interpreter.Chip8.Jump` | src/chip8.rs:184-191 | the returned pc is `Semantics.Jump`'s, nnn |
| `Interpreter.Chip8.Call` | src/chip8.rs:194-209 | the new state is `Semantics.Call`: pc saved at stack[sp], sp up by one, pc = nnn |
| `Interpreter.Chip8.SkipEq` | src/chip8.rs:212-225 | the returned pc is `Semantics.SkipEq`'s |
| `Interpreter.Chip8.SkipNeq` | src/chip8.rs:228-241 | the returned pc is `Semantics.SkipNeq`'s |
| `Interpreter.Chip8.SkipEqReg` | src/chip8.rs:244-256 | the returned pc is `Semantics.SkipEqReg`'s |
| `Interpreter.Chip8.LoadVx` | src/chip8.rs:259-267 | the new state is `Semantics.LoadVx` of the old |
| `Interpreter.Chip8.AddVx` | src/chip8.rs:270-280 | the new state is `Semantics.AddVx` of the old |
| `Interpreter.Chip8.SetVxToVy` | src/chip8.rs:283-292 | the new state is `Semantics.SetVxToVy` of the old |
| `Interpreter.Chip8.VxAndVy` | src/chip8.rs:295-305 | the new state is `Semantics.VxAndVy` of the old |
| `Interpreter.Chip8.AddVxAndVy` | src/chip8.rs:308-328 | the new state is `Semantics.AddVxAndVy`: VF written first, then Vx |
| `Interpreter.Chip8.VxShr` | src/chip8.rs:331-349 | the new state is `Semantics.VxShr`: Vx written first, then VF |
| `Interpreter.Chip8.VxShl` | src/chip8.rs:352-370 | the new state is `Semantics.VxShl`: Vx written first, then VF |
| `Interpreter.Chip8.LoadI` | src/chip8.rs:373-380 | the new state is `Semantics.LoadI` of the old |
| `Interpreter.Chip8.Rand` | src/chip8.rs:383-398 | the new state is `Semantics.Rand` of the old, for the given random byte |
| `Interpreter.Chip8.Draw` | src/chip8.rs:401-432 | the new state is `Semantics.Draw` of the old |
| `Interpreter.Chip8.Add` | src/chip8.rs:435-448 | the new state is `Semantics.Add` of the old |
| `Interpreter.Chip8.StoreArray` | src/chip8.rs:451-464 | the loop over 0..=x leaves `Semantics.StoreArray` of the old state |
| `Interpreter.Chip8.LoadArray` | src/chip8.rs:467-479 | the loop over 0..=x leaves `Semantics.LoadArray` of the old state |
| `Properties.UnrecognisedExactly` | src/chip8.rs:82-152 | a step fails iff the word is outside the handled set; it then reports the two bytes at pc and the state is unchanged |
| `Properties.UnrecognisedAllOnes` | src/chip8.rs:138-150 | 0xFFFF fails with the bytes (0xFF, 0xFF) and changes nothing |
| `Properties.StepKeepsWf` | src/chip8.rs:78-154 | a step keeps memory, registers, stack and screen at their sizes and sp ≤ 16 |
| `Properties.NextInstruction` | src/chip8.rs:78-154 | every handled instruction but JP, CALL, RET and the skips succeeds and continues at pc + 2 |
| `Properties.ClearScreen` | src/chip8.rs:157-164 | 00E0 blanks the screen, pc + 2, nothing else changes |
| `Properties.JumpTarget` | src/chip8.rs:184-191 | 1nnn sets pc to nnn ≤ 0xFFF, nothing else changes |
| `Properties.CallPushes` | src/chip8.rs:194-209 | 2nnn stores pc at stack[sp], other slots kept, sp + 1, pc = nnn, memory, registers, I and screen kept |
| `Properties.ReturnPops` | src/chip8.rs:167-181 | 00EE: sp − 1 and pc = stack[sp − 1] + 2, nothing else changes |
| `Properties.CallThenReturn` | src/chip8.rs:167-209 | a CALL to a RET comes back to the call site + 2 with sp as before; only the used stack slot differs |
| `Properties.SkipIfEqual` | src/chip8.rs:212-225 | 3xkk: pc + 4 iff Vx = kk, else pc + 2; nothing else changes |
| `Properties.SkipIfNotEqual` | src/chip8.rs:228-241 | 4xkk: pc + 4 iff Vx ≠ kk, else pc + 2; nothing else changes |
| `Properties.SkipIfRegistersEqual` | src/chip8.rs:244-256 | 5xy?: pc + 4 iff Vx = Vy, whatever the last nibble, else pc + 2; nothing else changes |
| `Properties.LoadImmediate` | src/chip8.rs:259-267 | 6xkk: Vx reads back as kk, every other register kept |
| `Properties.AddImmediate` | src/chip8.rs:270-280 | 7xkk: Vx = (Vx + kk) mod 256, every other register (VF included) kept |
| `Properties.CopyRegister` | src/chip8.rs:283-292 | 8xy0: Vx = Vy, every other register kept |
| `Properties.AndRegisters` | src/chip8.rs:295-305 | 8xy2: Vx = Vx & Vy, at most both, every other register kept |
| `Properties.AddRegisters` | src/chip8.rs:308-328 | 8xy4: Vx = (Vx + Vy) mod 256; for x ≠ F, VF = 1 iff the sum exceeds 255, else 0; other registers kept |
| `Properties.ShiftRight` | src/chip8.rs:331-349 | 8xy6: Vx = Vx / 2 (x ≠ F) and VF = 0, other registers kept |
| `Properties.ShiftLeft` | src/chip8.rs:352-370 | 8xyE: Vx = (Vx × 2) mod 256 (x ≠ F) and VF = 0, other registers kept |
| `Properties.RandomMasked` | src/chip8.rs:383-398 | Cxkk: Vx = random & kk, at most kk, other registers kept |
| `Properties.LoadIndex` | src/chip8.rs:373-380 | Annn: I = nnn ≤ 0xFFF, nothing else but pc changes |
| `Properties.AddToIndex` | src/chip8.rs:435-448 | Fx1E: I = (I + Vx) mod 65536, VF not written, nothing else but pc changes |
| `Properties.StoreRegisters` | src/chip8.rs:451-464 | Fx55: memory[I + k] = Vk for k ≤ x, every other byte kept, registers and I kept |
| `Properties.LoadRegisters` | src/chip8.rs:467-479 | Fx65: Vk = memory[I + k] for k ≤ x, registers above x kept, memory and I kept |
| `Properties.DrawSprite` | src/chip8.rs:401-432 | Dxyn: the n bytes at I are composited at (Vx, Vy); VF = 1 iff the draw collided, else 0; memory, I, stack and other registers kept |
| `Properties.ProgramLoaded` | src/chip8.rs:63-76 | after loading 6005 7003, pc = 512 and memory 512..515 holds those four bytes, registers kept |
| `Properties.AddThreeToFive` | src/chip8.rs:270-280 | 7003 at pc with V0 = 5 succeeds with V0 = 8, pc + 2, VF kept |
| `Properties.LoadThenAdd` | src/chip8.rs:259-280 | the program 6005 7003 loaded at 512 runs two steps to V0 = 8, pc = 516, VF unchanged |

## Left out

- `src/render.rs` (the SDL window, canvas, event pump, audio and colour parsing) is not part of this model: it is host I/O.
- `src/cli.rs` is not part of this model: it only declares command-line arguments.
- `src/main.rs` is not part of this model: it holds an older copy of the structs and no logic.
- Reading the ROM file and the message printed after loading it are left out. `LoadRom` takes the file's bytes as a parameter and models the copy loop and the new pc.
- Cxkk's random number generator is left out. `Step` and `Rand` take the random byte as a parameter.
- `disassemble`, `set_debug_output`, the `debug_output` flag and the `dump_to_stdout` functions are left out: they only print.
- `to_chip8_key` takes an SDL key code. The model has the sixteen mapped keys and one `Other` for every other key code.
- The Rust `Registers` has sixteen named fields. The model keeps them in one 16-element array indexed by register number; `put` and `get` select by that number too.
- `Sprite` borrows its bytes from memory. The model copies the bytes, which is the same thing because a draw never writes memory.
- `pc`, `sp` and the stack entries are `usize` and are modelled as unbounded naturals. Every access that could go out of range is a precondition, so nothing wraps.
- Timers, sound, wait-for-key, BCD, font-digit addressing, 8xy1/8xy3/8xy5/8xy7, 9xy0, Bnnn, Ex9E/ExA1 and the other Fx codes do not exist in this revision's `step`. They are not modelled as implemented; they reach the unrecognised-instruction result.
- The panics of the source are preconditions, and the model says nothing about what happens after a panic.
- `Graphics.Composite`: its own contract states only the screen size. What a draw writes is stated by `CompositeAt`, `CompositeElsewhere` and `Sprite.Draw`.
