# CHIP-8 interpreter core in Dafny

This is a model of the interpreter core of a small CHIP-8 emulator written in Rust.

The interpreter (`Chip8`) owns four things:
- the 4096-byte `RAM`;
- the 64 x 32 one-bit `Display`;
- the 16-key `Keypad`;
- its own registers: V0..VF, the program counter, the index register I, a return stack of at most 16 addresses, and the delay and sound timers.

Each step reads the big-endian word at the program counter. It then splits the word into nibbles, advances the program counter by 2, and applies one instruction from the table.

The model keeps the source's imperative form:
- `Ram.RAM`, `Display.Display`, `Keypad.Keypad` and `Chip8.Chip8` are classes over arrays, and their methods update them in place.
- `Display.Draw` keeps the nested loops of `draw`. Its inner loop is the helper method `DrawRow`.
- `Chip8.Reset` keeps the font-copy loop.
- `Chip8.WaitForKey` keeps the key-scan loop of `Fx0A`.

Each method is proved against a specification function on values:
- `Ram.Splice` for `write`;
- `Display.Blit` for `draw`;
- `Chip8.Exec` for `process_op`, with a random byte `rnd` passed in;
- `Chip8.RunStep` for `step`;
- `Chip8.TickTimers` for `decrement_timers`;
- `Chip8.ResetState`, `Chip8.PowerOnState` and `Chip8.LoadState` for `reset`, `new` and `load_game`.

`Exec` returns either the next state or the fault at which the Rust code panics:
- an opcode outside the table;
- `00EE` on an empty stack;
- `2nnn` on a full stack;
- `Fx1E` overflowing `u16`.

The remaining panics are preconditions, stated by `Chip8.InBounds` and the `requires` clauses:
- memory accesses past 4096;
- key indices of 16 or more;
- the program counter reaching the end of memory.

The lemmas in `Chip8Properties` (chip8_properties.dfy) state what each instruction family does, as properties of `Exec`. The lemmas in `Display` give `draw` a closed form: XOR inside the window, no change outside it, and collision exactly when the window had a set cell.

Modules follow the source files:
- `Bytes`: the shared Byte, Word and Nibble types and the bitwise operators.
- `Ram`: src/ram.rs.
- `Display`: src/display.rs.
- `Keypad`: src/keypad.rs.
- `Chip8`: src/chip8.rs.
- `Chip8Properties`: the instruction-level properties.

## Model

| member | source | states |
|---|---|---|
| Ram.Splice | src/ram.rs:20-22 | writing a buffer at `addr` puts exactly the buffer at `addr..addr+len`, keeps the memory size, and leaves every byte outside that range unchanged |
| Ram.BigEndian | src/ram.rs:50-52 | the word read from two bytes has the first byte as its high byte and the second as its low byte |
| Ram.WordRoundTrip | src/ram.rs:41-52 | a word split into `v >> 8` and `v & 0xFF` and read back big-endian is the same word |
| Ram.RAM.constructor | src/ram.rs:12-14 | a new RAM is 4096 zero bytes |
| Ram.RAM.Reset | src/ram.rs:16-18 | `reset` zeroes all 4096 bytes |
| Ram.RAM.Write | src/ram.rs:20-22 | `write(a, buf)` makes memory the splice of buf at a, so reading `a..a+len` gives buf back and no other byte changes; needs a+len <= 4096 |
| Ram.RAM.Read | src/ram.rs:24-26 | `read(a, buf)` fills the first len bytes of the caller's buffer with memory `a..a+len`, leaves the rest of the buffer alone, and does not change memory |
| Ram.RAM.Write8 | src/ram.rs:37-39 | `write8(a, v)` changes only address a, which then reads v |
| Ram.RAM.Write16 | src/ram.rs:41-44 | `write16(a, v)` stores the high byte at a and the low byte at a+1, changes nothing else, and `read16(a)` returns v afterwards; needs a+1 < 4096 |
| Ram.RAM.Read8 | src/ram.rs:46-52 | `read8(a)` is the high byte of `read16(a)` and the low byte of `read16(a - 1)`, wherever those words exist; needs a < 4096 |
| Ram.RAM.Read16 | src/ram.rs:50-52 | `read16(a)` is the big-endian word at a, a+1; its high and low bytes are those two bytes |
| Display.Index | src/display.rs:53-59 | the cell of (x, y) is `(x mod 64) + (y mod 32) * 64`: it is below 2048, its column is x mod 64 and its row is y mod 32 |
| Display.IndexSameCell | src/display.rs:53-59 | two coordinates address the same cell exactly when they agree modulo 64 and modulo 32, so (x+64, y) and (x, y+32) are (x, y) |
| Display.SpriteBitsMakeRow | src/display.rs:42 | the bits `byte >> (7 - i) & 1` for i = 0..7, weighted 128 down to 1, make up the sprite row, so each bit of the row is drawn exactly once, most significant first |
| Display.Xored | src/display.rs:42-47 | on a 0/1 cell, the new cell is 1 exactly when the sprite bit differs from the old pixel, and a 0 bit leaves the cell as it was |
| Display.XoredTwice | src/display.rs:42-47 | XORing the same bit into a 0/1 cell twice gives the cell back |
| Display.PixelXor | src/display.rs:42-47 | one pixel of `draw` keeps the surface a 0/1 bitmap of 2048 cells |
| Display.BlitRow | src/display.rs:41-48 | one sprite row keeps the surface a 0/1 bitmap of 2048 cells |
| Display.BlitRows | src/display.rs:40-49 | the first j sprite rows keep the surface a 0/1 bitmap of 2048 cells |
| Display.Blit | src/display.rs:38-51 | `draw` keeps the surface a 0/1 bitmap of 2048 cells |
| Display.ColumnsDistinct | src/display.rs:41-47 | the 8 pixels of one sprite row land on 8 distinct cells |
| Display.RowsDistinct | src/display.rs:40-47 | pixels of two different rows (fewer than 32 apart) land on distinct cells |
| Display.RowUnvisited | src/display.rs:41-48 | a cell that no pixel of a row addresses keeps its value |
| Display.RowVisited | src/display.rs:41-48 | after a row, each of its cells is the old value XOR the sprite bit |
| Display.RowOverwrite | src/display.rs:41-48 | a row reports a collision exactly when it already had one or one of its 8 cells was set before |
| Display.RowsUnvisited | src/display.rs:40-49 | a cell outside the window of the first j rows keeps its value |
| Display.RowsVisited | src/display.rs:40-49 | with at most 32 rows, each window cell is old XOR its sprite bit |
| Display.RowsOverwrite | src/display.rs:39-50 | with at most 32 rows, the collision flag is set exactly when it was already set or some window cell was set beforehand |
| Display.BlitInWindow | src/display.rs:38-51 | `draw` sets cell (x+i, y+j) to the old value XOR bit (7-i) of sprite[j], and leaves it unchanged where that bit is 0 |
| Display.BlitOutsideWindow | src/display.rs:38-51 | cells outside the wrapped 8 x len window are unchanged |
| Display.CollidesIffWindowSet | src/display.rs:39-50 | `draw` returns `Overwrite` exactly when some cell of the wrapped window was set before, whatever the sprite bits are |
| Display.DrawTwiceRestores | src/display.rs:38-51 | drawing the same sprite of at most 32 rows twice at the same place restores the display exactly |
| Display.DrawTwiceCollides | src/display.rs:38-51 | the second of two identical draws returns `Overwrite` exactly when some window cell differed from its sprite bit before the first draw |
| Display.DrawTwiceOnClearWindow | src/display.rs:38-51 | on a clear window, a sprite with a set bit draws first without and then with a collision |
| Display.Display.constructor | src/display.rs:20-24 | a new display has every cell 0 |
| Display.Display.Reset | src/display.rs:26-28 | `reset` makes every cell 0 |
| Display.Display.Clear | src/display.rs:34-36 | `clear` makes every cell 0 |
| Display.Display.PixelWraps | src/display.rs:53-55 | `is_pixel_set` wraps around: (x + 64, y) and (x, y + 32) read the same pixel as (x, y) |
| Display.Display.SetPixel | src/display.rs:57-59 | `set_pixel(x, y, s)` writes s to the wrapped cell of (x, y) and to no other cell; `is_pixel_set(x, y)` then returns s, and cells stay 0/1 |
| Display.Display.DrawRow | src/display.rs:41-48 | the inner loop of `draw` gives the surface and collision flag that `BlitRow` specifies |
| Display.Display.Draw | src/display.rs:38-51 | `draw` leaves the surface `Blit` specifies and returns `Overwrite` exactly when `Blit` flags a collision |
| Keypad.TwoStates | src/keypad.rs:1-5 | with exactly two states, a key is up exactly when it is not down |
| Keypad.CountDown | src/chip8.rs:236-240 | the number of keys down is at most the number of keys, and it is 0 exactly when every key is up |
| Keypad.LastDown | src/chip8.rs:236-240 | the last key that the `Fx0A` scan finds down: that key is down and every later key is up; -1 exactly when every key is up |
| Keypad.CountDownLastDown | src/chip8.rs:236-240 | some key is down exactly when there is a highest key that is down |
| Keypad.Keypad.constructor | src/keypad.rs:18-22 | `new` leaves all 16 keys up |
| Keypad.Keypad.Reset | src/keypad.rs:24-26 | `reset` leaves all 16 keys up |
| Keypad.Keypad.IsKeyUp | src/keypad.rs:28-34 | `is_key_up(k)` is true exactly when key k is up, and `is_key_down(k)` is exactly its negation |
| Keypad.Keypad.SetKeyUp | src/keypad.rs:36-38 | `set_key_up(k)` makes key k up, leaves the other keys alone, and changes nothing when k is already up |
| Keypad.Keypad.SetKeyDown | src/keypad.rs:40-42 | `set_key_down(k)` makes key k down, leaves the other keys alone, and changes nothing when k is already down |
| Chip8.Encode | src/chip8.rs:105-108 | the leading nibble of the word built from four nibbles is the first one |
| Chip8.Decode | src/chip8.rs:105-114 | the four nibbles put back together give the opcode; nnn is its low 12 bits and kk its low 8 bits |
| Chip8.DecodeEncode | src/chip8.rs:105-114 | decoding a word built from four nibbles gives those nibbles back |
| Chip8.NibblesUnique | src/chip8.rs:105-118 | two words are equal exactly when their four nibbles are, so the match is on the word |
| Chip8.InBounds | src/chip8.rs:206-268 | the accesses that panic when out of range: only `Dxyn`, `Ex9E`/`ExA1` and `Fx33`/`Fx55`/`Fx65` can go out of range, and with I + 16 <= 4096 and every register below 16 no instruction does |
| Chip8.SpriteRows | src/chip8.rs:207-209 | the buffer `Dxyn` draws has 16 rows: the n bytes at I, then zeros |
| Chip8.Alu | src/chip8.rs:157-192 | `8xyn` is defined exactly for n in 0-7 and E; it writes only Vx and VF, and 8xy0-8xy3 leave VF alone (unless x = F); the flags are stated by `AddCarry`, `SubtractBorrow` and `Shifts` |
| Chip8.Dispatch | src/chip8.rs:118-271 | the arms of `process_op` after the PC advance: `StackUnderflow` comes only from `00EE` on an empty stack, `StackOverflow` only from `2nnn` on a full one, `IndexOverflow` only from `Fx1E`; each arm's effect is stated by `FaultIff`, `SkipEffect`, `AluDispatch`, `DrawEffect` and the other `Chip8Properties` lemmas |
| Chip8.Exec | src/chip8.rs:104-272 | `process_op` on a state: whenever it does not fault, the state keeps its shape (4096 bytes of memory, a 0/1 screen, 16 registers, at most 16 return addresses) and the keys are unchanged |
| Chip8.DispatchPreservesWellFormed | src/chip8.rs:118-271 | no instruction breaks the shape of the state or changes the keys |
| Chip8.Fetch | src/chip8.rs:90-92 | the fetched word has the byte at PC as its high byte and the byte at PC+1 as its low byte |
| Chip8.RunStep | src/chip8.rs:90-93 | one `step`: a step that does not fault leaves a well-formed state with the keys unchanged, and a word outside the table at PC faults with that word |
| Chip8.TimersAfterTicks | src/chip8.rs:95-102 | after n ticks, each timer has gone down by n independently, with a floor at 0, and nothing else has changed (n = 1 is one `decrement_timers`) |
| Chip8.TickTimers | src/chip8.rs:95-102 | one `decrement_timers`: nothing but the two timers changes, neither rises, each falls by at most 1, and a positive timer falls |
| Chip8.PowerOnState | src/chip8.rs:39-51 | `new`'s state is well-formed |
| Chip8.BootMemory | src/chip8.rs:62-75 | after `reset`, memory holds the font in bytes 0..80 and zeros after it |
| Chip8.ResetState | src/chip8.rs:62-75 | `reset`'s state is well-formed |
| Chip8.LoadState | src/chip8.rs:53-60 | after loading, the program sits at 0x200..0x200+len; needs 0x200+len <= 4096 |
| Chip8.Chip8.constructor | src/chip8.rs:39-51 | `new` builds the power-on state: all zero, all keys up, PC 0 |
| Chip8.Chip8.Reset | src/chip8.rs:62-75 | `reset` leaves exactly `ResetState`, with the font written by the loop |
| Chip8.Chip8.LoadGame | src/chip8.rs:53-60 | `load_game` without the file read leaves exactly `LoadState(program)` |
| Chip8.Chip8.DecrementTimers | src/chip8.rs:95-102 | `decrement_timers` moves the state to `TickTimers` of the old state |
| Chip8.Chip8.Step | src/chip8.rs:90-93 | `step` does what `RunStep` says for the old state: that next state, or that fault |
| Chip8.Chip8.ProcessOp | src/chip8.rs:104-272 | `process_op` does what `Exec` says for the old state: that next state, or that fault |
| Chip8.Chip8.ProcessSystem | src/chip8.rs:119-124 | `00E0` and `00EE` (and the rest of 0nnn) agree with `Dispatch` |
| Chip8.Chip8.ProcessFlow | src/chip8.rs:125-131 | `1nnn`, `2nnn` and `Bnnn` agree with `Dispatch` |
| Chip8.Chip8.ProcessSkip | src/chip8.rs:132-149 | `3xkk`, `4xkk`, `5xy0` and `9xy0` agree with `Dispatch` |
| Chip8.Chip8.ProcessLoad | src/chip8.rs:150-156 | `6xkk`, `7xkk`, `Annn` and `Cxkk` (with the random byte passed in) agree with `Dispatch` |
| Chip8.Chip8.ProcessAlu | src/chip8.rs:157-192 | `8xyn` agrees with `Dispatch` |
| Chip8.Chip8.ProcessDraw | src/chip8.rs:206-218 | `Dxyn` reads n bytes at I into a zeroed 16-byte buffer, draws it, and sets VF from `draw`'s result, as `Dispatch` says |
| Chip8.Chip8.ProcessKeySkip | src/chip8.rs:219-230 | `Ex9E` and `ExA1` agree with `Dispatch` |
| Chip8.Chip8.ProcessMisc | src/chip8.rs:231-255 | `Fx07`, `Fx0A`, `Fx15`, `Fx18`, `Fx1E` and `Fx29` agree with `Dispatch` |
| Chip8.Chip8.ProcessMemory | src/chip8.rs:256-268 | `Fx33`, `Fx55` and `Fx65` agree with `Dispatch` and never fault |
| Chip8.Chip8.WaitForKey | src/chip8.rs:234-242 | the `Fx0A` loop steps PC back by 2, then adds 2 per key that is down, and leaves Vx as the last key that is down (unchanged if none) |
| Chip8.Chip8.StoreDigits | src/chip8.rs:257-264 | `Fx33` writes Vx / 100, (Vx / 10) % 10 and Vx % 10 at I, I+1 and I+2 |
| Chip8Properties.FaultIff | src/chip8.rs:118-272 | an instruction faults exactly when it is outside the table, `00EE` on an empty stack, `2nnn` on a full stack, or `Fx1E` overflowing I; each with its own fault |
| Chip8Properties.UnsupportedExamples | src/chip8.rs:270 | `0123`, `5121`, `8128` and `E1FF` fault as unsupported opcodes |
| Chip8Properties.ExecAdvancesPc | src/chip8.rs:116 | an instruction that does not jump, skip or wait for a key ends with PC exactly 2 further on |
| Chip8Properties.SkipEffect | src/chip8.rs:133-149 | each skip changes only PC, by 4 when its condition holds and by 2 otherwise |
| Chip8Properties.AddImmediate | src/chip8.rs:153-156 | `7xkk` leaves Vx = (Vx + kk) mod 256, and leaves every other register alone, VF included unless x = F |
| Chip8Properties.AluDispatch | src/chip8.rs:157-192 | `8xyn` replaces the registers with what `Alu` gives, and faults exactly when n is not 0-7 or E |
| Chip8Properties.AddCarry | src/chip8.rs:166-170 | `8xy4`: Vx + 256 * VF is the exact sum, so VF = 1 exactly when the sum is at least 256; with x = F, the wrapped sum is what remains |
| Chip8Properties.SubtractBorrow | src/chip8.rs:172-187 | `8xy5`/`8xy7` wrap modulo 256, VF = 1 exactly when there is no borrow (for x other than F), and no register other than Vx and VF changes |
| Chip8Properties.Shifts | src/chip8.rs:178-192 | `8xy6` sets VF = Vx & 1 and halves Vx; `8xyE` sets VF = Vx & 0x80 (0 or 128) and doubles Vx mod 256; with x = F the flag is overwritten; no other register changes |
| Chip8Properties.CallThenReturn | src/chip8.rs:122-131 | `2nnn` pushes the advanced PC and jumps to nnn; a later `00EE` returns to the instruction after the call with the caller's stack |
| Chip8Properties.DrawEffect | src/chip8.rs:206-218 | `Dxyn` blits the 16-row buffer at (Vx, Vy); VF = 1 exactly when a cell of the 8 x 16 window was set; rows n..15 and cells outside the window are unchanged |
| Chip8Properties.DrawTwiceRestoresScreen | src/chip8.rs:206-218 | the same `Dxyn` executed twice restores the screen when neither coordinate register is VF |
| Chip8Properties.WaitForKeyEffect | src/chip8.rs:234-242 | `Fx0A` with k keys down ends with PC 2k past the instruction; with k = 0 nothing changes, and otherwise Vx is the highest index of a key that is down |
| Chip8Properties.StoreDigitsEffect | src/chip8.rs:257-264 | `Fx33` stores digits with 100 m[I] + 10 m[I+1] + m[I+2] = Vx, each at most 9, and changes no other byte |
| Chip8Properties.StoreThenLoadRegisters | src/chip8.rs:266-268 | `Fx55`, then `Fx65` with the same I and x over untouched memory, restores V0..V(x-1) |
| Chip8Properties.StoreExcludesVx | src/chip8.rs:266 | `Fx55` does not store Vx: the byte at I + x is unchanged |
| Chip8Properties.LoadExcludesVx | src/chip8.rs:268 | `Fx65` does not load Vx: Vx..VF are unchanged |
| Chip8Properties.ResetEffect | src/chip8.rs:39-75 | after `reset`: PC 0x200, I 0, empty stack, zero registers and timers, all keys up, a clear screen, the font at 0..80 and zeros after it; `new` differs only in PC 0 and memory without the font |
| Chip8Properties.LoadedJump | src/chip8.rs:53-60 | a loaded program `12 34` jumps to 0x234 in one step |
| Chip8Properties.SetThenAdd | src/chip8.rs:151-156 | the bytes `60 05 70 03` at PC leave V0 = 8 and PC 4 further on after two steps |
| Chip8Properties.LoadedAdd | src/chip8.rs:53-60 | the same program loaded at 0x200 runs as `SetThenAdd` says |

## Left out

- src/emulator.rs and src/main.rs are not part of this model. They hold the window, the event loop, rasterisation and the key map (foreign-library UI code), and the entry point.
- `Chip8::run` is left out. It is an endless loop of 10 steps, a timer tick and a `thread::sleep`, which is wall-clock pacing. Its parts are `Step` and `DecrementTimers`.
- `load_game`'s `std::fs::read` is left out because it is file I/O. `LoadGame` takes the bytes read as a parameter.
- `rand::random` in `Cxkk` is left out because it is randomness. The random byte is the parameter `rnd`, and Vx becomes `rnd & kk`.
- `dump` in src/display.rs and src/ram.rs is left out because it only prints.
- `ArrayVec` internals are left out. The stack is a sequence of at most 16 addresses. A push onto a full stack is the `StackOverflow` fault.
- `KeyState::is_key_up`/`is_key_down` are datatype predicates. `set_key_up`/`set_key_down` on a single `KeyState` are folded into `Keypad.SetKeyUp`/`Keypad.SetKeyDown`.
- Chip8.Chip8.ProcessOp: requires PC < 4096, not the exact condition under which `pc += 2` overflows `u16` in a debug build. `step` always meets it, because `read16` needs PC + 1 < 4096.
- Chip8.InBounds: Rust panics on an out-of-range memory or key access. These panics are preconditions rather than faults:
  - `Dxyn` with I + n > 4096;
  - `Fx33` with I + 2 >= 4096;
  - `Fx55`/`Fx65` with I + x > 4096;
  - `Ex9E`/`ExA1` with Vx >= 16.
- Display.BlitInWindow: the closed forms of `draw` assume a sprite of at most 32 rows. `Dxyn` always draws 16. A taller sprite wraps onto its own cells, and then only `Blit`'s step-by-step definition describes it.
- Display.DrawTwiceCollides: "the second of two identical draws always collides when the sprite has a set bit" does not hold in general. A pixel that was set before the first draw is erased by it, so the second draw can find the window clear. The lemma states the exact condition instead. `DrawTwiceOnClearWindow` is the case where the window starts clear.
- Chip8.Decode: the nibbles are extracted with division and remainder by 16, not with the masks and shifts of src/chip8.rs:105-114. `Decode` proves that the fields are the four hexadecimal digits of the word, with nnn and kk its low 12 and 8 bits, and `NibblesUnique` proves that the digits determine the word. The mask-and-shift expressions themselves are not modelled.
- Display.Display.DrawRow: this is the inner loop of `draw`, written as its own method. It does not exist as a separate function in the source.
