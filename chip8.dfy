/**
 * The CHIP-8 interpreter (src/chip8.rs): sixteen byte registers V0..VF,
 * the program counter, the index register I, a return stack of at most
 * sixteen addresses, the delay and sound timers, and the RAM, display and
 * keypad it owns.
 *
 * `Exec` is the meaning of one `process_op` call as a function of the
 * state before it: the next state, or the fault at which the Rust code
 * panics (an opcode outside the table, `00EE` on an empty stack, `2nnn` on
 * a full one, `Fx1E` overflowing `u16`). The class `Chip8` runs the same
 * instruction in place, and each of its operations is proved to agree
 * with `Exec`. Out-of-range memory and key accesses, which also panic in
 * the Rust code, are preconditions (`InBounds`).
 */
module Chip8 {
  import opened Bytes
  import Ram
  import Display
  import Keypad

  /** Where programs are loaded, and where `reset` points the program counter. */
  const PROGRAM_START := 0x200

  /** Number of general-purpose registers; VF doubles as the flag register. */
  const REGISTERS := 16
  const FLAG := 0xF

  /** Capacity of the return stack (`ArrayVec<[u16; 16]>`). */
  const STACK_CAPACITY := 16

  /** Rows of the zeroed buffer that `Dxyn` draws, whatever n is. */
  const SPRITE_BUFFER := 16

  /** Bytes per font glyph, the stride `Fx29` multiplies by. */
  const GLYPH_SIZE := 5

  /** The sixteen 4x5 hexadecimal digit glyphs `reset` stores at address 0. */
  const FONT_SET: seq<Byte> := [
    0xF0, 0x90, 0x90, 0x90, 0xF0, // 0
    0x20, 0x60, 0x20, 0x20, 0x70, // 1
    0xF0, 0x10, 0xF0, 0x80, 0xF0, // 2
    0xF0, 0x10, 0xF0, 0x10, 0xF0, // 3
    0x90, 0x90, 0xF0, 0x10, 0x10, // 4
    0xF0, 0x80, 0xF0, 0x10, 0xF0, // 5
    0xF0, 0x80, 0xF0, 0x90, 0xF0, // 6
    0xF0, 0x10, 0x20, 0x40, 0x40, // 7
    0xF0, 0x90, 0xF0, 0x90, 0xF0, // 8
    0xF0, 0x90, 0xF0, 0x10, 0xF0, // 9
    0xF0, 0x90, 0xF0, 0x90, 0x90, // A
    0xE0, 0x90, 0xE0, 0x90, 0xE0, // B
    0xF0, 0x80, 0x80, 0x80, 0xF0, // C
    0xE0, 0x90, 0x90, 0x90, 0xE0, // D
    0xF0, 0x80, 0xF0, 0x80, 0xF0, // E
    0xF0, 0x80, 0xF0, 0x80, 0x80  // F
  ]

  /** Why `process_op` panics. */
  datatype Fault =
    | UnsupportedOpcode(op: Word)
    | StackUnderflow
    | StackOverflow
    | IndexOverflow

  datatype Option<T> = None | Some(value: T)

  datatype Result<T> = Ok(value: T) | Err(fault: Fault)

  /** The interpreter's whole state as values. */
  datatype State = State(
    memory: seq<Byte>,
    screen: seq<Byte>,
    registers: seq<Byte>,
    keys: seq<Keypad.KeyState>,
    pc: Word,
    index: Word,
    stack: seq<Word>,
    delay: Byte,
    sound: Byte)

  /** The shape every state has: 4096 bytes, a 0/1 screen, 16 registers and keys, at most 16 return addresses. */
  ghost predicate WellFormed(s: State) {
    |s.memory| == Ram.SIZE && Display.IsBitmap(s.screen) && |s.registers| == REGISTERS
    && |s.keys| == Keypad.KEYS && |s.stack| <= STACK_CAPACITY
  }

  /** The fields `process_op` extracts from an instruction word. */
  datatype Instruction = Instruction(op0: Nibble, x: Nibble, y: Nibble, n: Nibble, nnn: Word, kk: Byte)

  /** The instruction word with nibbles `op0 x y n`, most significant first. */
  function Encode(op0: Nibble, x: Nibble, y: Nibble, n: Nibble): (op: Word)
    ensures op / 0x1000 == op0
  {
    0x1000 * op0 + 0x100 * x + 0x10 * y + n
  }

  /**
   * The masks and shifts at the top of `process_op`: the four nibbles, the
   * 12-bit address `nnn` and the low byte `kk`, peeled off four bits at a
   * time from the least significant end.
   */
  function Decode(op: Word): (d: Instruction)
    ensures Encode(d.op0, d.x, d.y, d.n) == op
    ensures d.nnn == op % 0x1000 && d.kk == op % 0x100
  {
    var n, rest := op % 0x10, op / 0x10;
    var y, rest := rest % 0x10, rest / 0x10;
    var x, op0 := rest % 0x10, rest / 0x10;
    Instruction(op0, x, y, n, 0x100 * x + 0x10 * y + n, 0x10 * y + n)
  }

  /** Decoding the word built from four nibbles gives the same nibbles back. */
  lemma DecodeEncode(op0: Nibble, x: Nibble, y: Nibble, n: Nibble)
    ensures var d := Decode(Encode(op0, x, y, n));
            d.op0 == op0 && d.x == x && d.y == y && d.n == n
  {
    var op := Encode(op0, x, y, n);
    var d := Decode(op);
    assert Encode(d.op0, d.x, d.y, d.n) == op;
    NibblesUnique(op0, x, y, n, d.op0, d.x, d.y, d.n);
  }

  /** Two nibble quadruples that encode to the same word are equal. */
  lemma NibblesUnique(a0: Nibble, a1: Nibble, a2: Nibble, a3: Nibble, b0: Nibble, b1: Nibble, b2: Nibble, b3: Nibble)
    requires Encode(a0, a1, a2, a3) == Encode(b0, b1, b2, b3)
    ensures a0 == b0 && a1 == b1 && a2 == b2 && a3 == b3
  {
    var lowA, lowB := 0x100 * a1 + 0x10 * a2 + a3, 0x100 * b1 + 0x10 * b2 + b3;
    assert a0 == b0 by {
      assert lowA < 0x1000 && lowB < 0x1000;
    }
    assert a1 == b1 by {
      assert 0x10 * a2 + a3 < 0x100 && 0x10 * b2 + b3 < 0x100;
    }
    assert a2 == b2;
  }

  /**
   * The memory, register and key accesses of `op` stay in range: `Dxyn`
   * reads `I..I+n`, `Fx33` writes `I..I+3`, `Fx55` and `Fx65` touch
   * `I..I+x`, and `Ex9E`/`ExA1` index the keypad with Vx.
   */
  predicate InBounds(s: State, op: Word)
    requires |s.registers| == REGISTERS
    ensures Decode(op).op0 !in {0xD, 0xE, 0xF} ==> InBounds(s, op)
    ensures var d := Decode(op);
            !(d.op0 == 0xD || (d.op0 == 0xE && d.kk in {0x9E, 0xA1}) || (d.op0 == 0xF && d.kk in {0x33, 0x55, 0x65}))
            ==> InBounds(s, op)
    ensures s.index + 0x10 <= Ram.SIZE && (forall k :: 0 <= k < REGISTERS ==> s.registers[k] < Keypad.KEYS)
            ==> InBounds(s, op)
  {
    var d := Decode(op);
    match (d.op0, d.y, d.n)
    case (0xD, _, _) => s.index + d.n <= Ram.SIZE
    case (0xE, 0x9, 0xE) => s.registers[d.x] < Keypad.KEYS
    case (0xE, 0xA, 0x1) => s.registers[d.x] < Keypad.KEYS
    case (0xF, 0x3, 0x3) => s.index + 2 < Ram.SIZE
    case (0xF, 0x5, 0x5) => s.index + d.x <= Ram.SIZE
    case (0xF, 0x6, 0x5) => s.index + d.x <= Ram.SIZE
    case _ => true
  }

  /** Whether `op` matches one of the arms of `process_op`'s table. */
  predicate Supported(op: Word) {
    var d := Decode(op);
    op == 0x00E0 || op == 0x00EE
    || d.op0 in {0x1, 0x2, 0x3, 0x4, 0x6, 0x7, 0xA, 0xB, 0xC, 0xD}
    || (d.op0 in {0x5, 0x9} && d.n == 0x0)
    || (d.op0 == 0x8 && d.n in {0x0, 0x1, 0x2, 0x3, 0x4, 0x5, 0x6, 0x7, 0xE})
    || (d.op0 == 0xE && d.kk in {0x9E, 0xA1})
    || (d.op0 == 0xF && d.kk in {0x07, 0x0A, 0x15, 0x18, 0x1E, 0x29, 0x33, 0x55, 0x65})
  }

  /** `s` with the program counter moved past the next instruction when `cond` holds. */
  function SkipIf(s: State, cond: bool): State
    requires s.pc + 2 < 0x1_0000
  {
    if cond then s.(pc := s.pc + 2) else s
  }

  /** The 16 rows `Dxyn` draws: n bytes from I, then zeros. */
  function SpriteRows(memory: seq<Byte>, index: Word, n: Nibble): (rows: seq<Byte>)
    requires index + n <= |memory|
    ensures |rows| == SPRITE_BUFFER
    ensures rows[..n] == memory[index..index + n]
    ensures forall j :: n <= j < SPRITE_BUFFER ==> rows[j] == 0
  {
    memory[index..index + n] + seq(SPRITE_BUFFER - n, _ => 0)
  }

  /** The registers after `8xyn` for n in 0..7 and E, VF written before Vx as in the Rust code. */
  function Alu(v: seq<Byte>, x: Nibble, y: Nibble, n: Nibble): (r: Option<seq<Byte>>)
    requires |v| == REGISTERS
    ensures r.Some? <==> n in {0x0, 0x1, 0x2, 0x3, 0x4, 0x5, 0x6, 0x7, 0xE}
    ensures r.Some? ==> |r.value| == REGISTERS
    ensures r.Some? ==> forall k :: 0 <= k < REGISTERS && k != x && k != FLAG ==> r.value[k] == v[k]
    ensures r.Some? && n <= 0x3 ==> r.value[FLAG] == v[FLAG] || x == FLAG
  {
    var vx: int, vy: int := v[x], v[y];
    match n
    case 0x0 => Some(v[x := vy])
    case 0x1 => Some(v[x := BitOr(vx, vy)])
    case 0x2 => Some(v[x := BitAnd(vx, vy)])
    case 0x3 => Some(v[x := BitXor(vx, vy)])
    case 0x4 =>
      var sum := vx + vy;
      Some(v[FLAG := if sum >= 0x100 then 1 else 0][x := sum % 0x100])
    case 0x5 =>
      var diff := vx - vy;
      Some(v[FLAG := if diff < 0 then 0 else 1][x := diff % 0x100])
    case 0x6 =>
      var w := v[FLAG := BitAnd(vx, 0x1)];
      Some(w[x := w[x] / 2])
    case 0x7 =>
      var diff := vy - vx;
      Some(v[FLAG := if diff < 0 then 0 else 1][x := diff % 0x100])
    case 0xE =>
      var w := v[FLAG := BitAnd(vx, 0x80)];
      Some(w[x := (w[x] as int * 2) % 0x100])
    case _ => None
  }

  /**
   * The effect of `op` on a state whose program counter has already been
   * advanced by 2: the `match` of `process_op`, arm by arm.
   */
  function Dispatch(s: State, op: Word, rnd: Byte): (r: Result<State>)
    requires WellFormed(s) && 2 <= s.pc <= Ram.SIZE + 1 && InBounds(s, op)
    ensures r == Err(StackUnderflow) ==> op == 0x00EE && |s.stack| == 0
    ensures r == Err(StackOverflow) ==> Decode(op).op0 == 0x2 && |s.stack| == STACK_CAPACITY
    ensures r == Err(IndexOverflow) ==> Decode(op).op0 == 0xF && Decode(op).kk == 0x1E
  {
    var d := Decode(op);
    var v := s.registers;
    match (d.op0, d.x, d.y, d.n)
    case (0x0, 0x0, 0xE, 0x0) => Ok(s.(screen := seq(Display.CELLS, _ => 0)))
    case (0x0, 0x0, 0xE, 0xE) =>
      if |s.stack| == 0 then Err(StackUnderflow)
      else Ok(s.(pc := s.stack[|s.stack| - 1], stack := s.stack[..|s.stack| - 1]))
    case (0x1, _, _, _) => Ok(s.(pc := d.nnn))
    case (0x2, _, _, _) =>
      if |s.stack| == STACK_CAPACITY then Err(StackOverflow)
      else Ok(s.(stack := s.stack + [s.pc], pc := d.nnn))
    case (0x3, _, _, _) => Ok(SkipIf(s, v[d.x] == d.kk))
    case (0x4, _, _, _) => Ok(SkipIf(s, v[d.x] != d.kk))
    case (0x5, _, _, 0x0) => Ok(SkipIf(s, v[d.x] == v[d.y]))
    case (0x6, _, _, _) => Ok(s.(registers := v[d.x := d.kk]))
    case (0x7, _, _, _) => Ok(s.(registers := v[d.x := (v[d.x] + d.kk) % 0x100]))
    case (0x8, _, _, _) =>
      var r := Alu(v, d.x, d.y, d.n);
      if r.Some? then Ok(s.(registers := r.value)) else Err(UnsupportedOpcode(op))
    case (0x9, _, _, 0x0) => Ok(SkipIf(s, v[d.x] != v[d.y]))
    case (0xA, _, _, _) => Ok(s.(index := d.nnn))
    case (0xB, _, _, _) => Ok(s.(pc := d.nnn + v[0x0]))
    case (0xC, _, _, _) => Ok(s.(registers := v[d.x := BitAnd(rnd, d.kk)]))
    case (0xD, _, _, _) =>
      var drawn := Display.Blit(s.screen, v[d.x], v[d.y], SpriteRows(s.memory, s.index, d.n));
      Ok(s.(screen := drawn.cells, registers := v[FLAG := if drawn.overwrite then 1 else 0]))
    case (0xE, _, 0x9, 0xE) => Ok(SkipIf(s, s.keys[v[d.x]].IsKeyDown()))
    case (0xE, _, 0xA, 0x1) => Ok(SkipIf(s, s.keys[v[d.x]].IsKeyUp()))
    case (0xF, _, 0x0, 0x7) => Ok(s.(registers := v[d.x := s.delay]))
    case (0xF, _, 0x0, 0xA) =>
      var last := Keypad.LastDown(s.keys);
      Ok(s.(pc := s.pc - 2 + 2 * Keypad.CountDown(s.keys),
            registers := if last < 0 then v else v[d.x := last]))
    case (0xF, _, 0x1, 0x5) => Ok(s.(delay := v[d.x]))
    case (0xF, _, 0x1, 0x8) => Ok(s.(sound := v[d.x]))
    case (0xF, _, 0x1, 0xE) =>
      if s.index + v[d.x] >= 0x1_0000 then Err(IndexOverflow)
      else Ok(s.(index := s.index + v[d.x]))
    case (0xF, _, 0x2, 0x9) => Ok(s.(index := v[d.x] * GLYPH_SIZE))
    case (0xF, _, 0x3, 0x3) =>
      var vx, i := v[d.x], s.index;
      Ok(s.(memory := s.memory[i := vx / 100][i + 1 := (vx / 10) % 10][i + 2 := vx % 10]))
    case (0xF, _, 0x5, 0x5) => Ok(s.(memory := Ram.Splice(s.memory, s.index, v[..d.x])))
    case (0xF, _, 0x6, 0x5) => Ok(s.(registers := s.memory[s.index..s.index + d.x] + v[d.x..]))
    case _ => Err(UnsupportedOpcode(op))
  }

  /**
   * One `process_op(op)`: advance the program counter by 2, then apply the
   * instruction. An instruction that does not fault leaves a well-formed
   * state (the screen holds only 0 and 1, the stack at most 16 entries)
   * and never changes the keys.
   */
  function Exec(s: State, op: Word, rnd: Byte): (r: Result<State>)
    requires WellFormed(s) && s.pc < Ram.SIZE && InBounds(s, op)
    ensures r.Ok? ==> WellFormed(r.value) && r.value.keys == s.keys
  {
    var advanced := s.(pc := s.pc + 2);
    DispatchPreservesWellFormed(advanced, op, rnd);
    Dispatch(advanced, op, rnd)
  }

  /** No instruction breaks the shape of the state or touches the keys. */
  lemma DispatchPreservesWellFormed(s: State, op: Word, rnd: Byte)
    requires WellFormed(s) && 2 <= s.pc <= Ram.SIZE + 1 && InBounds(s, op)
    ensures var r := Dispatch(s, op, rnd);
            r.Ok? ==> WellFormed(r.value) && r.value.keys == s.keys
  {
  }

  /** The big-endian word at the program counter, which `step` executes. */
  function Fetch(s: State): (op: Word)
    requires |s.memory| == Ram.SIZE && s.pc + 1 < Ram.SIZE
    ensures Ram.HighByte(op) == s.memory[s.pc] && Ram.LowByte(op) == s.memory[s.pc + 1]
  {
    Ram.BigEndian(s.memory[s.pc], s.memory[s.pc + 1])
  }

  /** One `step`: execute the instruction at the program counter. */
  function RunStep(s: State, rnd: Byte): (r: Result<State>)
    requires WellFormed(s) && s.pc + 1 < Ram.SIZE && InBounds(s, Fetch(s))
    ensures r.Ok? ==> WellFormed(r.value) && r.value.keys == s.keys
    ensures !Supported(Fetch(s)) ==> r == Err(UnsupportedOpcode(Fetch(s)))
  {
    Exec(s, Fetch(s), rnd)
  }

  /** A timer after one `decrement_timers`: one lower, but never below 0. */
  function Decremented(t: Byte): (r: Byte)
    // Case split kept for `TimersAfterTicks`; its meaning over n ticks is stated there.
    ensures t > 0 ==> r == t - 1
    ensures t == 0 ==> r == 0
  {
    if t > 0 then t - 1 else 0
  }

  /** `decrement_timers` on the whole state. */
  function TickTimers(s: State): (r: State)
    ensures r.(delay := s.delay, sound := s.sound) == s
    ensures r.delay <= s.delay && r.sound <= s.sound
    ensures r.delay + 1 >= s.delay && r.sound + 1 >= s.sound
    ensures s.delay > 0 ==> r.delay < s.delay
    ensures s.sound > 0 ==> r.sound < s.sound
  {
    s.(delay := Decremented(s.delay), sound := Decremented(s.sound))
  }

  /** The state after `n` calls of `decrement_timers`. */
  function TickTimersN(s: State, n: nat): State {
    if n == 0 then s else TickTimers(TickTimersN(s, n - 1))
  }

  /** After `n` ticks each timer has gone down by `n`, stopping at 0, and nothing else has changed. */
  lemma {:induction false} TimersAfterTicks(s: State, n: nat)
    ensures TickTimersN(s, n).delay == if s.delay >= n then s.delay - n else 0
    ensures TickTimersN(s, n).sound == if s.sound >= n then s.sound - n else 0
    ensures TickTimersN(s, n).(delay := s.delay, sound := s.sound) == s
  {
    if n > 0 {
      TimersAfterTicks(s, n - 1);
    }
  }

  /** The state `Chip8::new` builds: everything zero, all keys up, the program counter at 0. */
  function PowerOnState(): (s: State)
    ensures WellFormed(s)
  {
    State(seq(Ram.SIZE, _ => 0), seq(Display.CELLS, _ => 0), seq(REGISTERS, _ => 0),
          seq(Keypad.KEYS, _ => Keypad.Up), 0, 0, [], 0, 0)
  }

  /** The memory after `reset`: the font at address 0, zeros after it. */
  function BootMemory(): (m: seq<Byte>)
    ensures |m| == Ram.SIZE && m[..|FONT_SET|] == FONT_SET
    ensures forall a :: |FONT_SET| <= a < Ram.SIZE ==> m[a] == 0
  {
    FONT_SET + seq(Ram.SIZE - |FONT_SET|, _ => 0)
  }

  /** The state `reset` leaves: as after power-on, but with the font loaded and the program counter at 0x200. */
  function ResetState(): (s: State)
    ensures WellFormed(s)
  {
    PowerOnState().(memory := BootMemory(), pc := PROGRAM_START)
  }

  /** The state `load_game` leaves: a reset machine with `program` copied to 0x200. */
  function LoadState(program: seq<Byte>): (s: State)
    requires PROGRAM_START + |program| <= Ram.SIZE
    ensures WellFormed(s)
    ensures s.memory[PROGRAM_START..PROGRAM_START + |program|] == program
  {
    ResetState().(memory := Ram.Splice(BootMemory(), PROGRAM_START, program))
  }

  class Chip8 {
    const ram: Ram.RAM
    const display: Display.Display
    /** `registers: [u8; 16]`, V0 to VF. */
    const registers: array<Byte>
    const keypad: Keypad.Keypad
    var programCounter: Word
    var indexRegister: Word
    /** The return stack; `ArrayVec` keeps at most 16 entries. */
    var stack: seq<Word>
    var delayTimer: Byte
    var soundTimer: Byte

    ghost predicate Valid()
      reads this, display.memory
    {
      ram.Valid() && display.Valid() && keypad.Valid() && registers.Length == REGISTERS
      && |stack| <= STACK_CAPACITY
      && ram.memory != registers && display.memory != registers && ram.memory != display.memory
    }

    /** The interpreter's state as a value. */
    ghost function Abstract(): (s: State)
      reads this, ram.memory, display.memory, registers, keypad.keys
      requires Valid()
      ensures WellFormed(s)
    {
      State(ram.memory[..], display.memory[..], registers[..], keypad.keys[..],
            programCounter, indexRegister, stack, delayTimer, soundTimer)
    }

    /** Whether the outcome `r` of the specification is what happened: no fault and the state `r` names, or the fault `r` names. */
    ghost predicate Agrees(r: Result<State>, fault: Option<Fault>)
      reads this, ram.memory, display.memory, registers, keypad.keys
      requires Valid()
    {
      match r
      case Ok(t) => fault == None && t == Abstract()
      case Err(f) => fault == Some(f)
    }

    /** `Chip8::new`: zeroed memory, registers and timers, a clear screen, all keys up, and the program counter at 0. */
    constructor ()
      ensures Valid()
      ensures Abstract() == PowerOnState()
      ensures fresh(ram) && fresh(ram.memory) && fresh(display) && fresh(display.memory)
      ensures fresh(registers) && fresh(keypad) && fresh(keypad.keys)
    {
      ram := new Ram.RAM();
      display := new Display.Display();
      registers := new Byte[REGISTERS](_ => 0);
      keypad := new Keypad.Keypad();
      programCounter := 0;
      indexRegister := 0;
      stack := [];
      delayTimer := 0;
      soundTimer := 0;
      new;
      assert ram.memory[..] == seq(Ram.SIZE, _ => 0);
      assert display.memory[..] == seq(Display.CELLS, _ => 0);
      assert registers[..] == seq(REGISTERS, _ => 0);
      assert keypad.keys[..] == seq(Keypad.KEYS, _ => Keypad.Up);
    }

    /**
     * `reset`: memory, display, registers, keys, I, stack and timers back
     * to zero, the program counter at 0x200, and the font written byte by
     * byte from address 0.
     */
    method Reset()
      requires Valid()
      modifies this, ram.memory, display.memory, registers, keypad.keys
      ensures Valid() && Abstract() == ResetState()
    {
      ram.Reset();
      display.Reset();
      forall r | 0 <= r < registers.Length {
        registers[r] := 0;
      }
      keypad.Reset();
      programCounter := PROGRAM_START;
      indexRegister := 0;
      stack := [];
      delayTimer := 0;
      soundTimer := 0;
      var i := 0;
      while i < |FONT_SET|
        modifies ram.memory
        invariant 0 <= i <= |FONT_SET|
        invariant forall a :: 0 <= a < Ram.SIZE ==> ram.memory[a] == if a < i then FONT_SET[a] else 0
      {
        ram.Write8(i, FONT_SET[i]);
        i := i + 1;
      }
      assert ram.memory[..] == BootMemory();
      assert display.memory[..] == seq(Display.CELLS, _ => 0);
      assert registers[..] == seq(REGISTERS, _ => 0);
      assert keypad.keys[..] == seq(Keypad.KEYS, _ => Keypad.Up);
    }

    /** `load_game` once the file has been read: reset, then copy `program` to 0x200. */
    method LoadGame(program: seq<Byte>)
      requires Valid() && PROGRAM_START + |program| <= Ram.SIZE
      modifies this, ram.memory, display.memory, registers, keypad.keys
      ensures Valid() && Abstract() == LoadState(program)
    {
      Reset();
      ram.Write(PROGRAM_START, program);
    }

    /** `decrement_timers`: each timer one lower unless already 0; nothing else changes. */
    method DecrementTimers()
      requires Valid()
      modifies this
      ensures Valid() && Abstract() == TickTimers(old(Abstract()))
    {
      if delayTimer > 0 {
        delayTimer := delayTimer - 1;
      }
      if soundTimer > 0 {
        soundTimer := soundTimer - 1;
      }
    }

    /** `step`: fetch the big-endian word at the program counter and process it. */
    method Step(rnd: Byte) returns (fault: Option<Fault>)
      requires Valid() && programCounter + 1 < Ram.SIZE && InBounds(Abstract(), Fetch(Abstract()))
      modifies this, ram.memory, display.memory, registers
      ensures Valid() && Agrees(RunStep(old(Abstract()), rnd), fault)
    {
      var op := ram.Read16(programCounter);
      fault := ProcessOp(op, rnd);
    }

    /**
     * `process_op`: split `op` into nibbles, advance the program counter by
     * 2, and dispatch on the nibbles; `rnd` is the random byte `Cxkk` uses.
     */
    method ProcessOp(op: Word, rnd: Byte) returns (fault: Option<Fault>)
      requires Valid() && programCounter < Ram.SIZE && InBounds(Abstract(), op)
      modifies this, ram.memory, display.memory, registers
      ensures Valid() && Agrees(Exec(old(Abstract()), op, rnd), fault)
    {
      var d := Decode(op);
      programCounter := programCounter + 2;
      match d.op0
      case 0x0 => fault := ProcessSystem(op);
      case 0x1 => fault := ProcessFlow(op);
      case 0x2 => fault := ProcessFlow(op);
      case 0xB => fault := ProcessFlow(op);
      case 0x3 => fault := ProcessSkip(op);
      case 0x4 => fault := ProcessSkip(op);
      case 0x5 => fault := ProcessSkip(op);
      case 0x9 => fault := ProcessSkip(op);
      case 0x6 => fault := ProcessLoad(op, rnd);
      case 0x7 => fault := ProcessLoad(op, rnd);
      case 0xA => fault := ProcessLoad(op, rnd);
      case 0xC => fault := ProcessLoad(op, rnd);
      case 0x8 => fault := ProcessAlu(op);
      case 0xD => fault := ProcessDraw(op);
      case 0xE => fault := ProcessKeySkip(op);
      case 0xF => fault := ProcessMisc(op);
    }

    /** The arms of `process_op` for `0nnn`: `00E0` clears the display, `00EE` pops the return address. */
    method ProcessSystem(op: Word) returns (fault: Option<Fault>)
      requires Valid() && Decode(op).op0 == 0x0 && 2 <= programCounter <= Ram.SIZE + 1
      modifies this, display.memory
      ensures Valid() && Agrees(Dispatch(old(Abstract()), op, 0), fault)
    {
      fault := None;
      if op == 0x00E0 {
        display.Clear();
        assert display.memory[..] == seq(Display.CELLS, _ => 0);
      } else if op == 0x00EE {
        if |stack| == 0 {
          fault := Some(StackUnderflow);
        } else {
          programCounter := stack[|stack| - 1];
          stack := stack[..|stack| - 1];
        }
      } else {
        fault := Some(UnsupportedOpcode(op));
      }
    }

    /** `1nnn` jumps, `2nnn` pushes the advanced program counter and jumps, `Bnnn` jumps to nnn + V0. */
    method ProcessFlow(op: Word) returns (fault: Option<Fault>)
      requires Valid() && Decode(op).op0 in {0x1, 0x2, 0xB} && 2 <= programCounter <= Ram.SIZE + 1
      modifies this
      ensures Valid() && Agrees(Dispatch(old(Abstract()), op, 0), fault)
    {
      var d := Decode(op);
      fault := None;
      if d.op0 == 0x1 {
        programCounter := d.nnn;
      } else if d.op0 == 0x2 {
        if |stack| == STACK_CAPACITY {
          fault := Some(StackOverflow);
        } else {
          stack := stack + [programCounter];
          programCounter := d.nnn;
        }
      } else {
        programCounter := d.nnn + registers[0x0];
      }
    }

    /** `3xkk`, `4xkk`, `5xy0` and `9xy0`: skip the next instruction when the comparison holds. */
    method ProcessSkip(op: Word) returns (fault: Option<Fault>)
      requires Valid() && Decode(op).op0 in {0x3, 0x4, 0x5, 0x9} && 2 <= programCounter <= Ram.SIZE + 1
      modifies this
      ensures Valid() && Agrees(Dispatch(old(Abstract()), op, 0), fault)
    {
      var d := Decode(op);
      fault := None;
      if d.op0 == 0x3 {
        if registers[d.x] == d.kk {
          programCounter := programCounter + 2;
        }
      } else if d.op0 == 0x4 {
        if registers[d.x] != d.kk {
          programCounter := programCounter + 2;
        }
      } else if d.n != 0x0 {
        fault := Some(UnsupportedOpcode(op));
      } else if d.op0 == 0x5 {
        if registers[d.x] == registers[d.y] {
          programCounter := programCounter + 2;
        }
      } else {
        if registers[d.x] != registers[d.y] {
          programCounter := programCounter + 2;
        }
      }
    }

    /** `6xkk`, `7xkk` (wrapping add, VF untouched), `Annn` and `Cxkk` (`rnd & kk`). */
    method ProcessLoad(op: Word, rnd: Byte) returns (fault: Option<Fault>)
      requires Valid() && Decode(op).op0 in {0x6, 0x7, 0xA, 0xC} && 2 <= programCounter <= Ram.SIZE + 1
      modifies this, registers
      ensures Valid() && Agrees(Dispatch(old(Abstract()), op, rnd), fault)
    {
      var d := Decode(op);
      fault := None;
      if d.op0 == 0x6 {
        registers[d.x] := d.kk;
      } else if d.op0 == 0x7 {
        registers[d.x] := (registers[d.x] + d.kk) % 0x100;
      } else if d.op0 == 0xA {
        indexRegister := d.nnn;
      } else {
        registers[d.x] := BitAnd(rnd, d.kk);
      }
    }

    /** `8xyn`: register to register operations, each writing VF before Vx. */
    method ProcessAlu(op: Word) returns (fault: Option<Fault>)
      requires Valid() && Decode(op).op0 == 0x8 && 2 <= programCounter <= Ram.SIZE + 1
      modifies registers
      ensures Valid() && Agrees(Dispatch(old(Abstract()), op, 0), fault)
    {
      var d := Decode(op);
      var x, y := d.x, d.y;
      fault := None;
      match d.n
      case 0x0 => registers[x] := registers[y];
      case 0x1 => registers[x] := BitOr(registers[x], registers[y]);
      case 0x2 => registers[x] := BitAnd(registers[x], registers[y]);
      case 0x3 => registers[x] := BitXor(registers[x], registers[y]);
      case 0x4 =>
        var sum := registers[x] as int + registers[y];
        registers[FLAG] := if sum >= 0x100 then 1 else 0;
        registers[x] := sum % 0x100;
      case 0x5 =>
        var diff := registers[x] as int - registers[y];
        registers[FLAG] := if diff < 0 then 0 else 1;
        registers[x] := diff % 0x100;
      case 0x6 =>
        registers[FLAG] := BitAnd(registers[x], 0x1);
        registers[x] := registers[x] / 2;
      case 0x7 =>
        var diff := registers[y] as int - registers[x];
        registers[FLAG] := if diff < 0 then 0 else 1;
        registers[x] := diff % 0x100;
      case 0xE =>
        registers[FLAG] := BitAnd(registers[x], 0x80);
        registers[x] := (registers[x] as int * 2) % 0x100;
      case _ => fault := Some(UnsupportedOpcode(op));
    }

    /** `Dxyn`: read n bytes at I into a zeroed 16-byte buffer, draw all 16 rows at (Vx, Vy), VF = collision. */
    method ProcessDraw(op: Word) returns (fault: Option<Fault>)
      requires Valid() && Decode(op).op0 == 0xD && 2 <= programCounter <= Ram.SIZE + 1
      requires InBounds(Abstract(), op)
      modifies display.memory, registers
      ensures Valid() && Agrees(Dispatch(old(Abstract()), op, 0), fault)
    {
      var d := Decode(op);
      var buffer := new Byte[SPRITE_BUFFER](_ => 0);
      ram.Read(indexRegister, buffer, d.n);
      assert buffer[..] == SpriteRows(ram.memory[..], indexRegister, d.n);
      var res := display.Draw(registers[d.x], registers[d.y], buffer[..]);
      registers[FLAG] := match res
        case Overwrite => 1
        case NoOverwrite => 0;
      fault := None;
    }

    /** `Ex9E` and `ExA1`: skip when key Vx is down, respectively up. */
    method ProcessKeySkip(op: Word) returns (fault: Option<Fault>)
      requires Valid() && Decode(op).op0 == 0xE && 2 <= programCounter <= Ram.SIZE + 1
      requires InBounds(Abstract(), op)
      modifies this
      ensures Valid() && Agrees(Dispatch(old(Abstract()), op, 0), fault)
    {
      var d := Decode(op);
      fault := None;
      if d.kk == 0x9E {
        if keypad.IsKeyDown(registers[d.x]) {
          programCounter := programCounter + 2;
        }
      } else if d.kk == 0xA1 {
        if keypad.IsKeyUp(registers[d.x]) {
          programCounter := programCounter + 2;
        }
      } else {
        fault := Some(UnsupportedOpcode(op));
      }
    }

    /** The `Fxkk` arms: timers, key wait, I arithmetic, font address, BCD and register block copies. */
    method ProcessMisc(op: Word) returns (fault: Option<Fault>)
      requires Valid() && Decode(op).op0 == 0xF && 2 <= programCounter <= Ram.SIZE + 1
      requires InBounds(Abstract(), op)
      modifies this, ram.memory, registers
      ensures Valid() && Agrees(Dispatch(old(Abstract()), op, 0), fault)
    {
      var d := Decode(op);
      var x := d.x;
      fault := None;
      match d.kk
      case 0x07 => registers[x] := delayTimer;
      case 0x0A => WaitForKey(x);
      case 0x15 => delayTimer := registers[x];
      case 0x18 => soundTimer := registers[x];
      case 0x1E =>
        if indexRegister + registers[x] >= 0x1_0000 {
          fault := Some(IndexOverflow);
        } else {
          indexRegister := indexRegister + registers[x];
        }
      case 0x29 => indexRegister := registers[x] * GLYPH_SIZE;
      case 0x33 => ProcessMemory(op);
      case 0x55 => ProcessMemory(op);
      case 0x65 => ProcessMemory(op);
      case _ => fault := Some(UnsupportedOpcode(op));
    }

    /** `Fx33`, `Fx55` and `Fx65`: BCD of Vx at I, and copies of V0..V(x-1) to and from I (Vx itself excluded). */
    method ProcessMemory(op: Word)
      requires Valid() && Decode(op).op0 == 0xF && Decode(op).kk in {0x33, 0x55, 0x65}
      requires 2 <= programCounter <= Ram.SIZE + 1 && InBounds(Abstract(), op)
      modifies ram.memory, registers
      ensures Valid() && Agrees(Dispatch(old(Abstract()), op, 0), None)
    {
      var d := Decode(op);
      var x := d.x;
      if d.kk == 0x33 {
        StoreDigits(x);
      } else if d.kk == 0x55 {
        ram.Write(indexRegister, registers[..x]);
      } else {
        ram.Read(indexRegister, registers, x);
        assert registers[..] == registers[..x] + registers[x..];
      }
    }

    /**
     * `Fx0A`: step the program counter back onto this instruction, then,
     * for every key that is down in index order, set Vx to its index and
     * advance the program counter by 2.
     */
    method WaitForKey(x: Nibble)
      requires Valid() && 2 <= programCounter <= Ram.SIZE + 1
      modifies this, registers
      ensures Valid()
      ensures programCounter == old(programCounter) - 2 + 2 * Keypad.CountDown(keypad.keys[..])
      ensures var last := Keypad.LastDown(keypad.keys[..]);
              registers[..] == if last < 0 then old(registers[..]) else old(registers[..])[x := last]
      ensures unchanged(this`indexRegister, this`stack, this`delayTimer, this`soundTimer)
    {
      programCounter := programCounter - 2;
      var i := 0;
      while i < Keypad.KEYS
        invariant 0 <= i <= Keypad.KEYS
        invariant programCounter == old(programCounter) - 2 + 2 * Keypad.CountDown(keypad.keys[..i])
        invariant var last := Keypad.LastDown(keypad.keys[..i]);
                  registers[..] == if last < 0 then old(registers[..]) else old(registers[..])[x := last]
        invariant unchanged(this`indexRegister, this`stack, this`delayTimer, this`soundTimer)
      {
        assert keypad.keys[..i + 1][..i] == keypad.keys[..i];
        if keypad.keys[i].IsKeyDown() {
          registers[x] := i;
          programCounter := programCounter + 2;
        }
        i := i + 1;
      }
      assert keypad.keys[..] == keypad.keys[..Keypad.KEYS];
    }

    /** `Fx33`: the hundreds, tens and units digits of Vx at I, I + 1 and I + 2. */
    method StoreDigits(x: Nibble)
      requires Valid() && indexRegister + 2 < Ram.SIZE
      modifies ram.memory
      ensures Valid()
      ensures var v, i := registers[x], indexRegister;
              ram.memory[..] == old(ram.memory[..])[i := v / 100][i + 1 := (v / 10) % 10][i + 2 := v % 10]
    {
      ram.Write8(indexRegister, registers[x] / 100);
      ram.Write8(indexRegister + 1, (registers[x] / 10) % 10);
      ram.Write8(indexRegister + 2, registers[x] % 10);
    }
  }
}
