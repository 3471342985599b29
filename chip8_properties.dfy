/**
 * What one instruction of the interpreter does, stated against `Exec`
 * (src/chip8.rs, `process_op`), opcode family by opcode family, and a few
 * facts about sequences of instructions.
 */
module Chip8Properties {
  import opened Bytes
  import Ram
  import Display
  import Keypad
  import opened Chip8

  /** The states and instructions `Exec` is defined on. */
  ghost predicate Runnable(s: State, op: Word) {
    WellFormed(s) && s.pc < Ram.SIZE && InBounds(s, op)
  }

  /** Instructions that set the program counter themselves: `00EE`, `1nnn`, `2nnn`, `Bnnn`. */
  predicate Jumps(op: Word) {
    op == 0x00EE || Decode(op).op0 in {0x1, 0x2, 0xB}
  }

  /** Conditional skips: `3xkk`, `4xkk`, `5xy0`, `9xy0`, `Ex9E`, `ExA1`. */
  predicate Skips(op: Word) {
    var d := Decode(op);
    d.op0 in {0x3, 0x4} || (d.op0 in {0x5, 0x9} && d.n == 0) || (d.op0 == 0xE && d.kk in {0x9E, 0xA1})
  }

  /** `Fx0A`, which waits for a key by not advancing. */
  predicate WaitsForKey(op: Word) {
    Decode(op).op0 == 0xF && Decode(op).kk == 0x0A
  }

  /** The condition under which a skip instruction skips, as the instruction set describes it. */
  ghost predicate SkipTaken(s: State, op: Word)
    requires WellFormed(s) && InBounds(s, op) && Skips(op)
  {
    var d := Decode(op);
    var v := s.registers;
    if d.op0 == 0x3 then v[d.x] == d.kk
    else if d.op0 == 0x4 then v[d.x] != d.kk
    else if d.op0 == 0x5 then v[d.x] == v[d.y]
    else if d.op0 == 0x9 then v[d.x] != v[d.y]
    else if d.kk == 0x9E then s.keys[v[d.x]] == Keypad.Down
    else s.keys[v[d.x]] == Keypad.Up
  }

  /**
   * An instruction faults exactly when it is outside the table, returns on
   * an empty stack, calls on a full stack, or overflows I in `Fx1E`; an
   * instruction outside the table faults with its own word.
   */
  lemma FaultIff(s: State, op: Word, rnd: Byte)
    requires Runnable(s, op)
    ensures var d := Decode(op);
            Exec(s, op, rnd).Err? <==>
              !Supported(op)
              || (op == 0x00EE && |s.stack| == 0)
              || (d.op0 == 0x2 && |s.stack| == STACK_CAPACITY)
              || (d.op0 == 0xF && d.kk == 0x1E && s.index + s.registers[d.x] >= 0x1_0000)
    ensures !Supported(op) ==> Exec(s, op, rnd) == Err(UnsupportedOpcode(op))
    ensures op == 0x00EE && |s.stack| == 0 ==> Exec(s, op, rnd) == Err(StackUnderflow)
    ensures Decode(op).op0 == 0x2 && |s.stack| == STACK_CAPACITY ==> Exec(s, op, rnd) == Err(StackOverflow)
    ensures var d := Decode(op);
            d.op0 == 0xF && d.kk == 0x1E && s.index + s.registers[d.x] >= 0x1_0000 ==> Exec(s, op, rnd) == Err(IndexOverflow)
  {
    var d := Decode(op);
    if d.op0 == 0x0 {
      assert op == 0x00E0 <==> (d.x, d.y, d.n) == (0x0, 0xE, 0x0);
      assert op == 0x00EE <==> (d.x, d.y, d.n) == (0x0, 0xE, 0xE);
    }
  }

  /** Four words the table does not cover: `0123` (0nnn), `5121`, `8128` and `E1FF`. */
  lemma UnsupportedExamples(s: State, rnd: Byte)
    requires WellFormed(s) && s.pc < Ram.SIZE
    ensures Exec(s, 0x0123, rnd) == Err(UnsupportedOpcode(0x0123))
    ensures Exec(s, 0x5121, rnd) == Err(UnsupportedOpcode(0x5121))
    ensures Exec(s, 0x8128, rnd) == Err(UnsupportedOpcode(0x8128))
    ensures Exec(s, 0xE1FF, rnd) == Err(UnsupportedOpcode(0xE1FF))
  {
  }

  /** An instruction that neither jumps, skips nor waits for a key leaves the program counter 2 further on. */
  lemma ExecAdvancesPc(s: State, op: Word, rnd: Byte)
    requires Runnable(s, op) && Exec(s, op, rnd).Ok?
    requires !Jumps(op) && !Skips(op) && !WaitsForKey(op)
    ensures Exec(s, op, rnd).value.pc == s.pc + 2
  {
  }

  /** A skip changes nothing but the program counter, which moves on by 4 when the condition holds and by 2 otherwise. */
  lemma SkipEffect(s: State, op: Word, rnd: Byte)
    requires Runnable(s, op) && Skips(op)
    ensures Exec(s, op, rnd) == Ok(s.(pc := s.pc + if SkipTaken(s, op) then 4 else 2))
  {
  }

  /** `7xkk` adds kk to Vx modulo 256, leaves VF alone (unless x is F) and every other register too. */
  lemma AddImmediate(s: State, op: Word, rnd: Byte)
    requires Runnable(s, op) && Decode(op).op0 == 0x7
    ensures var d := Decode(op);
            var r := Exec(s, op, rnd);
            r.Ok? && r.value.registers[d.x] == (s.registers[d.x] + d.kk) % 0x100
            && (forall k :: 0 <= k < REGISTERS && k != d.x ==> r.value.registers[k] == s.registers[k])
            && (d.x != FLAG ==> r.value.registers[FLAG] == s.registers[FLAG])
  {
  }

  /** `8xyn` replaces the registers with what `Alu` computes, or faults when n is not in the table. */
  lemma AluDispatch(s: State, op: Word, rnd: Byte)
    requires Runnable(s, op) && Decode(op).op0 == 0x8
    ensures var d := Decode(op);
            var v := Alu(s.registers, d.x, d.y, d.n);
            Exec(s, op, rnd) == if v.Some? then Ok(s.(pc := s.pc + 2, registers := v.value)) else Err(UnsupportedOpcode(op))
    ensures Alu(s.registers, Decode(op).x, Decode(op).y, Decode(op).n).Some?
        <==> Decode(op).n in {0x0, 0x1, 0x2, 0x3, 0x4, 0x5, 0x6, 0x7, 0xE}
  {
  }

  /**
   * `8xy4`: with x other than F, Vx + 256 * VF is exactly the sum, so VF is
   * the carry; with x = F, the sum modulo 256 overwrites the carry. No
   * other register changes.
   */
  lemma AddCarry(v: seq<Byte>, x: Nibble, y: Nibble)
    requires |v| == REGISTERS
    ensures var r := Alu(v, x, y, 0x4);
            var a, b := v[x] as int, v[y] as int;
            r.Some?
            && (x != FLAG ==> r.value[x] as int + 0x100 * (r.value[FLAG] as int) == a + b
                              && (r.value[FLAG] == 1 <==> a + b >= 0x100))
            && (x == FLAG ==> r.value[FLAG] == (a + b) % 0x100)
            && (forall k :: 0 <= k < REGISTERS && k != x && k != FLAG ==> r.value[k] == v[k])
  {
  }

  /**
   * `8xy5` computes Vx - Vy and `8xy7` computes Vy - Vx, both modulo 256,
   * with VF = 1 exactly when no borrow occurs (x other than F).
   */
  lemma SubtractBorrow(v: seq<Byte>, x: Nibble, y: Nibble)
    requires |v| == REGISTERS
    ensures var sub, subn := Alu(v, x, y, 0x5), Alu(v, x, y, 0x7);
            var a, b := v[x] as int, v[y] as int;
            sub.Some? && subn.Some?
            && sub.value[x] == (if a >= b then a - b else a - b + 0x100)
            && subn.value[x] == (if b >= a then b - a else b - a + 0x100)
            && (x != FLAG ==> (sub.value[FLAG] == 1 <==> a >= b) && (sub.value[FLAG] == 0 <==> a < b)
                              && (subn.value[FLAG] == 1 <==> b >= a) && (subn.value[FLAG] == 0 <==> b < a))
            && (forall k :: 0 <= k < REGISTERS && k != x && k != FLAG ==> sub.value[k] == v[k] && subn.value[k] == v[k])
  {
  }

  /**
   * `8xy6` puts the low bit of Vx in VF and halves Vx; `8xyE` puts
   * `Vx & 0x80` (0 or 128, not 1) in VF and doubles Vx modulo 256. With
   * x = F, the shifted flag is what remains, which is always 0.
   */
  lemma Shifts(v: seq<Byte>, x: Nibble, y: Nibble)
    requires |v| == REGISTERS
    ensures var shr, shl := Alu(v, x, y, 0x6), Alu(v, x, y, 0xE);
            var a := v[x] as int;
            shr.Some? && shl.Some?
            && (x != FLAG ==> shr.value[FLAG] == a % 2 && shr.value[x] == a / 2
                              && shl.value[FLAG] == (if a >= 0x80 then 0x80 else 0)
                              && shl.value[x] == (2 * a) % 0x100)
            && (x == FLAG ==> shr.value[FLAG] == 0 && shl.value[FLAG] == 0)
            && (forall k :: 0 <= k < REGISTERS && k != x && k != FLAG ==> shr.value[k] == v[k] && shl.value[k] == v[k])
  {
    BitAndOne(v[x]);
    BitAndHigh(v[x]);
  }

  /**
   * `2nnn` pushes the address after the call and jumps to nnn; once the
   * subroutine has brought the stack back to that shape, `00EE` resumes
   * right after the call with the caller's stack.
   */
  lemma CallThenReturn(s: State, op: Word, t: State, rnd: Byte)
    requires Runnable(s, op) && Decode(op).op0 == 0x2 && |s.stack| < STACK_CAPACITY
    requires WellFormed(t) && t.pc < Ram.SIZE && t.stack == s.stack + [s.pc + 2]
    ensures Exec(s, op, rnd) == Ok(s.(pc := Decode(op).nnn, stack := t.stack))
    ensures Exec(t, 0x00EE, rnd) == Ok(t.(pc := s.pc + 2, stack := s.stack))
  {
    assert t.stack[..|t.stack| - 1] == s.stack;
  }

  /**
   * `Dxyn` blits the 16-row buffer (n bytes from I, then zeros) at
   * (Vx, Vy), and VF becomes 1 exactly when some cell of the 8 x 16
   * window was set before. Rows n to 15 leave their cells alone, and so
   * does every cell outside the window.
   */
  lemma DrawEffect(s: State, op: Word, rnd: Byte)
    requires Runnable(s, op) && Decode(op).op0 == 0xD
    ensures var d := Decode(op);
            var vx, vy := s.registers[d.x], s.registers[d.y];
            var r := Exec(s, op, rnd);
            r.Ok?
            && r.value.screen == Display.Blit(s.screen, vx, vy, SpriteRows(s.memory, s.index, d.n)).cells
            && (r.value.registers[FLAG] == 1 <==> Display.WindowHasSetCell(s.screen, vx, vy, SPRITE_BUFFER))
            && (r.value.registers[FLAG] == 0 <==> !Display.WindowHasSetCell(s.screen, vx, vy, SPRITE_BUFFER))
            && (forall i, j :: 0 <= i < Display.SPRITE_WIDTH && d.n <= j < SPRITE_BUFFER
                  ==> r.value.screen[Display.WindowCell(vx, vy, i, j)] == s.screen[Display.WindowCell(vx, vy, i, j)])
            && (forall k :: 0 <= k < Display.CELLS && !Display.InWindow(vx, vy, SPRITE_BUFFER, k)
                  ==> r.value.screen[k] == s.screen[k])
  {
    var d := Decode(op);
    var vx, vy := s.registers[d.x], s.registers[d.y];
    var rows := SpriteRows(s.memory, s.index, d.n);
    Display.CollidesIffWindowSet(s.screen, vx, vy, rows);
    forall i, j | 0 <= i < Display.SPRITE_WIDTH && d.n <= j < SPRITE_BUFFER
      ensures Display.Blit(s.screen, vx, vy, rows).cells[Display.WindowCell(vx, vy, i, j)]
           == s.screen[Display.WindowCell(vx, vy, i, j)]
    {
      assert rows[j] == 0;
      assert !Display.SpriteBit(rows[j], i);
      Display.BlitInWindow(s.screen, vx, vy, rows, i, j);
    }
    forall k | 0 <= k < Display.CELLS && !Display.InWindow(vx, vy, SPRITE_BUFFER, k)
      ensures Display.Blit(s.screen, vx, vy, rows).cells[k] == s.screen[k]
    {
      Display.BlitOutsideWindow(s.screen, vx, vy, rows, k);
    }
  }

  /**
   * Executing the same `Dxyn` twice restores the screen, provided neither
   * coordinate register is VF (which the first draw overwrites).
   */
  lemma DrawTwiceRestoresScreen(s: State, op: Word, rnd: Byte)
    requires Runnable(s, op) && Decode(op).op0 == 0xD && s.pc + 2 < Ram.SIZE
    requires Decode(op).x != FLAG && Decode(op).y != FLAG
    ensures var once := Exec(s, op, rnd);
            once.Ok? && Runnable(once.value, op)
            && Exec(once.value, op, rnd).Ok? && Exec(once.value, op, rnd).value.screen == s.screen
  {
    var d := Decode(op);
    Display.DrawTwiceRestores(s.screen, s.registers[d.x], s.registers[d.y], SpriteRows(s.memory, s.index, d.n));
  }

  /**
   * `Fx0A` with k keys down: the program counter ends 2k past this
   * instruction; with no key down Vx and the program counter stay put,
   * and otherwise Vx becomes the highest index of a key that is down.
   */
  lemma WaitForKeyEffect(s: State, op: Word, rnd: Byte)
    requires Runnable(s, op) && WaitsForKey(op)
    ensures var d := Decode(op);
            var k := Keypad.CountDown(s.keys);
            var r := Exec(s, op, rnd);
            r.Ok? && r.value.pc == s.pc + 2 * k
            && (k == 0 ==> r.value == s)
            && (k > 0 ==> var key := r.value.registers[d.x];
                          key < Keypad.KEYS && s.keys[key] == Keypad.Down
                          && (forall i :: key < i < Keypad.KEYS ==> s.keys[i] == Keypad.Up)
                          && r.value.registers == s.registers[d.x := key])
  {
    Keypad.CountDownLastDown(s.keys);
  }

  /**
   * `Fx33` writes the decimal digits of Vx at I, I + 1 and I + 2: each is
   * at most 9 and together they make Vx. No other byte changes.
   */
  lemma StoreDigitsEffect(s: State, op: Word, rnd: Byte)
    requires Runnable(s, op) && Decode(op).op0 == 0xF && Decode(op).kk == 0x33
    ensures var i := s.index;
            var r := Exec(s, op, rnd);
            r.Ok? && i + 2 < Ram.SIZE
            && 100 * r.value.memory[i] + 10 * r.value.memory[i + 1] + r.value.memory[i + 2] == s.registers[Decode(op).x]
            && r.value.memory[i] <= 9 && r.value.memory[i + 1] <= 9 && r.value.memory[i + 2] <= 9
            && (forall a :: 0 <= a < Ram.SIZE && !(i <= a < i + 3) ==> r.value.memory[a] == s.memory[a])
  {
  }

  /**
   * `Fx55` followed (perhaps much later) by `Fx65` with the same I and x,
   * the memory at I..I+x untouched in between, brings V0..V(x-1) back and
   * leaves Vx..VF as they were at the load.
   */
  lemma StoreThenLoadRegisters(s: State, store: Word, t: State, load: Word, rnd: Byte)
    requires Runnable(s, store) && Decode(store).op0 == 0xF && Decode(store).kk == 0x55
    requires Runnable(t, load) && Decode(load).op0 == 0xF && Decode(load).kk == 0x65
    requires Decode(load).x == Decode(store).x && t.index == s.index
    requires var x := Decode(store).x;
             var r := Exec(s, store, rnd);
             r.Ok? && t.memory[s.index..s.index + x] == r.value.memory[s.index..s.index + x]
    ensures var x := Decode(store).x;
            var r := Exec(t, load, rnd);
            r.Ok? && r.value.registers == s.registers[..x] + t.registers[x..]
  {
  }

  /** Vx itself is never copied: `Fx55` leaves the byte at I + x alone, `Fx65` leaves Vx alone. */
  lemma StoreExcludesVx(s: State, op: Word, rnd: Byte)
    requires Runnable(s, op) && Decode(op).op0 == 0xF && Decode(op).kk == 0x55
    requires s.index + Decode(op).x < Ram.SIZE
    ensures var r := Exec(s, op, rnd);
            r.Ok? && r.value.memory[s.index + Decode(op).x] == s.memory[s.index + Decode(op).x]
  {
  }

  /** `Fx65` leaves Vx (and every register after it) alone. */
  lemma LoadExcludesVx(s: State, op: Word, rnd: Byte)
    requires Runnable(s, op) && Decode(op).op0 == 0xF && Decode(op).kk == 0x65
    ensures var r := Exec(s, op, rnd);
            r.Ok? && r.value.registers[Decode(op).x..] == s.registers[Decode(op).x..]
  {
  }

  /**
   * `reset` leaves the program counter at 0x200, I, the stack, registers
   * and timers at zero, every key up, a clear screen, the font in the first
   * 80 bytes and zeros after it; `new` differs only in the program counter
   * (0) and in memory holding no font.
   */
  lemma ResetEffect()
    ensures var s := ResetState();
            s.pc == PROGRAM_START && s.index == 0 && s.stack == [] && s.delay == 0 && s.sound == 0
            && (forall r :: 0 <= r < REGISTERS ==> s.registers[r] == 0)
            && (forall k :: 0 <= k < Keypad.KEYS ==> s.keys[k] == Keypad.Up)
            && (forall c :: 0 <= c < Display.CELLS ==> s.screen[c] == 0)
            && s.memory[..80] == FONT_SET
            && (forall a :: 80 <= a < Ram.SIZE ==> s.memory[a] == 0)
    ensures PowerOnState() == ResetState().(memory := seq(Ram.SIZE, _ => 0), pc := 0)
  {
  }

  /** A program `12 34` loaded and stepped once jumps to 0x234. */
  lemma LoadedJump(rnd: Byte)
    ensures var s := LoadState([0x12, 0x34]);
            s.pc == PROGRAM_START && Fetch(s) == 0x1234 && InBounds(s, 0x1234)
            && RunStep(s, rnd) == Ok(s.(pc := 0x234))
  {
    var s := LoadState([0x12, 0x34]);
    assert s.memory[PROGRAM_START] == 0x12 && s.memory[PROGRAM_START + 1] == 0x34;
  }

  /**
   * Wherever they sit, the four bytes `60 05 70 03` (V0 := 5, then V0 += 3)
   * leave V0 = 8 and the program counter 4 further on after two steps,
   * memory unchanged.
   */
  lemma SetThenAdd(s: State, rnd: Byte)
    requires WellFormed(s) && s.pc + 4 <= Ram.SIZE
    requires s.memory[s.pc..s.pc + 4] == [0x60, 0x05, 0x70, 0x03]
    ensures Fetch(s) == 0x6005
            && RunStep(s, rnd) == Ok(s.(pc := s.pc + 2, registers := s.registers[0 := 5]))
    ensures var one := s.(pc := s.pc + 2, registers := s.registers[0 := 5]);
            Fetch(one) == 0x7003
            && RunStep(one, rnd) == Ok(s.(pc := s.pc + 4, registers := s.registers[0 := 8]))
  {
    var code := s.memory[s.pc..s.pc + 4];
    assert s.memory[s.pc] == code[0] && s.memory[s.pc + 1] == code[1];
    assert s.memory[s.pc + 2] == code[2] && s.memory[s.pc + 3] == code[3];
    assert Fetch(s) == 0x6005;
    var one := s.(pc := s.pc + 2, registers := s.registers[0 := 5]);
    assert Exec(s, 0x6005, rnd) == Ok(one);
    assert Fetch(one) == 0x7003;
    assert one.registers[0 := 8] == s.registers[0 := 8];
    assert Exec(one, 0x7003, rnd) == Ok(s.(pc := s.pc + 4, registers := s.registers[0 := 8]));
  }

  /** The same program loaded at 0x200 by `LoadState`: two steps leave V0 = 8 and the program counter at 0x204. */
  lemma LoadedAdd(rnd: Byte)
    ensures var s := LoadState([0x60, 0x05, 0x70, 0x03]);
            var one := s.(pc := PROGRAM_START + 2, registers := s.registers[0 := 5]);
            s.pc == PROGRAM_START && Fetch(s) == 0x6005 && RunStep(s, rnd) == Ok(one)
            && Fetch(one) == 0x7003
            && RunStep(one, rnd) == Ok(s.(pc := PROGRAM_START + 4, registers := s.registers[0 := 8]))
  {
    var s := LoadState([0x60, 0x05, 0x70, 0x03]);
    assert s.memory[PROGRAM_START..PROGRAM_START + 4] == [0x60, 0x05, 0x70, 0x03];
    SetThenAdd(s, rnd);
  }
}
