/**
 * The interpreter's 4096-byte address space (src/ram.rs): slice copies in
 * and out, single bytes, and 16-bit words stored big-endian.
 *
 * Every access outside 0..4096 panics in the Rust code (slice or index out
 * of range, or `addr + 1` overflowing `u16`); here each such access is a
 * precondition.
 */
module Ram {
  import opened Bytes

  /** Number of bytes of memory. */
  const SIZE := 4096

  /** The memory `mem` after copying `buffer` in at `addr`: the value-level meaning of `write`. */
  function Splice(mem: seq<Byte>, addr: nat, buffer: seq<Byte>): (r: seq<Byte>)
    requires addr + |buffer| <= |mem|
    ensures |r| == |mem|
    ensures r[addr..addr + |buffer|] == buffer
    ensures forall a :: 0 <= a < |mem| && !(addr <= a < addr + |buffer|) ==> r[a] == mem[a]
  {
    mem[..addr] + buffer + mem[addr + |buffer|..]
  }

  /** The word whose high byte is `hi` and low byte `lo` (`(hi as u16) << 8 | lo as u16`). */
  function BigEndian(hi: Byte, lo: Byte): (w: Word)
    ensures HighByte(w) == hi && LowByte(w) == lo
  {
    hi * 0x100 + lo
  }

  /** `(v >> 8) as u8`. */
  function HighByte(v: Word): Byte {
    v / 0x100
  }

  /** `v as u8`: the cast truncates to the low eight bits. */
  function LowByte(v: Word): Byte {
    v % 0x100
  }

  /** Splitting a word into its two bytes and joining them again gives the word back. */
  lemma WordRoundTrip(v: Word)
    ensures BigEndian(HighByte(v), LowByte(v)) == v
  {
  }

  class RAM {
    /** `memory: [u8; 4096]`; the array itself is never replaced, only its contents. */
    const memory: array<Byte>

    ghost predicate Valid() {
      memory.Length == SIZE
    }

    /** `RAM::new`: all 4096 bytes zero. */
    constructor ()
      ensures Valid() && fresh(memory)
      ensures forall a :: 0 <= a < SIZE ==> memory[a] == 0
    {
      memory := new Byte[SIZE](_ => 0);
    }

    /** `reset` zeroes every byte. */
    method Reset()
      requires Valid()
      modifies memory
      ensures forall a :: 0 <= a < SIZE ==> memory[a] == 0
    {
      forall a | 0 <= a < memory.Length {
        memory[a] := 0;
      }
    }

    /** `write` copies `buffer` into `memory[addr..addr + |buffer|]`. */
    method Write(addr: Word, buffer: seq<Byte>)
      requires Valid() && addr + |buffer| <= SIZE
      modifies memory
      ensures memory[..] == Splice(old(memory[..]), addr, buffer)
      ensures memory[addr..addr + |buffer|] == buffer
    {
      forall a | addr <= a < addr + |buffer| {
        memory[a] := buffer[a - addr];
      }
      assert memory[..] == old(memory[..])[..addr] + buffer + old(memory[..])[addr + |buffer|..];
    }

    /**
     * `read` fills the caller's slice `buffer[..len]` from `memory[addr..addr + len]`;
     * the rest of the caller's array and the memory itself are left alone.
     */
    method Read(addr: Word, buffer: array<Byte>, len: nat)
      requires Valid() && buffer != memory
      requires len <= buffer.Length && addr + len <= SIZE
      modifies buffer
      ensures buffer[..len] == memory[addr..addr + len]
      ensures buffer[len..] == old(buffer[len..])
      ensures memory[..] == old(memory[..])
    {
      forall k | 0 <= k < len {
        buffer[k] := memory[addr + k];
      }
    }

    /** `write8` stores one byte; `Read8` then returns it and no other address changes. */
    method Write8(addr: Word, val: Byte)
      requires Valid() && addr < SIZE
      modifies memory
      ensures memory[..] == old(memory[..])[addr := val]
      ensures Read8(addr) == val
    {
      memory[addr] := val;
    }

    /** `write16` stores `val >> 8` at `addr` and `val & 0xFF` at `addr + 1`. */
    method Write16(addr: Word, val: Word)
      requires Valid() && addr + 1 < SIZE
      modifies memory
      ensures memory[..] == old(memory[..])[addr := HighByte(val)][addr + 1 := LowByte(val)]
      ensures Read16(addr) == val
    {
      Write8(addr, HighByte(val));
      Write8(addr + 1, LowByte(val));
    }

    /** `read8`: the byte at `addr`. */
    function Read8(addr: Word): (v: Byte)
      reads memory
      requires Valid() && addr < SIZE
      ensures v == memory[addr]
      ensures addr + 1 < SIZE ==> v == HighByte(Read16(addr))
      ensures addr >= 1 ==> v == LowByte(Read16(addr - 1))
    {
      memory[addr]
    }

    /** `read16`: the big-endian word at `addr`, high byte first. */
    function Read16(addr: Word): (w: Word)
      reads memory
      requires Valid() && addr + 1 < SIZE
      ensures HighByte(w) == memory[addr] && LowByte(w) == memory[addr + 1]
    {
      BigEndian(memory[addr], memory[addr + 1])
    }
  }
}
