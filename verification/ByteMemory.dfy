/** Byte-addressed memory with little-endian words.  Addresses outside the map
    are not mapped. */
module ByteMemory {
  import opened Bits

  type byte = x: nat | x < 256

  type Memory = map<nat, byte>

  const WORD32: nat := 0x1_0000_0000

  predicate Mapped(mem: Memory, a: nat, n: nat) {
    forall x: nat :: a <= x < a + n ==> x in mem
  }

  function Peek(mem: Memory, x: nat): byte {
    if x in mem then mem[x] else 0
  }

  function Load(mem: Memory, a: nat, n: nat): (s: seq<byte>)
    ensures |s| == n
  {
    seq<byte>(n, i requires 0 <= i < n => Peek(mem, a + i))
  }

  function Store(mem: Memory, a: nat, s: seq<byte>): (m: Memory)
    ensures m.Keys == mem.Keys
  {
    map x | x in mem :: if a <= x < a + |s| then s[x - a] else mem[x]
  }

  /** The two memories hold the same bytes in [lo, hi). */
  ghost predicate Agree(m: Memory, m': Memory, lo: nat, hi: nat) {
    forall x: nat :: lo <= x < hi ==> Peek(m, x) == Peek(m', x)
  }

  function Word32(mem: Memory, a: nat): nat {
    Peek(mem, a) + 256 * Peek(mem, a + 1) + 65536 * Peek(mem, a + 2) + 16777216 * Peek(mem, a + 3)
  }

  function Word64(mem: Memory, a: nat): nat {
    Word32(mem, a) + WORD32 * Word32(mem, a + 4)
  }

  function Bytes32(v: nat): (s: seq<byte>)
    ensures |s| == 4
  {
    [v % 256, v / 256 % 256, v / 65536 % 256, v / 16777216 % 256]
  }

  function Bytes64(v: nat): (s: seq<byte>)
    ensures |s| == 8
  {
    Bytes32(v % WORD32) + Bytes32(v / WORD32)
  }

  // ------------------------------------------------------------------
  // Words
  // ------------------------------------------------------------------

  lemma FourBytes(v: nat)
    requires v < WORD32
    ensures v % 256 + 256 * (v / 256 % 256) + 65536 * (v / 65536 % 256) + 16777216 * (v / 16777216 % 256) == v
  {
    var a, b, c := v / 256, v / 65536, v / 16777216;
    assert b == a / 256 && c == b / 256;
    assert c < 256;
  }

  /** A stored 32-bit word reads back. */
  lemma Read32(mem: Memory, a: nat, v: nat)
    requires v < WORD32 && Mapped(mem, a, 4)
    ensures Word32(Store(mem, a, Bytes32(v)), a) == v
  {
    FourBytes(v);
    var m := Store(mem, a, Bytes32(v));
    assert a in mem && a + 1 in mem && a + 2 in mem && a + 3 in mem;
    assert Peek(m, a) == Bytes32(v)[0] && Peek(m, a + 1) == Bytes32(v)[1];
    assert Peek(m, a + 2) == Bytes32(v)[2] && Peek(m, a + 3) == Bytes32(v)[3];
  }

  /** A word of memory from the bytes it holds. */
  lemma WordFrom(mem: Memory, a: nat, v: nat)
    requires v < WORD32
    requires Peek(mem, a) == Bytes32(v)[0] && Peek(mem, a + 1) == Bytes32(v)[1]
    requires Peek(mem, a + 2) == Bytes32(v)[2] && Peek(mem, a + 3) == Bytes32(v)[3]
    ensures Word32(mem, a) == v
  {
    FourBytes(v);
  }

  /** A stored 64-bit word reads back. */
  lemma Read64(mem: Memory, a: nat, v: nat)
    requires v < WORD && Mapped(mem, a, 8)
    ensures Word64(Store(mem, a, Bytes64(v)), a) == v
  {
    hide Bytes32, Word32;
    var lo, hi := v % WORD32, v / WORD32;
    var m, s := Store(mem, a, Bytes64(v)), Bytes64(v);
    assert forall i :: 0 <= i < 4 ==> s[i] == Bytes32(lo)[i];
    assert forall i :: 0 <= i < 4 ==> s[i + 4] == Bytes32(hi)[i];
    assert forall x :: a <= x < a + 8 ==> Peek(m, x) == s[x - a];
    WordFrom(m, a, lo);
    assert Peek(m, a + 4) == s[4] == Bytes32(hi)[0];
    assert Peek(m, a + 4 + 1) == s[1 + 4] == Bytes32(hi)[1];
    assert Peek(m, a + 4 + 2) == s[2 + 4] == Bytes32(hi)[2];
    assert Peek(m, a + 4 + 3) == s[3 + 4] == Bytes32(hi)[3];
    WordFrom(m, a + 4, hi);
  }

  lemma WordBound(mem: Memory, a: nat)
    ensures Word32(mem, a) < WORD32
  {
  }

  /** Reading a small 64-bit value as 32 bits gives the same value. */
  lemma LowHalf(mem: Memory, a: nat)
    requires Word64(mem, a) < WORD32
    ensures Word32(mem, a) == Word64(mem, a)
  {
    hide Word32;
    WordBound(mem, a);
  }

  // ------------------------------------------------------------------
  // Frames
  // ------------------------------------------------------------------

  lemma SameWord32(m: Memory, m': Memory, a: nat)
    requires Agree(m, m', a, a + 4)
    ensures Word32(m, a) == Word32(m', a)
  {
  }

  lemma SameWord64(m: Memory, m': Memory, a: nat)
    requires Agree(m, m', a, a + 8)
    ensures Word64(m, a) == Word64(m', a)
  {
    hide Word32, Peek;
    SameWord32(m, m', a);
    SameWord32(m, m', a + 4);
  }

  lemma SameLoad(m: Memory, m': Memory, a: nat, n: nat)
    requires Agree(m, m', a, a + n)
    ensures Load(m, a, n) == Load(m', a, n)
  {
  }

  lemma StoreOutside(mem: Memory, a: nat, s: seq<byte>, lo: nat, hi: nat)
    requires hi <= a || a + |s| <= lo
    ensures Agree(mem, Store(mem, a, s), lo, hi)
  {
  }

  /** What was stored is loaded. */
  lemma LoadStored(mem: Memory, a: nat, s: seq<byte>)
    requires Mapped(mem, a, |s|)
    ensures Load(Store(mem, a, s), a, |s|) == s
  {
    var m := Store(mem, a, s);
    forall i | 0 <= i < |s|
      ensures Load(m, a, |s|)[i] == s[i]
    {
      assert a + i in mem && Peek(m, a + i) == s[a + i - a];
    }
  }

  // ------------------------------------------------------------------
  // Mapping pages
  // ------------------------------------------------------------------

  /** The page source maps zeroed pages. */
  function MapRange(mem: Memory, a: nat, n: nat): (m: Memory)
    ensures forall x: nat :: x in m <==> x in mem || a <= x < a + n
    ensures forall x: nat :: x in m ==> m[x] == if a <= x < a + n then 0 else mem[x]
  {
    if n == 0 then mem else MapRange(mem, a, n - 1)[a + n - 1 := 0]
  }

  function UnmapRange(mem: Memory, a: nat, n: nat): (m: Memory)
    ensures forall x: nat :: x in m <==> x in mem && !(a <= x < a + n)
  {
    map x | x in mem && !(a <= x < a + n) :: mem[x]
  }
}
