/** The 32-bit little-endian machine FinSH runs on: words, widths, raw memory,
    and the C operators and system calls the virtual machine borrows from it. */
module Machine {

  datatype Option<+T> = None | Some(value: T)

  type Byte = x: int | 0 <= x < 0x100
  type Word = x: int | 0 <= x < 0x1_0000_0000

  /** The three operand sizes of the instruction set: `_BYTE`, `_WORD`, `_DWORD`. */
  datatype Width = W8 | W16 | W32 {
    function Size(): nat {
      match this case W8 => 1 case W16 => 2 case W32 => 4
    }
  }

  /** Reading a narrow member of the stack-slot union: its low bytes. */
  function Low(x: Word, w: Width): Word {
    match w case W8 => x % 0x100 case W16 => x % 0x1_0000 case W32 => x
  }

  /** Writing a narrow member of the stack-slot union: the high bytes stay as they were. */
  function SetLow(slot: Word, x: Word, w: Width): Word {
    slot - Low(slot, w) + Low(x, w)
  }

  lemma LowSetLow(slot: Word, x: Word, w: Width)
    ensures Low(SetLow(slot, x, w), w) == Low(x, w)
    ensures w == W32 ==> SetLow(slot, x, w) == x
  {
    match w
    case W8 => assert SetLow(slot, x, w) == 0x100 * (slot / 0x100) + x % 0x100;
    case W16 => assert SetLow(slot, x, w) == 0x1_0000 * (slot / 0x1_0000) + x % 0x1_0000;
    case W32 =>
  }

  // ----- little-endian encoding (FINSH_SET16/32 and FINSH_GET16/32) -----

  function ToBytes(v: Word, w: Width): (bs: seq<Byte>)
    ensures |bs| == w.Size()
  {
    match w
    case W8 => [v % 0x100]
    case W16 => [v % 0x100, v / 0x100 % 0x100]
    case W32 => [v % 0x100, v / 0x100 % 0x100, v / 0x1_0000 % 0x100, v / 0x100_0000]
  }

  function FromBytes(bs: seq<Byte>, w: Width): Word
    requires |bs| == w.Size()
  {
    match w
    case W8 => bs[0]
    case W16 => bs[0] as int + 0x100 * bs[1] as int
    case W32 => bs[0] as int + 0x100 * bs[1] as int + 0x1_0000 * bs[2] as int + 0x100_0000 * bs[3] as int
  }

  lemma BytesRoundTrip(v: Word, w: Width)
    ensures FromBytes(ToBytes(v, w), w) == Low(v, w)
  {
    var b0, b1, b2 := v % 0x100, v / 0x100 % 0x100, v / 0x1_0000 % 0x100;
    assert v / 0x100 == b1 + 0x100 * (v / 0x1_0000);
    assert v / 0x1_0000 == b2 + 0x100 * (v / 0x100_0000);
    assert v == b0 + 0x100 * b1 + 0x1_0000 * (v / 0x1_0000);
  }

  // ----- raw memory -----

  /** Byte-addressed memory; an address outside the map holds 0, so every memory is such a map. */
  type Mem = map<Word, Byte>

  function At(m: Mem, a: Word): Byte {
    if a in m then m[a] else 0
  }

  function Offset(a: Word, i: nat): Word {
    (a + i) % 0x1_0000_0000
  }

  function Load(m: Mem, a: Word, w: Width): Word {
    match w
    case W8 => At(m, a)
    case W16 => FromBytes([At(m, a), At(m, Offset(a, 1))], W16)
    case W32 => FromBytes([At(m, a), At(m, Offset(a, 1)), At(m, Offset(a, 2)), At(m, Offset(a, 3))], W32)
  }

  function Store(m: Mem, a: Word, v: Word, w: Width): Mem {
    var bs := ToBytes(v, w);
    match w
    case W8 => m[a := bs[0]]
    case W16 => m[a := bs[0]][Offset(a, 1) := bs[1]]
    case W32 => m[a := bs[0]][Offset(a, 1) := bs[1]][Offset(a, 2) := bs[2]][Offset(a, 3) := bs[3]]
  }

  lemma OffsetsDiffer(a: Word)
    ensures a != Offset(a, 1) && a != Offset(a, 2) && a != Offset(a, 3)
    ensures Offset(a, 1) != Offset(a, 2) && Offset(a, 1) != Offset(a, 3) && Offset(a, 2) != Offset(a, 3)
  {
  }

  lemma LoadStore(m: Mem, a: Word, v: Word, w: Width)
    ensures Load(Store(m, a, v, w), a, w) == Low(v, w)
  {
    OffsetsDiffer(a);
    BytesRoundTrip(v, w);
    var bs := ToBytes(v, w);
    match w
    case W8 =>
    case W16 => assert bs == [bs[0], bs[1]];
    case W32 => assert bs == [bs[0], bs[1], bs[2], bs[3]];
  }

  /** A store writes the low bytes of the value, the lowest first, and nothing else. */
  lemma StoreExactly(m: Mem, a: Word, v: Word, w: Width, x: Word)
    ensures At(Store(m, a, v, w), x) ==
      if x == a then v % 0x100
      else if w != W8 && x == Offset(a, 1) then v / 0x100 % 0x100
      else if w == W32 && x == Offset(a, 2) then v / 0x1_0000 % 0x100
      else if w == W32 && x == Offset(a, 3) then v / 0x100_0000
      else At(m, x)
  {
    OffsetsDiffer(a);
  }

  /** A load adds up the bytes that are there. */
  lemma LoadExactly(m: Mem, a: Word, w: Width)
    ensures Load(m, a, w) as int == At(m, a) as int
      + (if w == W8 then 0 else 0x100 * At(m, Offset(a, 1)) as int)
      + if w == W32 then 0x1_0000 * At(m, Offset(a, 2)) as int + 0x100_0000 * At(m, Offset(a, 3)) as int else 0
  {
  }

  /** A double-word load from the address of a narrow variable still has the variable in its low bytes. */
  lemma LowOfLoad(m: Mem, a: Word, w: Width)
    ensures Low(Load(m, a, W32), w) == Load(m, a, w)
  {
    var b0: int, b1: int, b2: int, b3: int := At(m, a), At(m, Offset(a, 1)), At(m, Offset(a, 2)), At(m, Offset(a, 3));
    var x := Load(m, a, W32);
    assert x == b0 + 0x100 * (b1 + 0x100 * b2 + 0x1_0000 * b3);
    assert x == b0 + 0x100 * b1 + 0x1_0000 * (b2 + 0x100 * b3);
  }

  lemma LoadInRange(m: Mem, a: Word, w: Width)
    ensures Low(Load(m, a, w), w) == Load(m, a, w)
  {
  }

  // ----- what the machine is left to define -----

  datatype BinOp = Add | Sub | Div | Mod | Mul | And | Or | Xor | Shl | Shr

  /** The meaning of the C operators at each width, and of the functions reachable by a system call. */
  datatype Platform = Platform(
    binary: (BinOp, Width, Word, Word) -> Word,
    invert: (Width, Word) -> Word,
    call: (Word, seq<Word>, Mem) -> (Word, Mem))
}
