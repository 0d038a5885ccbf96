/** Where the semantics of FinSH is that of C and where it is not: FinSH loads and stores a double word
    through every pointer, adds to an address without scaling, and computes at the width of its operands
    without promoting them. */
module CSemantics {
  import opened Machine
  import opened Ast
  import opened Source
  import opened Grammar
  import opened Syntax
  import opened Meaning

  // ----- types and conversions -----

  /** The signedness of a type; that of plain `char` is the compiler's choice. */
  predicate IsSigned(ty: FinshType, charSigned: bool) {
    ty == TShort || ty == TInt || ty == TLong || (ty == TChar && charSigned)
  }

  function Span(w: Width): nat {
    match w case W8 => 0x100 case W16 => 0x1_0000 case W32 => 0x1_0000_0000
  }

  /** The value `v` of a type of width `w` in a type of width `u`, as C converts it: cut off when `u` is no
      wider, otherwise extended by zeros or, for a negative value, by ones. */
  function Resized(v: Word, w: Width, signed: bool, u: Width): Word
    requires v < Span(w)
  {
    if Span(u) <= Span(w) then Low(v, u)
    else if signed && v >= Span(w) / 2 then v + Span(u) - Span(w)
    else v
  }

  /** The bytes of a word between two widths. */
  function Between(x: Word, w: Width, u: Width): nat {
    Low(x, u) / Span(w)
  }

  /** The bytes C puts above a value of width `w` when it widens it. */
  function Extension(v: Word, w: Width, signed: bool, u: Width): nat {
    if Span(w) < Span(u) && signed && v >= Span(w) / 2 then Span(u) / Span(w) - 1 else 0
  }

  lemma LowPart(n: nat, r: nat, q: nat, k: nat)
    requires (k == 0x100 || k == 0x1_0000) && r < k && n == k * q + r
    ensures n % k == r
  {
  }

  lemma SetLowBetween(x: Word, v: Word, w: Width, u: Width)
    requires v < Span(w) && Span(w) < Span(u)
    ensures Low(SetLow(x, v, w), u) == Span(w) * Between(x, w, u) + v
  {
    if w == W8 && u == W16 {
      ByteInHalf(x, v);
    } else {
      assert SetLow(x, v, w) == Span(w) * (x / Span(w)) + v;
    }
  }

  lemma ByteInHalf(x: Word, v: Word)
    requires v < 0x100
    ensures Low(SetLow(x, v, W8), W16) == 0x100 * Between(x, W8, W16) + v
  {
    var l, h := x % 0x100, x / 0x100;
    var k, g := h % 0x100, h / 0x100;
    assert x == 0x1_0000 * g + 0x100 * k + l;
    assert SetLow(x, v, W8) == 0x1_0000 * g + 0x100 * k + v;
    LowPart(x, 0x100 * k + l, g, 0x1_0000);
    LowPart(SetLow(x, v, W8), 0x100 * k + v, g, 0x1_0000);
  }

  lemma ResizedIs(v: Word, w: Width, signed: bool, u: Width)
    requires v < Span(w) && Span(w) < Span(u)
    ensures Resized(v, w, signed, u) == Span(w) * Extension(v, w, signed, u) + v < Span(u)
  {
    match w case W8 => match u { case W8 => case W16 => case W32 => } case W16 => case W32 =>
  }

  lemma LowOfSmall(v: Word, w: Width)
    requires v < Span(w)
    ensures Low(v, w) == v
  {
  }

  lemma Extended(x: Word, v: Word, w: Width, u: Width, signed: bool)
    requires v < Span(w) && Span(w) < Span(u)
    ensures Resized(v, w, signed, u) < Span(u)
    ensures Resized(Resized(v, w, signed, u), u, false, u) == Resized(v, w, signed, u)
    ensures Low(SetLow(x, v, w), u) == Resized(v, w, signed, u) <==> Between(x, w, u) == Extension(v, w, signed, u)
  {
    SetLowBetween(x, v, w, u);
    ResizedIs(v, w, signed, u);
    LowOfSmall(Resized(v, w, signed, u), u);
    hide SetLow, Between, Low, Extension;
    var b, e := Between(x, w, u), Extension(v, w, signed, u);
    assert Span(w) * b == Span(w) * e <==> b == e by {
      match w case W8 => case W16 => case W32 =>
    }
  }

  lemma LoadSpan(m: Mem, a: Word, w: Width)
    ensures Load(m, a, w) < Span(w)
    ensures Load(m, a, w) == Low(Load(m, a, W32), w)
    ensures SetLow(Load(m, a, W32), Load(m, a, w), w) == Load(m, a, W32)
  {
    LowOfLoad(m, a, w);
  }

  // ----- pointers -----

  /** What a pointer points to. */
  function Pointee(ty: FinshType): Option<Width> {
    match ty
    case TCharP => Some(W8)
    case TShortP => Some(W16)
    case TIntP | TLongP => Some(W32)
    case _ => None
  }

  predicate IsPointer(x: Symbol, u: Width) {
    (x.VarSym? || x.SysvarSym?) && Pointee(x.ty) == Some(u)
  }

  function Target(x: Symbol, m: Mem): Word
    requires x.VarSym? || x.SysvarSym?
  {
    Load(m, x.addr, W32)
  }

  /** `*x` as C reads it. */
  function CDeref(x: Symbol, u: Width, signed: bool, m: Mem): Word
    requires IsPointer(x, u)
  {
    LoadSpan(m, Target(x, m), u);
    Resized(Load(m, Target(x, m), u), u, signed, W32)
  }

  lemma PointerTyped(x: Symbol, u: Width)
    requires IsPointer(x, u)
    ensures WellTyped(Deref(Var(x)), W32) && IsLvalue(Deref(Var(x)), W32)
  {
    assert WellTyped(Var(x), W32);
  }

  ghost predicate DerefAgrees(p: Platform, x: Symbol, u: Width, signed: bool, m: Mem)
    requires IsPointer(x, u)
  {
    PointerTyped(x, u);
    Eval(p, Deref(Var(x)), W32, m) == (CDeref(x, u, signed, m), m)
  }

  /** Reading through a pointer agrees with C if and only if the bytes behind what it points to are the
      extension of its value. */
  lemma DerefExactly(p: Platform, x: Symbol, u: Width, signed: bool, m: Mem)
    requires IsPointer(x, u)
    ensures var a := Target(x, m);
      DerefAgrees(p, x, u, signed, m)
      <==> Between(Load(m, a, W32), u, W32) == Extension(Load(m, a, u), u, signed, W32)
  {
    var a := Target(x, m);
    LoadSpan(m, a, u);
    PointerTyped(x, u);
    assert Eval(p, Var(x), W32, m) == (a, m);
    assert Eval(p, Deref(Var(x)), W32, m) == (Load(m, a, W32), m);
    hide Load, Store;
    if u != W32 {
      Extended(Load(m, a, W32), Load(m, a, u), u, W32, signed);
    }
  }

  /** A memory in which `x` points behind itself, to a given double word. */
  function Pointing(x: Symbol, v: Word): Mem
    requires x.VarSym? || x.SysvarSym?
  {
    Store(Store(map[], x.addr, Offset(x.addr, 4), W32), Offset(x.addr, 4), v, W32)
  }

  lemma Untouched(m: Mem, b: Word, v: Word, c: Word)
    requires c != b && c != Offset(b, 1) && c != Offset(b, 2) && c != Offset(b, 3)
    ensures At(Store(m, b, v, W32), c) == At(m, c)
  {
    hide ToBytes;
  }

  lemma SameLoad(m: Mem, m': Mem, a: Word)
    requires At(m', a) == At(m, a) && At(m', Offset(a, 1)) == At(m, Offset(a, 1))
    requires At(m', Offset(a, 2)) == At(m, Offset(a, 2)) && At(m', Offset(a, 3)) == At(m, Offset(a, 3))
    ensures Load(m', a, W32) == Load(m, a, W32)
  {
    hide FromBytes;
  }

  lemma FarApart(a: Word, i: nat)
    requires i < 4
    ensures var b, c := Offset(a, 4), Offset(a, i);
      c != b && c != Offset(b, 1) && c != Offset(b, 2) && c != Offset(b, 3)
    ensures Offset(a, 0) == a
  {
    assert Offset(a, 0) == a;
    hide Offset;
    Wraps(a, 4, 1);
    Wraps(a, 4, 2);
    Wraps(a, 4, 3);
    Differs(a, i, 4);
    Differs(a, i, 5);
    Differs(a, i, 6);
    Differs(a, i, 7);
  }

  lemma Differs(a: Word, i: nat, j: nat)
    requires i < j < 8
    ensures Offset(a, i) != Offset(a, j)
  {
  }

  lemma Wraps(a: Word, i: nat, j: nat)
    requires i < 8 && j < 8
    ensures Offset(Offset(a, i), j) == Offset(a, i + j)
  {
  }

  lemma PointsAt(x: Symbol, v: Word)
    requires x.VarSym? || x.SysvarSym?
    ensures Target(x, Pointing(x, v)) == Offset(x.addr, 4)
    ensures Load(Pointing(x, v), Offset(x.addr, 4), W32) == v
  {
    var a, b := x.addr, Offset(x.addr, 4);
    var m := Store(map[], a, b, W32);
    LoadStore(map[], a, b, W32);
    LoadStore(m, b, v, W32);
    hide Store, Load, Offset;
    forall i: nat | i < 4 ensures At(Store(m, b, v, W32), Offset(a, i)) == At(m, Offset(a, i)) {
      FarApart(a, i);
      Untouched(m, b, v, Offset(a, i));
    }
    FarApart(a, 0);
    assert At(Store(m, b, v, W32), Offset(a, 0)) == At(m, Offset(a, 0));
    SameLoad(m, Store(m, b, v, W32), a);
  }

  /** It agrees whatever the memory holds if and only if a double word is pointed to. */
  lemma DerefAlwaysAgrees(p: Platform, x: Symbol, u: Width, signed: bool)
    requires IsPointer(x, u)
    ensures (forall m :: DerefAgrees(p, x, u, signed, m)) <==> u == W32
  {
    hide Load, Store, Pointing, Target, DerefAgrees;
    forall m ensures u == W32 ==> DerefAgrees(p, x, u, signed, m) {
      DerefExactly(p, x, u, signed, m);
      assert u == W32 ==> Between(Load(m, Target(x, m), W32), u, W32) == 0;
    }
    var m := Pointing(x, 0x1_0000);
    PointsAt(x, 0x1_0000);
    DerefExactly(p, x, u, signed, m);
    LoadSpan(m, Offset(x.addr, 4), u);
  }

  ghost predicate SameBytes(m: Mem, m': Mem) {
    forall a :: At(m, a) == At(m', a)
  }

  /** A narrow store and a double-word store of the same value differ in the bytes between the widths. */
  lemma StoreWidths(m: Mem, a: Word, v: Word, u: Width)
    ensures SameBytes(Store(m, a, v, W32), Store(m, a, v, u))
      <==> Between(Load(m, a, W32), u, W32) == Between(v, u, W32)
  {
    BytesOf(m, a, v, u);
    OffsetsDiffer(a);
    var bs := ToBytes(v, W32);
    var wide, narrow := Store(m, a, v, W32), Store(m, a, v, u);
    if u != W32 {
      assert At(wide, Offset(a, 2)) == bs[2] && At(narrow, Offset(a, 2)) == At(m, Offset(a, 2));
      assert At(wide, Offset(a, 3)) == bs[3] && At(narrow, Offset(a, 3)) == At(m, Offset(a, 3));
    }
    if u == W8 {
      assert At(wide, Offset(a, 1)) == bs[1] && At(narrow, Offset(a, 1)) == At(m, Offset(a, 1));
    }
  }

  /** Four bytes as a word. */
  lemma Parts(b0: Byte, b1: Byte, b2: Byte, b3: Byte, u: Width)
    ensures var x := FromBytes([b0, b1, b2, b3], W32);
      Between(x, u, W32)
      == match u { case W8 => b1 + 0x100 * b2 + 0x1_0000 * b3 case W16 => b2 + 0x100 * b3 case W32 => 0 }
  {
    var c0: int, c1: int, c2: int, c3: int := b0, b1, b2, b3;
    var x := FromBytes([b0, b1, b2, b3], W32);
    assert x == c0 + 0x100 * (c1 + 0x100 * c2 + 0x1_0000 * c3);
    assert x == (c0 + 0x100 * c1) + 0x1_0000 * (c2 + 0x100 * c3);
  }

  lemma SameDigits(b1: Byte, b2: Byte, b3: Byte, c1: Byte, c2: Byte, c3: Byte)
    ensures b1 + 0x100 * b2 + 0x1_0000 * b3 == c1 + 0x100 * c2 + 0x1_0000 * c3 <==> b1 == c1 && b2 == c2 && b3 == c3
  {
  }

  lemma SameParts(b: seq<Byte>, c: seq<Byte>, u: Width)
    requires |b| == |c| == 4
    ensures Between(FromBytes(b, W32), u, W32) == Between(FromBytes(c, W32), u, W32)
      <==> (u == W8 ==> b[1] == c[1]) && (u != W32 ==> b[2] == c[2] && b[3] == c[3])
  {
    hide Between, FromBytes;
    assert b == [b[0], b[1], b[2], b[3]] && c == [c[0], c[1], c[2], c[3]];
    Parts(b[0], b[1], b[2], b[3], u);
    Parts(c[0], c[1], c[2], c[3], u);
    match u
    case W8 => SameDigits(b[1], b[2], b[3], c[1], c[2], c[3]);
    case W16 => SameDigits(b[2], b[3], 0, c[2], c[3], 0);
    case W32 =>
  }

  lemma BytesOf(m: Mem, a: Word, v: Word, u: Width)
    ensures var bs := ToBytes(v, W32);
      Between(Load(m, a, W32), u, W32) == Between(v, u, W32)
      <==> (u == W8 ==> At(m, Offset(a, 1)) == bs[1])
           && (u != W32 ==> At(m, Offset(a, 2)) == bs[2] && At(m, Offset(a, 3)) == bs[3])
  {
    hide Between, ToBytes, FromBytes, At, Offset;
    BytesRoundTrip(v, W32);
    SameParts([At(m, a), At(m, Offset(a, 1)), At(m, Offset(a, 2)), At(m, Offset(a, 3))], ToBytes(v, W32), u);
  }

  /** Memory after `*x = e` as C leaves it, for a value already converted. */
  ghost predicate StoreAgrees(p: Platform, x: Symbol, u: Width, e: Expr, m: Mem)
    requires IsPointer(x, u) && WellTyped(e, W32)
  {
    PointerTyped(x, u);
    DoubleWordIs(e);
    var (v, m1) := Eval(p, e, W32, m);
    SameBytes(Eval(p, Assign(Deref(Var(x)), e), W32, m).1, Store(m1, Target(x, m), v, u))
  }

  lemma AssignThrough(p: Platform, x: Symbol, u: Width, e: Expr, m: Mem)
    requires IsPointer(x, u) && WellTyped(e, W32)
    ensures WellTyped(Assign(Deref(Var(x)), e), W32)
    ensures var (v, m1) := Eval(p, e, W32, m);
      Eval(p, Assign(Deref(Var(x)), e), W32, m) == (v, Store(m1, Target(x, m), v, W32))
  {
    hide Load, Store;
    PointerTyped(x, u);
    DoubleWordIs(e);
    assert Eval(p, Var(x), W32, m) == (Target(x, m), m);
    assert Address(p, Deref(Var(x)), W32, m) == (Target(x, m), m);
  }

  /** Writing through a pointer agrees with C if and only if the bytes behind what it points to already are the
      upper bytes of the value. */
  lemma DerefStoreExactly(p: Platform, x: Symbol, u: Width, e: Expr, m: Mem)
    requires IsPointer(x, u) && WellTyped(e, W32)
    ensures var (v, m1) := Eval(p, e, W32, m);
      StoreAgrees(p, x, u, e, m)
      <==> Between(Load(m1, Target(x, m), W32), u, W32) == Between(v, u, W32)
  {
    hide Load, Store, SameBytes, Between, Eval, WellTyped, Target;
    AssignThrough(p, x, u, e, m);
    var (v, m1) := Eval(p, e, W32, m);
    StoreWidths(m1, Target(x, m), v, u);
  }

  /** It agrees whatever the memory holds if and only if a double word is pointed to. */
  lemma DerefStoreAlwaysAgrees(p: Platform, x: Symbol, u: Width, v: Word)
    requires IsPointer(x, u)
    ensures (forall m :: StoreAgrees(p, x, u, IntLit(v), m)) <==> u == W32
  {
    hide Load, Store, Pointing, Target, StoreAgrees;
    forall m ensures u == W32 ==> StoreAgrees(p, x, u, IntLit(v), m) {
      DerefStoreExactly(p, x, u, IntLit(v), m);
      assert u == W32 ==> Between(Load(m, Target(x, m), W32), u, W32) == 0 == Between(v, u, W32);
    }
    var y: Word := if v < 0x1_0000 then 0x1_0000 else 0;
    var m := Pointing(x, y);
    PointsAt(x, y);
    DerefStoreExactly(p, x, u, IntLit(v), m);
  }

  /** `*x = 1` with a `char` pointer clears the three bytes behind the one that C writes. */
  lemma CharPointerStore(p: Platform, env: Env, vars: seq<Variable>, name: string, m: Mem)
    requires IsPointer(Resolve(env, vars, Id(name)), W8)
    ensures var x, e := Resolve(env, vars, Id(name)),
                        Means(env, vars, AssignTerm(UnaryTerm(Contents, NameTerm(name)), IntTerm(1)), 0);
      && e.Some? && WellTyped(e.value, W32)
      && var a, m' := Target(x, m), Eval(p, e.value, W32, m).1;
         At(m', a) == 1 && At(m', Offset(a, 1)) == At(m', Offset(a, 2)) == At(m', Offset(a, 3)) == 0
  {
    hide Resolve, Target, WellTyped, Offset, Store, Eval;
    var x := Resolve(env, vars, Id(name));
    assert Means(env, vars, UnaryTerm(Contents, NameTerm(name)), 0) == Some(Deref(Var(x)));
    OneLiteral(p, m);
    AssignThrough(p, x, W8, IntLit(1), m);
    StoreOne(m, Target(x, m));
  }

  lemma OneLiteral(p: Platform, m: Mem)
    ensures WellTyped(IntLit(1), W32) && Eval(p, IntLit(1), W32, m) == (1, m)
  {
  }

  lemma StoreOne(m: Mem, a: Word)
    ensures var m' := Store(m, a, 1, W32);
      At(m', a) == 1 && At(m', Offset(a, 1)) == At(m', Offset(a, 2)) == At(m', Offset(a, 3)) == 0
  {
    OffsetsDiffer(a);
  }

  // ----- sums -----

  /** The addition of a platform is that of the machine's words. */
  ghost predicate AddsUp(p: Platform) {
    forall w: Width, a: Word, b: Word :: p.binary(Add, w, a, b) == (a + b) % 0x1_0000_0000
  }

  lemma LowSum(n: nat, w: Width)
    ensures Low(n % 0x1_0000_0000, w) == n % Span(w)
  {
    var q, r := n / 0x1_0000_0000, n % 0x1_0000_0000;
    assert n == 0x1_0000_0000 * q + r;
    match w
    case W8 => LowPart(n, r % 0x100, r / 0x100 + 0x100_0000 * q, 0x100);
    case W16 => LowPart(n, r % 0x1_0000, r / 0x1_0000 + 0x1_0000 * q, 0x1_0000);
    case W32 =>
  }

  /** A sum of unsigned operands, the left one narrower than a double word, is the one C makes of them in an `int`
      if and only if that fits the width of the left one. */
  lemma NarrowSumAgrees(p: Platform, l: Expr, r: Expr, w: Width, m: Mem)
    requires AddsUp(p) && WellTyped(Bin(Add, l, r), w) && w != W32
    ensures var (a, m1) := Eval(p, l, w, m);
      var b := Eval(p, r, WidthOf(r), m1).0;
      var c := (a + b) % 0x1_0000_0000;
      Eval(p, Bin(Add, l, r), w, m).0 == c <==> c < Span(w)
  {
    hide Load, Store, Low;
    var (a, m1) := Eval(p, l, w, m);
    var b := Eval(p, r, WidthOf(r), m1).0;
    assert Eval(p, Bin(Add, l, r), w, m).0 == Low(p.binary(Add, w, a, Low(b, w)), w);
    hide Eval, WellTyped;
    assert p.binary(Add, w, a, Low(b, w)) == (a + Low(b, w)) % 0x1_0000_0000;
    LowSum(a + Low(b, w), w);
    LowIs(b, w);
    SumModulo(a, b, Span(w));
    var c := (a + b) % 0x1_0000_0000;
    LowSum(a + b, w);
    LowIs(c, w);
  }

  lemma LowIs(x: Word, w: Width)
    ensures Low(x, w) == x % Span(w) && (Low(x, w) == x <==> x < Span(w))
  {
  }

  lemma SumModulo(a: nat, b: nat, k: nat)
    requires k == 0x100 || k == 0x1_0000
    ensures (a + b % k) % k == (a + b) % k
  {
    var q := b / k;
    assert b == k * q + b % k;
    var y := a + b % k;
    LowPart(a + b, y % k, y / k + q, k);
  }

  /** `x + n` is the address C means if and only if bytes are pointed to or `n` is zero. */
  lemma PointerSumAgrees(p: Platform, x: Symbol, u: Width, n: Word, m: Mem)
    requires AddsUp(p) && IsPointer(x, u)
    ensures WellTyped(Bin(Add, Var(x), IntLit(n)), W32)
    ensures Eval(p, Bin(Add, Var(x), IntLit(n)), W32, m).0 == (Target(x, m) + n * u.Size()) % 0x1_0000_0000
      <==> u == W8 || n == 0
  {
    assert WellTyped(Var(x), W32);
    var a := Target(x, m);
    assert Eval(p, Var(x), W32, m) == (a, m);
    assert Eval(p, Bin(Add, Var(x), IntLit(n)), W32, m).0 == (a + n) % 0x1_0000_0000;
    hide Load;
    Unscaled(a, n, u.Size());
  }

  lemma Unscaled(a: Word, n: Word, size: nat)
    requires size == 1 || size == 2 || size == 4
    ensures (a + n) % 0x1_0000_0000 == (a + n * size) % 0x1_0000_0000 <==> size == 1 || n == 0
  {
  }
}
