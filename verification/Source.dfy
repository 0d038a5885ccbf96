/** The FinSH expression language with a semantics of its own, independent of how it is compiled: operators work
    at the width of their operands, every pointer is one to a double word, and addresses are not scaled. When
    that is what C means is the subject of CSemantics.dfy. */
module Source {
  import opened Machine
  import opened Ast

  datatype Expr =
    | CharLit(c: Byte)
    | IntLit(v: Word)
    | LongLit(v: Word)
    | StrLit(a: Word)
    | NullLit
    | Var(s: Symbol)
    | Bin(op: BinOp, l: Expr, r: Expr)
    | Invert(e: Expr)
    | Neg(e: Expr)
    | Cast(ty: FinshType, e: Expr)
    | Deref(e: Expr)
    | AddrOf(e: Expr)
    | Assign(lv: Expr, e: Expr)
    | PreInc(s: Symbol, down: bool)
    | PostInc(s: Symbol, down: bool)
    | Call(s: Symbol, args: Args)

  datatype Args = NoArgs | Arg(e: Expr, rest: Args)

  function ArgCount(a: Args): nat {
    if a.NoArgs? then 0 else 1 + ArgCount(a.rest)
  }

  // ----- typing -----

  function TypeWidth(t: FinshType): Option<Width> {
    match t
    case TChar | TUChar => Some(W8)
    case TShort | TUShort => Some(W16)
    case TInt | TUInt | TLong | TULong | TCharP | TShortP | TIntP | TLongP => Some(W32)
    case TUnknown | TVoid | TVoidP => None
  }

  predicate IsVariable(s: Symbol, w: Width) {
    (s.VarSym? || s.SysvarSym?) && TypeWidth(s.ty) == Some(w)
  }

  /** The width of a statement's value; a call leaves a double word. */
  function WidthOf(e: Expr): Width {
    match e
    case CharLit(_) => W8
    case Var(s) => SymbolWidth(s)
    case Bin(_, l, _) => WidthOf(l)
    case Invert(e) => WidthOf(e)
    case Cast(ty, _) => if TypeWidth(ty).Some? then TypeWidth(ty).value else W32
    case Assign(lv, _) => WidthOf(lv)
    case PreInc(s, _) => SymbolWidth(s)
    case PostInc(s, _) => SymbolWidth(s)
    case _ => W32
  }

  function SymbolWidth(s: Symbol): Width {
    if (s.VarSym? || s.SysvarSym?) && TypeWidth(s.ty).Some? then TypeWidth(s.ty).value else W32
  }

  predicate IsCall(e: Expr) {
    e.Call? || (e.Cast? && IsCall(e.e))
  }

  predicate IsLvalue(e: Expr, w: Width) {
    (e.Var? && IsVariable(e.s, w)) || (e.Deref? && w == W32 && WellTyped(e.e, w) && !IsCall(e.e))
  }

  /** `e` has a width of its own that is no smaller than `w`. */
  predicate IsWide(e: Expr, w: Width) {
    w.Size() <= WidthOf(e).Size() && WellTyped(e, WidthOf(e))
  }

  /** `e` computes at width `w`: that is the width of its leftmost operand, which is no call; right operands
      and assigned values may be wider, so that numbers go with variables of any width. Casts keep the width. */
  predicate WellTyped(e: Expr, w: Width) {
    match e
    case CharLit(_) => w == W8
    case IntLit(_) => w == W32
    case LongLit(_) => w == W32
    case StrLit(_) => w == W32
    case NullLit => w == W32
    case Var(s) => IsVariable(s, w)
    case Bin(_, l, r) => WellTyped(l, w) && !IsCall(l) && w.Size() <= WidthOf(r).Size() && WellTyped(r, WidthOf(r))
    case Invert(e) => WellTyped(e, w) && !IsCall(e)
    case Neg(e) => w == W32 && WellTyped(e, w)
    case Cast(ty, e) => TypeWidth(ty) == Some(w) && WellTyped(e, w)
    case Deref(e) => w == W32 && WellTyped(e, w) && !IsCall(e)
    case AddrOf(e) => w == W32 && IsLvalue(e, w)
    case Assign(lv, e) => IsLvalue(lv, w) && w.Size() <= WidthOf(e).Size() && WellTyped(e, WidthOf(e))
    case PreInc(s, _) => s.VarSym? && IsVariable(s, w)
    case PostInc(s, _) => s.VarSym? && IsVariable(s, w)
    case Call(s, args) => s.SyscallSym? && WellTypedArgs(args)
  }

  predicate WellTypedArgs(a: Args) {
    a.Arg? ==> WellTyped(a.e, W32) && WellTypedArgs(a.rest)
  }

  // ----- meaning -----

  function Stepped(p: Platform, down: bool, w: Width, v: Word): Word {
    Low(p.binary(if down then Sub else Add, w, v, 1), w)
  }

  /** The value (as wide as `w`) and the memory after evaluating `e`, operands left to right. An operator reads
      and an assignment stores the low bytes of a wider operand. */
  function Eval(p: Platform, e: Expr, w: Width, m: Mem): (Word, Mem)
    requires WellTyped(e, w)
    decreases e, 1
  {
    match e
    case CharLit(c) => (c, m)
    case IntLit(v) => (v, m)
    case LongLit(v) => (v, m)
    case StrLit(a) => (a, m)
    case NullLit => (0, m)
    case Var(s) => (Load(m, s.addr, w), m)
    case Bin(op, l, r) =>
      var (a, m1) := Eval(p, l, w, m);
      var (b, m2) := Eval(p, r, WidthOf(r), m1);
      (Low(p.binary(op, w, a, Low(b, w)), w), m2)
    case Invert(e) =>
      var (a, m1) := Eval(p, e, w, m);
      (Low(p.invert(w, a), w), m1)
    case Neg(e) =>
      var (a, m1) := Eval(p, e, w, m);
      (p.binary(Sub, w, 0, a), m1)
    case Cast(ty, e) =>
      var (a, m1) := Eval(p, e, w, m);
      (Low(a, TypeWidth(ty).value), m1)
    case Deref(e) =>
      var (a, m1) := Eval(p, e, w, m);
      (Load(m1, a, w), m1)
    case AddrOf(e) => Address(p, e, w, m)
    case Assign(lv, e) =>
      var (a, m1) := Address(p, lv, w, m);
      var (v, m2) := Eval(p, e, WidthOf(e), m1);
      (Low(v, w), Store(m2, a, Low(v, w), w))
    case PreInc(s, down) =>
      var v := Stepped(p, down, w, Load(m, s.addr, w));
      (v, Store(m, s.addr, v, w))
    case PostInc(s, down) =>
      var v := Load(m, s.addr, w);
      (v, Store(m, s.addr, Stepped(p, down, w, v), w))
    case Call(s, args) =>
      var (vs, m1) := EvalArgs(p, args, m);
      var (r, m2) := p.call(s.func, if vs == [] then [0] else vs, m1);
      (Low(r, w), m2)
  }

  /** The address an lvalue denotes. */
  function Address(p: Platform, e: Expr, w: Width, m: Mem): (Word, Mem)
    requires IsLvalue(e, w)
    decreases e, 0
  {
    if e.Var? then (e.s.addr, m) else Eval(p, e.e, w, m)
  }

  function EvalArgs(p: Platform, a: Args, m: Mem): (r: (seq<Word>, Mem))
    requires WellTypedArgs(a)
    ensures |r.0| == ArgCount(a)
    decreases a, 0
  {
    if a.NoArgs? then ([], m)
    else
      var (v, m1) := Eval(p, a.e, W32, m);
      var (vs, m2) := EvalArgs(p, a.rest, m1);
      ([v] + vs, m2)
  }

  predicate WellTypedLine(es: seq<Expr>) {
    forall e :: e in es ==> WellTyped(e, WidthOf(e))
  }

  /** A well-typed expression has only one width, unless it is a call. */
  lemma {:induction false} WidthIsUnique(e: Expr, w: Width)
    requires WellTyped(e, w) && !IsCall(e)
    ensures w == WidthOf(e)
  {
    match e
    case Bin(_, l, _) => WidthIsUnique(l, w);
    case Invert(e) => WidthIsUnique(e, w);
    case _ =>
  }

  lemma DoubleWordIs(e: Expr)
    requires WellTyped(e, W32)
    ensures WidthOf(e) == W32 && IsWide(e, W32)
  {
    if IsCall(e) {
      assert e.Cast? ==> TypeWidth(e.ty) == Some(W32);
    } else {
      WidthIsUnique(e, W32);
    }
  }

  /** Sequential evaluation: the value of the last statement and the memory at the end. */
  function EvalLine(p: Platform, es: seq<Expr>, m: Mem): (Word, Mem)
    requires es != [] && WellTypedLine(es)
  {
    var (v, m1) := Eval(p, es[0], WidthOf(es[0]), m);
    if |es| == 1 then (v, m1) else EvalLine(p, es[1..], m1)
  }

  // ----- the trees the parser builds -----

  /** The first tree of `f` is the tree of `e`. */
  ghost predicate IsTree(f: Forest, e: Expr)
    decreases e, 1
  {
    f.Node? &&
    match e
    case CharLit(c) => f.kind == KChar && f.value % 0x100 == c && f.child.Nil?
    case IntLit(v) => f.kind == KInt && f.value == v && f.child.Nil?
    case LongLit(v) => f.kind == KLong && f.value == v && f.child.Nil?
    case StrLit(a) => f.kind == KString && f.value == a && f.child.Nil?
    case NullLit => f.kind == KNull && f.value == 0 && f.child.Nil?
    case Var(s) => IsIdTree(f, s)
    case Bin(op, l, r) =>
      f.kind == KBin(op) && IsTree(f.child, l) && IsTree(f.child.next, r) && f.child.next.next.Nil?
    case Invert(e) => f.kind == KInvert && IsTree(f.child, e) && f.child.next.Nil?
    case Neg(e) =>
      && f.kind == KBin(Sub)
      && f.child.Node? && f.child.kind == KLong && f.child.value == 0 && f.child.child.Nil?
      && IsTree(f.child.next, e) && f.child.next.next.Nil?
    case Cast(_, e) => IsTree(f, e)
    case Deref(e) => f.kind == KGetValue && f.sym == NoSymbol && !f.isAddr && IsTree(f.child, e) && f.child.next.Nil?
    case AddrOf(e) => f.kind == KGetAddr && IsTree(f.child, e) && f.child.next.Nil?
    case Assign(lv, e) =>
      f.kind == KAssign && IsTree(f.child, lv) && IsTree(f.child.next, e) && f.child.next.next.Nil?
    case PreInc(s, down) =>
      f.kind == (if down then KPreDec else KPreInc) && IsIdTree(f.child, s) && f.child.next.Nil?
    case PostInc(s, down) =>
      f.kind == (if down then KDec else KInc) && IsIdTree(f.child, s) && f.child.next.Nil?
    case Call(s, args) => f.kind == KFunc && IsIdTree(f.child, s) && IsArgs(f.child.next, args)
  }

  ghost predicate IsIdTree(f: Forest, s: Symbol) {
    f.Node? && f.kind == KId && f.sym == s && !f.isAddr && f.child.Nil?
  }

  ghost predicate IsArgs(f: Forest, a: Args)
    decreases a, 0
  {
    if a.NoArgs? then f.Nil? else IsTree(f, a.e) && IsArgs(f.next, a.rest)
  }

  ghost predicate IsLine(f: Forest, es: seq<Expr>) {
    if es == [] then f.Nil? else IsTree(f, es[0]) && IsLine(f.next, es[1..])
  }

  // ----- sizes -----

  /** Nodes the parser allocates for an expression. */
  function Nodes(e: Expr): nat {
    match e
    case CharLit(_) | IntLit(_) | LongLit(_) | StrLit(_) | NullLit | Var(_) => 1
    case Bin(_, l, r) => 1 + Nodes(l) + Nodes(r)
    case Invert(e) => 1 + Nodes(e)
    case Neg(e) => 2 + Nodes(e)
    case Cast(_, e) => Nodes(e)
    case Deref(e) => 1 + Nodes(e)
    case AddrOf(e) => 1 + Nodes(e)
    case Assign(lv, e) => 1 + Nodes(lv) + Nodes(e)
    case PreInc(_, _) | PostInc(_, _) => 2
    case Call(_, args) => 2 + ArgNodes(args)
  }

  function ArgNodes(a: Args): nat {
    if a.NoArgs? then 0 else Nodes(a.e) + ArgNodes(a.rest)
  }

  function Max(a: nat, b: nat): nat {
    if a < b then b else a
  }

  /** Stack slots the compiled form of an expression uses above its starting point. */
  function Need(e: Expr): nat {
    match e
    case CharLit(_) | IntLit(_) | LongLit(_) | StrLit(_) | NullLit | Var(_) => 1
    case Bin(_, l, r) => Max(Need(l), 1 + Need(r))
    case Invert(e) => Need(e)
    case Neg(e) => 1 + Need(e)
    case Cast(_, e) => Need(e)
    case Deref(e) => Need(e)
    case AddrOf(e) => Need(e)
    case Assign(lv, e) => Max(Need(lv), 1 + Need(e))
    case PreInc(_, _) => 3
    case PostInc(_, _) => 4
    case Call(_, args) => 1 + ArgNeed(args)
  }

  function ArgNeed(a: Args): nat {
    if a.NoArgs? then 0 else Max(Need(a.e), 1 + ArgNeed(a.rest))
  }

  lemma {:induction false} NeedBound(e: Expr)
    ensures 1 <= Nodes(e)
    ensures 1 <= Need(e) <= Nodes(e) + 2
  {
    match e
    case Bin(_, l, r) => NeedBound(l); NeedBound(r);
    case Invert(e) => NeedBound(e);
    case Neg(e) => NeedBound(e);
    case Cast(_, e) => NeedBound(e);
    case Deref(e) => NeedBound(e);
    case AddrOf(e) => NeedBound(e);
    case Assign(lv, e) => NeedBound(lv); NeedBound(e);
    case Call(_, args) => ArgNeedBound(args);
    case _ =>
  }

  lemma {:induction false} ArgNeedBound(a: Args)
    ensures ArgCount(a) <= ArgNodes(a)
    ensures ArgNeed(a) <= ArgNodes(a) + 2
  {
    if a.Arg? {
      NeedBound(a.e);
      ArgNeedBound(a.rest);
    }
  }

  // ----- argument vectors -----

  /** No call has more arguments than the virtual machine passes on. */
  predicate FewArgs(e: Expr, most: nat) {
    match e
    case Bin(_, l, r) => FewArgs(l, most) && FewArgs(r, most)
    case Invert(e) => FewArgs(e, most)
    case Neg(e) => FewArgs(e, most)
    case Cast(_, e) => FewArgs(e, most)
    case Deref(e) => FewArgs(e, most)
    case AddrOf(e) => FewArgs(e, most)
    case Assign(lv, e) => FewArgs(lv, most) && FewArgs(e, most)
    case Call(_, args) => ArgCount(args) <= most && AllFewArgs(args, most)
    case _ => true
  }

  predicate AllFewArgs(a: Args, most: nat) {
    a.Arg? ==> FewArgs(a.e, most) && AllFewArgs(a.rest, most)
  }

  /** The nodes of an expression limit its arguments: a call takes two nodes besides them. */
  lemma {:induction false} NodesLimitArgs(e: Expr, n: nat)
    requires Nodes(e) <= n + 2
    ensures FewArgs(e, n)
  {
    match e
    case Bin(_, l, r) => NodesLimitArgs(l, n); NodesLimitArgs(r, n);
    case Invert(e) => NodesLimitArgs(e, n);
    case Neg(e) => NodesLimitArgs(e, n);
    case Cast(_, e) => NodesLimitArgs(e, n);
    case Deref(e) => NodesLimitArgs(e, n);
    case AddrOf(e) => NodesLimitArgs(e, n);
    case Assign(lv, e) => NodesLimitArgs(lv, n); NodesLimitArgs(e, n);
    case Call(_, args) => ArgNeedBound(args); ArgNodesLimitArgs(args, n);
    case _ =>
  }

  lemma {:induction false} ArgNodesLimitArgs(a: Args, n: nat)
    requires ArgNodes(a) <= n + 2
    ensures AllFewArgs(a, n)
  {
    if a.Arg? {
      NodesLimitArgs(a.e, n);
      ArgNodesLimitArgs(a.rest, n);
    }
  }
}
