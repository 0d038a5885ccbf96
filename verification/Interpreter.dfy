/** What any syntax tree does when it is run, said without instructions: one walk over the tree as the parser has
    built it, working on the stack slots and the memory. It makes no assumption on types or widths, and agrees
    with type checking, compiling and executing the code on every tree. */
module Interpreter {
  import opened Machine
  import opened Limits
  import opened Ast
  import opened Lexer
  import opened Grammar
  import opened Bytecode
  import opened Source
  import opened Codegen
  import opened Correctness
  import opened Shell

  // ----- at which width a tree is worked on -----

  function Leftmost(f: Forest): Forest
    requires f.Node?
    ensures Leftmost(f).Node?
  {
    if f.child.Nil? then f else Leftmost(f.child)
  }

  /** The number of the data type of a tree, which is that of its leftmost leaf. A pointer to `void` counts as a
      double word and a `void` variable as nothing; a variable of unknown type, and a function, as the number
      a cast has left in its node. */
  function DataType(f: Forest): nat
    requires f.Node?
  {
    var x := Leftmost(f);
    match x.kind
    case KChar => 1
    case KInt | KLong | KString | KNull => 3
    case KId =>
      if x.sym.NoSymbol? || x.sym.SyscallSym? || x.sym.ty.TUnknown? then x.dt
      else if x.sym.ty.TVoid? then 0
      else if x.sym.ty.TVoidP? then 3
      else (match TypeWidth(x.sym.ty).value case W8 => 1 case W16 => 2 case W32 => 3)
    case _ => x.dt
  }

  /** The width of operators on a tree, if there are any for its data type. */
  function Width(f: Forest): Option<Width>
    requires f.Node?
  {
    DtWidth(DataType(f))
  }

  // ----- slots -----

  predicate InStack(s: State) {
    s.sp <= |s.stack|
  }

  /** A value of width `w` on top of the stack: the other bytes of the slot stay. */
  function Push(s: State, v: Word, w: Width): (r: Option<State>)
    requires InStack(s)
    ensures r.Some? ==> InStack(r.value)
  {
    if s.sp == |s.stack| then None
    else Some(s.(stack := s.stack[s.sp := SetLow(s.stack[s.sp], v, w)], sp := s.sp + 1))
  }

  /** The two topmost slots are replaced by `x`. */
  function Replace2(s: State, x: Word): (r: State)
    requires InStack(s) && s.sp >= 2
    ensures InStack(r)
  {
    s.(stack := s.stack[s.sp - 2 := x], sp := s.sp - 1)
  }

  function Replace1(s: State, x: Word): (r: State)
    requires InStack(s) && s.sp >= 1
    ensures InStack(r)
  {
    s.(stack := s.stack[s.sp - 1 := x])
  }

  function Top(s: State): Word
    requires InStack(s) && s.sp >= 1
  {
    s.stack[s.sp - 1]
  }

  function Below(s: State): Word
    requires InStack(s) && s.sp >= 2
  {
    s.stack[s.sp - 2]
  }

  // ----- what a node does behind its operands -----

  function Operate(p: Platform, op: BinOp, w: Width, s: State): (r: Option<State>)
    requires InStack(s)
    ensures r.Some? ==> InStack(r.value)
  {
    if s.sp < 2 then None
    else Some(Replace2(s, SetLow(Below(s), p.binary(op, w, Low(Below(s), w), Low(Top(s), w)), w)))
  }

  function Complement(p: Platform, w: Width, s: State): (r: Option<State>)
    requires InStack(s)
    ensures r.Some? ==> InStack(r.value)
  {
    if s.sp < 1 then None else Some(Replace1(s, SetLow(Top(s), p.invert(w, Low(Top(s), w)), w)))
  }

  /** The slot below holds an address: the value on top goes there, and to the low bytes of that slot. */
  function StoreTop(w: Width, s: State): (r: Option<State>)
    requires InStack(s)
    ensures r.Some? ==> InStack(r.value)
  {
    if s.sp < 2 then None
    else Some(Replace2(s, SetLow(Below(s), Top(s), w)).(mem := Store(s.mem, Below(s), Low(Top(s), w), w)))
  }

  function Dereference(w: Width, s: State): (r: Option<State>)
    requires InStack(s)
    ensures r.Some? ==> InStack(r.value)
  {
    if s.sp < 1 then None else Some(Replace1(s, SetLow(Top(s), Load(s.mem, Top(s), w), w)))
  }

  /** A function and `n` arguments give way to its result; with no argument it gets a zero. */
  function Invoke(p: Platform, n: nat, s: State): (r: Option<State>)
    requires InStack(s)
    ensures r.Some? ==> InStack(r.value)
  {
    if n > ARG_MAX || s.sp < n + 1 then None
    else
      var args := s.stack[s.sp - n..s.sp];
      var (v, m) := p.call(s.stack[s.sp - n - 1], if n == 0 then [0] else args, s.mem);
      Some(s.(stack := s.stack[s.sp - n - 1 := v], sp := s.sp - n, mem := m))
  }

  /** `++` or `--` in front of a variable at `a`: what is computed from it goes to the address on top, and the
      whole word that is then found there takes the place of the address. Two slots above are used. */
  function StepFirst(p: Platform, down: bool, a: Word, w: Width, s: State): (r: Option<State>)
    requires InStack(s)
    ensures r.Some? ==> InStack(r.value)
  {
    if s.sp < 1 || s.sp + 2 > |s.stack| then None
    else
      var v := Stepped(p, down, w, Load(s.mem, a, w));
      var m := Store(s.mem, Top(s), v, w);
      var used := s.stack[s.sp := SetLow(s.stack[s.sp], v, w)][s.sp + 1 := SetLow(s.stack[s.sp + 1], 1, w)];
      Some(s.(stack := used[s.sp - 1 := Load(m, Top(s), W32)], mem := m))
  }

  /** Behind a variable at `a`, whose value stays on top. Three slots above are used. */
  function StepLast(p: Platform, down: bool, a: Word, w: Width, s: State): (r: Option<State>)
    requires InStack(s)
    ensures r.Some? ==> InStack(r.value)
  {
    if s.sp + 3 > |s.stack| then None
    else
      var v := Stepped(p, down, w, Load(s.mem, a, w));
      var st := s.stack;
      Some(s.(stack := st[s.sp := a][s.sp + 1 := SetLow(st[s.sp + 1], v, w)][s.sp + 2 := SetLow(st[s.sp + 2], 1, w)],
              mem := Store(s.mem, a, v, w)))
  }

  /** A name leaves the address or the value of its variable, or the entry of its function. */
  function Name(sym: Symbol, isAddr: bool, s: State): (r: Option<State>)
    requires InStack(s)
    ensures r.Some? ==> InStack(r.value)
  {
    match sym
    case NoSymbol => Some(s)
    case SyscallSym(func, _) => Push(s, func, W32)
    case _ =>
      match TypeWidth(sym.ty) {
        case None => Some(s)
        case Some(w) => if isAddr then Push(s, sym.addr, W32) else Push(s, Load(s.mem, sym.addr, w), w)
      }
  }

  /** The variable `++` and `--` work on: a name that is none is misread as one. */
  function Stepping(sym: Symbol): Word {
    match sym
    case NoSymbol => 0
    case VarSym(_, addr) => addr
    case SysvarSym(_, _, misread) => misread
    case SyscallSym(_, misread) => misread
  }

  function Finish(p: Platform, f: Forest, isAddr: bool, s: State): (r: Option<State>)
    requires f.Node? && InStack(s)
    ensures r.Some? ==> InStack(r.value)
  {
    match f.kind
    case KUnknown | KGetAddr => Some(s)
    case KId => Name(f.sym, isAddr, s)
    case KChar => Push(s, f.value, W8)
    case KInt | KLong | KNull | KString => Push(s, f.value, W32)
    case KBin(op) => (match Width(f) case None => Some(s) case Some(w) => Operate(p, op, w, s))
    case KInvert => (match Width(f) case None => Some(s) case Some(w) => Complement(p, w, s))
    case KGetValue =>
      if isAddr then Some(s) else (match Width(f) case None => Some(s) case Some(w) => Dereference(w, s))
    case KFunc => Invoke(p, (if f.child.Nil? then 0 else Length(f.child.next)) % 0x100, s)
    case KAssign =>
      if f.child.Node? && (f.child.kind == KId || f.child.kind == KGetValue) then
        match DtWidth(if f.child.kind == KId then DataType(f) else DataType(f) % 0x10) {
          case None => Some(s)
          case Some(w) => StoreTop(w, s)
        }
      else Some(s)
    case KPreInc | KPreDec | KInc | KDec =>
      if f.child.Node? && f.child.kind == KId then
        match Width(f) {
          case None => Some(s)
          case Some(w) =>
            if f.kind == KPreInc || f.kind == KPreDec then StepFirst(p, f.kind == KPreDec, Stepping(f.child.sym), w, s)
            else StepLast(p, f.kind == KDec, Stepping(f.child.sym), w, s)
        }
      else Some(s)
  }

  // ----- trees -----

  /** Whether the first operand of a node is wanted for its address. */
  predicate WantsAddress(kind: Kind, isAddr: bool) {
    match kind
    case KAssign | KPreInc | KPreDec | KGetAddr => true
    case KGetValue => false
    case _ => isAddr
  }

  /** Operands first, from left to right, then the node itself. */
  function Tree(p: Platform, f: Forest, isAddr: bool, s: State): (r: Option<State>)
    requires f.Node? && InStack(s)
    ensures r.Some? ==> InStack(r.value)
    decreases f, 0
  {
    match Trees(p, f.child, WantsAddress(f.kind, isAddr), s)
    case None => None
    case Some(s1) => Finish(p, f, f.isAddr || (isAddr && !f.sym.SyscallSym?), s1)
  }

  /** Only the first of some operands can be wanted for its address. */
  function Trees(p: Platform, f: Forest, isAddr: bool, s: State): (r: Option<State>)
    requires InStack(s)
    ensures r.Some? ==> InStack(r.value)
    decreases f, 1
  {
    if f.Nil? then Some(s)
    else
      match Tree(p, f, isAddr, s) {
        case None => None
        case Some(s1) => Trees(p, f.next, false, s1)
      }
  }

  /** The statements of a line; the topmost slot is given up between two of them. */
  function Statements(p: Platform, f: Forest, s: State): (r: Option<State>)
    requires InStack(s)
    ensures r.Some? ==> InStack(r.value)
    decreases f, 2
  {
    if f.Nil? then Some(s)
    else
      match Tree(p, f, false, s) {
        case None => None
        case Some(s1) =>
          if f.next.Nil? then Some(s1)
          else if s1.sp == 0 then None
          else Statements(p, f.next, s1.(sp := s1.sp - 1))
      }
  }

  // ----- the compiled code does the same -----

  lemma {:induction false} DataTypeRecorded(f: Forest, isAddr: bool)
    requires f.Node?
    ensures Annotate(f, isAddr).dt == DataType(f)
  {
    if f.child.Node? {
      DataTypeRecorded(f.child, ChildIsAddr(f.kind, isAddr));
    }
  }

  lemma {:induction false} SameLength(f: Forest, isAddr: bool)
    ensures Length(Annotate(f, isAddr)) == Length(f)
  {
    if f.Node? {
      SameLength(f.next, false);
    }
  }

  lemma TwoSteps(p: Platform, i: Instr, j: Instr, s: State)
    ensures ExecAll(p, [i, j], s) ==
      match Exec(p, i, s) { case None => None case Some(s1) => Exec(p, j, s1) }
  {
    hide Exec;
    assert [i, j][1..] == [j];
    if Exec(p, i, s).Some? {
      ExecOne(p, j, Exec(p, i, s).value);
    }
  }

  lemma StoreIs(p: Platform, w: Width, s: State)
    requires InStack(s)
    ensures ExecAll(p, [Ins(OpSt(w)), Ins(OpLdStack(w))], s) == StoreTop(w, s)
  {
    TwoSteps(p, Ins(OpSt(w)), Ins(OpLdStack(w)), s);
    if s.sp >= 2 {
      hide Store, Load, SetLow, ExecAll;
      LoadStore(s.mem, Below(s), Low(Top(s), w), w);
      SetLowAgain(Below(s), Top(s), w);
    }
  }

  lemma SetLowAgain(x: Word, v: Word, w: Width)
    ensures SetLow(x, Low(Low(v, w), w), w) == SetLow(x, v, w)
    ensures forall u: Word :: SetLow(SetLow(x, u, w), v, w) == SetLow(x, v, w)
  {
    LowIdempotent(v, w);
    forall u: Word ensures SetLow(SetLow(x, u, w), v, w) == SetLow(x, v, w) {
      LowSetLow(x, u, w);
    }
  }

  lemma ConsIs(p: Platform, i: Instr, rest: seq<Instr>, s: State)
    ensures ExecAll(p, [i] + rest, s) ==
      match Exec(p, i, s) { case None => None case Some(s1) => ExecAll(p, rest, s1) }
  {
    hide Exec;
    assert ([i] + rest)[1..] == rest;
  }

  lemma LowOfOne(w: Width)
    ensures Low(1, w) == 1
  {
  }

  /** Both steps begin alike: the variable and one are loaded and combined. */
  lemma StepLoads(p: Platform, down: bool, a: Word, w: Width, s: State, rest: seq<Instr>)
    requires InStack(s)
    ensures ExecAll(p, [Instr(OpLdValue(w), a)] + ([Instr(OpLd(w), 1)] + ([StepOp(down, w)] + rest)), s) ==
      if s.sp + 2 > |s.stack| then None
      else
        var v := Stepped(p, down, w, Load(s.mem, a, w));
        var used := s.stack[s.sp := SetLow(s.stack[s.sp], v, w)][s.sp + 1 := SetLow(s.stack[s.sp + 1], 1, w)];
        ExecAll(p, rest, s.(stack := used, sp := s.sp + 1))
  {
    hide ExecAll, Load, SetLow, Low, Stepped;
    var i, j, k := Instr(OpLdValue(w), a), Instr(OpLd(w), 1), StepOp(down, w);
    ConsIs(p, i, [j] + ([k] + rest), s);
    if s.sp < |s.stack| {
      var s1 := Exec(p, i, s).value;
      ConsIs(p, j, [k] + rest, s1);
      if s.sp + 1 < |s.stack| {
        var s2 := Exec(p, j, s1).value;
        ConsIs(p, k, rest, s2);
        StepCombines(p, down, a, w, s, s2);
      }
    }
  }

  lemma StepCombines(p: Platform, down: bool, a: Word, w: Width, s: State, s2: State)
    requires s.sp + 2 <= |s.stack| && s2.sp == s.sp + 2
    requires var l := Load(s.mem, a, w);
      s2 == s.(stack := s.stack[s.sp := SetLow(s.stack[s.sp], l, w)][s.sp + 1 := SetLow(s.stack[s.sp + 1], 1, w)],
               sp := s.sp + 2)
    ensures var v := Stepped(p, down, w, Load(s.mem, a, w));
      var used := s.stack[s.sp := SetLow(s.stack[s.sp], v, w)][s.sp + 1 := SetLow(s.stack[s.sp + 1], 1, w)];
      Exec(p, StepOp(down, w), s2) == Some(s.(stack := used, sp := s.sp + 1))
  {
    hide Load, SetLow, Low;
    var l := Load(s.mem, a, w);
    LowSetLow(s.stack[s.sp], l, w);
    LowSetLow(s.stack[s.sp + 1], 1, w);
    LoadInRange(s.mem, a, w);
    LowOfOne(w);
    var v := p.binary(if down then Sub else Add, w, l, 1);
    SetLowAgain(s.stack[s.sp], v, w);
    LowIdempotent(v, w);
    assert SetLow(SetLow(s.stack[s.sp], l, w), v, w) == SetLow(s.stack[s.sp], v, w);
    assert SetLow(s.stack[s.sp], Low(v, w), w) == SetLow(s.stack[s.sp], v, w) by { SetLowOfLow(s.stack[s.sp], v, w); }
    var out := Exec(p, StepOp(down, w), s2).value;
    assert out.stack == s2.stack[s.sp := SetLow(s.stack[s.sp], v, w)];
    assert out.stack == s.stack[s.sp := SetLow(s.stack[s.sp], v, w)][s.sp + 1 := SetLow(s.stack[s.sp + 1], 1, w)];
    assert Stepped(p, down, w, l) == Low(v, w);
  }

  lemma SetLowOfLow(x: Word, v: Word, w: Width)
    ensures SetLow(x, Low(v, w), w) == SetLow(x, v, w)
  {
    LowIdempotent(v, w);
  }

  lemma StepFirstIs(p: Platform, down: bool, a: Word, w: Width, s: State)
    requires InStack(s)
    ensures ExecAll(p, PreCode(down, a, w), s) == StepFirst(p, down, a, w, s)
  {
    var rest := [Ins(OpSt(w)), Ins(OpLdStack(W32))];
    assert PreCode(down, a, w) == [Instr(OpLdValue(w), a)] + ([Instr(OpLd(w), 1)] + ([StepOp(down, w)] + rest));
    hide ExecAll, Load, Store, SetLow, Stepped;
    StepLoads(p, down, a, w, s, rest);
    if s.sp + 2 <= |s.stack| {
      var v := Stepped(p, down, w, Load(s.mem, a, w));
      var used := s.stack[s.sp := SetLow(s.stack[s.sp], v, w)][s.sp + 1 := SetLow(s.stack[s.sp + 1], 1, w)];
      var s3 := s.(stack := used, sp := s.sp + 1);
      TwoSteps(p, Ins(OpSt(w)), Ins(OpLdStack(W32)), s3);
      if s.sp >= 1 {
        LowOfStepped(p, down, a, w, s.stack[s.sp], s.mem);
        assert s3.stack[s.sp - 1] == Top(s);
        LowSetLow(Top(s), Load(Store(s.mem, Top(s), v, w), Top(s), W32), W32);
      }
    }
  }

  lemma LowOfStepped(p: Platform, down: bool, a: Word, w: Width, x: Word, m: Mem)
    ensures var v := Stepped(p, down, w, Load(m, a, w)); Low(SetLow(x, v, w), w) == v
  {
    hide Load, SetLow;
    var v := p.binary(if down then Sub else Add, w, Load(m, a, w), 1);
    LowSetLow(x, Low(v, w), w);
    LowIdempotent(v, w);
  }

  lemma StepLastIs(p: Platform, down: bool, a: Word, w: Width, s: State)
    requires InStack(s)
    ensures ExecAll(p, PostCode(down, a, w), s) == StepLast(p, down, a, w, s)
  {
    var rest := [Ins(OpSt(w)), Ins(OpPop)];
    var more := [Instr(OpLdValue(w), a)] + ([Instr(OpLd(w), 1)] + ([StepOp(down, w)] + rest));
    assert PostCode(down, a, w) == [Instr(OpLd(W32), a)] + more;
    hide ExecAll, Load, Store, Stepped;
    ConsIs(p, Instr(OpLd(W32), a), more, s);
    if s.sp < |s.stack| {
      var s1 := Exec(p, Instr(OpLd(W32), a), s).value;
      assert s1 == s.(stack := s.stack[s.sp := a], sp := s.sp + 1) by { LowSetLow(s.stack[s.sp], a, W32); }
      hide SetLow;
      StepLoads(p, down, a, w, s1, rest);
      if s1.sp + 2 <= |s.stack| {
        var v := Stepped(p, down, w, Load(s.mem, a, w));
        var used := s1.stack[s1.sp := SetLow(s.stack[s1.sp], v, w)][s1.sp + 1 := SetLow(s.stack[s1.sp + 1], 1, w)];
        TwoSteps(p, Ins(OpSt(w)), Ins(OpPop), s1.(stack := used, sp := s1.sp + 1));
        LowOfStepped(p, down, a, w, s.stack[s1.sp], s.mem);
        assert used[s.sp] == a;
      }
    }
  }

  lemma NameIs(p: Platform, sym: Symbol, isAddr: bool, s: State)
    requires InStack(s)
    ensures ExecAll(p, IdCode(sym, isAddr), s) == Name(sym, isAddr, s)
  {
    if IdCode(sym, isAddr) != [] {
      ExecOne(p, IdCode(sym, isAddr)[0], s);
    }
  }

  /** What type checking makes of a node. */
  ghost predicate Checked(f: Forest, addr: bool, a: Forest)
    requires f.Node?
  {
    && a.Node? && a.kind == f.kind && a.value == f.value && a.sym == f.sym && a.isAddr == addr && a.dt == DataType(f)
    && a.child.Node? == f.child.Node?
    && (f.child.Node? ==>
      && a.child.kind == f.child.kind && a.child.sym == f.child.sym && a.child.dt == DataType(f)
      && Length(a.child.next) == Length(f.child.next))
  }

  lemma NodeChecked(f: Forest, isAddr: bool)
    requires f.Node?
    ensures Checked(f, f.isAddr || (isAddr && !f.sym.SyscallSym?), Annotate(f, isAddr))
  {
    DataTypeRecorded(f, isAddr);
    if f.child.Node? {
      DataTypeRecorded(f.child, ChildIsAddr(f.kind, isAddr));
      SameLength(f.child.next, false);
    }
  }

  lemma NoCode(p: Platform, s: State)
    ensures ExecAll(p, [], s) == Some(s)
  {
  }

  lemma PushIs(p: Platform, v: Word, w: Width, s: State)
    requires InStack(s)
    ensures ExecAll(p, [Instr(OpLd(w), Low(v, w))], s) == Push(s, v, w)
  {
    ExecOne(p, Instr(OpLd(w), Low(v, w)), s);
    if s.sp < |s.stack| {
      SetLowOfLow(s.stack[s.sp], v, w);
    }
  }

  lemma OperatorIs(p: Platform, f: Forest, addr: bool, a: Forest, s: State)
    requires f.Node? && InStack(s) && Checked(f, addr, a) && (f.kind.KBin? || f.kind == KInvert || f.kind == KGetValue)
    ensures ExecAll(p, Own(a), s) == Finish(p, f, addr, s)
  {
    hide DataType, Load, SetLow, Low;
    NoCode(p, s);
    if Own(a) != [] {
      ExecOne(p, Own(a)[0], s);
    }
  }

  lemma InvokeIs(p: Platform, f: Forest, addr: bool, a: Forest, s: State)
    requires f.Node? && InStack(s) && Checked(f, addr, a) && f.kind == KFunc
    ensures ExecAll(p, Own(a), s) == Finish(p, f, addr, s)
  {
    hide DataType;
    ExecOne(p, Own(a)[0], s);
  }

  lemma AssignIs(p: Platform, f: Forest, addr: bool, a: Forest, s: State)
    requires f.Node? && InStack(s) && Checked(f, addr, a) && f.kind == KAssign
    ensures ExecAll(p, Own(a), s) == Finish(p, f, addr, s)
  {
    hide DataType, ExecAll;
    NoCode(p, s);
    if f.child.Node? && (f.child.kind == KId || f.child.kind == KGetValue) {
      var dt := if f.child.kind == KId then DataType(f) else DataType(f) % 0x10;
      if DtWidth(dt).Some? {
        StoreIs(p, DtWidth(dt).value, s);
      }
    }
  }

  lemma StepIs(p: Platform, f: Forest, addr: bool, a: Forest, s: State)
    requires f.Node? && InStack(s) && Checked(f, addr, a) && f.kind in {KPreInc, KPreDec, KInc, KDec}
    ensures ExecAll(p, Own(a), s) == Finish(p, f, addr, s)
  {
    hide DataType, ExecAll, PreCode, PostCode, StepFirst, StepLast;
    NoCode(p, s);
    if f.child.Node? && f.child.kind == KId && Width(f).Some? {
      assert VarAddress(f.child.sym) == Stepping(f.child.sym);
      var down := f.kind in {KPreDec, KDec};
      StepFirstIs(p, down, Stepping(f.child.sym), Width(f).value, s);
      StepLastIs(p, down, Stepping(f.child.sym), Width(f).value, s);
    }
  }

  /** The code of a node does what the node does. */
  lemma NodeIs(p: Platform, f: Forest, isAddr: bool, s: State)
    requires f.Node? && InStack(s)
    ensures ExecAll(p, Own(Annotate(f, isAddr)), s) == Finish(p, f, f.isAddr || (isAddr && !f.sym.SyscallSym?), s)
  {
    var a := Annotate(f, isAddr);
    var addr := f.isAddr || (isAddr && !f.sym.SyscallSym?);
    hide ExecAll, Exec, Load, Store, SetLow, Annotate, DataType;
    NodeChecked(f, isAddr);
    match f.kind
    case KUnknown | KGetAddr => NoCode(p, s);
    case KId => NameIs(p, f.sym, addr, s);
    case KChar => PushIs(p, f.value, W8, s);
    case KInt | KLong | KNull | KString => PushIs(p, f.value, W32, s);
    case KBin(_) | KInvert | KGetValue => OperatorIs(p, f, addr, a, s);
    case KFunc => InvokeIs(p, f, addr, a, s);
    case KAssign => AssignIs(p, f, addr, a, s);
    case KPreInc | KPreDec | KInc | KDec => StepIs(p, f, addr, a, s);
  }

  lemma ExecJoin(p: Platform, c: seq<Instr>, d: seq<Instr>, s: State)
    ensures ExecAll(p, c + d, s) ==
      match ExecAll(p, c, s) { case None => None case Some(s1) => ExecAll(p, d, s1) }
  {
    ExecAppend(p, c, d, s);
  }

  lemma {:induction false} TreesAre(p: Platform, f: Forest, isAddr: bool, s: State)
    requires InStack(s)
    ensures ExecAll(p, Code(Annotate(f, isAddr)), s) == Trees(p, f, isAddr, s)
    decreases f, 1
  {
    if f.Node? {
      hide ExecAll, Finish, Own;
      var a := Annotate(f, isAddr);
      TreeIs(p, f, isAddr, s);
      ExecJoin(p, TreeCode(a), Code(a.next), s);
      var r := Tree(p, f, isAddr, s);
      if r.Some? {
        TreesAre(p, f.next, false, r.value);
      }
    } else {
      NoCode(p, s);
    }
  }

  /** For every tree, whatever its types: its code does what the walk over it does, and fails where that fails. */
  lemma {:induction false} TreeIs(p: Platform, f: Forest, isAddr: bool, s: State)
    requires f.Node? && InStack(s)
    ensures ExecAll(p, TreeCode(Annotate(f, isAddr)), s) == Tree(p, f, isAddr, s)
    decreases f, 0
  {
    hide ExecAll, Finish, Own;
    var a := Annotate(f, isAddr);
    assert ChildIsAddr(f.kind, isAddr) == WantsAddress(f.kind, isAddr);
    TreesAre(p, f.child, WantsAddress(f.kind, isAddr), s);
    ExecJoin(p, Code(a.child), Own(a), s);
    var r := Trees(p, f.child, WantsAddress(f.kind, isAddr), s);
    if r.Some? {
      NodeIs(p, f, isAddr, r.value);
    }
  }

  lemma PopIs(p: Platform, s: State)
    requires InStack(s)
    ensures Exec(p, Ins(OpPop), s) == if s.sp == 0 then None else Some(s.(sp := s.sp - 1))
  {
  }

  /** For every line: its code does what its statements do. */
  lemma {:induction false} StatementsAre(p: Platform, f: Forest, s: State)
    requires InStack(s)
    ensures ExecAll(p, LineCode(Annotate(f, false)), s) == Statements(p, f, s)
  {
    if f.Nil? {
      NoCode(p, s);
    } else {
      hide ExecAll, Exec, Finish, Own, TreeCode;
      var a := Annotate(f, false);
      TreeIs(p, f, false, s);
      var r := Tree(p, f, false, s);
      if f.next.Nil? {
        assert LineCode(a) == TreeCode(a) + [] == TreeCode(a);
      } else {
        ExecJoin(p, TreeCode(a), [Ins(OpPop)] + LineCode(a.next), s);
        if r.Some? {
          ConsIs(p, Ins(OpPop), LineCode(a.next), r.value);
          PopIs(p, r.value);
          if r.value.sp > 0 {
            StatementsAre(p, f.next, r.value.(sp := r.value.sp - 1));
          }
        }
      }
    }
  }

  // ----- which trees are refused -----

  /** A node the compiler does not know, a variable of unknown type, or an assignment at no width. */
  predicate Wrong(f: Forest)
    requires f.Node?
  {
    || f.kind == KUnknown
    || (f.child.Nil? && f.kind == KId && !f.sym.NoSymbol? && !f.sym.SyscallSym? && f.sym.ty == TUnknown)
    || (f.kind == KAssign && f.child.Node? && f.child.kind == KId && Width(f) == None)
    || (f.kind == KAssign && f.child.Node? && f.child.kind == KGetValue && DtWidth(DataType(f) % 0x10) == None)
  }

  predicate Refused(f: Forest) {
    f.Node? && (Wrong(f) || Refused(f.child) || Refused(f.next))
  }

  predicate LeafWrong(f: Forest)
    requires f.Node?
  {
    f.child.Nil? && f.kind == KId && !f.sym.NoSymbol? && !f.sym.SyscallSym? && f.sym.ty == TUnknown
  }

  predicate LeavesWrong(f: Forest) {
    f.Node? && (LeafWrong(f) || LeavesWrong(f.child) || LeavesWrong(f.next))
  }

  lemma {:induction false} CheckedWrong(f: Forest, err: nat)
    ensures CheckError(f, err) == err || CheckError(f, err) == ERROR_UNKNOWN_TYPE
    ensures CheckError(f, err) == ERROR_OK <==> err == ERROR_OK && !LeavesWrong(f)
  {
    if f.Node? {
      CheckedWrong(f.child, err);
      CheckedWrong(f.next, CheckError(f.child, err));
    }
  }

  predicate NodesWrong(f: Forest) {
    f.Node? && ((Wrong(f) && !LeafWrong(f)) || NodesWrong(f.child) || NodesWrong(f.next))
  }

  lemma OwnWrong(f: Forest, isAddr: bool, err: nat)
    requires f.Node?
    ensures var e := OwnError(Annotate(f, isAddr), err);
      && (e == err || e == ERROR_UNKNOWN_TYPE || e == ERROR_UNKNOWN_NODE)
      && (e == ERROR_OK <==> err == ERROR_OK && !(Wrong(f) && !LeafWrong(f)))
  {
    NodeChecked(f, isAddr);
    hide DataType, Annotate;
  }

  lemma {:induction false} CompiledWrong(f: Forest, isAddr: bool, err: nat)
    ensures var e := CompileError(Annotate(f, isAddr), err);
      && (e == err || e == ERROR_UNKNOWN_TYPE || e == ERROR_UNKNOWN_NODE)
      && (e == ERROR_OK <==> err == ERROR_OK && !NodesWrong(f))
  {
    if f.Node? {
      hide OwnError, Wrong, LeafWrong;
      var a := Annotate(f, isAddr);
      var e1 := CompileError(a.child, err);
      CompiledWrong(f.child, ChildIsAddr(f.kind, isAddr), err);
      OwnWrong(f, isAddr, e1);
      CompiledWrong(f.next, false, OwnError(a, e1));
    }
  }

  lemma {:induction false} LineErrorIs(f: Forest, err: nat)
    ensures LineError(f, err) == CompileError(f, err)
  {
    if f.Node? {
      LineErrorIs(f.next, OwnError(f, CompileError(f.child, err)));
    }
  }

  lemma {:induction false} RefusedIs(f: Forest)
    ensures Refused(f) <==> LeavesWrong(f) || NodesWrong(f)
  {
    if f.Node? {
      RefusedIs(f.child);
      RefusedIs(f.next);
    }
  }

  /** The compiler accepts a forest if and only if no node of it is wrong; it knows two errors. */
  lemma AcceptedExactly(f: Forest)
    ensures ErrorOf(f) == ERROR_OK <==> !Refused(f)
    ensures ErrorOf(f) in {ERROR_OK, ERROR_UNKNOWN_TYPE, ERROR_UNKNOWN_NODE}
  {
    hide CheckError, CompileError, LineError, Annotate, Refused, LeavesWrong, NodesWrong;
    CheckedWrong(f, ERROR_OK);
    CompiledWrong(f, false, CheckError(f, ERROR_OK));
    LineErrorIs(Annotate(f, false), CheckError(f, ERROR_OK));
    RefusedIs(f);
  }

  // ----- every line -----

  /** For every line of text that is safe and parsed without an error, whatever it says: if a node of its trees is
      wrong it is rejected, and otherwise the shell ends with the stack and the memory that walking over the
      trees gives. */
  lemma EveryLine(p: Platform, env: Env, vars: seq<Variable>, stack: seq<Word>, mem: Mem, line: string)
    requires Good(line) && |stack| == STACK_MAX && Safe(env, vars, line)
    requires ParsedLine(env, vars, line).1.err == ERROR_OK
    ensures var f, out := ParsedLine(env, vars, line).0, OutcomeOf(p, env, vars, stack, mem, line);
      if Refused(f) then out.Rejected?
      else
        var s := Statements(p, f, State(stack[0 := 0], 0, 0, mem));
        s.Some? && out == Ran(s.value.stack, s.value.mem)
  {
    AcceptedExactly(ParsedLine(env, vars, line).0);
    hide ParsedLine, Safe, ErrorOf, Statements, LineCode, Annotate, ExecAll, Refused;
    if !Refused(ParsedLine(env, vars, line).0) {
      hide OutcomeOf;
      OutcomeIs(p, env, vars, stack, mem, line);
      StatementsAre(p, ParsedLine(env, vars, line).0, Start(stack, mem));
    }
  }
}
