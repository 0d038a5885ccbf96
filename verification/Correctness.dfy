/** Semantic preservation: the code of a well-typed tree computes what the source says. */
module Correctness {
  import opened Machine
  import opened Ast
  import opened Bytecode
  import opened Source
  import opened Codegen

  /** `s1` is `s` with one more slot, holding `v` in its low bytes, and with memory `m`. */
  ghost predicate Pushed(s: State, s1: State, w: Width, v: Word, m: Mem) {
    && s1.sp == s.sp + 1 <= |s1.stack| == |s.stack|
    && s1.stack[..s.sp] == s.stack[..s.sp]
    && Low(s1.stack[s.sp], w) == v
    && s1.mem == m
    && s1.pc == s.pc
  }

  // ----- running the code of a node after that of its children -----

  lemma ExecOne(p: Platform, i: Instr, s: State)
    ensures ExecAll(p, [i], s) == Exec(p, i, s)
  {
  }

  lemma ExecCons(p: Platform, i: Instr, rest: seq<Instr>, s: State, s1: State)
    requires Exec(p, i, s) == Some(s1)
    ensures ExecAll(p, [i] + rest, s) == ExecAll(p, rest, s1)
  {
    assert ([i] + rest)[1..] == rest;
  }

  lemma RunLeaf(p: Platform, a: Forest, s: State)
    requires a.Node? && a.child.Nil?
    ensures ExecAll(p, TreeCode(a), s) == ExecAll(p, Own(a), s)
  {
    assert TreeCode(a) == Own(a);
  }

  lemma RunUnary(p: Platform, a: Forest, s: State, s1: State)
    requires a.Node? && a.child.Node? && a.child.next.Nil?
    requires ExecAll(p, TreeCode(a.child), s) == Some(s1)
    ensures ExecAll(p, TreeCode(a), s) == ExecAll(p, Own(a), s1)
  {
    assert Code(a.child) == TreeCode(a.child);
    ExecAppend(p, Code(a.child), Own(a), s);
  }

  lemma RunBinary(p: Platform, a: Forest, s: State, s1: State, s2: State)
    requires a.Node? && a.child.Node? && a.child.next.Node? && a.child.next.next.Nil?
    requires ExecAll(p, TreeCode(a.child), s) == Some(s1)
    requires ExecAll(p, TreeCode(a.child.next), s1) == Some(s2)
    ensures ExecAll(p, TreeCode(a), s) == ExecAll(p, Own(a), s2)
  {
    var l, r := a.child, a.child.next;
    assert Code(r) == TreeCode(r);
    assert Code(l) == TreeCode(l) + TreeCode(r);
    ExecAppend(p, TreeCode(l), TreeCode(r), s);
    ExecAppend(p, Code(l), Own(a), s);
  }

  // ----- single operations -----

  lemma ExecLd(p: Platform, w: Width, v: Word, s: State)
    requires s.sp < |s.stack|
    ensures Exec(p, Instr(OpLd(w), v), s).Some?
    ensures Pushed(s, Exec(p, Instr(OpLd(w), v), s).value, w, Low(v, w), s.mem)
  {
    LowSetLow(s.stack[s.sp], v, w);
  }

  lemma ExecLdValue(p: Platform, w: Width, a: Word, s: State)
    requires s.sp < |s.stack|
    ensures Exec(p, Instr(OpLdValue(w), a), s).Some?
    ensures Pushed(s, Exec(p, Instr(OpLdValue(w), a), s).value, w, Load(s.mem, a, w), s.mem)
  {
    LowSetLow(s.stack[s.sp], Load(s.mem, a, w), w);
    LoadInRange(s.mem, a, w);
  }

  lemma ExecBin(p: Platform, op: BinOp, w: Width, s: State, s1: State, s2: State, a: Word, b: Word)
    requires s.sp <= |s.stack|
    requires Pushed(s, s1, w, a, s1.mem) && Pushed(s1, s2, w, b, s2.mem)
    ensures Exec(p, Ins(OpBin(op, w)), s2).Some?
    ensures Pushed(s, Exec(p, Ins(OpBin(op, w)), s2).value, w, Low(p.binary(op, w, a, b), w), s2.mem)
  {
    assert s2.stack[s.sp] == s2.stack[..s1.sp][s.sp] == s1.stack[..s1.sp][s.sp];
    LowSetLow(s2.stack[s.sp], p.binary(op, w, a, b), w);
    assert s2.stack[..s.sp] == s2.stack[..s1.sp][..s.sp];
    assert s1.stack[..s.sp] == s1.stack[..s1.sp][..s.sp];
  }

  lemma ExecInvert(p: Platform, w: Width, s: State, s1: State, a: Word)
    requires s.sp <= |s.stack|
    requires Pushed(s, s1, w, a, s1.mem)
    ensures Exec(p, Ins(OpInvert(w)), s1).Some?
    ensures Pushed(s, Exec(p, Ins(OpInvert(w)), s1).value, w, Low(p.invert(w, a), w), s1.mem)
  {
    LowSetLow(s1.stack[s.sp], p.invert(w, a), w);
  }

  /** Reloading through the address on top of the stack; a double word has any narrower value in it. */
  lemma ExecLdStack(p: Platform, w: Width, u: Width, s: State, s1: State, a: Word)
    requires s.sp <= |s.stack|
    requires Pushed(s, s1, W32, a, s1.mem)
    requires u == w || u == W32
    ensures Exec(p, Ins(OpLdStack(u)), s1).Some?
    ensures Pushed(s, Exec(p, Ins(OpLdStack(u)), s1).value, w, Load(s1.mem, a, w), s1.mem)
  {
    var v := Load(s1.mem, a, u);
    LowSetLow(a, v, u);
    LoadInRange(s1.mem, a, w);
    LowOfLoad(s1.mem, a, w);
  }

  lemma ExecSt(p: Platform, w: Width, s: State, s1: State, s2: State, a: Word, v: Word)
    requires s.sp <= |s.stack|
    requires Pushed(s, s1, W32, a, s1.mem) && Pushed(s1, s2, w, v, s2.mem)
    ensures Exec(p, Ins(OpSt(w)), s2).Some?
    ensures Pushed(s, Exec(p, Ins(OpSt(w)), s2).value, W32, a, Store(s2.mem, a, v, w))
  {
    assert s2.stack[s.sp] == s2.stack[..s1.sp][s.sp] == s1.stack[..s1.sp][s.sp];
    assert s2.stack[..s.sp] == s2.stack[..s1.sp][..s.sp];
    assert s1.stack[..s.sp] == s1.stack[..s1.sp][..s.sp];
  }

  /** Store and load back: what an assignment leaves on the stack. */
  lemma StoreAndReload(p: Platform, w: Width, s: State, s1: State, s2: State, a: Word, v: Word)
    requires s.sp <= |s.stack|
    requires Pushed(s, s1, W32, a, s1.mem) && Pushed(s1, s2, w, v, s2.mem)
    ensures var r := ExecAll(p, [Ins(OpSt(w)), Ins(OpLdStack(w))], s2);
      r.Some? && Pushed(s, r.value, w, v, Store(s2.mem, a, v, w))
  {
    ExecSt(p, w, s, s1, s2, a, v);
    var s3 := Exec(p, Ins(OpSt(w)), s2).value;
    ExecLdStack(p, w, w, s, s3, a);
    LoadStore(s2.mem, a, v, w);
    ExecCons(p, Ins(OpSt(w)), [Ins(OpLdStack(w))], s2, s3);
    assert [Ins(OpSt(w))] + [Ins(OpLdStack(w))] == [Ins(OpSt(w)), Ins(OpLdStack(w))];
    ExecOne(p, Ins(OpLdStack(w)), s3);
    assert Low(v, w) == v by { LowIdempotent(s2.stack[s1.sp], w); }
  }

  lemma LowIdempotent(x: Word, w: Width)
    ensures Low(Low(x, w), w) == Low(x, w)
  {
  }

  /** `ld_value; ld 1; add/sub; st` with the address on top: the variable is stepped. */
  lemma StepVariable(p: Platform, down: bool, w: Width, s: State, s1: State, a: Word, rest: seq<Instr>)
    returns (s5: State)
    requires Pushed(s, s1, W32, a, s1.mem)
    requires s.sp + 3 <= |s.stack|
    ensures var v := Stepped(p, down, w, Load(s1.mem, a, w));
      Pushed(s, s5, W32, a, Store(s1.mem, a, v, w))
    ensures ExecAll(p, [Instr(OpLdValue(w), a), Instr(OpLd(w), 1), StepOp(down, w), Ins(OpSt(w))] + rest, s1)
         == ExecAll(p, rest, s5)
  {
    hide Exec, ExecAll, Load, Store, SetLow;
    ExecLdValue(p, w, a, s1);
    var s2 := Exec(p, Instr(OpLdValue(w), a), s1).value;
    ExecLd(p, w, 1, s2);
    var s3 := Exec(p, Instr(OpLd(w), 1), s2).value;
    var op := if down then Sub else Add;
    ExecBin(p, op, w, s1, s2, s3, Load(s1.mem, a, w), 1);
    var s4 := Exec(p, StepOp(down, w), s3).value;
    ExecSt(p, w, s, s1, s4, a, Stepped(p, down, w, Load(s1.mem, a, w)));
    s5 := Exec(p, Ins(OpSt(w)), s4).value;
    var c3 := [Ins(OpSt(w))] + rest;
    var c2 := [StepOp(down, w)] + c3;
    var c1 := [Instr(OpLd(w), 1)] + c2;
    ExecCons(p, Instr(OpLdValue(w), a), c1, s1, s2);
    ExecCons(p, Instr(OpLd(w), 1), c2, s2, s3);
    ExecCons(p, StepOp(down, w), c3, s3, s4);
    ExecCons(p, Ins(OpSt(w)), rest, s4, s5);
    assert [Instr(OpLdValue(w), a), Instr(OpLd(w), 1), StepOp(down, w), Ins(OpSt(w))] + rest
        == [Instr(OpLdValue(w), a)] + c1;
  }

  lemma PreStep(p: Platform, down: bool, w: Width, s: State, s1: State, a: Word)
    requires Pushed(s, s1, W32, a, s1.mem)
    requires s.sp + 3 <= |s.stack|
    ensures var r := ExecAll(p, PreCode(down, a, w), s1);
      var v := Stepped(p, down, w, Load(s1.mem, a, w));
      r.Some? && Pushed(s, r.value, w, v, Store(s1.mem, a, v, w))
  {
    var s5 := StepVariable(p, down, w, s, s1, a, [Ins(OpLdStack(W32))]);
    var v := Stepped(p, down, w, Load(s1.mem, a, w));
    ExecLdStack(p, w, W32, s, s5, a);
    ExecOne(p, Ins(OpLdStack(W32)), s5);
    LoadStore(s1.mem, a, v, w);
    LowIdempotent(p.binary(if down then Sub else Add, w, Load(s1.mem, a, w), 1), w);
    assert PreCode(down, a, w)
        == [Instr(OpLdValue(w), a), Instr(OpLd(w), 1), StepOp(down, w), Ins(OpSt(w))] + [Ins(OpLdStack(W32))];
  }

  lemma PostStep(p: Platform, down: bool, w: Width, s: State, s1: State, a: Word, v: Word)
    requires Pushed(s, s1, w, v, s1.mem) && v == Load(s1.mem, a, w)
    requires s.sp + 4 <= |s.stack|
    ensures var r := ExecAll(p, PostCode(down, a, w), s1);
      r.Some? && Pushed(s, r.value, w, v, Store(s1.mem, a, Stepped(p, down, w, v), w))
  {
    ExecLd(p, W32, a, s1);
    var s2 := Exec(p, Instr(OpLd(W32), a), s1).value;
    var s6 := StepVariable(p, down, w, s1, s2, a, [Ins(OpPop)]);
    ExecOne(p, Ins(OpPop), s6);
    var rest := [Instr(OpLdValue(w), a), Instr(OpLd(w), 1), StepOp(down, w), Ins(OpSt(w))] + [Ins(OpPop)];
    ExecCons(p, Instr(OpLd(W32), a), rest, s1, s2);
    assert PostCode(down, a, w) == [Instr(OpLd(W32), a)] + rest;
    assert s6.stack[s.sp] == s6.stack[..s1.sp][s.sp] == s1.stack[..s1.sp][s.sp];
    assert s6.stack[..s.sp] == s6.stack[..s1.sp][..s.sp];
    assert s1.stack[..s.sp] == s1.stack[..s1.sp][..s.sp];
  }

  // ----- type checking -----

  /** Type checking gives a well-typed tree the data type of its width, in either position. */
  lemma {:induction false} CheckedType(f: Forest, e: Expr, w: Width, isAddr: bool)
    requires IsTree(f, e) && WellTyped(e, w) && !IsCall(e)
    ensures Annotate(f, isAddr).dt == Dt(w)
    decreases e
  {
    var c := ChildIsAddr(f.kind, isAddr);
    match e
    case Bin(_, l, _) => CheckedType(f.child, l, w, c);
    case Invert(e) => CheckedType(f.child, e, w, c);
    case Cast(_, e) => CheckedType(f, e, w, isAddr);
    case Deref(e) => CheckedType(f.child, e, w, c);
    case AddrOf(e) => CheckedLvalue(f.child, e, w, c);
    case Assign(lv, _) => CheckedLvalue(f.child, lv, w, c);
    case _ =>
  }

  lemma {:induction false} CheckedLvalue(f: Forest, e: Expr, w: Width, isAddr: bool)
    requires IsTree(f, e) && IsLvalue(e, w)
    ensures Annotate(f, isAddr).dt == Dt(w)
    decreases e
  {
    if e.Deref? {
      CheckedType(f.child, e.e, w, ChildIsAddr(f.kind, isAddr));
    }
  }

  // ----- the theorem -----

  ghost predicate Runs(p: Platform, f: Forest, isAddr: bool, s: State) {
    f.Node? && ExecAll(p, TreeCode(Annotate(f, isAddr)), s).Some?
  }

  /** The state after the code of the checked tree. */
  function After(p: Platform, f: Forest, isAddr: bool, s: State): State
    requires Runs(p, f, isAddr, s)
  {
    ExecAll(p, TreeCode(Annotate(f, isAddr)), s).value
  }

  ghost predicate Computes(p: Platform, f: Forest, isAddr: bool, s: State, w: Width, r: (Word, Mem)) {
    Runs(p, f, isAddr, s) && Pushed(s, After(p, f, isAddr, s), w, r.0, r.1)
  }

  // One lemma for each way of building an expression, given that its operands compute.

  lemma LiteralCorrect(p: Platform, f: Forest, e: Expr, w: Width, s: State)
    requires IsTree(f, e) && WellTyped(e, w) && s.sp < |s.stack|
    requires e.CharLit? || e.IntLit? || e.LongLit? || e.StrLit? || e.NullLit?
    ensures Computes(p, f, false, s, w, Eval(p, e, w, s.mem))
  {
    hide Exec, ExecAll, Code, TreeCode, Load, Store, SetLow;
    var a := Annotate(f, false);
    RunLeaf(p, a, s);
    ExecOne(p, Own(a)[0], s);
    ExecLd(p, w, Eval(p, e, w, s.mem).0, s);
  }

  lemma BinCorrect(p: Platform, f: Forest, op: BinOp, l: Expr, r: Expr, w: Width, s: State, a: Word, b: (Word, Mem))
    requires IsTree(f, Bin(op, l, r)) && WellTyped(Bin(op, l, r), w) && s.sp <= |s.stack|
    requires Runs(p, f.child, false, s)
    requires var s1 := After(p, f.child, false, s);
      Computes(p, f.child, false, s, w, (a, s1.mem)) && Computes(p, f.child.next, false, s1, w, b)
    ensures Computes(p, f, false, s, w, (Low(p.binary(op, w, a, b.0), w), b.1))
  {
    hide Exec, ExecAll, Code, TreeCode, Load, Store, SetLow;
    var s1 := After(p, f.child, false, s);
    var s2 := After(p, f.child.next, false, s1);
    CheckedType(f.child, l, w, false);
    RunBinary(p, Annotate(f, false), s, s1, s2);
    ExecOne(p, Ins(OpBin(op, w)), s2);
    ExecBin(p, op, w, s, s1, s2, a, b.0);
  }

  lemma InvertCorrect(p: Platform, f: Forest, e: Expr, w: Width, s: State, a: (Word, Mem))
    requires IsTree(f, Invert(e)) && WellTyped(Invert(e), w) && s.sp <= |s.stack|
    requires Computes(p, f.child, false, s, w, a)
    ensures Computes(p, f, false, s, w, (Low(p.invert(w, a.0), w), a.1))
  {
    hide Exec, ExecAll, Code, TreeCode, Load, Store, SetLow;
    var s1 := After(p, f.child, false, s);
    CheckedType(f.child, e, w, false);
    RunUnary(p, Annotate(f, false), s, s1);
    ExecOne(p, Ins(OpInvert(w)), s1);
    ExecInvert(p, w, s, s1, a.0);
  }

  /** `-e` is compiled as `0 - e`. */
  lemma ZeroPushed(p: Platform, f: Forest, s: State)
    requires f.Node? && f.kind == KLong && f.value == 0 && f.child.Nil? && s.sp < |s.stack|
    ensures Computes(p, f, false, s, W32, (0, s.mem))
  {
    hide Exec, ExecAll, Code, TreeCode, Load, Store, SetLow;
    var a := Annotate(f, false);
    RunLeaf(p, a, s);
    ExecOne(p, Own(a)[0], s);
    ExecLd(p, W32, 0, s);
  }

  lemma NegCorrect(p: Platform, f: Forest, e: Expr, s: State, b: (Word, Mem))
    requires IsTree(f, Neg(e)) && s.sp < |s.stack|
    requires Runs(p, f.child, false, s)
    requires var s1 := After(p, f.child, false, s);
      Computes(p, f.child, false, s, W32, (0, s.mem)) && Computes(p, f.child.next, false, s1, W32, b)
    ensures Computes(p, f, false, s, W32, (p.binary(Sub, W32, 0, b.0), b.1))
  {
    hide Exec, ExecAll, Code, TreeCode, Load, Store, SetLow;
    var s1 := After(p, f.child, false, s);
    var s2 := After(p, f.child.next, false, s1);
    RunBinary(p, Annotate(f, false), s, s1, s2);
    ExecOne(p, Ins(OpBin(Sub, W32)), s2);
    ExecBin(p, Sub, W32, s, s1, s2, 0, b.0);
  }

  lemma DerefCorrect(p: Platform, f: Forest, e: Expr, s: State, a: (Word, Mem))
    requires IsTree(f, Deref(e)) && WellTyped(Deref(e), W32) && s.sp <= |s.stack|
    requires Computes(p, f.child, false, s, W32, a)
    ensures Computes(p, f, false, s, W32, (Load(a.1, a.0, W32), a.1))
  {
    hide Exec, ExecAll, Code, TreeCode, Load, Store, SetLow;
    var s1 := After(p, f.child, false, s);
    CheckedType(f.child, e, W32, false);
    RunUnary(p, Annotate(f, false), s, s1);
    ExecOne(p, Ins(OpLdStack(W32)), s1);
    ExecLdStack(p, W32, W32, s, s1, a.0);
  }

  lemma AddrOfCorrect(p: Platform, f: Forest, e: Expr, s: State, a: (Word, Mem))
    requires IsTree(f, AddrOf(e))
    requires Computes(p, f.child, true, s, W32, a)
    ensures Computes(p, f, false, s, W32, a)
  {
    hide Exec, Code, TreeCode, Load, Store, SetLow;
    var s1 := After(p, f.child, true, s);
    RunUnary(p, Annotate(f, false), s, s1);
  }

  lemma AssignCorrect(p: Platform, f: Forest, lv: Expr, e: Expr, w: Width, s: State, a: Word, b: (Word, Mem))
    requires IsTree(f, Assign(lv, e)) && IsLvalue(lv, w) && s.sp <= |s.stack|
    requires Runs(p, f.child, true, s)
    requires var s1 := After(p, f.child, true, s);
      Computes(p, f.child, true, s, W32, (a, s1.mem)) && Computes(p, f.child.next, false, s1, w, b)
    ensures Computes(p, f, false, s, w, (b.0, Store(b.1, a, b.0, w)))
  {
    hide Exec, ExecAll, Code, TreeCode, Load, Store, SetLow;
    var s1 := After(p, f.child, true, s);
    var s2 := After(p, f.child.next, false, s1);
    CheckedLvalue(f.child, lv, w, true);
    RunBinary(p, Annotate(f, false), s, s1, s2);
    StoreAndReload(p, w, s, s1, s2, a, b.0);
  }

  lemma PreIncCorrect(p: Platform, f: Forest, id: Symbol, down: bool, w: Width, s: State)
    requires IsTree(f, PreInc(id, down)) && WellTyped(PreInc(id, down), w) && s.sp + 3 <= |s.stack|
    ensures Computes(p, f, false, s, w, Eval(p, PreInc(id, down), w, s.mem))
  {
    hide Exec, ExecAll, Code, TreeCode, Load, Store, SetLow;
    var a := Annotate(f, false);
    CheckedType(f.child, Var(id), w, true);
    assert Own(a) == PreCode(down, id.addr, w);
    AddressOfVariable(p, f.child, id, w, s);
    var s1 := After(p, f.child, true, s);
    RunUnary(p, a, s, s1);
    PreStep(p, down, w, s, s1, id.addr);
  }

  lemma PostIncCorrect(p: Platform, f: Forest, id: Symbol, down: bool, w: Width, s: State)
    requires IsTree(f, PostInc(id, down)) && WellTyped(PostInc(id, down), w) && s.sp + 4 <= |s.stack|
    ensures Computes(p, f, false, s, w, Eval(p, PostInc(id, down), w, s.mem))
  {
    hide Exec, ExecAll, Code, TreeCode, Load, Store, SetLow;
    var a := Annotate(f, false);
    CheckedType(f.child, Var(id), w, false);
    assert Own(a) == PostCode(down, id.addr, w);
    VariableCorrect(p, f.child, id, w, s);
    var s1 := After(p, f.child, false, s);
    RunUnary(p, a, s, s1);
    PostStep(p, down, w, s, s1, id.addr, Load(s.mem, id.addr, w));
  }

  lemma LowTwice(x: Word, u: Width, w: Width)
    requires w.Size() <= u.Size()
    ensures Low(Low(x, u), w) == Low(x, w)
  {
    match u
    case W16 => if w == W8 { assert x % 0x1_0000 % 0x100 == x % 0x100; }
    case _ =>
  }

  /** What a narrower operator sees of an operand that computes at its own width. */
  lemma LowOf(p: Platform, f: Forest, e: Expr, w: Width, s: State) returns (b: (Word, Mem))
    requires IsWide(e, w) && Computes(p, f, false, s, WidthOf(e), Eval(p, e, WidthOf(e), s.mem))
    ensures var (v, m) := Eval(p, e, WidthOf(e), s.mem);
      b == (Low(v, w), m) && Computes(p, f, false, s, w, b)
  {
    hide Annotate, TreeCode, ExecAll, Low;
    var (v, m) := Eval(p, e, WidthOf(e), s.mem);
    b := (Low(v, w), m);
    LowTwice(After(p, f, false, s).stack[s.sp], WidthOf(e), w);
  }

  /** For every well-typed expression, platform, stack with room, and memory: the emitted code
      pushes exactly the expression's value, leaves the lower slots alone and has its effect on memory. */
  lemma {:induction false} TreeCorrect(p: Platform, f: Forest, e: Expr, w: Width, s: State)
    requires IsTree(f, e) && WellTyped(e, w)
    requires s.sp + Need(e) <= |s.stack| && FewArgs(e, ARG_MAX)
    ensures Computes(p, f, false, s, w, Eval(p, e, w, s.mem))
    decreases e, 1
  {
    hide Exec, ExecAll, Annotate, Code, TreeCode, Own, Load, Store, SetLow;
    match e
    case CharLit(_) => LiteralCorrect(p, f, e, w, s);
    case IntLit(_) => LiteralCorrect(p, f, e, w, s);
    case LongLit(_) => LiteralCorrect(p, f, e, w, s);
    case StrLit(_) => LiteralCorrect(p, f, e, w, s);
    case NullLit => LiteralCorrect(p, f, e, w, s);
    case Var(id) => VariableCorrect(p, f, id, w, s);
    case Bin(op, l, r) =>
      TreeCorrect(p, f.child, l, w, s);
      var s1 := After(p, f.child, false, s);
      TreeCorrect(p, f.child.next, r, WidthOf(r), s1);
      var b := LowOf(p, f.child.next, r, w, s1);
      BinCorrect(p, f, op, l, r, w, s, Eval(p, l, w, s.mem).0, b);
    case Invert(e) =>
      TreeCorrect(p, f.child, e, w, s);
      InvertCorrect(p, f, e, w, s, Eval(p, e, w, s.mem));
    case Neg(e) =>
      ZeroPushed(p, f.child, s);
      var s1 := After(p, f.child, false, s);
      TreeCorrect(p, f.child.next, e, w, s1);
      NegCorrect(p, f, e, s, Eval(p, e, w, s1.mem));
    case Cast(ty, e) =>
      TreeCorrect(p, f, e, w, s);
      CastCorrect(p, f, ty, e, w, s);
    case Deref(e) =>
      TreeCorrect(p, f.child, e, w, s);
      DerefCorrect(p, f, e, s, Eval(p, e, w, s.mem));
    case AddrOf(e) =>
      AddressCorrect(p, f.child, e, w, s);
      AddrOfCorrect(p, f, e, s, Address(p, e, w, s.mem));
    case Assign(lv, e) =>
      AddressCorrect(p, f.child, lv, w, s);
      var s1 := After(p, f.child, true, s);
      TreeCorrect(p, f.child.next, e, WidthOf(e), s1);
      var b := LowOf(p, f.child.next, e, w, s1);
      AssignCorrect(p, f, lv, e, w, s, Address(p, lv, w, s.mem).0, b);
    case PreInc(id, down) => PreIncCorrect(p, f, id, down, w, s);
    case PostInc(id, down) => PostIncCorrect(p, f, id, down, w, s);
    case Call(id, args) =>
      FunctionPushed(p, f.child, id, s);
      var s1 := After(p, f.child, false, s);
      ArgsCorrect(p, f.child.next, args, s1);
      CallCorrect(p, f, id, args, w, s, EvalArgs(p, args, s1.mem));
  }

  /** A cast that keeps the width keeps the value, and no code is needed for it. */
  lemma CastCorrect(p: Platform, f: Forest, ty: FinshType, e: Expr, w: Width, s: State)
    requires WellTyped(Cast(ty, e), w) && Computes(p, f, false, s, w, Eval(p, e, w, s.mem))
    ensures Computes(p, f, false, s, w, Eval(p, Cast(ty, e), w, s.mem))
  {
    hide Annotate, TreeCode, ExecAll;
    LowIdempotent(After(p, f, false, s).stack[s.sp], w);
  }

  lemma VariableCorrect(p: Platform, f: Forest, id: Symbol, w: Width, s: State)
    requires IsIdTree(f, id) && IsVariable(id, w) && s.sp < |s.stack|
    ensures Computes(p, f, false, s, w, (Load(s.mem, id.addr, w), s.mem))
  {
    RunLeaf(p, Annotate(f, false), s);
    ExecOne(p, Instr(OpLdValue(w), id.addr), s);
    ExecLdValue(p, w, id.addr, s);
  }

  lemma AddressOfVariable(p: Platform, f: Forest, id: Symbol, w: Width, s: State)
    requires IsIdTree(f, id) && IsVariable(id, w) && s.sp < |s.stack|
    ensures Computes(p, f, true, s, W32, (id.addr, s.mem))
  {
    RunLeaf(p, Annotate(f, true), s);
    ExecOne(p, Instr(OpLd(W32), id.addr), s);
    ExecLd(p, W32, id.addr, s);
  }

  lemma FunctionPushed(p: Platform, f: Forest, id: Symbol, s: State)
    requires IsIdTree(f, id) && id.SyscallSym? && s.sp < |s.stack|
    ensures Computes(p, f, false, s, W32, (id.func, s.mem))
  {
    RunLeaf(p, Annotate(f, false), s);
    ExecOne(p, Instr(OpLd(W32), id.func), s);
    ExecLd(p, W32, id.func, s);
  }

  lemma PlaceholderCorrect(p: Platform, f: Forest, e: Expr, s: State, a: (Word, Mem))
    requires IsTree(f, Deref(e))
    requires Computes(p, f.child, false, s, W32, a)
    ensures Computes(p, f, true, s, W32, a)
  {
    hide Exec, Code, TreeCode, Load, Store, SetLow;
    RunUnary(p, Annotate(f, true), s, After(p, f.child, false, s));
  }

  lemma {:induction false} AddressCorrect(p: Platform, f: Forest, e: Expr, w: Width, s: State)
    requires IsTree(f, e) && IsLvalue(e, w)
    requires s.sp + Need(e) <= |s.stack| && FewArgs(e, ARG_MAX)
    ensures Computes(p, f, true, s, W32, Address(p, e, w, s.mem))
    decreases e, 0
  {
    if e.Var? {
      AddressOfVariable(p, f, e.s, w, s);
    } else {
      TreeCorrect(p, f.child, e.e, w, s);
      PlaceholderCorrect(p, f, e.e, s, Eval(p, e.e, w, s.mem));
    }
  }

  /** `s2` is `s` with the values `vs` pushed. */
  ghost predicate PushedAll(s: State, s2: State, vs: seq<Word>, m: Mem) {
    && s2.sp == s.sp + |vs| <= |s2.stack| == |s.stack|
    && s2.stack[..s.sp] == s.stack[..s.sp]
    && s2.stack[s.sp..s2.sp] == vs
    && s2.mem == m
    && s2.pc == s.pc
  }

  ghost predicate ComputesAll(p: Platform, f: Forest, s: State, r: (seq<Word>, Mem)) {
    var out := ExecAll(p, Code(Annotate(f, false)), s);
    out.Some? && PushedAll(s, out.value, r.0, r.1)
  }

  lemma PushedThen(s: State, s1: State, s2: State, v: Word, m1: Mem, vs: seq<Word>, m: Mem)
    requires s.sp <= |s.stack|
    requires Pushed(s, s1, W32, v, m1) && PushedAll(s1, s2, vs, m)
    ensures PushedAll(s, s2, [v] + vs, m)
  {
    assert s2.stack[s.sp] == s2.stack[..s1.sp][s.sp] == s1.stack[..s1.sp][s.sp];
    assert s2.stack[..s.sp] == s2.stack[..s1.sp][..s.sp];
    assert s1.stack[..s.sp] == s1.stack[..s1.sp][..s.sp];
    assert s2.stack[s.sp..s2.sp] == [s2.stack[s.sp]] + s2.stack[s1.sp..s2.sp];
  }

  lemma ExecCall(p: Platform, s: State, s2: State, func: Word, vs: seq<Word>, w: Width)
    requires s.sp <= |s.stack| && |vs| <= ARG_MAX
    requires PushedAll(s, s2, [func] + vs, s2.mem)
    ensures var out := Exec(p, Instr(OpCall, |vs|), s2);
      var (r, m) := p.call(func, if vs == [] then [0] else vs, s2.mem);
      out.Some? && Pushed(s, out.value, w, Low(r, w), m)
  {
    assert s2.stack[s.sp] == s2.stack[s.sp..s2.sp][0];
    assert s2.stack[s.sp + 1..s2.sp] == s2.stack[s.sp..s2.sp][1..] == vs;
  }

  lemma RunCall(p: Platform, a: Forest, s: State, s1: State, s2: State)
    requires a.Node? && a.child.Node?
    requires ExecAll(p, TreeCode(a.child), s) == Some(s1)
    requires ExecAll(p, Code(a.child.next), s1) == Some(s2)
    ensures ExecAll(p, TreeCode(a), s) == ExecAll(p, Own(a), s2)
  {
    ExecAppend(p, TreeCode(a.child), Code(a.child.next), s);
    ExecAppend(p, Code(a.child), Own(a), s);
  }

  lemma CallEffect(p: Platform, a: Forest, func: Word, n: nat, w: Width, s: State, s1: State, s2: State, vs: seq<Word>)
    requires a.Node? && a.child.Node? && s.sp <= |s.stack|
    requires |vs| == n <= ARG_MAX && Own(a) == [Instr(OpCall, n)]
    requires ExecAll(p, TreeCode(a.child), s) == Some(s1) && Pushed(s, s1, W32, func, s.mem)
    requires ExecAll(p, Code(a.child.next), s1) == Some(s2) && PushedAll(s1, s2, vs, s2.mem)
    ensures var out := ExecAll(p, TreeCode(a), s);
      var (r, m) := p.call(func, if vs == [] then [0] else vs, s2.mem);
      out.Some? && Pushed(s, out.value, w, Low(r, w), m)
  {
    RunCall(p, a, s, s1, s2);
    PushedThen(s, s1, s2, func, s.mem, vs, s2.mem);
    ExecOne(p, Instr(OpCall, n), s2);
    ExecCall(p, s, s2, func, vs, w);
  }

  lemma CallCorrect(p: Platform, f: Forest, id: Symbol, args: Args, w: Width, s: State, r: (seq<Word>, Mem))
    requires IsTree(f, Call(id, args)) && id.SyscallSym? && s.sp < |s.stack|
    requires |r.0| == ArgCount(args) <= ARG_MAX
    requires Computes(p, f.child, false, s, W32, (id.func, s.mem))
    requires ComputesAll(p, f.child.next, After(p, f.child, false, s), r)
    ensures var (v, m) := p.call(id.func, if r.0 == [] then [0] else r.0, r.1);
      Computes(p, f, false, s, w, (Low(v, w), m))
  {
    hide Exec, ExecAll, Code, TreeCode, Load, Store, SetLow;
    var a := Annotate(f, false);
    ArgChain(f.child.next, args);
    assert a.child == Annotate(f.child, false) && a.child.next == Annotate(f.child.next, false);
    var s1 := After(p, f.child, false, s);
    var s2 := ExecAll(p, Code(a.child.next), s1).value;
    CallEffect(p, a, id.func, |r.0|, w, s, s1, s2, r.0);
  }

  lemma {:induction false} ArgChain(f: Forest, args: Args)
    requires IsArgs(f, args)
    ensures Length(Annotate(f, false)) == ArgCount(args)
    decreases args
  {
    if args.Arg? {
      ArgChain(f.next, args.rest);
    }
  }

  lemma ArgsCons(p: Platform, f: Forest, s: State, v: (Word, Mem), r: (seq<Word>, Mem))
    requires f.Node? && s.sp <= |s.stack|
    requires Computes(p, f, false, s, W32, v)
    requires ComputesAll(p, f.next, After(p, f, false, s), r)
    ensures ComputesAll(p, f, s, ([v.0] + r.0, r.1))
  {
    var a := Annotate(f, false);
    var s1 := After(p, f, false, s);
    ExecAppend(p, TreeCode(a), Code(a.next), s);
    PushedThen(s, s1, ExecAll(p, Code(a.next), s1).value, v.0, v.1, r.0, r.1);
  }

  /** Arguments are pushed left to right. */
  lemma {:induction false} ArgsCorrect(p: Platform, f: Forest, args: Args, s: State)
    requires IsArgs(f, args) && WellTypedArgs(args)
    requires s.sp <= |s.stack| && s.sp + ArgNeed(args) <= |s.stack| && AllFewArgs(args, ARG_MAX)
    ensures ComputesAll(p, f, s, EvalArgs(p, args, s.mem))
    decreases args, 0
  {
    if args.Arg? {
      TreeCorrect(p, f, args.e, W32, s);
      var s1 := After(p, f, false, s);
      ArgsCorrect(p, f.next, args.rest, s1);
      ArgsCons(p, f, s, Eval(p, args.e, W32, s.mem), EvalArgs(p, args.rest, s1.mem));
    }
  }

  // ----- statement sequences -----

  lemma PopAfter(p: Platform, w: Width, v: Word, m: Mem, s: State, s1: State)
    requires s.sp <= |s.stack| && Pushed(s, s1, w, v, m)
    ensures Exec(p, Ins(OpPop), s1) == Some(s1.(sp := s.sp))
  {
  }

  /** A line of well-typed statements evaluates them in order, drops every value but the last
      and leaves that one in the first free slot. */
  lemma {:induction false} LineCorrect(p: Platform, f: Forest, es: seq<Expr>, s: State)
    requires es != [] && IsLine(f, es) && WellTypedLine(es)
    requires forall e :: e in es ==> s.sp + Need(e) <= |s.stack| && FewArgs(e, ARG_MAX)
    ensures var out := ExecAll(p, LineCode(Annotate(f, false)), s);
      var (v, m) := EvalLine(p, es, s.mem);
      out.Some? && Pushed(s, out.value, WidthOf(es[|es| - 1]), v, m)
    decreases |es|
  {
    hide Exec, ExecAll, TreeCode, Code, WellTyped, Eval, WidthOf;
    var a := Annotate(f, false);
    var w := WidthOf(es[0]);
    TreeCorrect(p, f, es[0], w, s);
    var s1 := After(p, f, false, s);
    if |es| == 1 {
      assert TreeCode(a) == LineCode(a);
    } else {
      var rest := LineCode(a.next);
      ExecAppend(p, TreeCode(a), [Ins(OpPop)] + rest, s);
      PopAfter(p, w, Eval(p, es[0], w, s.mem).0, s1.mem, s, s1);
      var s2 := s1.(sp := s.sp);
      ExecCons(p, Ins(OpPop), rest, s1, s2);
      LineCorrect(p, f.next, es[1..], s2);
      assert es[1..][|es| - 2] == es[|es| - 1];
    }
  }

  // ----- the whole run -----

  /** `finsh_vm_run` on the text compiled from a well-typed line: the run stays inside the text
      and the stack, halts at the end of the text segment, has the statements' effect on memory
      and leaves the last value in stack slot 0. */
  lemma VmRunCorrect(p: Platform, f: Forest, es: seq<Expr>, text: seq<Byte>, stack: seq<Word>, m: Mem)
    requires es != [] && IsLine(f, es) && WellTypedLine(es)
    requires forall e :: e in es ==> Need(e) <= |stack| && FewArgs(e, ARG_MAX)
    requires IsText(text, LineCode(Annotate(f, false)))
    ensures var out := RunTo(p, text, State(stack, 0, 0, m), |text|);
      var (v, m1) := EvalLine(p, es, m);
      && out.Some?
      && out.value.pc == |text|
      && out.value.sp == 1 <= |out.value.stack|
      && out.value.mem == m1
      && Low(out.value.stack[0], WidthOf(es[|es| - 1])) == v
  {
    hide Exec, ExecAll, WellTyped, Eval, IsTree, WidthOf, Annotate, LineCode, EncodeAll, EvalLine;
    var code := LineCode(Annotate(f, false));
    var s := State(stack, 0, 0, m);
    var n := |EncodeAll(code)|;
    LineCorrect(p, f, es, s);
    LineIsEncodable(Annotate(f, false));
    RunEncoded(p, code, text, s);
    ExecAllIgnoresPc(p, code, s, n);
    RunSplit(p, text, s, n, |text|);
    RunZeros(p, text, RunTo(p, text, s, n).value);
  }
}
