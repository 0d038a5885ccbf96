/** The whole stack slot an expression leaves. Operators of a narrow width write the low bytes of a slot only,
    so what a wider operator or the shell's answer reads in it depends on the bytes that were there before. */
module Slots {
  import opened Machine
  import opened Ast
  import opened Bytecode
  import opened Source
  import opened Codegen
  import opened Correctness

  /** The word whose bytes above the width of `e` show in its slot, which holds `x` before: for a load it is
      `x`, for an operator what its left operand leaves, for an assignment the address assigned to, for a
      step in front what stands in memory behind the variable, for a call the whole result. */
  function Under(p: Platform, e: Expr, w: Width, m: Mem, x: Word): Word
    requires WellTyped(e, w)
  {
    match e
    case Bin(_, l, _) => Under(p, l, w, m, x)
    case Invert(e) => Under(p, e, w, m, x)
    case Cast(_, e) => Under(p, e, w, m, x)
    case Assign(lv, _) => Address(p, lv, w, m).0
    case PreInc(s, _) => Load(Eval(p, e, w, m).1, s.addr, W32)
    case Call(s, args) =>
      var (vs, m1) := EvalArgs(p, args, m);
      p.call(s.func, if vs == [] then [0] else vs, m1).0
    case _ => x
  }

  /** The slot afterwards. */
  function Slot(p: Platform, e: Expr, w: Width, m: Mem, x: Word): Word
    requires WellTyped(e, w)
  {
    SetLow(Under(p, e, w, m, x), Eval(p, e, w, m).0, w)
  }

  lemma SetLowTwice(x: Word, a: Word, b: Word, w: Width)
    ensures SetLow(SetLow(x, a, w), b, w) == SetLow(x, b, w)
    ensures SetLow(x, Low(b, w), w) == SetLow(x, b, w)
  {
    LowSetLow(x, a, w);
    LowIdempotent(b, w);
    hide SetLow;
    assert SetLow(x, a, w) - Low(SetLow(x, a, w), w) == x - Low(x, w) by {
      SetLowIs(x, a, w);
    }
    SetLowIs(SetLow(x, a, w), b, w);
    SetLowIs(x, b, w);
    SetLowIs(x, Low(b, w), w);
  }

  lemma SetLowIs(x: Word, a: Word, w: Width)
    ensures SetLow(x, a, w) == x - Low(x, w) + Low(a, w)
  {
  }

  lemma SetLowSame(x: Word, w: Width)
    ensures SetLow(x, Low(x, w), w) == x
  {
    LowIdempotent(x, w);
  }

  // ----- the slot for each way of building an expression -----

  lemma LeafSlot(p: Platform, f: Forest, e: Expr, w: Width, s: State)
    requires IsTree(f, e) && WellTyped(e, w) && s.sp < |s.stack|
    requires e.CharLit? || e.IntLit? || e.LongLit? || e.StrLit? || e.NullLit? || e.Var?
    ensures Runs(p, f, false, s) && s.sp < |After(p, f, false, s).stack|
    ensures After(p, f, false, s).stack[s.sp] == SetLow(s.stack[s.sp], Eval(p, e, w, s.mem).0, w)
  {
    hide Exec, ExecAll, Code, TreeCode, Load, Store;
    var a := Annotate(f, false);
    RunLeaf(p, a, s);
    ExecOne(p, Own(a)[0], s);
    LoadSlot(p, Own(a)[0], w, s);
  }

  lemma LoadSlot(p: Platform, i: Instr, w: Width, s: State)
    requires s.sp < |s.stack| && (i.op == OpLd(w) || i.op == OpLdValue(w))
    ensures Exec(p, i, s).Some? && s.sp < |Exec(p, i, s).value.stack|
    ensures Exec(p, i, s).value.stack[s.sp]
         == SetLow(s.stack[s.sp], if i.op == OpLd(w) then i.arg else Load(s.mem, i.arg, w), w)
  {
  }

  lemma BinSlot(p: Platform, f: Forest, op: BinOp, l: Expr, r: Expr, w: Width, s: State, a: Word, b: (Word, Mem))
    requires IsTree(f, Bin(op, l, r)) && WellTyped(Bin(op, l, r), w) && s.sp <= |s.stack|
    requires Runs(p, f.child, false, s)
    requires var s1 := After(p, f.child, false, s);
      Computes(p, f.child, false, s, w, (a, s1.mem)) && Computes(p, f.child.next, false, s1, w, b)
    ensures Computes(p, f, false, s, w, (Low(p.binary(op, w, a, b.0), w), b.1))
    ensures After(p, f, false, s).stack[s.sp]
         == SetLow(After(p, f.child, false, s).stack[s.sp], p.binary(op, w, a, b.0), w)
  {
    BinCorrect(p, f, op, l, r, w, s, a, b);
    hide Exec, ExecAll, Code, TreeCode, Load, Store, SetLow;
    var s1 := After(p, f.child, false, s);
    var s2 := After(p, f.child.next, false, s1);
    CheckedType(f.child, l, w, false);
    RunBinary(p, Annotate(f, false), s, s1, s2);
    ExecOne(p, Ins(OpBin(op, w)), s2);
    OperatorSlot(p, op, w, s, s1, s2, a, b.0);
  }

  lemma OperatorSlot(p: Platform, op: BinOp, w: Width, s: State, s1: State, s2: State, a: Word, b: Word)
    requires s.sp <= |s.stack|
    requires Pushed(s, s1, w, a, s1.mem) && Pushed(s1, s2, w, b, s2.mem)
    ensures var out := Exec(p, Ins(OpBin(op, w)), s2);
      out.Some? && s.sp < |out.value.stack| && out.value.stack[s.sp] == SetLow(s1.stack[s.sp], p.binary(op, w, a, b), w)
  {
    assert s2.stack[s.sp] == s2.stack[..s1.sp][s.sp] == s1.stack[..s1.sp][s.sp];
  }

  lemma InvertSlot(p: Platform, f: Forest, e: Expr, w: Width, s: State, a: (Word, Mem))
    requires IsTree(f, Invert(e)) && WellTyped(Invert(e), w) && s.sp <= |s.stack|
    requires Computes(p, f.child, false, s, w, a)
    ensures Computes(p, f, false, s, w, (Low(p.invert(w, a.0), w), a.1))
    ensures After(p, f, false, s).stack[s.sp]
         == SetLow(After(p, f.child, false, s).stack[s.sp], p.invert(w, a.0), w)
  {
    InvertCorrect(p, f, e, w, s, a);
    hide ExecAll, Code, TreeCode, Load, Store, SetLow;
    var s1 := After(p, f.child, false, s);
    CheckedType(f.child, e, w, false);
    RunUnary(p, Annotate(f, false), s, s1);
    ExecOne(p, Ins(OpInvert(w)), s1);
  }

  lemma ReloadSlot(p: Platform, w: Width, s: State, s1: State, s2: State, a: Word, v: Word)
    requires s.sp <= |s.stack|
    requires Pushed(s, s1, W32, a, s1.mem) && Pushed(s1, s2, w, v, s2.mem)
    ensures var out := ExecAll(p, [Ins(OpSt(w)), Ins(OpLdStack(w))], s2);
      out.Some? && s.sp < |out.value.stack| && out.value.stack[s.sp] == SetLow(a, v, w)
  {
    StoreAndReload(p, w, s, s1, s2, a, v);
    ExecSt(p, w, s, s1, s2, a, v);
    var s3 := Exec(p, Ins(OpSt(w)), s2).value;
    ExecCons(p, Ins(OpSt(w)), [Ins(OpLdStack(w))], s2, s3);
    assert [Ins(OpSt(w))] + [Ins(OpLdStack(w))] == [Ins(OpSt(w)), Ins(OpLdStack(w))];
    ExecOne(p, Ins(OpLdStack(w)), s3);
    LoadStore(s2.mem, a, v, w);
    SetLowTwice(a, v, v, w);
  }

  lemma AssignSlot(p: Platform, f: Forest, lv: Expr, e: Expr, w: Width, s: State, a: Word, b: (Word, Mem))
    requires IsTree(f, Assign(lv, e)) && IsLvalue(lv, w) && s.sp <= |s.stack|
    requires Runs(p, f.child, true, s)
    requires var s1 := After(p, f.child, true, s);
      Computes(p, f.child, true, s, W32, (a, s1.mem)) && Computes(p, f.child.next, false, s1, w, b)
    ensures Computes(p, f, false, s, w, (b.0, Store(b.1, a, b.0, w)))
    ensures After(p, f, false, s).stack[s.sp] == SetLow(a, b.0, w)
  {
    AssignCorrect(p, f, lv, e, w, s, a, b);
    hide Exec, ExecAll, Code, TreeCode, Load, Store, SetLow;
    var s1 := After(p, f.child, true, s);
    var s2 := After(p, f.child.next, false, s1);
    CheckedLvalue(f.child, lv, w, true);
    RunBinary(p, Annotate(f, false), s, s1, s2);
    ReloadSlot(p, w, s, s1, s2, a, b.0);
  }

  lemma PreStepSlot(p: Platform, down: bool, w: Width, s: State, s1: State, a: Word)
    requires Pushed(s, s1, W32, a, s1.mem)
    requires s.sp + 3 <= |s.stack|
    ensures var r := ExecAll(p, PreCode(down, a, w), s1);
      && r.Some? && s.sp < |r.value.stack|
      && r.value.stack[s.sp] == Load(Store(s1.mem, a, Stepped(p, down, w, Load(s1.mem, a, w)), w), a, W32)
  {
    hide Exec, ExecAll, Load, Store, SetLow;
    var s5 := StepVariable(p, down, w, s, s1, a, [Ins(OpLdStack(W32))]);
    ExecLdStack(p, W32, W32, s, s5, a);
    ExecOne(p, Ins(OpLdStack(W32)), s5);
    assert PreCode(down, a, w)
        == [Instr(OpLdValue(w), a), Instr(OpLd(w), 1), StepOp(down, w), Ins(OpSt(w))] + [Ins(OpLdStack(W32))];
  }

  lemma PreIncSlot(p: Platform, f: Forest, id: Symbol, down: bool, w: Width, s: State)
    requires IsTree(f, PreInc(id, down)) && WellTyped(PreInc(id, down), w) && s.sp + 3 <= |s.stack|
    ensures Computes(p, f, false, s, w, Eval(p, PreInc(id, down), w, s.mem))
    ensures After(p, f, false, s).stack[s.sp] == Load(Eval(p, PreInc(id, down), w, s.mem).1, id.addr, W32)
  {
    hide Exec, ExecAll, Code, TreeCode, Load, Store, SetLow;
    PreIncCorrect(p, f, id, down, w, s);
    var a := Annotate(f, false);
    CheckedType(f.child, Var(id), w, true);
    assert Own(a) == PreCode(down, id.addr, w);
    AddressOfVariable(p, f.child, id, w, s);
    var s1 := After(p, f.child, true, s);
    RunUnary(p, a, s, s1);
    PreStepSlot(p, down, w, s, s1, id.addr);
  }

  lemma PostIncSlot(p: Platform, f: Forest, id: Symbol, down: bool, w: Width, s: State)
    requires IsTree(f, PostInc(id, down)) && WellTyped(PostInc(id, down), w) && s.sp + 4 <= |s.stack|
    ensures Computes(p, f, false, s, w, Eval(p, PostInc(id, down), w, s.mem))
    ensures After(p, f, false, s).stack[s.sp] == SetLow(s.stack[s.sp], Load(s.mem, id.addr, w), w)
  {
    hide Exec, ExecAll, Code, TreeCode, Load, Store, SetLow;
    PostIncCorrect(p, f, id, down, w, s);
    LeafSlot(p, f.child, Var(id), w, s);
    var a := Annotate(f, false);
    CheckedType(f.child, Var(id), w, false);
    assert Own(a) == PostCode(down, id.addr, w);
    VariableCorrect(p, f.child, id, w, s);
    var s1 := After(p, f.child, false, s);
    RunUnary(p, a, s, s1);
    PostStepSlot(p, down, w, s, s1, id.addr, Load(s.mem, id.addr, w));
  }

  lemma PostStepSlot(p: Platform, down: bool, w: Width, s: State, s1: State, a: Word, v: Word)
    requires Pushed(s, s1, w, v, s1.mem) && v == Load(s1.mem, a, w)
    requires s.sp + 4 <= |s.stack|
    ensures var r := ExecAll(p, PostCode(down, a, w), s1);
      r.Some? && s.sp < |r.value.stack| && r.value.stack[s.sp] == s1.stack[s.sp]
  {
    hide ExecAll, Load, Store, SetLow;
    PostStep(p, down, w, s, s1, a, v);
    ExecLd(p, W32, a, s1);
    var s2 := Exec(p, Instr(OpLd(W32), a), s1).value;
    var s6 := StepVariable(p, down, w, s1, s2, a, [Ins(OpPop)]);
    ExecOne(p, Ins(OpPop), s6);
    var rest := [Instr(OpLdValue(w), a), Instr(OpLd(w), 1), StepOp(down, w), Ins(OpSt(w))] + [Ins(OpPop)];
    ExecCons(p, Instr(OpLd(W32), a), rest, s1, s2);
    assert PostCode(down, a, w) == [Instr(OpLd(W32), a)] + rest;
    assert s6.stack[s.sp] == s6.stack[..s1.sp][s.sp] == s1.stack[..s1.sp][s.sp];
  }

  /** A call leaves its whole result: the width it is read at does not matter. */
  lemma CallSlot(p: Platform, f: Forest, id: Symbol, args: Args, w: Width, s: State)
    requires IsTree(f, Call(id, args)) && WellTyped(Call(id, args), w)
    requires s.sp + Need(Call(id, args)) <= |s.stack| && FewArgs(Call(id, args), ARG_MAX)
    ensures Computes(p, f, false, s, w, Eval(p, Call(id, args), w, s.mem))
    ensures After(p, f, false, s).stack[s.sp] == Under(p, Call(id, args), w, s.mem, 0)
  {
    TreeCorrect(p, f, Call(id, args), w, s);
    TreeCorrect(p, f, Call(id, args), W32, s);
    hide Annotate, TreeCode, ExecAll, SetLow;
    assert Eval(p, Call(id, args), W32, s.mem).0 == Under(p, Call(id, args), w, s.mem, 0);
  }

  // ----- the theorem -----

  /** For every well-typed expression: the code leaves exactly this word in its slot. */
  lemma {:induction false} SlotCorrect(p: Platform, f: Forest, e: Expr, w: Width, s: State)
    requires IsTree(f, e) && WellTyped(e, w)
    requires s.sp + Need(e) <= |s.stack| && FewArgs(e, ARG_MAX) && s.sp < |s.stack|
    ensures Computes(p, f, false, s, w, Eval(p, e, w, s.mem))
    ensures After(p, f, false, s).stack[s.sp] == Slot(p, e, w, s.mem, s.stack[s.sp])
    decreases e
  {
    hide Exec, ExecAll, Annotate, Code, TreeCode, Own, Load, Store, SetLow, Low;
    TreeCorrect(p, f, e, w, s);
    var x, out := s.stack[s.sp], After(p, f, false, s).stack[s.sp];
    var v := Eval(p, e, w, s.mem).0;
    if w == W32 {
      WholeWord(out);
      LowSetLow(Under(p, e, w, s.mem, x), v, w);
    } else {
      match e
      case CharLit(_) => LeafSlot(p, f, e, w, s);
      case Var(_) => LeafSlot(p, f, e, w, s);
      case Bin(op, l, r) =>
        SlotCorrect(p, f.child, l, w, s);
        var s1 := After(p, f.child, false, s);
        var a := Eval(p, l, w, s.mem).0;
        TreeCorrect(p, f.child.next, r, WidthOf(r), s1);
        var b := LowOf(p, f.child.next, r, w, s1);
        BinSlot(p, f, op, l, r, w, s, a, b);
        SetLowTwice(Under(p, l, w, s.mem, x), a, p.binary(op, w, a, b.0), w);
      case Invert(e1) =>
        SlotCorrect(p, f.child, e1, w, s);
        var a := Eval(p, e1, w, s.mem);
        InvertSlot(p, f, e1, w, s, a);
        SetLowTwice(Under(p, e1, w, s.mem, x), a.0, p.invert(w, a.0), w);
      case Cast(ty, e1) =>
        SlotCorrect(p, f, e1, w, s);
        SetLowTwice(Under(p, e1, w, s.mem, x), 0, Eval(p, e1, w, s.mem).0, w);
      case Assign(lv, e1) =>
        AddressCorrect(p, f.child, lv, w, s);
        var s1 := After(p, f.child, true, s);
        TreeCorrect(p, f.child.next, e1, WidthOf(e1), s1);
        var b := LowOf(p, f.child.next, e1, w, s1);
        AssignSlot(p, f, lv, e1, w, s, Address(p, lv, w, s.mem).0, b);
      case PreInc(id, down) =>
        PreIncSlot(p, f, id, down, w, s);
        SetLowSame(out, w);
      case PostInc(id, down) => PostIncSlot(p, f, id, down, w, s);
      case Call(id, args) =>
        CallSlot(p, f, id, args, w, s);
        SetLowSame(out, w);
    }
  }

  lemma WholeWord(x: Word)
    ensures Low(x, W32) == x
  {
  }

  // ----- the answer of a line -----

  /** The first free slot after the statements of a line, each of them starting from what the one before
      it has left there. */
  function LineSlot(p: Platform, es: seq<Expr>, m: Mem, x: Word): Word
    requires es != [] && WellTypedLine(es)
  {
    var w := WidthOf(es[0]);
    var y := Slot(p, es[0], w, m, x);
    if |es| == 1 then y else LineSlot(p, es[1..], Eval(p, es[0], w, m).1, y)
  }

  /** For every well-typed line: its code leaves exactly this word. */
  lemma {:induction false} LineSlotCorrect(p: Platform, f: Forest, es: seq<Expr>, s: State)
    requires es != [] && IsLine(f, es) && WellTypedLine(es) && s.sp < |s.stack|
    requires forall e :: e in es ==> s.sp + Need(e) <= |s.stack| && FewArgs(e, ARG_MAX)
    ensures var out := ExecAll(p, LineCode(Annotate(f, false)), s);
      && out.Some? && s.sp < |out.value.stack|
      && out.value.stack[s.sp] == LineSlot(p, es, s.mem, s.stack[s.sp])
    decreases |es|
  {
    hide Exec, ExecAll, TreeCode, Code, WellTyped, Eval, WidthOf, Slot, Need, FewArgs;
    var a := Annotate(f, false);
    var w := WidthOf(es[0]);
    SlotCorrect(p, f, es[0], w, s);
    var s1 := After(p, f, false, s);
    if |es| == 1 {
      assert TreeCode(a) == LineCode(a);
    } else {
      var rest := LineCode(a.next);
      ExecAppend(p, TreeCode(a), [Ins(OpPop)] + rest, s);
      PopAfter(p, w, Eval(p, es[0], w, s.mem).0, s1.mem, s, s1);
      var s2 := s1.(sp := s.sp);
      ExecCons(p, Ins(OpPop), rest, s1, s2);
      LineSlotCorrect(p, f.next, es[1..], s2);
    }
  }
}
