/** What a cast does. The parser records the number of the type in the data type of the operand's root
    (finsh_parser.c:672-676); type checking then overwrites it, except on the bare name of a system call. */
module Casts {
  import opened Machine
  import opened Limits
  import opened Ast
  import opened Bytecode
  import opened Source
  import opened Codegen
  import opened Grammar
  import opened Soundness
  import opened Syntax
  import opened Meaning
  import opened Correctness
  import opened Slots
  import opened CSemantics

  /** A tree of a parsed line that raises no type error. */
  ghost predicate Checked(f: Forest) {
    f.Node? && Complete(f) && !LeafType(f.kind, f.sym, f.dt).1
  }

  /** A cast changes the checked tree if and only if it stands before the bare name of a system call, and the
      number of its type is not recorded there already by a cast within. */
  lemma CastRecorded(f: Forest, ty: FinshType, isAddr: bool)
    requires Checked(f)
    ensures Annotate(f.(dt := TypeNumber(ty)), isAddr) != Annotate(f, isAddr)
      <==> f.kind == KId && f.sym.SyscallSym? && f.dt != TypeNumber(ty)
  {
    hide TypeNumber;
    assert f.child.Nil? ==> f.kind in {KId, KChar, KInt, KLong, KString, KNull};
  }

  lemma TypeNumbers(ty: FinshType)
    ensures TypeNumber(ty) == DT_VOID <==> ty == TUnknown
    ensures DtWidth(TypeNumber(ty)).Some? <==> ty in {TVoid, TVoidP, TChar}
  {
  }

  /** `(ty) f + 1` with the name of a system call: the number of the type is taken for a data type. Without a
      cast no addition is compiled; with one it is if and only if the type is `void`, `void*` or `char`. */
  lemma CastOfFunctionName(env: Env, vars: seq<Variable>, name: string, n: TypeName)
    requires Resolve(env, vars, Id(name)).SyscallSym?
    ensures Own(Annotate(Build(env, vars, BinTerm(Add, NameTerm(name), IntTerm(1)), 0), false)) == []
    ensures var f := Build(env, vars, BinTerm(Add, CastTerm(n, NameTerm(name)), IntTerm(1)), 0);
      var code := Own(Annotate(f, false));
      && (code == [] || exists w :: code == [Ins(OpBin(Add, w))])
      && (code != [] <==> TypeOf(n) in {TVoid, TVoidP, TChar})
  {
    hide Resolve, TypeNumber, TypeOf;
    TypeNumbers(TypeOf(n));
    var leaf := NewNode(0, KId, 0, Resolve(env, vars, Id(name)), Nil);
    assert Build(env, vars, NameTerm(name), 0) == leaf;
    SumWithName(Build(env, vars, BinTerm(Add, NameTerm(name), IntTerm(1)), 0), leaf);
    var g := Build(env, vars, CastTerm(n, NameTerm(name)), 0);
    assert g == leaf.(dt := TypeNumber(TypeOf(n)));
    SumWithName(Build(env, vars, BinTerm(Add, CastTerm(n, NameTerm(name)), IntTerm(1)), 0), g);
  }

  /** The data type of the name becomes that of the sum. */
  lemma SumWithName(f: Forest, g: Forest)
    requires g.Node? && g.kind == KId && g.sym.SyscallSym? && g.child.Nil?
    requires f.Node? && f.kind == KBin(Add) && f.child.Node? && f.child == g.(next := f.child.next)
    ensures Own(Annotate(f, false)) == BinCode(Add, g.dt)
  {
    var c := Annotate(f.child, false);
    assert c.dt == g.dt by {
      assert Annotate(f.child.child, false) == Nil;
    }
  }

  // ----- when a cast agrees with C -----

  lemma EvalInRange(p: Platform, e: Expr, w: Width, m: Mem)
    requires WellTyped(e, w)
    ensures Eval(p, e, w, m).0 < Span(w)
    decreases e
  {
    hide Load, Store;
    match e
    case Var(s) => LoadInRange(m, s.addr, w);
    case Cast(_, e1) => EvalInRange(p, e1, w, m);
    case Assign(_, _) =>
    case PostInc(s, _) => LoadInRange(m, s.addr, w);
    case _ =>
  }

  /** Where it changes nothing, a cast compiles to nothing. So it computes, for a reader of any width `r`,
      what C makes of well-typed `x` converted to the type if and only if the slot that `x` leaves holds that
      already. */
  lemma CastExactly(p: Platform, f: Forest, x: Expr, w: Width, sx: bool, ty: FinshType, sy: bool, r: Width, s: State)
    requires IsTree(f, x) && WellTyped(x, w) && TypeWidth(ty).Some?
    requires s.sp + Need(x) <= |s.stack| && s.sp < |s.stack| && FewArgs(x, ARG_MAX)
    ensures var (v, m) := Eval(p, x, w, s.mem);
      var u := TypeWidth(ty).value;
      && v < Span(w) && Resized(v, w, sx, u) < Span(u)
      && var c := Resized(Resized(v, w, sx, u), u, sy, r);
         Computes(p, f.(dt := TypeNumber(ty)), false, s, r, (c, m))
         <==> Low(Slot(p, x, w, s.mem, s.stack[s.sp]), r) == c
  {
    hide Annotate, TreeCode, ExecAll, Eval, WellTyped, TypeNumber, Need, FewArgs, Slot;
    var g := f.(dt := TypeNumber(ty));
    SameTree(f, g, x);
    EvalInRange(p, x, w, s.mem);
    SlotCorrect(p, g, x, w, s);
  }

  /** The values of width `w` that a type of width `u` can hold. */
  predicate Holds(u: Width, signed: bool, w: Width, v: Word) {
    if signed then v < Span(u) / 2 || v >= Span(w) - Span(u) / 2 else v < Span(u)
  }

  /** A cast to a type no wider than the operand, read at the operand's width as every further operator does,
      agrees with C if and only if the type can hold the operand's value. */
  lemma CastAgrees(p: Platform, f: Forest, x: Expr, w: Width, ty: FinshType, charSigned: bool, s: State)
    requires IsTree(f, x) && WellTyped(x, w) && TypeWidth(ty).Some? && Span(TypeWidth(ty).value) <= Span(w)
    requires s.sp + Need(x) <= |s.stack| && s.sp < |s.stack| && FewArgs(x, ARG_MAX)
    ensures var (v, m) := Eval(p, x, w, s.mem);
      var u := TypeWidth(ty).value;
      var c := Resized(Low(v, u), u, IsSigned(ty, charSigned), w);
      && Computes(p, f.(dt := TypeNumber(ty)), false, s, w, (v, m))
      && (Computes(p, f.(dt := TypeNumber(ty)), false, s, w, (c, m)) <==> Holds(u, IsSigned(ty, charSigned), w, v))
  {
    hide Annotate, TreeCode, ExecAll, Eval, WellTyped, TypeNumber, Need, FewArgs, SetLow, Under;
    var v, u := Eval(p, x, w, s.mem).0, TypeWidth(ty).value;
    CastExactly(p, f, x, w, false, ty, IsSigned(ty, charSigned), w, s);
    LowSetLow(Under(p, x, w, s.mem, s.stack[s.sp]), v, w);
    SameTree(f, f.(dt := TypeNumber(ty)), x);
    TreeCorrect(p, f.(dt := TypeNumber(ty)), x, w, s);
    Narrowed(v, w, u, IsSigned(ty, charSigned));
  }

  lemma Narrowed(v: Word, w: Width, u: Width, signed: bool)
    requires v < Span(w) && Span(u) <= Span(w)
    ensures Low(v, w) == v && Low(v, u) < Span(u)
    ensures Resized(Low(v, u), u, signed, w) == v <==> Holds(u, signed, w, v)
  {
    match u case W8 => case W16 => case W32 =>
  }

  /** A cast to a wider type, read at the type's width, agrees with C if and only if the bytes above the operand
      are the extension C asks for: zeros, or ones for a negative operand of a signed type. FinSH writes
      none of them; for a load they are the bytes that the slot held before. */
  lemma WideningAgrees(p: Platform, f: Forest, x: Expr, w: Width, signed: bool, ty: FinshType, s: State)
    requires IsTree(f, x) && WellTyped(x, w) && TypeWidth(ty).Some? && Span(w) < Span(TypeWidth(ty).value)
    requires s.sp + Need(x) <= |s.stack| && s.sp < |s.stack| && FewArgs(x, ARG_MAX)
    ensures var (v, m) := Eval(p, x, w, s.mem);
      var u := TypeWidth(ty).value;
      && v < Span(w)
      && (Computes(p, f.(dt := TypeNumber(ty)), false, s, u, (Resized(v, w, signed, u), m))
          <==> Between(Under(p, x, w, s.mem, s.stack[s.sp]), w, u)
               == Extension(v, w, signed, u))
    ensures x.CharLit? || x.Var? ==> Under(p, x, w, s.mem, s.stack[s.sp]) == s.stack[s.sp]
  {
    hide Annotate, TreeCode, ExecAll, Eval, WellTyped, TypeNumber, Need, FewArgs, SetLow;
    var v, u := Eval(p, x, w, s.mem).0, TypeWidth(ty).value;
    CastExactly(p, f, x, w, signed, ty, false, u, s);
    Extended(Under(p, x, w, s.mem, s.stack[s.sp]), v, w, u, signed);
  }

  /** In a cleared slot a widened variable is right if and only if it is not a negative one of a signed type:
      a `short` of -1 becomes 65535. */
  lemma CleanSlotWidens(p: Platform, f: Forest, x: Symbol, w: Width, ty: FinshType, charSigned: bool, s: State)
    requires IsTree(f, Var(x)) && IsVariable(x, w) && TypeWidth(ty).Some? && Span(w) < Span(TypeWidth(ty).value)
    requires s.sp < |s.stack| && s.stack[s.sp] == 0
    ensures var v, u := Load(s.mem, x.addr, w), TypeWidth(ty).value;
      && v < Span(w)
      && (Computes(p, f.(dt := TypeNumber(ty)), false, s, u, (Resized(v, w, IsSigned(x.ty, charSigned), u), s.mem))
          <==> !(IsSigned(x.ty, charSigned) && v >= Span(w) / 2))
  {
    hide Annotate, TreeCode, ExecAll, TypeNumber, Load;
    WideningAgrees(p, f, Var(x), w, IsSigned(x.ty, charSigned), ty, s);
    assert Between(0, w, TypeWidth(ty).value) == 0;
  }

  /** `(char) 300` leaves 300 in FinSH; C makes it 44. */
  lemma NarrowCastDiffers(p: Platform, env: Env, vars: seq<Variable>, charSigned: bool, s: State)
    requires s.sp < |s.stack|
    ensures var f := Build(env, vars, CastTerm(TypeName(false, CharName, false), IntTerm(300)), 0);
      && Computes(p, f, false, s, W32, (300, s.mem)) && !Computes(p, f, false, s, W32, (44, s.mem))
      && Resized(Low(300, W8), W8, IsSigned(TChar, charSigned), W32) == 44
  {
    hide Annotate, TreeCode, ExecAll, TypeNumber;
    var f := Build(env, vars, IntTerm(300), 0);
    CastAgrees(p, f, IntLit(300), W32, TChar, charSigned, s);
    assert Build(env, vars, CastTerm(TypeName(false, CharName, false), IntTerm(300)), 0) == f.(dt := TypeNumber(TChar));
  }
}
