/** How much text and stack compiled code can take, and that well-typed lines raise no error. */
module Bounds {
  import opened Machine
  import opened Limits
  import opened Ast
  import opened Bytecode
  import opened Source
  import opened Codegen
  import opened Correctness

  /** The nodes whose code is a whole load-step-store sequence: `++` and `--`. */
  function Steps(f: Forest): nat {
    if f.Nil? then 0
    else (if f.kind in {KPreInc, KPreDec, KInc, KDec} then 1 else 0) + Steps(f.child) + Steps(f.next)
  }

  function CodeSize(code: seq<Instr>): nat {
    |EncodeAll(code)|
  }

  lemma SizeAppend(a: seq<Instr>, b: seq<Instr>)
    ensures CodeSize(a + b) == CodeSize(a) + CodeSize(b)
  {
    EncodeAppend(a, b);
  }

  lemma SizeOne(i: Instr)
    ensures CodeSize([i]) == 1 + OperandSize(i.op)
  {
    assert EncodeAll([i]) == Encode(i) + EncodeAll([]);
  }

  lemma SizeTwo(i: Instr, j: Instr)
    ensures CodeSize([i, j]) == 2 + OperandSize(i.op) + OperandSize(j.op)
  {
    SizeAppend([i], [j]);
    SizeOne(i);
    SizeOne(j);
    assert [i] + [j] == [i, j];
  }

  lemma StepSize(pre: bool, down: bool, a: Word, dt: nat)
    ensures CodeSize(StepCode(pre, down, a, dt)) <= 18
    ensures dt == DT_DWORD ==> CodeSize(StepCode(pre, down, a, dt)) == if pre then 13 else 18
  {
    match DtWidth(dt)
    case None =>
    case Some(w) =>
      var load, one := Instr(OpLdValue(w), a), Instr(OpLd(w), 1);
      var addr, back := Instr(OpLd(W32), a), if pre then Ins(OpLdStack(W32)) else Ins(OpPop);
      SizeTwo(load, one);
      SizeTwo(StepOp(down, w), Ins(OpSt(w)));
      SizeOne(addr);
      SizeOne(back);
      SizeAppend([load, one], [StepOp(down, w), Ins(OpSt(w))]);
      SizeAppend([load, one] + [StepOp(down, w), Ins(OpSt(w))], [back]);
      assert PreCode(down, a, w) == [load, one] + [StepOp(down, w), Ins(OpSt(w))] + [Ins(OpLdStack(W32))];
      SizeAppend([addr], [load, one] + [StepOp(down, w), Ins(OpSt(w))] + [back]);
      assert PostCode(down, a, w) == [addr] + ([load, one] + [StepOp(down, w), Ins(OpSt(w))] + [Ins(OpPop)]);
  }

  lemma ShortSize(code: seq<Instr>)
    requires |code| <= 1
    ensures CodeSize(code) <= 5
  {
    if |code| == 1 {
      SizeOne(code[0]);
      assert code == [code[0]];
    }
  }

  lemma StoreSize(dt: nat)
    ensures CodeSize(StoreCode(dt)) <= 5
  {
    match DtWidth(dt)
    case None =>
    case Some(w) => SizeTwo(Ins(OpSt(w)), Ins(OpLdStack(w)));
  }

  lemma OwnSize(f: Forest)
    requires f.Node?
    ensures CodeSize(Own(f)) <= if f.kind in {KPreInc, KPreDec, KInc, KDec} then (if f.child.Nil? then 0 else 18) else 5
  {
    assert CodeSize([]) == 0;
    hide CodeSize, StepCode, StoreCode;
    if f.kind in {KPreInc, KPreDec, KInc, KDec} {
      if f.child.Node? {
        StepSize(f.kind in {KPreInc, KPreDec}, f.kind in {KPreDec, KDec}, VarAddress(f.child.sym), f.dt);
      }
    } else if f.kind == KAssign {
      if f.child.Node? {
        StoreSize(f.child.dt);
        StoreSize(f.child.dt % 0x10);
      }
    } else {
      ShortSize(Own(f));
    }
  }

  /** For every forest at all, well formed or not: its trees, each with one byte to spare for a POP,
      take at most six bytes a node and twelve more for each `++` or `--`. */
  lemma {:induction false} ForestSize(f: Forest)
    ensures CodeSize(Code(f)) + Length(f) <= 6 * Count(f) + 12 * Steps(f)
    ensures f.Node? ==> CodeSize(TreeCode(f)) + 1 <= 6 * (1 + Count(f.child)) + 12 * (Steps(f) - Steps(f.next))
  {
    assert CodeSize([]) == 0;
    hide EncodeAll, Own;
    if f.Node? {
      ForestSize(f.child);
      ForestSize(f.next);
      OwnSize(f);
      SizeAppend(Code(f.child), Own(f));
      SizeAppend(TreeCode(f), Code(f.next));
    }
  }

  lemma {:induction false} LineSize(f: Forest)
    requires f.Node?
    ensures CodeSize(LineCode(f)) <= 6 * Count(f) + 12 * Steps(f) - 1
  {
    hide EncodeAll, TreeCode;
    ForestSize(f);
    if f.next.Node? {
      LineSize(f.next);
      SizeOne(Ins(OpPop));
      SizeAppend(TreeCode(f), [Ins(OpPop)] + LineCode(f.next));
      SizeAppend([Ins(OpPop)], LineCode(f.next));
    } else {
      assert TreeCode(f) + [] == TreeCode(f);
    }
  }

  lemma {:induction false} AnnotateCounts(f: Forest, isAddr: bool)
    ensures Count(Annotate(f, isAddr)) == Count(f)
    ensures Steps(Annotate(f, isAddr)) == Steps(f)
  {
    if f.Node? {
      AnnotateCounts(f.child, ChildIsAddr(f.kind, isAddr));
      AnnotateCounts(f.next, false);
    }
  }

  /** A parsed line has at most `NODE_MAX` nodes; with at most two `++`/`--` among them its code
      always fits the text segment. */
  lemma LineFitsText(f: Forest)
    requires Count(f) <= NODE_MAX && Steps(f) <= 2
    ensures CodeSize(LineCode(Annotate(f, false))) <= TEXT_MAX
  {
    if f.Node? {
      AnnotateCounts(f, false);
      LineSize(Annotate(f, false));
    }
  }

  lemma AnnotateNil()
    ensures Annotate(Nil, false) == Nil
  {
  }

  // ----- the stack -----

  lemma {:induction false} TreeCount(f: Forest, e: Expr)
    requires IsTree(f, e)
    ensures Count(f) == Nodes(e) + Count(f.next)
    decreases e, 1
  {
    match e
    case Bin(_, l, r) => TreeCount(f.child, l); TreeCount(f.child.next, r);
    case Invert(e) => TreeCount(f.child, e);
    case Neg(e) => TreeCount(f.child.next, e);
    case Cast(_, e) => TreeCount(f, e);
    case Deref(e) => TreeCount(f.child, e);
    case AddrOf(e) => TreeCount(f.child, e);
    case Assign(lv, e) => TreeCount(f.child, lv); TreeCount(f.child.next, e);
    case Call(s, args) =>
      ArgsCount(f.child.next, args);
      assert IsIdTree(f.child, s) && Count(f.child) == 1 + Count(f.child.next);
    case _ =>
  }

  lemma {:induction false} ArgsCount(f: Forest, args: Args)
    requires IsArgs(f, args)
    ensures Count(f) == ArgNodes(args)
    decreases args, 0
  {
    if args.Arg? {
      TreeCount(f, args.e);
      ArgsCount(f.next, args.rest);
    }
  }

  /** Every statement of a line the pool can hold fits the 64-slot stack, whatever is in it. */
  lemma {:induction false} LineFitsStack(f: Forest, es: seq<Expr>)
    requires IsLine(f, es) && Count(f) <= NODE_MAX
    ensures forall e :: e in es ==> Nodes(e) <= NODE_MAX && Need(e) <= NODE_MAX + 2 <= STACK_MAX && FewArgs(e, ARG_MAX)
    decreases |es|
  {
    if es != [] {
      TreeCount(f, es[0]);
      NeedBound(es[0]);
      NodesLimitArgs(es[0], ARG_MAX);
      LineFitsStack(f.next, es[1..]);
    }
  }

  // ----- no error -----

  /** Checking and compiling the first tree of `f` leaves the error code alone. */
  ghost predicate Silent(f: Forest, isAddr: bool, err: nat) {
    var a := Annotate(f, isAddr);
    f.Node? ==>
      && LeafError(f, err) == err && CheckError(f.child, err) == err
      && OwnError(a, err) == err && CompileError(a.child, err) == err
  }

  lemma SilentChain(f: Forest, isAddr: bool, err: nat)
    requires Silent(f, isAddr, err)
    requires f.Node? ==> CheckError(f.next, err) == err && CompileError(Annotate(f.next, false), err) == err
    ensures CheckError(f, err) == err && CompileError(Annotate(f, isAddr), err) == err
  {
  }

  lemma SilentOperands(f: Forest, isAddr: bool, err: nat)
    requires f.Node? && f.next.Node? && f.next.next.Nil?
    requires Silent(f, isAddr, err) && Silent(f.next, false, err)
    ensures CheckError(f, err) == err && CompileError(Annotate(f, isAddr), err) == err
  {
    SilentChain(f.next.next, false, err);
    SilentChain(f.next, false, err);
    SilentChain(f, isAddr, err);
  }

  lemma SilentIdentifier(f: Forest, s: Symbol, isAddr: bool, err: nat)
    requires IsIdTree(f, s) && (s.SyscallSym? || exists w :: IsVariable(s, w))
    ensures Silent(f, isAddr, err)
  {
  }

  lemma SilentUnary(f: Forest, isAddr: bool, err: nat)
    requires f.Node? && f.kind in {KInvert, KGetValue, KGetAddr} && f.child.Node? && f.child.next.Nil?
    requires Silent(f.child, ChildIsAddr(f.kind, isAddr), err)
    ensures Silent(f, isAddr, err)
  {
    hide LeafType;
    SilentChain(f.child, ChildIsAddr(f.kind, isAddr), err);
  }

  lemma SilentBinary(f: Forest, isAddr: bool, err: nat)
    requires f.Node? && f.kind.KBin? && f.child.Node? && f.child.next.Node? && f.child.next.next.Nil?
    requires Silent(f.child, isAddr, err) && Silent(f.child.next, false, err)
    ensures Silent(f, isAddr, err)
  {
    hide LeafType;
    SilentOperands(f.child, isAddr, err);
  }

  lemma SilentAssign(f: Forest, isAddr: bool, w: Width, err: nat)
    requires f.Node? && f.kind == KAssign && f.child.Node? && f.child.next.Node? && f.child.next.next.Nil?
    requires Silent(f.child, true, err) && Silent(f.child.next, false, err)
    requires Annotate(f.child, true).dt == Dt(w)
    ensures Silent(f, isAddr, err)
  {
    hide LeafType;
    SilentOperands(f.child, true, err);
  }

  lemma SilentStep(f: Forest, isAddr: bool, s: Symbol, err: nat)
    requires f.Node? && f.kind in {KPreInc, KPreDec, KInc, KDec}
    requires IsIdTree(f.child, s) && (exists w :: IsVariable(s, w)) && f.child.next.Nil?
    ensures Silent(f, isAddr, err)
  {
    SilentIdentifier(f.child, s, ChildIsAddr(f.kind, isAddr), err);
    hide LeafType;
    SilentChain(f.child, ChildIsAddr(f.kind, isAddr), err);
  }

  lemma SilentCall(f: Forest, isAddr: bool, s: Symbol, err: nat)
    requires f.Node? && f.kind == KFunc && IsIdTree(f.child, s) && s.SyscallSym?
    requires CheckError(f.child.next, err) == err && CompileError(Annotate(f.child.next, false), err) == err
    ensures Silent(f, isAddr, err)
  {
    SilentIdentifier(f.child, s, isAddr, err);
    hide LeafType;
    SilentChain(f.child, isAddr, err);
  }

  /** A well-typed tree raises no error, neither in type checking nor in code generation. */
  lemma {:induction false} TreeIsSilent(f: Forest, e: Expr, w: Width, isAddr: bool, err: nat)
    requires IsTree(f, e)
    requires if isAddr then IsLvalue(e, w) else WellTyped(e, w)
    ensures Silent(f, isAddr, err)
    decreases e, 1
  {
    hide LeafType, Silent, Annotate, CheckError, CompileError;
    match e
    case CharLit(_) => SilentLeaf(f, isAddr, err);
    case IntLit(_) => SilentLeaf(f, isAddr, err);
    case LongLit(_) => SilentLeaf(f, isAddr, err);
    case StrLit(_) => SilentLeaf(f, isAddr, err);
    case NullLit => SilentLeaf(f, isAddr, err);
    case Var(s) => SilentIdentifier(f, s, isAddr, err);
    case Bin(_, l, r) =>
      TreeIsSilent(f.child, l, w, false, err);
      TreeIsSilent(f.child.next, r, WidthOf(r), false, err);
      SilentBinary(f, isAddr, err);
    case Invert(e) =>
      TreeIsSilent(f.child, e, w, false, err);
      SilentUnary(f, isAddr, err);
    case Neg(e) =>
      SilentLeaf(f.child, false, err);
      TreeIsSilent(f.child.next, e, W32, false, err);
      SilentBinary(f, isAddr, err);
    case Cast(_, e) => TreeIsSilent(f, e, w, false, err);
    case Deref(e) =>
      TreeIsSilent(f.child, e, W32, false, err);
      SilentUnary(f, isAddr, err);
    case AddrOf(e) =>
      TreeIsSilent(f.child, e, W32, true, err);
      SilentUnary(f, isAddr, err);
    case Assign(lv, e) =>
      TreeIsSilent(f.child, lv, w, true, err);
      TreeIsSilent(f.child.next, e, WidthOf(e), false, err);
      CheckedLvalue(f.child, lv, w, true);
      SilentAssign(f, isAddr, w, err);
    case PreInc(s, _) => SilentStep(f, isAddr, s, err);
    case PostInc(s, _) => SilentStep(f, isAddr, s, err);
    case Call(s, args) =>
      ArgsAreSilent(f.child.next, args, err);
      SilentCall(f, isAddr, s, err);
  }

  lemma SilentLeaf(f: Forest, isAddr: bool, err: nat)
    requires f.Node? && f.kind in {KChar, KInt, KLong, KString, KNull} && f.child.Nil?
    ensures Silent(f, isAddr, err)
  {
  }

  lemma {:induction false} ArgsAreSilent(f: Forest, args: Args, err: nat)
    requires IsArgs(f, args) && WellTypedArgs(args)
    ensures CheckError(f, err) == err && CompileError(Annotate(f, false), err) == err
    decreases args, 0
  {
    if args.Arg? {
      TreeIsSilent(f, args.e, W32, false, err);
      ArgsAreSilent(f.next, args.rest, err);
      SilentChain(f, false, err);
    }
  }

  /** Checking and compiling a well-typed line sets no error, so the shell goes on to run it. */
  lemma {:induction false} LineIsSilent(f: Forest, es: seq<Expr>, err: nat)
    requires IsLine(f, es) && WellTypedLine(es)
    ensures CheckError(f, err) == err && LineError(Annotate(f, false), err) == err
    decreases |es|
  {
    if es != [] {
      TreeIsSilent(f, es[0], WidthOf(es[0]), false, err);
      LineIsSilent(f.next, es[1..], err);
    }
  }
}
