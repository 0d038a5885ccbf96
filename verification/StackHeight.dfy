/** How high the stack stands while compiled code runs, read off the checked forest alone: for every forest
    the pool can hold, well typed or not, whatever the platform, the memory and the stack contain. */
module StackHeight {
  import opened Machine
  import opened Limits
  import opened Ast
  import opened Bytecode
  import opened Source
  import opened Codegen
  import opened Soundness
  import opened Correctness

  /** Popping to where `need` slots must be left and `drop` of them go. */
  function Consume(h: nat, need: nat, drop: nat): Option<nat>
    requires drop <= need
  {
    if h < need then None else Some(h - drop)
  }

  /** An identifier that compiles to a load; one of type `void` or `void*` compiles to nothing. */
  predicate Emits(s: Symbol) {
    s.SyscallSym? || ((s.VarSym? || s.SysvarSym?) && TypeWidth(s.ty).Some?)
  }

  /** An assignment whose target has a width the compiler knows. */
  predicate Stores(f: Forest)
    requires f.Node?
  {
    f.child.Node? && ((f.child.kind == KId && DtWidth(f.child.dt).Some?)
                      || (f.child.kind == KGetValue && DtWidth(f.child.dt % 0x10).Some?))
  }

  function ArgLength(f: Forest): nat
    requires f.Node?
  {
    if f.child.Nil? then 0 else Length(f.child.next)
  }

  /** The height behind a node, given the height behind its operands; `None` when it reaches below the
      bottom of the stack. */
  function OwnHeight(f: Forest, h: nat): Option<nat>
    requires f.Node?
  {
    match f.kind
    case KUnknown | KGetAddr | KInc | KDec => Some(h)
    case KId => Some(if Emits(f.sym) then h + 1 else h)
    case KChar | KInt | KLong | KString | KNull => Some(h + 1)
    case KBin(_) => if DtWidth(f.dt).None? then Some(h) else Consume(h, 2, 1)
    case KInvert => if DtWidth(f.dt).None? then Some(h) else Consume(h, 1, 0)
    case KGetValue => if f.isAddr || DtWidth(f.dt).None? then Some(h) else Consume(h, 1, 0)
    case KFunc => var n := ArgLength(f) % 0x100; Consume(h, n + 1, n)
    case KAssign => if Stores(f) then Consume(h, 2, 1) else Some(h)
    case KPreInc | KPreDec =>
      if f.child.Node? && f.child.kind == KId && DtWidth(f.dt).Some? then Consume(h, 1, 0) else Some(h)
  }

  function TreeHeight(f: Forest, h: nat): Option<nat>
    requires f.Node?
    decreases f, 0
  {
    match Height(f.child, h)
    case None => None
    case Some(h1) => OwnHeight(f, h1)
  }

  /** The height behind a forest that is entered at height `h`. */
  function Height(f: Forest, h: nat): Option<nat>
    decreases f, 1
  {
    if f.Nil? then Some(h)
    else match TreeHeight(f, h) {
      case None => None
      case Some(h1) => Height(f.next, h1)
    }
  }

  /** The same for a line: each value but the last is popped. */
  function LineHeight(f: Forest, h: nat): Option<nat> {
    if f.Nil? then Some(h)
    else match TreeHeight(f, h) {
      case None => None
      case Some(h1) =>
        if f.next.Nil? then Some(h1) else if h1 == 0 then None else LineHeight(f.next, h1 - 1)
    }
  }

  /** `out` is the outcome of a run that the height `d` foretells. */
  ghost predicate Foretold(s: State, d: Option<nat>, out: Option<State>) {
    match d
    case None => out.None?
    case Some(h) => out.Some? && out.value.sp == h <= |out.value.stack| == |s.stack|
  }

  // ----- the code of one node -----

  lemma OneRuns(p: Platform, i: Instr, s: State, d: Option<nat>)
    requires Foretold(s, d, Exec(p, i, s))
    ensures Foretold(s, d, ExecAll(p, [i], s))
  {
    hide Exec;
    ExecOne(p, i, s);
  }

  lemma NoneRuns(p: Platform, s: State)
    requires s.sp <= |s.stack|
    ensures Foretold(s, Some(s.sp), ExecAll(p, [], s))
  {
  }

  lemma LoadRuns(p: Platform, i: Instr, s: State)
    requires (i.op.OpLd? || i.op.OpLdValue?) && s.sp < |s.stack|
    ensures Foretold(s, Some(s.sp + 1), ExecAll(p, [i], s))
  {
    hide SetLow, Load;
    OneRuns(p, i, s, Some(s.sp + 1));
  }

  lemma OperatorRuns(p: Platform, f: Forest, s: State)
    requires f.Node? && s.sp <= |s.stack| && (f.kind.KBin? || f.kind == KInvert || f.kind == KGetValue)
    ensures Foretold(s, OwnHeight(f, s.sp), ExecAll(p, Own(f), s))
  {
    hide SetLow, Load;
    if Own(f) == [] {
      NoneRuns(p, s);
    } else {
      OneRuns(p, Own(f)[0], s, OwnHeight(f, s.sp));
    }
  }

  lemma CallRuns(p: Platform, f: Forest, s: State)
    requires f.Node? && f.kind == KFunc && ArgLength(f) <= ARG_MAX && s.sp <= |s.stack|
    ensures Foretold(s, OwnHeight(f, s.sp), ExecAll(p, Own(f), s))
  {
    OneRuns(p, Own(f)[0], s, OwnHeight(f, s.sp));
  }

  /** Running an instruction first. */
  lemma ConsRuns(p: Platform, i: Instr, rest: seq<Instr>, s: State, d: Option<nat>)
    requires Exec(p, i, s).Some? ==> Foretold(s, d, ExecAll(p, rest, Exec(p, i, s).value))
    requires Exec(p, i, s).None? ==> d.None?
    ensures Foretold(s, d, ExecAll(p, [i] + rest, s))
  {
    hide Exec;
    assert ([i] + rest)[1..] == rest;
  }

  lemma StoreRuns(p: Platform, dt: nat, s: State)
    requires s.sp <= |s.stack|
    ensures Foretold(s, if DtWidth(dt).None? then Some(s.sp) else Consume(s.sp, 2, 1), ExecAll(p, StoreCode(dt), s))
  {
    hide SetLow, Load, Store;
    match DtWidth(dt)
    case None => NoneRuns(p, s);
    case Some(w) =>
      var i, j := Ins(OpSt(w)), Ins(OpLdStack(w));
      assert [i, j] == [i] + [j];
      if s.sp >= 2 {
        var s1 := Exec(p, i, s).value;
        OneRuns(p, j, s1, Some(s1.sp));
      }
      ConsRuns(p, i, [j], s, Consume(s.sp, 2, 1));
  }

  /** `ld_value a; ld 1; add` or `sub`: one slot more. */
  lemma AddOneRuns(p: Platform, down: bool, a: Word, w: Width, rest: seq<Instr>, s: State, d: Option<nat>)
    requires s.sp + 2 <= |s.stack|
    requires forall s1: State :: s1.sp == s.sp + 1 && |s1.stack| == |s.stack| ==> Foretold(s1, d, ExecAll(p, rest, s1))
    ensures Foretold(s, d, ExecAll(p, [Instr(OpLdValue(w), a)] + ([Instr(OpLd(w), 1)] + ([StepOp(down, w)] + rest)), s))
  {
    hide SetLow, Load, Low;
    var i, j, k := Instr(OpLdValue(w), a), Instr(OpLd(w), 1), StepOp(down, w);
    var s1 := Exec(p, i, s).value;
    var s2 := Exec(p, j, s1).value;
    var s3 := Exec(p, k, s2).value;
    assert s3.sp == s.sp + 1 && |s3.stack| == |s.stack|;
    ConsRuns(p, k, rest, s2, d);
    ConsRuns(p, j, [k] + rest, s1, d);
    ConsRuns(p, i, [j] + ([k] + rest), s, d);
  }

  lemma PreRuns(p: Platform, down: bool, a: Word, w: Width, s: State)
    requires s.sp + 2 <= |s.stack|
    ensures Foretold(s, Consume(s.sp, 1, 0), ExecAll(p, PreCode(down, a, w), s))
  {
    hide SetLow, Load, Store, Low;
    var i, j := Ins(OpSt(w)), Ins(OpLdStack(W32));
    var d := Consume(s.sp, 1, 0);
    forall s1: State | s1.sp == s.sp + 1 && |s1.stack| == |s.stack|
      ensures Foretold(s1, d, ExecAll(p, [i] + [j], s1))
    {
      if s1.sp >= 2 {
        var s2 := Exec(p, i, s1).value;
        OneRuns(p, j, s2, Some(s2.sp));
      }
      ConsRuns(p, i, [j], s1, d);
    }
    AddOneRuns(p, down, a, w, [i] + [j], s, d);
    assert PreCode(down, a, w) == [Instr(OpLdValue(w), a)] + ([Instr(OpLd(w), 1)] + ([StepOp(down, w)] + ([i] + [j])));
  }

  lemma PostRuns(p: Platform, down: bool, a: Word, w: Width, s: State)
    requires s.sp + 3 <= |s.stack|
    ensures Foretold(s, Some(s.sp), ExecAll(p, PostCode(down, a, w), s))
  {
    hide SetLow, Load, Store, Low;
    var first, i, j := Instr(OpLd(W32), a), Ins(OpSt(w)), Ins(OpPop);
    var d := Some(s.sp);
    var s0 := Exec(p, first, s).value;
    forall s1: State | s1.sp == s0.sp + 1 && |s1.stack| == |s0.stack|
      ensures Foretold(s1, d, ExecAll(p, [i] + [j], s1))
    {
      var s2 := Exec(p, i, s1).value;
      OneRuns(p, j, s2, Some(s2.sp - 1));
      ConsRuns(p, i, [j], s1, d);
    }
    AddOneRuns(p, down, a, w, [i] + [j], s0, d);
    var rest := [Instr(OpLdValue(w), a)] + ([Instr(OpLd(w), 1)] + ([StepOp(down, w)] + ([i] + [j])));
    ConsRuns(p, first, rest, s, d);
    assert PostCode(down, a, w) == [first] + rest;
  }

  lemma StepRuns(p: Platform, f: Forest, s: State)
    requires f.Node? && f.kind in {KPreInc, KPreDec, KInc, KDec} && s.sp + 3 <= |s.stack|
    ensures Foretold(s, OwnHeight(f, s.sp), ExecAll(p, Own(f), s))
  {
    hide PreCode, PostCode, ExecAll;
    if f.child.Node? && f.child.kind == KId && DtWidth(f.dt).Some? {
      var a, w, down := VarAddress(f.child.sym), DtWidth(f.dt).value, f.kind in {KPreDec, KDec};
      if f.kind in {KPreInc, KPreDec} {
        PreRuns(p, down, a, w, s);
      } else {
        PostRuns(p, down, a, w, s);
      }
    } else {
      NoneRuns(p, s);
    }
  }

  /** A node's own code behaves as its height says, with three slots to spare. */
  lemma OwnRuns(p: Platform, f: Forest, s: State)
    requires f.Node? && ArgLength(f) <= ARG_MAX && s.sp + 3 <= |s.stack|
    ensures Foretold(s, OwnHeight(f, s.sp), ExecAll(p, Own(f), s))
    ensures OwnHeight(f, s.sp).Some? ==> OwnHeight(f, s.sp).value <= s.sp + 1
  {
    hide ExecAll, StoreCode, StepCode, BinCode, InvertCode, ReloadCode, Foretold;
    match f.kind
    case KBin(_) => OperatorRuns(p, f, s);
    case KInvert | KGetValue => OperatorRuns(p, f, s);
    case KFunc => CallRuns(p, f, s);
    case KPreInc | KPreDec | KInc | KDec => StepRuns(p, f, s);
    case KAssign => AssignRuns(p, f, s);
    case _ => LeafRuns(p, f, s);
  }

  lemma AssignRuns(p: Platform, f: Forest, s: State)
    requires f.Node? && f.kind == KAssign && s.sp <= |s.stack|
    ensures Foretold(s, OwnHeight(f, s.sp), ExecAll(p, Own(f), s))
  {
    hide ExecAll, StoreCode, Foretold;
    if f.child.Node? && f.child.kind == KId {
      StoreRuns(p, f.child.dt, s);
    } else if f.child.Node? && f.child.kind == KGetValue {
      StoreRuns(p, f.child.dt % 0x10, s);
    } else {
      NoneRuns(p, s);
    }
  }

  lemma LeafRuns(p: Platform, f: Forest, s: State)
    requires f.Node? && f.kind in {KUnknown, KGetAddr, KId, KChar, KInt, KLong, KString, KNull} && s.sp < |s.stack|
    ensures Foretold(s, OwnHeight(f, s.sp), ExecAll(p, Own(f), s))
  {
    hide ExecAll, Foretold;
    if Own(f) == [] {
      NoneRuns(p, s);
    } else {
      LoadRuns(p, Own(f)[0], s);
      assert Own(f) == [Own(f)[0]];
    }
  }

  // ----- forests and lines -----

  lemma {:induction false} LengthBound(f: Forest)
    ensures Length(f) <= Count(f)
  {
    if f.Node? {
      LengthBound(f.next);
    }
  }

  /** Sixteen nodes leave at most fourteen arguments to a call. */
  lemma ArgsFromPool(f: Forest)
    requires f.Node? && Count(f) <= NODE_MAX
    ensures ArgLength(f) <= NODE_MAX - 2 <= ARG_MAX
  {
    if f.child.Node? {
      LengthBound(f.child.next);
    }
  }

  lemma SplitRuns(p: Platform, a: seq<Instr>, b: seq<Instr>, s: State, d: Option<nat>, d': Option<nat>)
    requires Foretold(s, d, ExecAll(p, a, s))
    requires d.None? ==> d'.None?
    requires d.Some? ==> Foretold(ExecAll(p, a, s).value, d', ExecAll(p, b, ExecAll(p, a, s).value))
    ensures Foretold(s, d', ExecAll(p, a + b, s))
  {
    ExecAppend(p, a, b, s);
  }

  /** For every forest the pool can hold and every state with `Count(f) + 2` slots to spare: its code
      runs exactly when its height is defined, ends at that height, and never needs more slots. */
  lemma {:induction false} ForestRuns(p: Platform, f: Forest, s: State)
    requires Count(f) <= NODE_MAX && s.sp + Count(f) + 2 <= |s.stack|
    ensures Foretold(s, Height(f, s.sp), ExecAll(p, Code(f), s))
    ensures Height(f, s.sp).Some? ==> Height(f, s.sp).value <= s.sp + Count(f)
    decreases f, 1
  {
    hide ExecAll, TreeCode, OwnHeight, TreeHeight;
    if f.Nil? {
      NoneRuns(p, s);
    } else {
      TreeRuns(p, f, s);
      var d := TreeHeight(f, s.sp);
      if d.Some? {
        ForestRuns(p, f.next, ExecAll(p, TreeCode(f), s).value);
      }
      SplitRuns(p, TreeCode(f), Code(f.next), s, d, Height(f, s.sp));
    }
  }

  lemma {:induction false} TreeRuns(p: Platform, f: Forest, s: State)
    requires f.Node? && Count(f) <= NODE_MAX && s.sp + Count(f) + 2 <= |s.stack|
    ensures Foretold(s, TreeHeight(f, s.sp), ExecAll(p, TreeCode(f), s))
    ensures TreeHeight(f, s.sp).Some? ==> TreeHeight(f, s.sp).value <= s.sp + Count(f.child) + 1
    decreases f, 0
  {
    hide ExecAll, Own, OwnHeight;
    ForestRuns(p, f.child, s);
    var d := Height(f.child, s.sp);
    if d.Some? {
      ArgsFromPool(f);
      OwnRuns(p, f, ExecAll(p, Code(f.child), s).value);
    }
    SplitRuns(p, Code(f.child), Own(f), s, d, TreeHeight(f, s.sp));
  }

  /** The same for the code of a line. */
  lemma {:induction false} LineRuns(p: Platform, f: Forest, s: State)
    requires Count(f) <= NODE_MAX && s.sp + Count(f) + 2 <= |s.stack|
    ensures Foretold(s, LineHeight(f, s.sp), ExecAll(p, LineCode(f), s))
    ensures LineHeight(f, s.sp).Some? ==> LineHeight(f, s.sp).value <= s.sp + Count(f)
    decreases f
  {
    hide ExecAll, TreeCode, TreeHeight, Exec;
    if f.Nil? {
      NoneRuns(p, s);
    } else {
      TreeRuns(p, f, s);
      var d, d' := TreeHeight(f, s.sp), LineHeight(f, s.sp);
      if f.next.Nil? {
        assert TreeCode(f) + [] == TreeCode(f);
      } else {
        var rest := [Ins(OpPop)] + LineCode(f.next);
        if d.Some? {
          var s1 := ExecAll(p, TreeCode(f), s).value;
          PopRuns(p, s1);
          if s1.sp > 0 {
            LineRuns(p, f.next, Exec(p, Ins(OpPop), s1).value);
          }
          ConsRuns(p, Ins(OpPop), LineCode(f.next), s1, d');
        }
        SplitRuns(p, TreeCode(f), rest, s, d, d');
      }
    }
  }

  lemma PopRuns(p: Platform, s: State)
    requires s.sp <= |s.stack|
    ensures Exec(p, Ins(OpPop), s) == if s.sp == 0 then None else Some(s.(sp := s.sp - 1))
  {
  }

  // ----- forests without silent identifiers -----

  ghost predicate AllEmit(f: Forest) {
    f.Node? ==> (f.kind == KId ==> Emits(f.sym)) && AllEmit(f.child) && AllEmit(f.next)
  }

  lemma {:induction false} AnnotateShape(f: Forest, isAddr: bool)
    requires Complete(f) && AllEmit(f)
    ensures var a := Annotate(f, isAddr); Complete(a) && AllEmit(a) && Length(a) == Length(f) && Count(a) == Count(f)
  {
    if f.Node? {
      AnnotateShape(f.child, ChildIsAddr(f.kind, isAddr));
      AnnotateShape(f.next, false);
    }
  }

  /** A complete node finds its operands on the stack. */
  lemma OwnBalanced(f: Forest, h: nat, h1: nat)
    requires f.Node? && HasArity(f.kind, f.child) && (f.kind == KId ==> Emits(f.sym))
    requires h + Length(f.child) <= h1 && ArgLength(f) < 0x100
    ensures OwnHeight(f, h1).Some? && h + 1 <= OwnHeight(f, h1).value
  {
  }

  /** If every node has its operands and every identifier compiles to a load, no code reaches below where
      it started, and each tree leaves at least one slot and at most as many as it has nodes. */
  lemma {:induction false} Balanced(f: Forest, h: nat)
    requires Complete(f) && AllEmit(f) && Count(f) <= NODE_MAX
    ensures Height(f, h).Some? && h + Length(f) <= Height(f, h).value
    decreases f, 1
  {
    hide OwnHeight, HasArity, Emits;
    if f.Node? {
      TreeBalanced(f, h);
      Balanced(f.next, TreeHeight(f, h).value);
    }
  }

  lemma {:induction false} TreeBalanced(f: Forest, h: nat)
    requires f.Node? && Complete(f) && AllEmit(f) && Count(f) <= NODE_MAX
    ensures TreeHeight(f, h).Some? && h + 1 <= TreeHeight(f, h).value
    decreases f, 0
  {
    hide OwnHeight, HasArity, Emits;
    Balanced(f.child, h);
    ArgsFromPool(f);
    OwnBalanced(f, h, Height(f.child, h).value);
  }

  lemma {:induction false} LineBalanced(f: Forest, h: nat)
    requires Complete(f) && AllEmit(f) && Count(f) <= NODE_MAX
    ensures LineHeight(f, h).Some? && (f.Node? ==> h + 1 <= LineHeight(f, h).value)
    decreases f
  {
    hide TreeHeight, HasArity, Emits;
    if f.Node? {
      TreeBalanced(f, h);
      if f.next.Node? {
        LineBalanced(f.next, TreeHeight(f, h).value - 1);
      }
    }
  }

  /** Every complete line of the pool without silent identifiers runs, on every platform, with `n + 2` slots
      for its `n` nodes, and leaves between one and `n` of them. */
  lemma LineNeverUnderflows(p: Platform, f: Forest, s: State)
    requires Complete(f) && AllEmit(f) && f.Node? && Count(f) <= NODE_MAX && s.sp + Count(f) + 2 <= |s.stack|
    ensures var out := ExecAll(p, LineCode(Annotate(f, false)), s);
      out.Some? && s.sp + 1 <= out.value.sp <= s.sp + Count(f) && |out.value.stack| == |s.stack|
  {
    AnnotateShape(f, false);
    var a := Annotate(f, false);
    hide Annotate, Complete, AllEmit, LineHeight, LineCode, ExecAll;
    LineRuns(p, a, s);
    LineBalanced(a, s.sp);
  }
}
