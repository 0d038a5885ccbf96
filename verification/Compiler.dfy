/** The compiler (finsh_compiler.c) as it runs: it rewrites pool nodes in place, advances the
    compile position and fills the text segment byte by byte. */
module Compiler {
  import opened Machine
  import opened Limits
  import opened Ast
  import opened Bytecode
  import opened Source
  import opened Codegen

  lemma {:induction false} EncodeSnoc(code: seq<Instr>, i: Instr)
    ensures EncodeAll(code + [i]) == EncodeAll(code) + Encode(i)
  {
    EncodeAppend(code, [i]);
    assert [i][1..] == [];
    assert EncodeAll([i]) == Encode(i);
  }

  lemma CodeParts(f: Forest)
    ensures f.Node? ==>
      && Code(f) == Code(f.child) + Own(f) + Code(f.next)
      && |EncodeAll(Code(f))| == |EncodeAll(Code(f.child))| + |EncodeAll(Own(f))| + |EncodeAll(Code(f.next))|
    ensures f.Nil? ==> Code(f) == [] && EncodeAll(Code(f)) == []
  {
    if f.Node? {
      EncodeAppend(Code(f.child) + Own(f), Code(f.next));
      EncodeAppend(Code(f.child), Own(f));
    }
  }

  /** Two pools that agree outside a set of indices. */
  ghost predicate Unchanged(pool: seq<NodeRec>, pool': seq<NodeRec>, except: set<nat>) {
    && |pool| == |pool'|
    && forall i :: 0 <= i < |pool| && i !in except ==> pool[i] == pool'[i]
  }

  function FinishedRec(pool: seq<NodeRec>, node: nat, isAddr: bool): NodeRec
    requires node < |pool| && NULL <= pool[node].child < |pool|
  {
    var n := pool[node];
    var dt := if n.child == NULL then LeafType(n.kind, n.sym, n.dt).0 else pool[n.child].dt;
    n.(isAddr := n.isAddr || (isAddr && !n.sym.SyscallSym?), dt := dt)
  }

  /** Setting the attributes of the root, once its child and siblings are checked, checks the forest. */
  lemma Finished(pool: seq<NodeRec>, pool': seq<NodeRec>, f: Forest, isAddr: bool)
    requires f.Node? && Distinct(f) && f.at < |pool|
    requires pool[f.at] == NodeRec(f.kind, f.dt, f.isAddr, f.value, f.sym, Root(f.next), Root(f.child))
    requires InPool(pool, Annotate(f.child, ChildIsAddr(f.kind, isAddr)))
    requires InPool(pool, Annotate(f.next, false))
    requires Root(f.child) < |pool|
    requires pool' == pool[f.at := FinishedRec(pool, f.at, isAddr)]
    ensures InPool(pool', Annotate(f, isAddr))
  {
    hide LeafType;
    AnnotateIndices(f.child, ChildIsAddr(f.kind, isAddr));
    AnnotateIndices(f.next, false);
    InPoolFrame(pool, pool', Annotate(f.child, ChildIsAddr(f.kind, isAddr)));
    InPoolFrame(pool, pool', Annotate(f.next, false));
  }

  lemma LineParts(g: Forest)
    requires g.Node?
    ensures Code(g.(next := Nil)) == TreeCode(g)
    ensures |EncodeAll(LineCode(g))|
         == |EncodeAll(TreeCode(g))|
          + if g.next.Nil? then 0 else |EncodeAll([Ins(OpPop)])| + |EncodeAll(LineCode(g.next))|
    ensures EncodeAll(LineCode(Nil)) == []
  {
    hide TreeCode;
    assert TreeCode(g.(next := Nil)) == TreeCode(g) by { TreeCodeOfCut(g); }
    assert TreeCode(g) + [] == TreeCode(g);
    if g.next.Node? {
      EncodeAppend(TreeCode(g), [Ins(OpPop)] + LineCode(g.next));
      EncodeAppend([Ins(OpPop)], LineCode(g.next));
    }
  }

  lemma TreeCodeOfCut(g: Forest)
    requires g.Node?
    ensures TreeCode(g.(next := Nil)) == TreeCode(g)
  {
    hide NodeCode;
  }

  class CodeGenerator {
    const nodes: array<NodeRec>
    const text: array<Byte>
    const stack: array<Word>
    var pc: nat
    var errno: nat
    ghost var emitted: seq<Instr>

    constructor (nodes: array<NodeRec>, text: array<Byte>, stack: array<Word>)
      ensures this.nodes == nodes && this.text == text && this.stack == stack
      ensures errno == ERROR_OK
    {
      this.nodes, this.text, this.stack := nodes, text, stack;
      pc, errno, emitted := 0, ERROR_OK, [];
    }

    /** The text holds the instructions emitted so far, and zeros behind them. */
    ghost predicate Valid()
      reads this, text
    {
      && pc <= text.Length
      && text[..pc] == EncodeAll(emitted)
      && forall k :: pc <= k < text.Length ==> text[k] == 0
    }

    ghost predicate Fits(code: seq<Instr>)
      reads this, text
    {
      pc + |EncodeAll(code)| <= text.Length
    }

    // ----- emission -----

    /** `finsh_code_byte`. */
    method CodeByte(x: Byte)
      requires pc < text.Length
      modifies this`pc, text
      ensures pc == old(pc) + 1
      ensures text[..] == old(text[..])[old(pc) := x]
    {
      text[pc] := x;
      pc := pc + 1;
    }

    /** An opcode and its operand: `finsh_code_byte`, then `finsh_code_byte/word/dword`. */
    method Emit(i: Instr)
      requires Valid() && pc + |Encode(i)| <= text.Length
      modifies this`pc, this`emitted, text
      ensures Valid() && emitted == old(emitted) + [i] && pc == old(pc) + |Encode(i)|
    {
      ghost var start := pc;
      CodeByte(OpNumber(i.op));
      assert text[..start + 1] == old(text[..start]) + [OpNumber(i.op)];
      if Operand(i.op).Some? {
        var bs := ToBytes(i.arg, Operand(i.op).value);
        var k := 0;
        while k < |bs|
          invariant 0 <= k <= |bs| && pc == start + 1 + k
          invariant text[..start + 1] == old(text[..start]) + [OpNumber(i.op)]
          invariant text[start + 1..pc] == bs[..k]
          invariant emitted == old(emitted)
          invariant forall j :: pc <= j < text.Length ==> text[j] == 0
        {
          CodeByte(bs[k]);
          k := k + 1;
        }
      }
      EncodeSnoc(emitted, i);
      assert text[..pc] == text[..start + 1] + text[start + 1..pc];
      assert text[..pc] == old(text[..start]) + Encode(i);
      emitted := emitted + [i];
    }

    /** The operations of one `case` of the switch, in order. */
    method EmitAll(code: seq<Instr>)
      requires Valid() && Fits(code)
      modifies this`pc, this`emitted, text
      ensures Valid() && emitted == old(emitted) + code
      ensures pc == old(pc) + |EncodeAll(code)|
    {
      for k := 0 to |code|
        invariant Valid() && emitted == old(emitted) + code[..k]
        invariant pc + |EncodeAll(code[k..])| == old(pc) + |EncodeAll(code)|
      {
        assert code[k..] == [code[k]] + code[k + 1..];
        assert code[..k + 1] == code[..k] + [code[k]];
        Emit(code[k]);
      }
      assert code[..|code|] == code;
    }

    // ----- finsh_type_check -----

    /** Type checking in place: afterwards the pool holds the checked forest, and no other node
        of the pool has changed. */
    method TypeCheck(node: int, isAddr: bool, ghost f: Forest)
      requires Root(f) == node && InPool(nodes[..], f) && Distinct(f)
      modifies nodes, this`errno
      ensures InPool(nodes[..], Annotate(f, isAddr))
      ensures Unchanged(old(nodes[..]), nodes[..], Indices(f))
      ensures errno == CheckError(f, old(errno))
      decreases f
    {
      if node != NULL {
        var n := nodes[node];
        ghost var pool0 := nodes[..];
        assert n == NodeRec(f.kind, f.dt, f.isAddr, f.value, f.sym, Root(f.next), Root(f.child));
        assert InPool(pool0, f.child) && InPool(pool0, f.next) && Distinct(f.child) && Distinct(f.next);
        assert Indices(f) == {f.at} + Indices(f.child) + Indices(f.next);
        assert f.child.Node? ==> f.child.at in Indices(f.child) && f.child.at < nodes.Length;
        assert CheckError(f, errno) == LeafError(f, CheckError(f.next, CheckError(f.child, errno)));
        hide LeafType, InPool, Distinct, Indices, CheckError, LeafError, Annotate;
        ghost var childIsAddr := ChildIsAddr(f.kind, isAddr);
        if n.kind in {KAssign, KPreInc, KPreDec, KGetAddr} {
          TypeCheck(n.child, true, f.child);
        } else if n.kind == KGetValue && isAddr {
          TypeCheck(n.child, false, f.child);
        } else {
          TypeCheck(n.child, isAddr, f.child);
        }
        ghost var pool1 := nodes[..];
        InPoolFrame(pool0, pool1, f.next);
        TypeCheck(n.sibling, false, f.next);
        ghost var pool2 := nodes[..];
        AnnotateIndices(f.child, childIsAddr);
        InPoolFrame(pool1, pool2, Annotate(f.child, childIsAddr));
        assert pool2[node] == n;
        FinishNode(node, isAddr, f);
      }
    }

    /** The attributes of a node whose child and siblings are checked. */
    method FinishNode(node: nat, isAddr: bool, ghost f: Forest)
      requires f.Node? && Distinct(f) && f.at == node < nodes.Length
      requires nodes[node] == NodeRec(f.kind, f.dt, f.isAddr, f.value, f.sym, Root(f.next), Root(f.child))
      requires InPool(nodes[..], Annotate(f.child, ChildIsAddr(f.kind, isAddr)))
      requires InPool(nodes[..], Annotate(f.next, false))
      modifies nodes, this`errno
      ensures InPool(nodes[..], Annotate(f, isAddr))
      ensures Unchanged(old(nodes[..]), nodes[..], {f.at})
      ensures errno == LeafError(f, old(errno))
    {
      hide LeafType;
      ghost var pool := nodes[..];
      assert f.child.Node? ==> f.child.at in Indices(f.child);
      assert InPool(nodes[..], Annotate(f.child, ChildIsAddr(f.kind, isAddr)));
      var n := nodes[node];
      if !(n.sym.SyscallSym? && !n.isAddr) {
        nodes[node] := n.(isAddr := n.isAddr || isAddr);
      }
      if n.child != NULL {
        nodes[node] := nodes[node].(dt := nodes[n.child].dt);
      } else {
        CheckLeaf(node);
      }
      assert nodes[..] == pool[node := FinishedRec(pool, node, isAddr)];
      Finished(pool, nodes[..], f, isAddr);
    }

    /** The data type of a node without a child. */
    method CheckLeaf(node: nat)
      requires node < nodes.Length
      modifies nodes, this`errno
      ensures var n := old(nodes[node]);
        && nodes[..] == old(nodes[..])[node := n.(dt := LeafType(n.kind, n.sym, n.dt).0)]
        && errno == if LeafType(n.kind, n.sym, n.dt).1 then ERROR_UNKNOWN_TYPE else old(errno)
    {
      var n := nodes[node];
      if n.kind == KId {
        if n.sym.VarSym? || n.sym.SysvarSym? {
          match n.sym.ty {
            case TVoid => nodes[node] := n.(dt := DT_VOID);
            case TChar | TUChar => nodes[node] := n.(dt := DT_BYTE);
            case TShort | TUShort => nodes[node] := n.(dt := DT_WORD);
            case TInt | TUInt | TLong | TULong => nodes[node] := n.(dt := DT_DWORD);
            case TCharP | TVoidP | TShortP | TIntP | TLongP => nodes[node] := n.(dt := DT_DWORD);
            case TUnknown => errno := ERROR_UNKNOWN_TYPE;
          }
        }
      } else if n.kind == KChar {
        nodes[node] := n.(dt := DT_BYTE);
      } else if n.kind in {KInt, KLong, KString, KNull} {
        nodes[node] := n.(dt := DT_DWORD);
      }
    }

    // ----- finsh_compile -----

    method CompileId(n: NodeRec)
      requires Valid() && Fits(IdCode(n.sym, n.isAddr))
      modifies this`pc, this`emitted, text
      ensures Valid() && emitted == old(emitted) + IdCode(n.sym, n.isAddr)
      ensures pc == old(pc) + |EncodeAll(IdCode(n.sym, n.isAddr))|
    {
      match n.sym
      case NoSymbol =>
      case SyscallSym(func, _) => EmitAll([Instr(OpLd(W32), func)]);
      case VarSym(ty, addr) => CompileVariable(ty, addr, n.isAddr);
      case SysvarSym(ty, addr, _) => CompileVariable(ty, addr, n.isAddr);
    }

    method CompileVariable(ty: FinshType, addr: Word, isAddr: bool)
      requires Valid() && Fits(IdCode(VarSym(ty, addr), isAddr))
      modifies this`pc, this`emitted, text
      ensures Valid() && emitted == old(emitted) + IdCode(VarSym(ty, addr), isAddr)
      ensures pc == old(pc) + |EncodeAll(IdCode(VarSym(ty, addr), isAddr))|
    {
      match ty
      case TChar | TUChar => EmitAll([Instr(if isAddr then OpLd(W32) else OpLdValue(W8), addr)]);
      case TShort | TUShort => EmitAll([Instr(if isAddr then OpLd(W32) else OpLdValue(W16), addr)]);
      case TInt | TUInt | TLong | TULong | TCharP | TShortP | TIntP | TLongP =>
        EmitAll([Instr(if isAddr then OpLd(W32) else OpLdValue(W32), addr)]);
      case TUnknown | TVoid | TVoidP =>
    }

    method CompileBin(op: BinOp, dt: nat)
      requires Valid() && Fits(BinCode(op, dt))
      modifies this`pc, this`emitted, text
      ensures Valid() && emitted == old(emitted) + BinCode(op, dt)
      ensures pc == old(pc) + |EncodeAll(BinCode(op, dt))|
    {
      if dt == DT_BYTE {
        EmitAll([Ins(OpBin(op, W8))]);
      } else if dt == DT_WORD {
        EmitAll([Ins(OpBin(op, W16))]);
      } else if dt == DT_DWORD {
        EmitAll([Ins(OpBin(op, W32))]);
      }
    }

    method CompileInvert(dt: nat)
      requires Valid() && Fits(InvertCode(dt))
      modifies this`pc, this`emitted, text
      ensures Valid() && emitted == old(emitted) + InvertCode(dt)
      ensures pc == old(pc) + |EncodeAll(InvertCode(dt))|
    {
      if dt == DT_BYTE {
        EmitAll([Ins(OpInvert(W8))]);
      } else if dt == DT_WORD {
        EmitAll([Ins(OpInvert(W16))]);
      } else if dt == DT_DWORD {
        EmitAll([Ins(OpInvert(W32))]);
      }
    }

    method CompileReload(dt: nat)
      requires Valid() && Fits(ReloadCode(dt))
      modifies this`pc, this`emitted, text
      ensures Valid() && emitted == old(emitted) + ReloadCode(dt)
      ensures pc == old(pc) + |EncodeAll(ReloadCode(dt))|
    {
      if dt == DT_BYTE {
        EmitAll([Ins(OpLdStack(W8))]);
      } else if dt == DT_WORD {
        EmitAll([Ins(OpLdStack(W16))]);
      } else if dt == DT_DWORD {
        EmitAll([Ins(OpLdStack(W32))]);
      }
    }

    /** Store and load back at the width of the target. */
    method CompileStore(dt: nat)
      requires Valid() && Fits(StoreCode(dt))
      modifies this`pc, this`errno, this`emitted, text
      ensures Valid() && emitted == old(emitted) + StoreCode(dt)
      ensures pc == old(pc) + |EncodeAll(StoreCode(dt))|
      ensures errno == if DtWidth(dt).None? then ERROR_UNKNOWN_TYPE else old(errno)
    {
      if dt == DT_BYTE {
        EmitAll([Ins(OpSt(W8)), Ins(OpLdStack(W8))]);
      } else if dt == DT_WORD {
        EmitAll([Ins(OpSt(W16)), Ins(OpLdStack(W16))]);
      } else if dt == DT_DWORD {
        EmitAll([Ins(OpSt(W32)), Ins(OpLdStack(W32))]);
      } else {
        errno := ERROR_UNKNOWN_TYPE;
      }
    }

    method CompilePreStep(op: BinOp, a: Word, dt: nat)
      requires op in {Add, Sub}
      requires Valid() && Fits(StepCode(true, op == Sub, a, dt))
      modifies this`pc, this`emitted, text
      ensures Valid() && emitted == old(emitted) + StepCode(true, op == Sub, a, dt)
      ensures pc == old(pc) + |EncodeAll(StepCode(true, op == Sub, a, dt))|
    {
      if dt == DT_BYTE {
        EmitAll([Instr(OpLdValue(W8), a), Instr(OpLd(W8), 1), Ins(OpBin(op, W8)), Ins(OpSt(W8)), Ins(OpLdStack(W32))]);
      } else if dt == DT_WORD {
        EmitAll([Instr(OpLdValue(W16), a), Instr(OpLd(W16), 1), Ins(OpBin(op, W16)), Ins(OpSt(W16)),
            Ins(OpLdStack(W32))]);
      } else if dt == DT_DWORD {
        EmitAll([Instr(OpLdValue(W32), a), Instr(OpLd(W32), 1), Ins(OpBin(op, W32)), Ins(OpSt(W32)),
            Ins(OpLdStack(W32))]);
      }
    }

    method CompilePostStep(op: BinOp, a: Word, dt: nat)
      requires op in {Add, Sub}
      requires Valid() && Fits(StepCode(false, op == Sub, a, dt))
      modifies this`pc, this`emitted, text
      ensures Valid() && emitted == old(emitted) + StepCode(false, op == Sub, a, dt)
      ensures pc == old(pc) + |EncodeAll(StepCode(false, op == Sub, a, dt))|
    {
      if dt == DT_BYTE {
        EmitAll([Instr(OpLd(W32), a), Instr(OpLdValue(W8), a), Instr(OpLd(W8), 1), Ins(OpBin(op, W8)), Ins(OpSt(W8)),
            Ins(OpPop)]);
      } else if dt == DT_WORD {
        EmitAll([Instr(OpLd(W32), a), Instr(OpLdValue(W16), a), Instr(OpLd(W16), 1), Ins(OpBin(op, W16)),
            Ins(OpSt(W16)), Ins(OpPop)]);
      } else if dt == DT_DWORD {
        EmitAll([Instr(OpLd(W32), a), Instr(OpLdValue(W32), a), Instr(OpLd(W32), 1), Ins(OpBin(op, W32)),
            Ins(OpSt(W32)), Ins(OpPop)]);
      }
    }

    /** The number of siblings behind a node. */
    method CountSiblings(node: int, ghost f: Forest) returns (parameters: nat)
      requires Root(f) == node && InPool(nodes[..], f)
      ensures parameters == Length(f)
    {
      parameters := 0;
      var sibling := node;
      ghost var g := f;
      while sibling != NULL
        invariant Root(g) == sibling && InPool(nodes[..], g)
        invariant parameters + Length(g) == Length(f)
        decreases g
      {
        parameters := parameters + 1;
        sibling := nodes[sibling].sibling;
        g := g.next;
      }
    }

    /** The switch over the node type: leaves and plain operators. */
    method CompileOwn(node: int, ghost f: Forest)
      requires f.Node? && Root(f) == node && InPool(nodes[..], f) && HasOperands(f)
      requires Valid() && Fits(Own(f))
      modifies this`pc, this`errno, this`emitted, text
      ensures Valid() && emitted == old(emitted) + Own(f)
      ensures pc == old(pc) + |EncodeAll(Own(f))|
      ensures errno == OwnError(f, old(errno))
    {
      assert EncodeAll([]) == [];
      var n := nodes[node];
      assert n == NodeRec(f.kind, f.dt, f.isAddr, f.value, f.sym, Root(f.next), Root(f.child));
      hide EncodeAll, BinCode, InvertCode, ReloadCode, IdCode, InPool, HasOperands;
      match n.kind
      case KId => CompileId(n);
      case KChar => EmitAll([Instr(OpLd(W8), n.value % 0x100)]);
      case KInt | KLong => EmitAll([Instr(OpLd(W32), n.value)]);
      case KNull | KString => EmitAll([Instr(OpLd(W32), n.value)]);
      case KBin(op) => CompileBin(op, n.dt);
      case KInvert => CompileInvert(n.dt);
      case KGetValue =>
        if !n.isAddr { CompileReload(n.dt); }
      case KGetAddr =>
      case KUnknown => errno := ERROR_UNKNOWN_NODE;
      case _ => CompileOnOperand(node, f);
    }

    /** The cases that look at the first operand. */
    method CompileOnOperand(node: int, ghost f: Forest)
      requires f.Node? && Root(f) == node && InPool(nodes[..], f) && f.child.Node?
      requires f.kind in {KFunc, KAssign, KPreInc, KPreDec, KInc, KDec}
      requires Valid() && Fits(Own(f))
      modifies this`pc, this`errno, this`emitted, text
      ensures Valid() && emitted == old(emitted) + Own(f)
      ensures pc == old(pc) + |EncodeAll(Own(f))|
      ensures errno == OwnError(f, old(errno))
    {
      assert EncodeAll([]) == [];
      var n := nodes[node];
      var c := nodes[n.child];
      ghost var g := f.child;
      assert c == NodeRec(g.kind, g.dt, g.isAddr, g.value, g.sym, Root(g.next), Root(g.child));
      assert n.kind == f.kind && n.dt == f.dt && InPool(nodes[..], g.next);
      hide EncodeAll, StoreCode, StepCode, InPool, VarAddress;
      match n.kind
      case KFunc =>
        var parameters := CountSiblings(c.sibling, g.next);
        EmitAll([Instr(OpCall, parameters % 0x100)]);
      case KAssign =>
        if c.kind == KId {
          CompileStore(c.dt);
        } else if c.kind == KGetValue {
          CompileStore(c.dt % 0x10);
        }
      case KPreInc =>
        if c.kind == KId { CompilePreStep(Add, VarAddress(c.sym), n.dt); }
      case KPreDec =>
        if c.kind == KId { CompilePreStep(Sub, VarAddress(c.sym), n.dt); }
      case KInc =>
        if c.kind == KId { CompilePostStep(Add, VarAddress(c.sym), n.dt); }
      case KDec =>
        if c.kind == KId { CompilePostStep(Sub, VarAddress(c.sym), n.dt); }
    }

    /** Child, then node, then sibling: exactly the code of the forest is appended. */
    method Compile(node: int, ghost f: Forest)
      requires Root(f) == node && InPool(nodes[..], f) && HasOperands(f)
      requires Valid() && Fits(Code(f))
      modifies this`pc, this`errno, this`emitted, text
      ensures Valid() && emitted == old(emitted) + Code(f)
      ensures pc == old(pc) + |EncodeAll(Code(f))|
      ensures errno == CompileError(f, old(errno))
      decreases f
    {
      hide Own, Code, TreeCode, EncodeAll, OwnError;
      CodeParts(f);
      if node != NULL {
        var n := nodes[node];
        CodeParts(f.child);
        CodeParts(f.next);
        if n.child != NULL {
          Compile(n.child, f.child);
        }
        CompileOwn(node, f);
        if n.sibling != NULL {
          Compile(n.sibling, f.next);
        }
      }
    }

    // ----- finsh_compiler_run -----

    /** Clear the text segment and the first stack slot. */
    method Reset()
      requires stack.Length > 0
      modifies text, stack, this`pc, this`emitted
      ensures Valid() && emitted == [] && pc == 0
      ensures stack[..] == old(stack[..])[0 := 0]
    {
      for k := 0 to text.Length
        invariant forall j :: 0 <= j < k ==> text[j] == 0
        invariant stack[..] == old(stack[..])
      {
        text[k] := 0;
      }
      stack[0] := 0;
      pc, emitted := 0, [];
    }

    /** One turn of the loop: cut the statement off its siblings, compile it, pop its value. */
    method RunStatement(current: nat, ghost g: Forest) returns (sibling: int)
      requires g.Node? && Root(g) == current && InPool(nodes[..], g) && Distinct(g) && HasOperands(g)
      requires Valid() && Fits(LineCode(g))
      modifies nodes, text, this`pc, this`errno, this`emitted
      ensures Root(g.next) == sibling && InPool(nodes[..], g.next)
      ensures Valid() && Fits(LineCode(g.next)) && emitted + LineCode(g.next) == old(emitted) + LineCode(g)
      ensures errno == OwnError(g, CompileError(g.child, old(errno)))
    {
      hide NodeCode, Code;
      LineParts(g);
      assert CompileError(g.(next := Nil), errno) == OwnError(g, CompileError(g.child, errno));
      ghost var pool := nodes[..];
      assert HasOperands(g.(next := Nil)) && g.at !in Indices(g.child) + Indices(g.next);
      sibling := nodes[current].sibling;
      nodes[current] := nodes[current].(sibling := NULL);
      InPoolFrame(pool, nodes[..], g.child);
      InPoolFrame(pool, nodes[..], g.next);
      assert InPool(nodes[..], g.(next := Nil));
      hide OwnError, CompileError, InPool, Distinct, HasOperands, EncodeAll, Code, TreeCode;
      Compile(current, g.(next := Nil));
      if sibling != NULL {
        EmitAll([Ins(OpPop)]);
      }
    }

    /** Type check the statements, then compile them one by one: the text segment ends up holding
        the code of the line. */
    method Run(node: int, ghost f: Forest)
      requires Root(f) == node && InPool(nodes[..], f) && Distinct(f) && HasOperands(f)
      requires |EncodeAll(LineCode(Annotate(f, false)))| <= text.Length && stack.Length > 0
      modifies nodes, text, stack, this
      ensures IsText(text[..], LineCode(Annotate(f, false)))
      ensures stack[..] == old(stack[..])[0 := 0]
      ensures errno == LineError(Annotate(f, false), CheckError(f, old(errno)))
    {
      hide OwnError, CheckError, CompileError, EncodeAll, Code, TreeCode, Annotate;
      TypeCheck(node, false, f);
      Reset();
      ghost var line := Annotate(f, false);
      ghost var checked := errno;
      AnnotateIndices(f, false);
      var sibling := node;
      ghost var g := line;
      while sibling != NULL
        invariant Root(g) == sibling && InPool(nodes[..], g) && Distinct(g) && HasOperands(g)
        invariant Valid() && emitted + LineCode(g) == LineCode(line) && Fits(LineCode(g))
        invariant LineError(g, errno) == LineError(line, checked)
        invariant stack[..] == old(stack[..])[0 := 0]
        decreases g
      {
        sibling := RunStatement(sibling, g);
        g := g.next;
      }
      assert emitted + [] == emitted;
    }
  }

  lemma {:induction false} AnnotateIndices(f: Forest, isAddr: bool)
    ensures Indices(Annotate(f, isAddr)) == Indices(f)
    ensures Distinct(f) ==> Distinct(Annotate(f, isAddr))
    ensures Length(Annotate(f, isAddr)) == Length(f) && Root(Annotate(f, isAddr)) == Root(f)
    ensures Count(Annotate(f, isAddr)) == Count(f)
    ensures HasOperands(f) ==> HasOperands(Annotate(f, isAddr))
  {
    if f.Node? {
      AnnotateIndices(f.child, ChildIsAddr(f.kind, isAddr));
      AnnotateIndices(f.next, false);
    }
  }
}
