/** finsh_compiler.c as functions on forests: what type checking does to the nodes and which
    instructions are emitted for them. */
module Codegen {
  import opened Machine
  import opened Limits
  import opened Ast
  import opened Bytecode
  import opened Source

  // ----- finsh_type_check -----

  /** Whether the child of a node is checked for its address. */
  predicate ChildIsAddr(kind: Kind, isAddr: bool) {
    kind in {KAssign, KPreInc, KPreDec, KGetAddr} || (kind != KGetValue && isAddr)
  }

  /** The data type recorded for an identifier of the given type, if it is a known one. */
  function DeclaredType(t: FinshType): Option<nat> {
    match t
    case TUnknown => None
    case TVoid => Some(DT_VOID)
    case TChar | TUChar => Some(DT_BYTE)
    case TShort | TUShort => Some(DT_WORD)
    case _ => Some(DT_DWORD)
  }

  /** The data type of a childless node; whether it is an error comes second. */
  function LeafType(kind: Kind, sym: Symbol, dt: nat): (nat, bool) {
    match kind
    case KId =>
      if sym.VarSym? || sym.SysvarSym? then
        match DeclaredType(sym.ty) {
          case None => (dt, true)
          case Some(d) => (d, false)
        }
      else (dt, false)
    case KChar => (DT_BYTE, false)
    case KInt | KLong | KString | KNull => (DT_DWORD, false)
    case _ => (dt, false)
  }

  function Annotate(f: Forest, isAddr: bool): (a: Forest)
    ensures a.Node? == f.Node?
  {
    if f.Nil? then Nil
    else
      var child := Annotate(f.child, ChildIsAddr(f.kind, isAddr));
      var next := Annotate(f.next, false);
      var dt := if child.Node? then child.dt else LeafType(f.kind, f.sym, f.dt).0;
      Node(f.at, f.kind, dt, f.isAddr || (isAddr && !f.sym.SyscallSym?), f.value, f.sym, child, next)
  }

  function LeafError(f: Forest, err: nat): nat
    requires f.Node?
  {
    if f.child.Nil? && LeafType(f.kind, f.sym, f.dt).1 then ERROR_UNKNOWN_TYPE else err
  }

  /** The error code after type checking: the last error set wins. */
  function CheckError(f: Forest, err: nat): nat {
    if f.Nil? then err else LeafError(f, CheckError(f.next, CheckError(f.child, err)))
  }

  // ----- finsh_compile -----

  function Ins(op: Op): Instr {
    Instr(op, 0)
  }

  /** Code for an identifier. */
  function IdCode(sym: Symbol, isAddr: bool): seq<Instr> {
    match sym
    case NoSymbol => []
    case SyscallSym(func, _) => [Instr(OpLd(W32), func)]
    case _ =>
      match TypeWidth(sym.ty) {
        case None => []
        case Some(w) => [if isAddr then Instr(OpLd(W32), sym.addr) else Instr(OpLdValue(w), sym.addr)]
      }
  }

  /** The address `++` and `--` take: the identifier is always read as a `finsh_var`. */
  function VarAddress(sym: Symbol): Word {
    match sym
    case VarSym(_, addr) => addr
    case SysvarSym(_, _, misread) => misread
    case SyscallSym(_, misread) => misread
    case NoSymbol => 0
  }

  function StepOp(down: bool, w: Width): Instr {
    Ins(OpBin(if down then Sub else Add, w))
  }

  function PreCode(down: bool, a: Word, w: Width): seq<Instr> {
    [Instr(OpLdValue(w), a), Instr(OpLd(w), 1), StepOp(down, w), Ins(OpSt(w)), Ins(OpLdStack(W32))]
  }

  function PostCode(down: bool, a: Word, w: Width): seq<Instr> {
    [Instr(OpLd(W32), a), Instr(OpLdValue(w), a), Instr(OpLd(w), 1), StepOp(down, w), Ins(OpSt(w)), Ins(OpPop)]
  }

  // An operation comes in three widths, chosen by a data type; for any other there is no code.

  function BinCode(op: BinOp, dt: nat): seq<Instr> {
    match DtWidth(dt) case None => [] case Some(w) => [Ins(OpBin(op, w))]
  }

  function InvertCode(dt: nat): seq<Instr> {
    match DtWidth(dt) case None => [] case Some(w) => [Ins(OpInvert(w))]
  }

  function ReloadCode(dt: nat): seq<Instr> {
    match DtWidth(dt) case None => [] case Some(w) => [Ins(OpLdStack(w))]
  }

  function StoreCode(dt: nat): seq<Instr> {
    match DtWidth(dt) case None => [] case Some(w) => [Ins(OpSt(w)), Ins(OpLdStack(w))]
  }

  function StepCode(pre: bool, down: bool, a: Word, dt: nat): seq<Instr> {
    match DtWidth(dt)
    case None => []
    case Some(w) => if pre then PreCode(down, a, w) else PostCode(down, a, w)
  }

  /** Code for a node, behind the code of its children. */
  function NodeCode(kind: Kind, dt: nat, isAddr: bool, value: Word, sym: Symbol, child: Forest): seq<Instr> {
    match kind
    case KUnknown => []
    case KId => IdCode(sym, isAddr)
    case KChar => [Instr(OpLd(W8), value % 0x100)]
    case KInt | KLong | KNull | KString => [Instr(OpLd(W32), value)]
    case KBin(op) => BinCode(op, dt)
    case KInvert => InvertCode(dt)
    case KFunc =>
      var n := if child.Nil? then 0 else Length(child.next);
      [Instr(OpCall, n % 0x100)]
    case KAssign =>
      if child.Nil? then []
      else if child.kind == KId then StoreCode(child.dt)
      else if child.kind == KGetValue then StoreCode(child.dt % 0x10)
      else []
    case KPreInc | KPreDec | KInc | KDec =>
      if child.Node? && child.kind == KId then
        StepCode(kind in {KPreInc, KPreDec}, kind in {KPreDec, KDec}, VarAddress(child.sym), dt)
      else []
    case KGetValue => if isAddr then [] else ReloadCode(dt)
    case KGetAddr => []
  }

  function Own(f: Forest): seq<Instr>
    requires f.Node?
  {
    NodeCode(f.kind, f.dt, f.isAddr, f.value, f.sym, f.child)
  }

  function TreeCode(f: Forest): seq<Instr>
    requires f.Node?
    decreases f, 0
  {
    Code(f.child) + Own(f)
  }

  function Code(f: Forest): seq<Instr>
    decreases f, 1
  {
    if f.Nil? then [] else TreeCode(f) + Code(f.next)
  }

  /** The error code after compiling a tree and its siblings. */
  function OwnError(f: Forest, err: nat): nat
    requires f.Node?
  {
    if f.kind == KUnknown then ERROR_UNKNOWN_NODE
    else if f.kind == KAssign && f.child.Node?
         && ((f.child.kind == KId && DtWidth(f.child.dt).None?)
             || (f.child.kind == KGetValue && DtWidth(f.child.dt % 0x10).None?))
    then ERROR_UNKNOWN_TYPE
    else err
  }

  function CompileError(f: Forest, err: nat): nat {
    if f.Nil? then err
    else CompileError(f.next, OwnError(f, CompileError(f.child, err)))
  }

  // ----- finsh_compiler_run -----

  /** The statements of a checked line, each result but the last popped. */
  function LineCode(f: Forest): seq<Instr> {
    if f.Nil? then []
    else TreeCode(f) + (if f.next.Nil? then [] else [Ins(OpPop)] + LineCode(f.next))
  }

  function LineError(f: Forest, err: nat): nat {
    if f.Nil? then err
    else LineError(f.next, OwnError(f, CompileError(f.child, err)))
  }

  lemma OwnIsEncodable(f: Forest)
    requires f.Node?
    ensures forall i :: i in Own(f) ==> IsInstr(i)
  {
    var down := f.kind in {KPreDec, KDec};
    forall w, a: Word
      ensures forall i :: i in PreCode(down, a, w) ==> IsInstr(i)
      ensures forall i :: i in PostCode(down, a, w) ==> IsInstr(i)
    {
      match w case W8 => case W16 => case W32 =>
    }
    var dt := if f.kind == KAssign && f.child.Node? then f.child.dt else f.dt;
    match DtWidth(dt) case None => case Some(w) =>
  }

  /** Every emitted instruction has an encodable operand. */
  lemma {:induction false} CodeIsEncodable(f: Forest)
    ensures forall i :: i in Code(f) ==> IsInstr(i)
    ensures f.Node? ==> forall i :: i in TreeCode(f) ==> IsInstr(i)
  {
    if f.Node? {
      CodeIsEncodable(f.child);
      CodeIsEncodable(f.next);
      OwnIsEncodable(f);
    }
  }

  lemma {:induction false} LineIsEncodable(f: Forest)
    ensures forall i :: i in LineCode(f) ==> IsInstr(i)
  {
    if f.Node? {
      CodeIsEncodable(f);
      LineIsEncodable(f.next);
    }
  }

  /** What the compiler relies on when it follows child links: the operators that look at their
      first operand have one. */
  ghost predicate HasOperands(f: Forest) {
    f.Node? ==>
      && (f.kind in {KFunc, KAssign, KPreInc, KPreDec, KInc, KDec} ==> f.child.Node?)
      && HasOperands(f.child)
      && HasOperands(f.next)
  }
}
