/** `finsh_disassemble` (finsh_vm.c): a second decoder of the text segment, with operand sizes of its
    own. It visits the same instruction starts as the virtual machine fetches from. */
module Disassembler {
  import opened Machine
  import opened Bytecode
  import opened Codegen

  /** Bytes the disassembler skips for each opcode; `None` ends the listing. */
  function Skipped(op: Byte): Option<nat> {
    match op
    case 0x22 => Some(2)
    case 0x23 => Some(3)
    case 0x24 => Some(5)
    case 0x25 => Some(5)
    case 0x26 => Some(5)
    case 0x27 => Some(5)
    case 0x2C => Some(2)
    case _ => if 0x01 <= op <= 0x2F then Some(1) else None
  }

  /** Where each instruction of a program starts, the first one at `pc`. */
  function Offsets(code: seq<Instr>, pc: nat): seq<nat> {
    if code == [] then [] else [pc] + Offsets(code[1..], pc + |Encode(code[0])|)
  }

  /** Where the fetch loop fetches until it reaches `stop` or can go no further. */
  function Fetches(p: Platform, text: seq<Byte>, s: State, stop: nat): seq<nat>
    requires stop <= |text|
    decreases stop - s.pc
  {
    if s.pc >= stop then []
    else match Step(p, text, s) {
      case None => [s.pc]
      case Some(s1) => [s.pc] + Fetches(p, text, s1, stop)
    }
  }

  /** The disassembler's operand sizes are the virtual machine's. */
  lemma SameSizes(op: Op)
    requires op != NoOp
    ensures Skipped(OpNumber(op)) == Some(1 + OperandSize(op)) && OpNumber(op) != 0
  {
    match op
    case OpBin(b, w) => match w { case W8 => case W16 => case W32 => }
    case _ =>
  }

  lemma OwnHasNoNoOp(kind: Ast.Kind, dt: nat, isAddr: bool, value: Word, sym: Ast.Symbol, child: Ast.Forest)
    ensures forall i :: i in NodeCode(kind, dt, isAddr, value, sym, child) ==> i.op != NoOp
  {
    hide LeafType;
  }

  lemma {:induction false} CodeHasNoNoOp(f: Ast.Forest)
    ensures forall i :: i in Code(f) ==> i.op != NoOp
    ensures f.Node? ==> forall i :: i in TreeCode(f) ==> i.op != NoOp
  {
    hide NodeCode;
    if f.Node? {
      CodeHasNoNoOp(f.child);
      CodeHasNoNoOp(f.next);
      OwnHasNoNoOp(f.kind, f.dt, f.isAddr, f.value, f.sym, f.child);
    }
  }

  /** The compiler never emits a no-op, so a zero byte at an instruction start means the end. */
  lemma {:induction false} LineHasNoNoOp(f: Ast.Forest)
    ensures forall i :: i in LineCode(f) ==> i.op != NoOp
  {
    hide Code, TreeCode;
    if f.Node? {
      CodeHasNoNoOp(f);
      LineHasNoNoOp(f.next);
    }
  }

  /** Running a program successfully fetches exactly at its instruction starts. */
  lemma {:induction false} FetchesOffsets(p: Platform, code: seq<Instr>, text: seq<Byte>, s: State)
    requires forall i :: i in code ==> IsInstr(i)
    requires s.pc + |EncodeAll(code)| <= |text|
    requires text[s.pc..s.pc + |EncodeAll(code)|] == EncodeAll(code)
    requires ExecAll(p, code, s).Some?
    ensures Fetches(p, text, s, s.pc + |EncodeAll(code)|) == Offsets(code, s.pc)
    decreases |code|
  {
    hide Exec, Fetch, Step;
    if code != [] {
      var i, rest := code[0], code[1..];
      var stop := s.pc + |EncodeAll(code)|;
      SliceSplit(text, s.pc, Encode(i), EncodeAll(rest));
      StepEncoded(p, i, text, s);
      var mid := s.(pc := s.pc + |Encode(i)|);
      ExecIgnoresPc(p, i, s, mid.pc);
      var next := Exec(p, i, mid).value;
      ExecKeepsPc(p, i, mid);
      ExecAllIgnoresPc(p, rest, Exec(p, i, s).value, mid.pc);
      assert next == Exec(p, i, s).value.(pc := mid.pc);
      FetchesOffsets(p, rest, text, next);
    }
  }

  /** What stands in the text at an instruction start. */
  lemma AtStart(code: seq<Instr>, text: seq<Byte>, pc: nat)
    requires code != [] && pc + |EncodeAll(code)| <= |text|
    requires text[pc..pc + |EncodeAll(code)|] == EncodeAll(code)
    ensures pc < |text| && text[pc] == OpNumber(code[0].op)
    ensures pc + |Encode(code[0])| + |EncodeAll(code[1..])| == pc + |EncodeAll(code)|
    ensures text[pc + |Encode(code[0])|..pc + |EncodeAll(code)|] == EncodeAll(code[1..])
  {
    SliceSplit(text, pc, Encode(code[0]), EncodeAll(code[1..]));
    assert text[pc..pc + |Encode(code[0])|][0] == text[pc];
  }

  /** The listing of a compiled program names every instruction once, in order. The loop only stops at a
      byte that is zero: when the code fills the text segment there is none, and `overran` tells that the
      next byte would be read from behind the segment. */
  method Disassemble(text: array<Byte>, ghost code: seq<Instr>) returns (starts: seq<nat>, overran: bool)
    requires IsText(text[..], code)
    requires forall i :: i in code ==> i.op != NoOp
    ensures starts == Offsets(code, 0)
    ensures overran <==> |EncodeAll(code)| == text.Length
  {
    starts := [];
    var pc := 0;
    ghost var rest := code;
    hide EncodeAll, Encode, Skipped, Offsets, OpNumber;
    NoneLeft(pc);
    assert text[0..|EncodeAll(code)|] == text[..][..|EncodeAll(code)|];
    while pc < text.Length && text[pc] != 0
      invariant pc + |EncodeAll(rest)| == |EncodeAll(code)| && text[..][pc..pc + |EncodeAll(rest)|] == EncodeAll(rest)
      invariant forall i :: i in rest ==> i in code
      invariant starts + Offsets(rest, pc) == Offsets(code, 0)
      decreases text.Length - pc
    {
      SomeLeft(code, rest, text[..], pc);
      AtStart(rest, text[..], pc);
      SameSizes(rest[0].op);
      EncodedSize(rest[0]);
      OffsetsStep(rest, pc);
      starts := starts + [pc];
      pc := pc + Skipped(text[pc]).value;
      rest := rest[1..];
    }
    if rest != [] {
      AtStart(rest, text[..], pc);
      SameSizes(rest[0].op);
    }
    NoneLeft(pc);
    assert starts + [] == starts;
    overran := pc == text.Length;
  }

  lemma NoneLeft(pc: nat)
    ensures Offsets([], pc) == [] && EncodeAll([]) == []
  {
  }

  lemma SomeLeft(code: seq<Instr>, rest: seq<Instr>, text: seq<Byte>, pc: nat)
    requires IsText(text, code) && pc < |text| && text[pc] != 0
    requires pc + |EncodeAll(rest)| == |EncodeAll(code)|
    ensures rest != []
  {
    NoneLeft(pc);
  }

  lemma EncodedSize(i: Instr)
    ensures |Encode(i)| == 1 + OperandSize(i.op)
  {
  }

  lemma OffsetsStep(code: seq<Instr>, pc: nat)
    requires code != []
    ensures Offsets(code, pc) == [pc] + Offsets(code[1..], pc + |Encode(code[0])|)
  {
  }
}
