/** The byte code: instruction encoding (finsh_ops.h), the table that decodes it (finsh_ops.c),
    the effect of each operation, and the fetch loop of finsh_vm.c as a function. */
module Bytecode {
  import opened Machine

  const ARG_MAX: nat := 16

  datatype Op =
    | NoOp
    | OpBin(op: BinOp, w: Width)
    | OpInvert(w: Width)
    | OpLd(w: Width)
    | OpLdValue(w: Width)
    | OpSt(w: Width)
    | OpPop
    | OpCall
    | OpLdStack(w: Width)

  /** An operation with its operand (0 when it has none). */
  datatype Instr = Instr(op: Op, arg: Word)

  /** `FINSH_OP_*`: the number the compiler emits. */
  function OpNumber(op: Op): Byte {
    match op
    case NoOp => 0x00
    case OpBin(Add, w) => 0x01 + Index(w)
    case OpBin(Sub, w) => 0x04 + Index(w)
    case OpBin(Div, w) => 0x07 + Index(w)
    case OpBin(Mod, w) => 0x0A + Index(w)
    case OpBin(Mul, w) => 0x0D + Index(w)
    case OpBin(And, w) => 0x10 + Index(w)
    case OpBin(Or, w) => 0x13 + Index(w)
    case OpBin(Xor, w) => 0x16 + Index(w)
    case OpInvert(w) => 0x19 + Index(w)
    case OpBin(Shl, w) => 0x1C + Index(w)
    case OpBin(Shr, w) => 0x1F + Index(w)
    case OpLd(w) => 0x22 + Index(w)
    case OpLdValue(w) => 0x25 + Index(w)
    case OpSt(w) => 0x28 + Index(w)
    case OpPop => 0x2B
    case OpCall => 0x2C
    case OpLdStack(w) => 0x2D + Index(w)
  }

  function Index(w: Width): (i: int)
    ensures 0 <= i < 3
  {
    match w case W8 => 0 case W16 => 1 case W32 => 2
  }

  /** `op_table`: what the virtual machine calls for each number; there are 48 entries. */
  function OpTable(n: Byte): Option<Op> {
    match n
    case 0 => Some(NoOp)
    case 1 => Some(OpBin(Add, W8)) case 2 => Some(OpBin(Add, W16)) case 3 => Some(OpBin(Add, W32))
    case 4 => Some(OpBin(Sub, W8)) case 5 => Some(OpBin(Sub, W16)) case 6 => Some(OpBin(Sub, W32))
    case 7 => Some(OpBin(Div, W8)) case 8 => Some(OpBin(Div, W16)) case 9 => Some(OpBin(Div, W32))
    case 10 => Some(OpBin(Mod, W8)) case 11 => Some(OpBin(Mod, W16)) case 12 => Some(OpBin(Mod, W32))
    case 13 => Some(OpBin(Mul, W8)) case 14 => Some(OpBin(Mul, W16)) case 15 => Some(OpBin(Mul, W32))
    case 16 => Some(OpBin(And, W8)) case 17 => Some(OpBin(And, W16)) case 18 => Some(OpBin(And, W32))
    case 19 => Some(OpBin(Or, W8)) case 20 => Some(OpBin(Or, W16)) case 21 => Some(OpBin(Or, W32))
    case 22 => Some(OpBin(Xor, W8)) case 23 => Some(OpBin(Xor, W16)) case 24 => Some(OpBin(Xor, W32))
    case 25 => Some(OpInvert(W8)) case 26 => Some(OpInvert(W16)) case 27 => Some(OpInvert(W32))
    case 28 => Some(OpBin(Shl, W8)) case 29 => Some(OpBin(Shl, W16)) case 30 => Some(OpBin(Shl, W32))
    case 31 => Some(OpBin(Shr, W8)) case 32 => Some(OpBin(Shr, W16)) case 33 => Some(OpBin(Shr, W32))
    case 34 => Some(OpLd(W8)) case 35 => Some(OpLd(W16)) case 36 => Some(OpLd(W32))
    case 37 => Some(OpLdValue(W8)) case 38 => Some(OpLdValue(W16)) case 39 => Some(OpLdValue(W32))
    case 40 => Some(OpSt(W8)) case 41 => Some(OpSt(W16)) case 42 => Some(OpSt(W32))
    case 43 => Some(OpPop) case 44 => Some(OpCall)
    case 45 => Some(OpLdStack(W8)) case 46 => Some(OpLdStack(W16)) case 47 => Some(OpLdStack(W32))
    case _ => None
  }

  /** Width of the operand in the text, if the operation has one. */
  function Operand(op: Op): Option<Width> {
    match op
    case OpLd(w) => Some(w)
    case OpLdValue(_) => Some(W32)
    case OpCall => Some(W8)
    case _ => None
  }

  function OperandSize(op: Op): nat {
    if Operand(op).Some? then Operand(op).value.Size() else 0
  }

  predicate IsInstr(i: Instr) {
    match Operand(i.op)
    case None => i.arg == 0
    case Some(w) => Low(i.arg, w) == i.arg
  }

  function Encode(i: Instr): (bs: seq<Byte>)
    ensures |bs| == 1 + OperandSize(i.op)
  {
    [OpNumber(i.op)] + if Operand(i.op).Some? then ToBytes(i.arg, Operand(i.op).value) else []
  }

  function EncodeAll(code: seq<Instr>): seq<Byte> {
    if code == [] then [] else Encode(code[0]) + EncodeAll(code[1..])
  }

  // ----- the machine -----

  datatype State = State(stack: seq<Word>, sp: nat, pc: nat, mem: Mem)

  /** The effect of one operation; `None` where the C code would leave the stack or the
      argument vector. Slots at and above `sp` keep what was last written there. */
  function Exec(p: Platform, i: Instr, s: State): Option<State> {
    var st, sp := s.stack, s.sp;
    if sp > |st| then None else
    match i.op
    case NoOp => Some(s)
    case OpBin(op, w) =>
      if sp < 2 then None else
      var v := p.binary(op, w, Low(st[sp - 2], w), Low(st[sp - 1], w));
      Some(s.(stack := st[sp - 2 := SetLow(st[sp - 2], v, w)], sp := sp - 1))
    case OpInvert(w) =>
      if sp < 1 then None else
      var v := p.invert(w, Low(st[sp - 1], w));
      Some(s.(stack := st[sp - 1 := SetLow(st[sp - 1], v, w)]))
    case OpLd(w) =>
      if sp >= |st| then None else
      Some(s.(stack := st[sp := SetLow(st[sp], i.arg, w)], sp := sp + 1))
    case OpLdValue(w) =>
      if sp >= |st| then None else
      Some(s.(stack := st[sp := SetLow(st[sp], Load(s.mem, i.arg, w), w)], sp := sp + 1))
    case OpSt(w) =>
      if sp < 2 then None else
      Some(s.(mem := Store(s.mem, st[sp - 2], Low(st[sp - 1], w), w), sp := sp - 1))
    case OpPop =>
      if sp < 1 then None else Some(s.(sp := sp - 1))
    case OpCall =>
      var n := i.arg;
      if n > ARG_MAX || sp < n + 1 then None else
      var args := st[sp - n..sp];
      var (r, m) := p.call(st[sp - n - 1], if n == 0 then [0] else args, s.mem);
      Some(s.(stack := st[sp - n - 1 := r], sp := sp - n, mem := m))
    case OpLdStack(w) =>
      if sp < 1 then None else
      var a := st[sp - 1];
      Some(s.(stack := st[sp - 1 := SetLow(a, Load(s.mem, a, w), w)]))
  }

  function ExecAll(p: Platform, code: seq<Instr>, s: State): Option<State> {
    if code == [] then Some(s)
    else match Exec(p, code[0], s) {
      case None => None
      case Some(s1) => ExecAll(p, code[1..], s1)
    }
  }

  /** Fetch the operation at `pc` with its operand; `None` when there is no such opcode or the
      operand runs past the text segment. */
  function Fetch(text: seq<Byte>, pc: nat): Option<Instr>
    requires pc < |text|
  {
    match OpTable(text[pc])
    case None => None
    case Some(op) =>
      match Operand(op) {
        case None => Some(Instr(op, 0))
        case Some(w) =>
          if pc + 1 + w.Size() > |text| then None
          else Some(Instr(op, FromBytes(text[pc + 1..pc + 1 + w.Size()], w)))
      }
  }

  function Step(p: Platform, text: seq<Byte>, s: State): (r: Option<State>)
    requires s.pc < |text|
    ensures r.Some? ==> s.pc < r.value.pc
  {
    match Fetch(text, s.pc)
    case None => None
    case Some(i) => Exec(p, i, s.(pc := s.pc + 1 + OperandSize(i.op)))
  }

  /** The fetch loop, run until `pc` reaches `stop`; `finsh_vm_run` has `stop == FINSH_TEXT_MAX`. */
  function RunTo(p: Platform, text: seq<Byte>, s: State, stop: nat): Option<State>
    requires stop <= |text|
    decreases stop - s.pc
  {
    if s.pc >= stop then Some(s)
    else match Step(p, text, s) {
      case None => None
      case Some(s1) => RunTo(p, text, s1, stop)
    }
  }

  // ----- encoding and decoding agree -----

  lemma OpTableInverse(op: Op)
    ensures OpTable(OpNumber(op)) == Some(op)
  {
    match op
    case OpBin(Add, w) => match w { case W8 => case W16 => case W32 => }
    case _ =>
  }

  lemma FetchEncoded(i: Instr, text: seq<Byte>, pc: nat)
    requires IsInstr(i)
    requires pc + |Encode(i)| <= |text|
    requires text[pc..pc + |Encode(i)|] == Encode(i)
    ensures Fetch(text, pc) == Some(i)
  {
    var bs := Encode(i);
    assert text[pc] == bs[0];
    OpTableInverse(i.op);
    if Operand(i.op).Some? {
      var w := Operand(i.op).value;
      assert text[pc + 1..pc + 1 + w.Size()] == text[pc..pc + |bs|][1..];
      assert bs[1..] == ToBytes(i.arg, w);
      BytesRoundTrip(i.arg, w);
    }
  }

  lemma StepEncoded(p: Platform, i: Instr, text: seq<Byte>, s: State)
    requires IsInstr(i)
    requires s.pc + |Encode(i)| <= |text|
    requires text[s.pc..s.pc + |Encode(i)|] == Encode(i)
    ensures Step(p, text, s) == Exec(p, i, s.(pc := s.pc + |Encode(i)|))
  {
    FetchEncoded(i, text, s.pc);
  }

  lemma SliceSplit(bs: seq<Byte>, from: nat, a: seq<Byte>, b: seq<Byte>)
    requires from + |a + b| <= |bs|
    requires bs[from..from + |a + b|] == a + b
    ensures bs[from..from + |a|] == a
    ensures bs[from + |a|..from + |a| + |b|] == b
  {
    assert bs[from..from + |a|] == bs[from..from + |a + b|][..|a|];
    assert bs[from + |a|..from + |a| + |b|] == bs[from..from + |a + b|][|a|..];
  }

  lemma ExecIgnoresPc(p: Platform, i: Instr, s: State, pc: nat)
    ensures Exec(p, i, s.(pc := pc))
         == if Exec(p, i, s).None? then None else Some(Exec(p, i, s).value.(pc := pc))
  {
  }

  lemma ExecKeepsPc(p: Platform, i: Instr, s: State)
    ensures Exec(p, i, s).Some? ==> Exec(p, i, s).value.pc == s.pc
  {
  }

  lemma {:induction false} ExecAllIgnoresPc(p: Platform, code: seq<Instr>, s: State, pc: nat)
    ensures ExecAll(p, code, s.(pc := pc))
         == if ExecAll(p, code, s).None? then None else Some(ExecAll(p, code, s).value.(pc := pc))
  {
    if code != [] {
      ExecIgnoresPc(p, code[0], s, pc);
      if Exec(p, code[0], s).Some? {
        ExecAllIgnoresPc(p, code[1..], Exec(p, code[0], s).value, pc);
      }
    }
  }

  /** The fetch loop over encoded instructions performs exactly those instructions: it fetches at
      their starts and nowhere else, and stops just behind them. */
  lemma {:induction false} RunEncoded(p: Platform, code: seq<Instr>, text: seq<Byte>, s: State)
    requires forall i :: i in code ==> IsInstr(i)
    requires s.pc + |EncodeAll(code)| <= |text|
    requires text[s.pc..s.pc + |EncodeAll(code)|] == EncodeAll(code)
    ensures RunTo(p, text, s, s.pc + |EncodeAll(code)|)
         == ExecAll(p, code, s.(pc := s.pc + |EncodeAll(code)|))
    decreases |code|
  {
    hide Exec, Fetch;
    var stop := s.pc + |EncodeAll(code)|;
    if code == [] {
      assert s.(pc := s.pc) == s;
    } else {
      var i, rest := code[0], code[1..];
      assert EncodeAll(code) == Encode(i) + EncodeAll(rest);
      SliceSplit(text, s.pc, Encode(i), EncodeAll(rest));
      StepEncoded(p, i, text, s);
      var mid := s.(pc := s.pc + |Encode(i)|);
      ExecIgnoresPc(p, i, mid, stop);
      assert mid.(pc := stop) == s.(pc := stop);
      match Exec(p, i, mid) {
        case None =>
        case Some(next) =>
          ExecKeepsPc(p, i, mid);
          RunEncoded(p, rest, text, next);
      }
    }
  }

  lemma {:induction false} ExecAppend(p: Platform, a: seq<Instr>, b: seq<Instr>, s: State)
    ensures ExecAll(p, a + b, s)
         == if ExecAll(p, a, s).None? then None else ExecAll(p, b, ExecAll(p, a, s).value)
    decreases |a|
  {
    if a == [] {
      assert a + b == b;
    } else {
      assert (a + b)[1..] == a[1..] + b;
      if Exec(p, a[0], s).Some? {
        ExecAppend(p, a[1..], b, Exec(p, a[0], s).value);
      }
    }
  }

  lemma {:induction false} EncodeAppend(a: seq<Instr>, b: seq<Instr>)
    ensures EncodeAll(a + b) == EncodeAll(a) + EncodeAll(b)
    decreases |a|
  {
    if a == [] {
      assert a + b == b;
    } else {
      assert (a + b)[1..] == a[1..] + b;
      EncodeAppend(a[1..], b);
    }
  }

  lemma {:induction false} RunSplit(p: Platform, text: seq<Byte>, s: State, mid: nat, stop: nat)
    requires mid <= stop <= |text|
    requires RunTo(p, text, s, mid).Some?
    ensures RunTo(p, text, s, stop) == RunTo(p, text, RunTo(p, text, s, mid).value, stop)
    decreases mid - s.pc
  {
    if s.pc < mid {
      RunSplit(p, text, Step(p, text, s).value, mid, stop);
    }
  }

  /** Behind the code the cleared text segment is a run of no-ops up to its end. */
  lemma {:induction false} RunZeros(p: Platform, text: seq<Byte>, s: State)
    requires s.pc <= |text| && s.sp <= |s.stack|
    requires forall k :: s.pc <= k < |text| ==> text[k] == 0
    ensures RunTo(p, text, s, |text|) == Some(s.(pc := |text|))
    decreases |text| - s.pc
  {
    if s.pc < |text| {
      assert Fetch(text, s.pc) == Some(Instr(NoOp, 0));
      RunZeros(p, text, s.(pc := s.pc + 1));
    } else {
      assert s.(pc := s.pc) == s;
    }
  }

  /** The encoded instructions followed by zeros, as clearing and filling the text segment leaves it. */
  ghost predicate IsText(text: seq<Byte>, code: seq<Instr>) {
    var bs := EncodeAll(code);
    && |bs| <= |text|
    && text[..|bs|] == bs
    && forall k :: |bs| <= k < |text| ==> text[k] == 0
  }
}
