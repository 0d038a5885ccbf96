/** The virtual machine (finsh_vm.c, finsh_ops.c) as it runs: operations update the stack array,
    the stack pointer, the program counter and memory in place. */
module Vm {
  import opened Machine
  import opened Bytecode

  class VirtualMachine {
    const text: array<Byte>
    const stack: array<Word>
    const platform: Platform
    var sp: nat
    var pc: nat
    var mem: Mem

    constructor (text: array<Byte>, stack: array<Word>, platform: Platform, mem: Mem)
      ensures this.text == text && this.stack == stack && this.platform == platform && this.mem == mem
    {
      this.text, this.stack, this.platform, this.mem := text, stack, platform, mem;
      sp, pc := 0, 0;
    }

    ghost function Abs(): State
      reads this, stack
    {
      State(stack[..], sp, pc, mem)
    }

    /** `Exec` is defined here and gives the new state. */
    ghost predicate Can(i: Instr)
      reads this, stack
    {
      Exec(platform, i, Abs()).Some?
    }

    ghost function Would(i: Instr): State
      requires Can(i)
      reads this, stack
    {
      Exec(platform, i, Abs()).value
    }

    method Binary(op: BinOp, w: Width)
      requires Can(Instr(OpBin(op, w), 0))
      modifies this`sp, stack
      ensures Abs() == old(Would(Instr(OpBin(op, w), 0)))
    {
      var v := platform.binary(op, w, Low(stack[sp - 2], w), Low(stack[sp - 1], w));
      stack[sp - 2] := SetLow(stack[sp - 2], v, w);
      sp := sp - 1;
    }

    method Invert(w: Width)
      requires Can(Instr(OpInvert(w), 0))
      modifies stack
      ensures Abs() == old(Would(Instr(OpInvert(w), 0)))
    {
      stack[sp - 1] := SetLow(stack[sp - 1], platform.invert(w, Low(stack[sp - 1], w)), w);
    }

    method Ld(w: Width)
      requires pc + w.Size() <= text.Length
      requires Can(Instr(OpLd(w), FromBytes(text[pc..pc + w.Size()], w)))
      modifies this`sp, this`pc, stack
      ensures Abs() == old(Would(Instr(OpLd(w), FromBytes(text[pc..pc + w.Size()], w)))).(pc := old(pc) + w.Size())
    {
      stack[sp] := SetLow(stack[sp], FromBytes(text[pc..pc + w.Size()], w), w);
      sp := sp + 1;
      pc := pc + w.Size();
    }

    method LdValue(w: Width)
      requires pc + 4 <= text.Length
      requires Can(Instr(OpLdValue(w), FromBytes(text[pc..pc + 4], W32)))
      modifies this`sp, this`pc, stack
      ensures Abs() == old(Would(Instr(OpLdValue(w), FromBytes(text[pc..pc + 4], W32)))).(pc := old(pc) + 4)
    {
      var a := FromBytes(text[pc..pc + 4], W32);
      stack[sp] := SetLow(stack[sp], Load(mem, a, w), w);
      sp := sp + 1;
      pc := pc + 4;
    }

    method LdStack(w: Width)
      requires Can(Instr(OpLdStack(w), 0))
      modifies stack
      ensures Abs() == old(Would(Instr(OpLdStack(w), 0)))
    {
      var a := stack[sp - 1];
      stack[sp - 1] := SetLow(stack[sp - 1], Load(mem, a, w), w);
    }

    method St(w: Width)
      requires Can(Instr(OpSt(w), 0))
      modifies this`sp, this`mem
      ensures Abs() == old(Would(Instr(OpSt(w), 0)))
    {
      mem := Store(mem, stack[sp - 2], Low(stack[sp - 1], w), w);
      sp := sp - 1;
    }

    method Pop()
      requires Can(Instr(OpPop, 0))
      modifies this`sp
      ensures Abs() == old(Would(Instr(OpPop, 0)))
    {
      sp := sp - 1;
    }

    /** `OP_call`: the arguments are taken off the stack last one first. */
    method Call()
      requires pc < text.Length
      requires Can(Instr(OpCall, text[pc]))
      modifies this`sp, this`pc, this`mem, stack
      ensures Abs() == old(Would(Instr(OpCall, text[pc]))).(pc := old(pc) + 1)
    {
      var parameters: nat := text[pc];
      pc := pc + 1;
      var top := sp;
      var parameterv := new Word[ARG_MAX](_ => 0);
      var i := 0;
      sp := sp - 1;
      while i < parameters
        invariant 0 <= i <= parameters <= ARG_MAX
        invariant sp == top - 1 - i
        invariant forall k :: parameters - i <= k < parameters ==> parameterv[k] == stack[top - parameters + k]
        invariant stack[..] == old(stack[..]) && mem == old(mem) && pc == old(pc) + 1
      {
        parameterv[parameters - 1 - i] := stack[sp];
        sp := sp - 1;
        i := i + 1;
      }
      var f := stack[sp];
      var args := parameterv[..parameters];
      var (r, m) := platform.call(f, if parameters == 0 then [0] else args, mem);
      assert args == old(stack[..])[top - parameters..top];
      mem := m;
      stack[sp] := r;
      assert stack[..] == old(stack[..])[sp := r];
      sp := sp + 1;
    }

    /** `op_table[op]()` with `pc` already behind the opcode. */
    method Dispatch(op: Op)
      requires pc + OperandSize(op) <= text.Length
      requires var arg := if Operand(op).None? then 0
                          else FromBytes(text[pc..pc + OperandSize(op)], Operand(op).value);
        Can(Instr(op, arg))
      modifies this`sp, this`pc, this`mem, stack
      ensures var arg := if Operand(op).None? then 0
                         else FromBytes(old(text[pc..pc + OperandSize(op)]), Operand(op).value);
        Abs() == old(Would(Instr(op, arg))).(pc := old(pc) + OperandSize(op))
    {
      match op
      case NoOp =>
      case OpBin(b, w) => Binary(b, w);
      case OpInvert(w) => Invert(w);
      case OpLd(w) => Ld(w);
      case OpLdValue(w) => LdValue(w);
      case OpSt(w) => St(w);
      case OpPop => Pop();
      case OpCall => Call();
      case OpLdStack(w) => LdStack(w);
    }

    /** One turn of the fetch loop. */
    method Cycle()
      requires pc < text.Length && Step(platform, text[..], Abs()).Some?
      modifies this`sp, this`pc, this`mem, stack
      ensures Abs() == old(Step(platform, text[..], Abs()).value)
    {
      ghost var i := Fetch(text[..], pc).value;
      assert pc + 1 + OperandSize(i.op) <= text.Length;
      assert text[pc + 1..pc + 1 + OperandSize(i.op)] == text[..][pc + 1..pc + 1 + OperandSize(i.op)];
      var op := text[pc];
      pc := pc + 1;
      ExecIgnoresPc(platform, i, Abs(), pc + OperandSize(i.op));
      Dispatch(OpTable(op).value);
    }

    /** `finsh_vm_run`, whenever the fetch loop stays within the text and the stack. */
    method Run()
      requires RunTo(platform, text[..], State(stack[..], 0, 0, mem), text.Length).Some?
      modifies this`sp, this`pc, this`mem, stack
      ensures text[..] == old(text[..])
      ensures Abs() == old(RunTo(platform, text[..], State(stack[..], 0, 0, mem), text.Length).value)
    {
      hide Exec, Fetch;
      sp, pc := 0, 0;
      ghost var out := RunTo(platform, text[..], Abs(), text.Length);
      while pc < text.Length
        invariant text[..] == old(text[..])
        invariant RunTo(platform, text[..], Abs(), text.Length) == out
        decreases text.Length - pc
      {
        Cycle();
      }
    }
  }
}
