/** A command line from text to effect (`finsh_run_line` in shell.c): parse, compile, run, flush. */
module Shell {
  import opened Machine
  import opened Limits
  import opened Ast
  import opened Bytecode
  import opened Source
  import opened Codegen
  import opened Lexer
  import opened Printer
  import opened Grammar
  import opened Soundness
  import opened Parsing
  import opened Compiler
  import opened Vm
  import opened Syntax
  import opened RoundTrip
  import opened Meaning
  import opened Correctness
  import opened Bounds
  import opened StackHeight
  import opened Slots

  // ----- what a line does, stage by stage -----

  ghost function ParsedLine(env: Env, vars: seq<Variable>, line: string): (Forest, Parser)
    requires Good(line)
  {
    ParserRun(env, vars, Tokens(Lex(line, 0, false)))
  }

  ghost function CodeOf(f: Forest): seq<Instr> {
    LineCode(Annotate(f, false))
  }

  ghost function ErrorOf(f: Forest): nat {
    LineError(Annotate(f, false), CheckError(f, ERROR_OK))
  }

  /** The text segment after compiling. */
  ghost function TextOf(code: seq<Instr>): (text: seq<Byte>)
    requires CodeSize(code) <= TEXT_MAX
    ensures |text| == TEXT_MAX
  {
    EncodeAll(code) + seq(TEXT_MAX - CodeSize(code), _ => 0)
  }

  ghost function Start(stack: seq<Word>, mem: Mem): State
    requires |stack| == STACK_MAX
  {
    State(stack[0 := 0], 0, 0, mem)
  }

  /** What the C code relies on without checking it: compiled code fits the text segment, and the stack
      never runs empty. Both are read off the line, whatever the platform, the stack and the memory are. */
  ghost predicate Safe(env: Env, vars: seq<Variable>, line: string)
    requires Good(line)
  {
    var (f, end) := ParsedLine(env, vars, line);
    end.err == ERROR_OK ==>
      && CodeSize(CodeOf(f)) <= TEXT_MAX
      && (ErrorOf(f) == ERROR_OK ==> LineHeight(Annotate(f, false), 0).Some?)
  }

  lemma {:induction false} RunFails(p: Platform, text: seq<Byte>, s: State, mid: nat, stop: nat)
    requires mid <= stop <= |text| && RunTo(p, text, s, mid).None?
    ensures RunTo(p, text, s, stop).None?
    decreases mid - s.pc
  {
    hide Fetch;
    if Step(p, text, s).Some? {
      RunFails(p, text, Step(p, text, s).value, mid, stop);
    }
  }

  lemma TextRuns(p: Platform, code: seq<Instr>, s: State)
    requires CodeSize(code) <= TEXT_MAX && s.pc == 0 && s.sp <= |s.stack| && forall i :: i in code ==> IsInstr(i)
    requires ExecAll(p, code, s).Some? ==> ExecAll(p, code, s).value.sp <= |ExecAll(p, code, s).value.stack|
    ensures RunTo(p, TextOf(code), s, TEXT_MAX).Some? <==> ExecAll(p, code, s).Some?
    ensures ExecAll(p, code, s).Some? ==>
      RunTo(p, TextOf(code), s, TEXT_MAX).value == ExecAll(p, code, s).value.(pc := TEXT_MAX)
  {
    hide Exec, ExecAll, EncodeAll, RunTo;
    var text, n := TextOf(code), CodeSize(code);
    assert text[0..n] == EncodeAll(code);
    RunEncoded(p, code, text, s);
    ExecAllIgnoresPc(p, code, s, n);
    if RunTo(p, text, s, n).Some? {
      RunSplit(p, text, s, n, TEXT_MAX);
      RunZeros(p, text, RunTo(p, text, s, n).value);
    } else {
      RunFails(p, text, s, n, TEXT_MAX);
    }
  }

  /** The machine stays within text and stack exactly when the height of the line is defined. */
  lemma LineRunsExactly(p: Platform, f: Forest, stack: seq<Word>, mem: Mem)
    requires Count(f) <= NODE_MAX && CodeSize(CodeOf(f)) <= TEXT_MAX && |stack| == STACK_MAX
    ensures RunTo(p, TextOf(CodeOf(f)), Start(stack, mem), TEXT_MAX).Some? <==> LineHeight(Annotate(f, false), 0).Some?
    ensures LineHeight(Annotate(f, false), 0).Some? ==>
      && ExecAll(p, CodeOf(f), Start(stack, mem)).Some?
      && RunTo(p, TextOf(CodeOf(f)), Start(stack, mem), TEXT_MAX).value
         == ExecAll(p, CodeOf(f), Start(stack, mem)).value.(pc := TEXT_MAX)
  {
    hide Annotate, LineCode, LineHeight, RunTo, ExecAll, EncodeAll;
    var a := Annotate(f, false);
    AnnotateCounts(f, false);
    LineRuns(p, a, Start(stack, mem));
    LineIsEncodable(a);
    TextRuns(p, CodeOf(f), Start(stack, mem));
  }

  /** For every line: the safety of a line is exactly that its code fits and its run stays within the text
      and the stack, on any platform, from any stack and memory. */
  lemma SafeExactly(p: Platform, env: Env, vars: seq<Variable>, stack: seq<Word>, mem: Mem, line: string)
    requires Good(line) && |stack| == STACK_MAX
    ensures var (f, end) := ParsedLine(env, vars, line);
      Safe(env, vars, line) <==>
        (end.err == ERROR_OK ==>
          && CodeSize(CodeOf(f)) <= TEXT_MAX
          && (ErrorOf(f) == ERROR_OK ==> RunTo(p, TextOf(CodeOf(f)), Start(stack, mem), TEXT_MAX).Some?))
  {
    ParseSound(env, vars, line);
    hide ParserRun, Annotate, LineCode, LineHeight, RunTo, LineError, CheckError, CodeSize, Complete, HasOperands,
         Distinct, Indices;
    var (f, end) := ParsedLine(env, vars, line);
    if CodeSize(CodeOf(f)) <= TEXT_MAX {
      LineRunsExactly(p, f, stack, mem);
    }
  }

  // ----- lines that are safe -----

  /** A variable that type checking accepts and the compiler has no code for. */
  predicate IsVoid(s: Symbol) {
    (s.VarSym? || s.SysvarSym?) && (s.ty == TVoid || s.ty == TVoidP)
  }

  /** No identifier is a variable of type `void` or `void*`. */
  ghost predicate NoVoid(f: Forest) {
    f.Node? ==> (f.kind == KId ==> !IsVoid(f.sym)) && NoVoid(f.child) && NoVoid(f.next)
  }

  /** A variable of unknown type, as `unsigned x;` leaves it in the table, makes type checking fail. */
  lemma {:induction false} UnknownRejected(f: Forest, err: nat)
    requires Complete(f) && NoVoid(f)
    ensures CheckError(f, err) == ERROR_OK ==> AllEmit(f) && err == ERROR_OK
  {
    if f.Node? {
      UnknownRejected(f.child, err);
      UnknownRejected(f.next, CheckError(f.child, err));
    }
  }

  lemma {:induction false} CompileErrorStays(f: Forest, err: nat)
    ensures err != ERROR_OK ==> CompileError(f, err) != ERROR_OK
  {
    if f.Node? {
      CompileErrorStays(f.child, err);
      CompileErrorStays(f.next, OwnError(f, CompileError(f.child, err)));
    }
  }

  lemma {:induction false} LineErrorStays(f: Forest, err: nat)
    ensures err != ERROR_OK ==> LineError(f, err) != ERROR_OK
  {
    if f.Node? {
      CompileErrorStays(f.child, err);
      LineErrorStays(f.next, OwnError(f, CompileError(f.child, err)));
    }
  }

  /** A line that is parsed without error and names no variable of type `void` or `void*` is safe if and only
      if its code fits the text segment: mixed widths, calls in any place, ill-typed operands and variables
      of unknown type included. */
  lemma AcceptedLinesAreSafe(env: Env, vars: seq<Variable>, line: string)
    requires Good(line)
    requires var (f, end) := ParsedLine(env, vars, line); end.err == ERROR_OK && NoVoid(f)
    ensures Safe(env, vars, line) <==> CodeSize(CodeOf(ParsedLine(env, vars, line).0)) <= TEXT_MAX
  {
    ParseSound(env, vars, line);
    var f := ParsedLine(env, vars, line).0;
    if ErrorOf(f) == ERROR_OK {
      hide ParserRun, Annotate, LineCode, LineHeight, EncodeAll, Complete, AllEmit, Distinct, NoVoid, CheckError,
           LineError;
      LineErrorStays(Annotate(f, false), CheckError(f, ERROR_OK));
      UnknownRejected(f, ERROR_OK);
      AnnotateShape(f, false);
      LineBalanced(Annotate(f, false), 0);
    }
  }

  /** In particular when the size formula allows it, and so always with at most two increments. */
  lemma ShortLinesAreSafe(env: Env, vars: seq<Variable>, line: string)
    requires Good(line)
    requires var (f, end) := ParsedLine(env, vars, line);
      end.err == ERROR_OK ==> NoVoid(f) && (6 * Count(f) + 12 * Steps(f) - 1 <= TEXT_MAX || Steps(f) <= 2)
    ensures Safe(env, vars, line)
  {
    ParseSound(env, vars, line);
    var (f, end) := ParsedLine(env, vars, line);
    if end.err == ERROR_OK {
      hide ParserRun, Annotate, LineCode, EncodeAll, Complete, Distinct, NoVoid, Safe;
      CodeBound(f);
      AcceptedLinesAreSafe(env, vars, line);
    }
  }

  lemma CodeBound(f: Forest)
    requires Count(f) <= NODE_MAX
    ensures 6 * Count(f) + 12 * Steps(f) - 1 <= TEXT_MAX || Steps(f) <= 2 ==> CodeSize(CodeOf(f)) <= TEXT_MAX
  {
    if Steps(f) <= 2 {
      LineFitsText(f);
    } else {
      AnnotateCounts(f, false);
      LineSize(Annotate(f, false));
    }
  }

  /** A line is rejected with an error and has no effect on memory, or it runs. */
  datatype Outcome = Rejected(err: nat) | Ran(stack: seq<Word>, mem: Mem)

  ghost function OutcomeOf(p: Platform, env: Env, vars: seq<Variable>, stack: seq<Word>, mem: Mem,
      line: string): Outcome
    requires Good(line) && |stack| == STACK_MAX && Safe(env, vars, line)
  {
    SafeExactly(p, env, vars, stack, mem, line);
    var (f, end) := ParsedLine(env, vars, line);
    if end.err != ERROR_OK then Rejected(end.err)
    else if ErrorOf(f) != ERROR_OK then Rejected(ErrorOf(f))
    else
      var s := RunTo(p, TextOf(CodeOf(f)), Start(stack, mem), TEXT_MAX).value;
      Ran(s.stack, s.mem)
  }

  /** An accepted line leaves what its instructions leave, one after another. */
  lemma OutcomeIs(p: Platform, env: Env, vars: seq<Variable>, stack: seq<Word>, mem: Mem, line: string)
    requires Good(line) && |stack| == STACK_MAX && Safe(env, vars, line)
    requires var (f, end) := ParsedLine(env, vars, line); end.err == ERROR_OK && ErrorOf(f) == ERROR_OK
    ensures var out := ExecAll(p, CodeOf(ParsedLine(env, vars, line).0), Start(stack, mem));
      out.Some? && OutcomeOf(p, env, vars, stack, mem, line) == Ran(out.value.stack, out.value.mem)
  {
    ParseSound(env, vars, line);
    hide ParserRun, Annotate, LineCode, LineHeight, RunTo, ExecAll, LineError, CheckError, EncodeAll, Complete,
         Distinct;
    LineRunsExactly(p, ParsedLine(env, vars, line).0, stack, mem);
  }

  lemma TextIs(text: seq<Byte>, code: seq<Instr>)
    requires |text| == TEXT_MAX
    ensures IsText(text, code) <==> CodeSize(code) <= TEXT_MAX && text == TextOf(code)
  {
    if IsText(text, code) {
      assert text == text[..CodeSize(code)] + text[CodeSize(code)..];
      assert text[CodeSize(code)..] == seq(TEXT_MAX - CodeSize(code), _ => 0);
    }
  }

  class FinshShell {
    const env: Env
    const platform: Platform
    const nodes: array<NodeRec>
    const vars: array<Variable>
    const text: array<Byte>
    const stack: array<Word>
    var mem: Mem

    ghost predicate Valid()
      reads this, nodes
    {
      && nodes.Length == NODE_MAX && vars.Length == VARIABLE_MAX
      && text.Length == TEXT_MAX && stack.Length == STACK_MAX
      && forall i :: 0 <= i < NODE_MAX ==> nodes[i] == FREE_NODE
    }

    /** `finsh_init` on cleared tables. */
    constructor (env: Env, platform: Platform, mem: Mem)
      ensures Valid() && this.env == env && this.platform == platform && this.mem == mem
    {
      this.env, this.platform, this.mem := env, platform, mem;
      nodes := new NodeRec[NODE_MAX](_ => FREE_NODE);
      vars := new Variable[VARIABLE_MAX](_ => Variable("", TUnknown));
      text := new Byte[TEXT_MAX](_ => 0);
      stack := new Word[STACK_MAX](_ => 0);
    }

    /** `finsh_flush`. */
    method Flush()
      requires nodes.Length == NODE_MAX
      modifies nodes
      ensures forall i :: 0 <= i < NODE_MAX ==> nodes[i] == FREE_NODE
    {
      for i := 0 to NODE_MAX
        invariant forall j :: 0 <= j < i ==> nodes[j] == FREE_NODE
      {
        nodes[i] := FREE_NODE;
      }
    }

    /** Compile the tree below `root`, and run the code if that raised no error. */
    method Execute(root: int, ghost f: Forest) returns (answer: Option<Word>, err: nat)
      requires text.Length == TEXT_MAX && stack.Length == STACK_MAX && nodes.Length == NODE_MAX
      requires Root(f) == root && InPool(nodes[..], f) && Distinct(f) && HasOperands(f)
      requires Count(f) <= NODE_MAX && CodeSize(CodeOf(f)) <= TEXT_MAX
      requires ErrorOf(f) == ERROR_OK ==> LineHeight(Annotate(f, false), 0).Some?
      modifies this`mem, nodes, text, stack
      ensures err == ErrorOf(f)
      ensures err != ERROR_OK ==> answer == None && mem == old(mem)
      ensures err == ERROR_OK ==>
        var out := RunTo(platform, TextOf(CodeOf(f)), Start(old(stack[..]), old(mem)), TEXT_MAX);
        out.Some? && var s := out.value;
        s.stack != [] && answer == Some(s.stack[0]) && stack[..] == s.stack && mem == s.mem
    {
      hide Distinct, Indices, HasOperands, InPool, EncodeAll, LineCode, Annotate, RunTo, LineError, CheckError,
           TextOf, LineHeight;
      LineRunsExactly(platform, f, stack[..], mem);
      var compiler := new CodeGenerator(nodes, text, stack);
      compiler.Run(root, f);
      TextIs(text[..], CodeOf(f));
      err := compiler.errno;
      answer := None;
      if err == ERROR_OK {
        var vm := new VirtualMachine(text, stack, platform, mem);
        vm.Run();
        StackKept(platform, text[..], Start(old(stack[..]), old(mem)), TEXT_MAX);
        mem := vm.mem;
        answer := Some(stack[0]);
      }
    }

    /** `finsh_run_line`: the value of the line is what the bottom of the stack holds. */
    method RunLine(line: string) returns (answer: Option<Word>, err: nat)
      requires Valid() && Good(line) && Safe(env, vars[..], line)
      modifies this, nodes, vars, text, stack
      ensures Valid()
      ensures vars[..] == ParsedLine(env, old(vars[..]), line).1.vars
      ensures match OutcomeOf(platform, env, old(vars[..]), old(stack[..]), old(mem), line) {
        case Rejected(e) => answer == None && err == e && mem == old(mem)
        case Ran(s, m) => s != [] && answer == Some(s[0]) && err == ERROR_OK && mem == m && stack[..] == s
      }
    {
      hide Complete, Distinct, Indices, HasOperands, InPool, ParserRun, Tokens, Good, CodeOf, ErrorOf, TextOf, Start,
           RunTo, CodeSize, Annotate, LineHeight;
      ParseSound(env, vars[..], line);
      var parser := new FinshParser(line, nodes, vars, env);
      ghost var f := parser.Run();
      err := parser.token.errno;
      answer := None;
      if err == ERROR_OK {
        answer, err := Execute(parser.root, f);
      }
      Flush();
    }
  }

  /** Running never changes the size of the stack. */
  lemma {:induction false} StackKept(p: Platform, text: seq<Byte>, s: State, stop: nat)
    requires stop <= |text| && RunTo(p, text, s, stop).Some?
    ensures |RunTo(p, text, s, stop).value.stack| == |s.stack|
    decreases stop - s.pc
  {
    hide Fetch;
    if s.pc < stop {
      StackKept(p, text, Step(p, text, s).value, stop);
    }
  }

  // ----- the whole pipeline -----

  /** A line of statements whose names are known or new, which is well typed and fits the node pool and the
      text segment. */
  ghost predicate WellFormed(env: Env, vars: seq<Variable>, ss: seq<Stmt>) {
    && LineFits(env, vars, ss) && LineNew(vars, ss) && LineNodes(ss) <= NODE_MAX
    && CodeSize(CodeOf(BuildLine(env, vars, ss, 0))) <= TEXT_MAX
    && LineMeans(env, vars, ss, 0).Some? && WellTypedLine(LineMeans(env, vars, ss, 0).value)
  }

  /** The forest of a well-formed line has all the properties the later stages ask for. */
  lemma LineForest(env: Env, vars: seq<Variable>, ss: seq<Stmt>, line: string)
    requires WellFormed(env, vars, ss) && Reads(line, ss)
    ensures var f, es := BuildLine(env, vars, ss, 0), LineMeans(env, vars, ss, 0).value;
      && ParsedLine(env, vars, line).0 == f && ParsedLine(env, vars, line).1.err == ERROR_OK
      && ParsedLine(env, vars, line).1.vars == LineVars(vars, ss)
      && IsLine(f, es) && WellTypedLine(es) && ErrorOf(f) == ERROR_OK && CodeSize(CodeOf(f)) <= TEXT_MAX
      && (forall e :: e in es ==> Need(e) <= STACK_MAX && FewArgs(e, ARG_MAX))
  {
    hide BuildLine, LineToks, Tokens, ParserRun, IsLine, Annotate, LineCode, LineError, CheckError, Complete,
         HasOperands;
    var f, es := BuildLine(env, vars, ss, 0), LineMeans(env, vars, ss, 0).value;
    LineRead(env, vars, ss, line);
    ParseSound(env, vars, line);
    LineTree(env, vars, ss, 0);
    LineFitsStack(f, es);
    LineIsSilent(f, es, ERROR_OK);
  }

  /** Typing a well-formed line in, spelled in any way that is read as its statements, evaluates them in order:
      memory ends up as sequential evaluation leaves it, the bottom of the stack holds the last value at its width,
      the whole word that the shell answers with is known, and the declared variables are in the table. */
  lemma ShellCorrect(p: Platform, env: Env, vars: seq<Variable>, ss: seq<Stmt>, line: string, stack: seq<Word>,
      mem: Mem)
    requires WellFormed(env, vars, ss) && Reads(line, ss) && |stack| == STACK_MAX
    requires LineMeans(env, vars, ss, 0).value != []
    ensures var es := LineMeans(env, vars, ss, 0).value;
      var (v, m) := EvalLine(p, es, mem);
      && Safe(env, vars, line)
      && ParsedLine(env, vars, line).1.vars == LineVars(vars, ss)
      && var out := OutcomeOf(p, env, vars, stack, mem, line);
         && out.Ran? && |out.stack| == STACK_MAX && out.mem == m
         && Low(out.stack[0], WidthOf(es[|es| - 1])) == v
         && out.stack[0] == LineSlot(p, es, mem, 0)
  {
    LineForest(env, vars, ss, line);
    hide WellFormed, BuildLine, ParsedLine, Reads, IsLine, Annotate, LineCode, LineError, CheckError, EvalLine,
         LineSlot, RunTo, EncodeAll, WellTypedLine, LineMeans, WidthOf, Need, FewArgs, LineHeight, ExecAll;
    var f, es := BuildLine(env, vars, ss, 0), LineMeans(env, vars, ss, 0).value;
    var code := CodeOf(f);
    TextIs(TextOf(code), code);
    VmRunCorrect(p, f, es, TextOf(code), stack[0 := 0], mem);
    StackKept(p, TextOf(code), Start(stack, mem), TEXT_MAX);
    SafeHolds(p, env, vars, stack, mem, line);
    LineSlotCorrect(p, f, es, Start(stack, mem));
    OutcomeIs(p, env, vars, stack, mem, line);
  }

  lemma SafeHolds(p: Platform, env: Env, vars: seq<Variable>, stack: seq<Word>, mem: Mem, line: string)
    requires Good(line) && |stack| == STACK_MAX
    requires var f := ParsedLine(env, vars, line).0;
      CodeSize(CodeOf(f)) <= TEXT_MAX && RunTo(p, TextOf(CodeOf(f)), Start(stack, mem), TEXT_MAX).Some?
    ensures Safe(env, vars, line)
  {
    hide ParsedLine, CodeOf, ErrorOf, TextOf, RunTo, CodeSize, Annotate, LineHeight;
    SafeExactly(p, env, vars, stack, mem, line);
  }

  /** A line that only declares variables runs as well, changes no memory and leaves zero. */
  lemma DeclarationsOnly(p: Platform, env: Env, vars: seq<Variable>, ss: seq<Stmt>, line: string, stack: seq<Word>,
      mem: Mem)
    requires WellFormed(env, vars, ss) && Reads(line, ss) && |stack| == STACK_MAX
    requires LineMeans(env, vars, ss, 0).value == []
    ensures Safe(env, vars, line) && ParsedLine(env, vars, line).1.vars == LineVars(vars, ss)
    ensures OutcomeOf(p, env, vars, stack, mem, line) == Ran(stack[0 := 0], mem)
  {
    LineForest(env, vars, ss, line);
    var f := BuildLine(env, vars, ss, 0);
    assert f == Nil;
    assert CodeOf(f) == [] && EncodeAll([]) == [];
    hide WellFormed, BuildLine, ParsedLine, Reads, LineMeans, RunTo, Annotate, LineCode, LineError, CheckError,
         EncodeAll;
    RunZeros(p, TextOf([]), Start(stack, mem));
    SafeHolds(p, env, vars, stack, mem, line);
  }
}
