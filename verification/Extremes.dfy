/** Lines at the limits of the text segment and the stack, as text that the shell accepts. */
module Extremes {
  import opened Machine
  import opened Limits
  import opened Ast
  import opened Bytecode
  import opened Source
  import opened Codegen
  import opened Lexer
  import opened Printer
  import opened Grammar
  import opened Soundness
  import opened Syntax
  import opened RoundTrip
  import opened Meaning
  import opened Bounds
  import opened StackHeight
  import opened Shell
  import opened CSemantics
  import opened Interpreter
  import Correctness

  // ----- nodes of a line -----

  lemma CountOver(n: nat, kind: Kind, f: Forest, g: Forest)
    requires f.Node? && f.next.Nil?
    ensures Count(NewNode(n, kind, 0, NoSymbol, Linked(f, g))) == 1 + Count(f) + Count(g)
  {
    assert Count(f) == 1 + Count(f.child);
  }

  lemma UnaryNodes(env: Env, vars: seq<Variable>, op: Unary, e: Term, u: nat)
    ensures Count(Build(env, vars, UnaryTerm(op, e), u)) ==
      Count(Build(env, vars, e, u)) + if op.Plus? then 0 else if op.Minus? then 2 else 1
  {
    BuildUnary(env, vars, op, e, u);
    hide Build, Size;
    var f, v := Build(env, vars, e, u), u + Size(e);
    var zero := NewNode(v, KLong, 0, NoSymbol, Nil);
    assert Linked(f, Nil) == f && Count(Nil) == 0 && Count(zero) == 1;
    CountOver(v, UnaryNode(op), f, Nil);
    CountOver(v + 1, KBin(Sub), zero, f);
  }

  lemma LeafNodes(env: Env, vars: seq<Variable>, t: Term, u: nat)
    requires t.CharTerm? || t.IntTerm? || t.LongTerm? || t.StringTerm? || t.NullTerm? || t.NameTerm?
    ensures Count(Build(env, vars, t, u)) == 1
  {
    hide Resolve, Id, CString;
  }

  lemma CastNodes(f: Forest, dt: nat)
    requires f.Node?
    ensures Count(f.(dt := dt)) == Count(f) && Count(Nil) == 0
  {
  }

  lemma {:induction false} TermNodes(env: Env, vars: seq<Variable>, t: Term, u: nat)
    ensures Count(Build(env, vars, t, u)) == Size(t)
  {
    hide Build, Count, NewNode, Linked;
    match t
    case BinTerm(op, l, r) =>
      TermNodes(env, vars, l, u);
      TermNodes(env, vars, r, u + Size(l));
      BuildBin(env, vars, op, l, r, u);
      CountOver(u + Size(l) + Size(r), KBin(op), Build(env, vars, l, u), Build(env, vars, r, u + Size(l)));
    case UnaryTerm(op, e) =>
      TermNodes(env, vars, e, u);
      UnaryNodes(env, vars, op, e, u);
    case CastTerm(ty, e) =>
      TermNodes(env, vars, e, u);
      BuildCast(env, vars, ty, e, u);
      CastNodes(Build(env, vars, e, u), TypeNumber(TypeOf(ty)));
    case AssignTerm(l, r) =>
      TermNodes(env, vars, l, u);
      TermNodes(env, vars, r, u + Size(l));
      BuildAssign(env, vars, l, r, u);
      CountOver(u + Size(l) + Size(r), KAssign, Build(env, vars, l, u), Build(env, vars, r, u + Size(l)));
    case PostTerm(down, e) =>
      TermNodes(env, vars, e, u);
      BuildPost(env, vars, down, e, u);
      CastNodes(Build(env, vars, e, u), 0);
      CountOver(u + Size(e), if down then KDec else KInc, Build(env, vars, e, u), Nil);
    case CallTerm(f, args) =>
      TermNodes(env, vars, f, u);
      ArgTermNodes(env, vars, args, u + Size(f));
      BuildCall(env, vars, f, args, u);
      CountOver(u + Size(f) + SizeAll(args), KFunc, Build(env, vars, f, u), BuildAll(env, vars, args, u + Size(f)));
    case _ => LeafNodes(env, vars, t, u);
  }

  lemma {:induction false} ArgTermNodes(env: Env, vars: seq<Variable>, a: Terms, u: nat)
    ensures Count(BuildAll(env, vars, a, u)) == SizeAll(a)
  {
    if a.MoreTerms? {
      TermNodes(env, vars, a.e, u);
      ArgTermNodes(env, vars, a.rest, u + Size(a.e));
    }
  }

  /** The nodes in each of some trees add up to no more than `n`, and to something if there are any. */
  ghost predicate NodesWithin(ts: seq<Forest>, n: nat) {
    if ts == [] then n == 0
    else
      && ts[0].Node? && ts[0].next.Nil? && Count(ts[0]) <= n
      && NodesWithin(ts[1..], n - Count(ts[0]))
  }

  lemma {:induction false} ItemsNodes(env: Env, vars: seq<Variable>, ty: FinshType, ds: seq<Item>, u: nat)
    ensures NodesWithin(BuildItems(env, vars, ty, ds, u), ItemsSize(ds))
    decreases |ds|
  {
    hide Resolve, Build, Entered, Size;
    if ds != [] {
      var vars' := Entered(vars, ty, Id(ds[0].name));
      var more := BuildItems(env, vars', ty, ds[1..], u + ItemSize(ds[0]));
      ItemsNodes(env, vars', ty, ds[1..], u + ItemSize(ds[0]));
      match ds[0].init {
        case None => assert [] + more == more;
        case Some(e) =>
          TermNodes(env, vars', e, u);
          var left := NewNode(u + Size(e), KId, 0, Resolve(env, vars', Id(ds[0].name)), Nil);
          assert Count(Linked(left, Build(env, vars', e, u))) == 1 + Size(e);
          var ts := BuildItem(env, vars', ds[0], u);
          assert (ts + more)[1..] == more;
      }
    }
  }

  lemma StmtNodes(env: Env, vars: seq<Variable>, s: Stmt, u: nat)
    ensures NodesWithin(BuildStmt(env, vars, s, u), StmtSize(s))
  {
    hide Build, Size;
    match s
    case ExprStmt(e) =>
      TermNodes(env, vars, e, u);
      assert [Build(env, vars, e, u)][1..] == [];
    case DeclStmt(ty, ds) => ItemsNodes(env, vars, TypeOf(ty), ds, u);
    case EmptyStmt(_) =>
  }

  lemma {:induction false} ChainNodes(ts: seq<Forest>, n: nat, g: Forest)
    requires NodesWithin(ts, n)
    ensures Count(Chain(ts, g)) == n + Count(g) && (ts == [] ==> n == 0)
    decreases |ts|
  {
    if ts != [] {
      ChainNodes(ts[1..], n - Count(ts[0]), g);
      assert Chain(ts, g) == ts[0].(next := Chain(ts[1..], g));
      assert Count(ts[0]) == 1 + Count(ts[0].child);
    }
  }

  lemma FirstNodes(ts: seq<Forest>, n: nat)
    requires NodesWithin(ts, n) && ts != []
    ensures NodesWithin(ts[..1], Count(ts[0])) && 0 < Count(ts[0]) <= n
  {
    assert ts[..1][1..] == [];
  }

  /** A forest of at most `n` nodes, of none only if `n` is 0, and of exactly `n` if `whole`. */
  ghost predicate CountsTo(f: Forest, n: nat, whole: bool) {
    Count(f) <= n && (f.Nil? ==> n == 0) && (whole ==> Count(f) == n)
  }

  lemma KeptNodes(ts: seq<Forest>, n: nat, last: bool, g: Forest, m: nat, whole: bool)
    requires NodesWithin(ts, n) && CountsTo(g, m, whole) && (last ==> g == Nil)
    ensures CountsTo(Chain(Kept(ts, last), g), n + m, (last || |ts| <= 1) && whole)
  {
    ChainNodes(ts, n, g);
    if ts != [] {
      FirstNodes(ts, n);
      ChainNodes(ts[..1], Count(ts[0]), g);
      if |ts| == 1 {
        assert ts[..1] == ts;
      }
    }
  }

  lemma NoNodes(env: Env, vars: seq<Variable>, u: nat)
    ensures BuildLine(env, vars, [], u) == Nil && CountsTo(Nil, 0, true) && LineNodes([]) == 0
  {
  }

  lemma LineNodeCountStep(env: Env, vars: seq<Variable>, ss: seq<Stmt>, u: nat)
    requires ss != []
    requires var vars', u', rest := VarsAfter(vars, ss[0]), u + StmtSize(ss[0]), ss[1..];
      CountsTo(BuildLine(env, vars', rest, u'), LineNodes(rest), SeveralOnlyLast(rest))
    ensures CountsTo(BuildLine(env, vars, ss, u), LineNodes(ss), SeveralOnlyLast(ss))
  {
    hide BuildStmt, VarsAfter, StmtSize, Chain, StmtTrees, SeveralOnlyLast, NodesWithin, BuildLine, LineNodes, Kept,
         CountsTo, LineVars, LineNew;
    var vars', u', rest, ts := VarsAfter(vars, ss[0]), u + StmtSize(ss[0]), ss[1..], BuildStmt(env, vars, ss[0], u);
    StmtNodes(env, vars, ss[0], u);
    SeveralStep(ss);
    StmtTreeCount(env, vars, ss[0], u);
    RoundTrip.LineCons(env, vars, ss, u);
    NoNodes(env, vars', u');
    KeptNodes(ts, StmtSize(ss[0]), rest == [], BuildLine(env, vars', rest, u'), LineNodes(rest), SeveralOnlyLast(rest));
    CountsFewer(BuildLine(env, vars, ss, u), LineNodes(ss));
  }

  lemma CountsFewer(f: Forest, n: nat)
    ensures forall whole, less :: CountsTo(f, n, whole) && (less ==> whole) ==> CountsTo(f, n, less)
  {
  }

  /** The forest of a line has no more nodes than are taken from the pool, and all of them when no initialiser is
      dropped. */
  lemma {:induction false} LineNodeCount(env: Env, vars: seq<Variable>, ss: seq<Stmt>, u: nat)
    ensures CountsTo(BuildLine(env, vars, ss, u), LineNodes(ss), SeveralOnlyLast(ss))
    decreases |ss|
  {
    hide BuildLine, LineNodes;
    if ss == [] {
      NoNodes(env, vars, u);
    } else {
      LineNodeCount(env, VarsAfter(vars, ss[0]), ss[1..], u + StmtSize(ss[0]));
      LineNodeCountStep(env, vars, ss, u);
    }
  }

  // ----- sizes of lines -----

  /** Bytes of the code of a checked line. */
  ghost function LineBytes(f: Forest): nat {
    CodeSize(CodeOf(f))
  }

  ghost function TreeBytes(f: Forest): nat
    requires f.Node?
  {
    CodeSize(TreeCode(Annotate(f, false)))
  }

  lemma ConsBytes(f: Forest, g: Forest)
    requires f.Node?
    ensures LineBytes(Linked(f, g)) == TreeBytes(f) + if g.Nil? then 0 else 1 + LineBytes(g)
  {
    var a := Annotate(Linked(f, g), false);
    assert a == Linked(Annotate(f, false), Annotate(g, false));
    assert TreeCode(a) == TreeCode(Annotate(f, false)) by { hide Annotate, NodeCode; }
    hide TreeCode, EncodeAll, Annotate;
    if g.Nil? {
      AnnotateNil();
      assert TreeCode(a) + [] == TreeCode(a);
    } else {
      SizeOne(Ins(OpPop));
      SizeAppend(TreeCode(a), [Ins(OpPop)] + LineCode(a.next));
      SizeAppend([Ins(OpPop)], LineCode(a.next));
    }
  }

  /** `x++; ...; 'a'; x; ...`: increments, perhaps a character, and plain uses of one variable. */
  function Pieces(name: string, j: nat, c: bool, r: nat): seq<Stmt>
    decreases j, c, r
  {
    if j > 0 then [ExprStmt(PostTerm(false, NameTerm(name)))] + Pieces(name, j - 1, c, r)
    else if c then [ExprStmt(CharTerm(97))] + Pieces(name, 0, false, r)
    else if r > 0 then [ExprStmt(NameTerm(name))] + Pieces(name, 0, false, r - 1)
    else []
  }

  ghost predicate IsInt(env: Env, vars: seq<Variable>, name: string) {
    IsName(name) && Resolve(env, vars, Id(name)).VarSym? && Resolve(env, vars, Id(name)).ty == TInt
  }

  lemma IntBytes(env: Env, vars: seq<Variable>, name: string, u: nat)
    requires IsInt(env, vars, name)
    ensures TreeBytes(Build(env, vars, NameTerm(name), u)) == 5
  {
    hide Resolve, IsName, EncodeAll;
    var x := Resolve(env, vars, Id(name));
    var f := Build(env, vars, NameTerm(name), u);
    var a := Annotate(f, false);
    assert a.child == Nil && !a.isAddr && a.kind == KId && a.sym == x;
    assert Own(a) == [Instr(OpLdValue(W32), x.addr)];
    assert Code(a.child) == [] && TreeCode(a) == [] + Own(a) == Own(a);
    SizeOne(Instr(OpLdValue(W32), x.addr));
  }

  lemma CharBytes(env: Env, vars: seq<Variable>, u: nat)
    ensures TreeBytes(Build(env, vars, CharTerm(97), u)) == 2
  {
    hide EncodeAll;
    var a := Annotate(Build(env, vars, CharTerm(97), u), false);
    assert Own(a) == [Instr(OpLd(W8), 97)];
    assert Code(a.child) == [] && TreeCode(a) == [] + Own(a) == Own(a);
    SizeOne(Instr(OpLd(W8), 97));
  }

  lemma IncrementBytes(env: Env, vars: seq<Variable>, name: string, u: nat)
    requires IsInt(env, vars, name)
    ensures TreeBytes(Build(env, vars, PostTerm(false, NameTerm(name)), u)) == 23
  {
    IntBytes(env, vars, name, u);
    hide Resolve, IsName, EncodeAll;
    var x := Resolve(env, vars, Id(name));
    var a := Annotate(Build(env, vars, PostTerm(false, NameTerm(name)), u), false);
    var c := Annotate(Build(env, vars, NameTerm(name), u), false);
    assert a.child == c && a.kind == KInc && c.kind == KId && c.sym == x && c.next == Nil;
    assert c.dt == DT_DWORD && a.dt == DT_DWORD;
    StepSize(false, false, x.addr, DT_DWORD);
    assert Own(a) == StepCode(false, false, x.addr, DT_DWORD);
    assert Code(c) == TreeCode(c) + [] == TreeCode(c);
    SizeAppend(Code(c), Own(a));
  }

  /** They declare nothing and contain no string literals. */
  lemma {:induction false} PiecesPlain(env: Env, vars: seq<Variable>, name: string, j: nat, c: bool, r: nat)
    requires IsInt(env, vars, name)
    ensures LinePlain(Pieces(name, j, c, r)) && LineNew(vars, Pieces(name, j, c, r))
    ensures forall s :: s in Pieces(name, j, c, r) ==> s.ExprStmt?
    decreases j, c, r
  {
    if j > 0 {
      PiecesPlain(env, vars, name, j - 1, c, r);
      assert Pieces(name, j, c, r)[1..] == Pieces(name, j - 1, c, r);
    } else if c {
      PiecesPlain(env, vars, name, 0, false, r);
      assert Pieces(name, j, c, r)[1..] == Pieces(name, 0, false, r);
    } else if r > 0 {
      PiecesPlain(env, vars, name, 0, false, r - 1);
      assert Pieces(name, j, c, r)[1..] == Pieces(name, 0, false, r - 1);
    }
  }

  lemma PiecesCons(env: Env, vars: seq<Variable>, e: Term, rest: seq<Stmt>, u: nat)
    ensures var ss := [ExprStmt(e)] + rest;
      && BuildLine(env, vars, ss, u) == Linked(Build(env, vars, e, u), BuildLine(env, vars, rest, u + Size(e)))
      && LineNodes(ss) == Size(e) + LineNodes(rest)
      && LineIncrements(ss) == Increments(e) + LineIncrements(rest)
      && (LineFits(env, vars, ss) <==> Stratified(e) && Known(env, vars, e) && LineFits(env, vars, rest))
  {
    hide Build, Size, Increments, Stratified, Known, BuildLine, LineIncrements;
    var ss := [ExprStmt(e)] + rest;
    assert ss[1..] == rest && ss[0] == ExprStmt(e);
    RoundTrip.LineCons(env, vars, ss, u);
    OneKept(Build(env, vars, e, u), rest == [], BuildLine(env, vars, rest, u + Size(e)));
    IncrementsCons(e, rest);
    if rest == [] {
      NoPieces(env, vars, u + Size(e));
    }
  }

  lemma OneKept(f: Forest, last: bool, g: Forest)
    ensures Chain(Kept([f], last), g) == Linked(f, g)
  {
    assert Kept([f], last) == [f] && [f][1..] == [];
  }

  lemma IncrementsCons(e: Term, rest: seq<Stmt>)
    ensures LineIncrements([ExprStmt(e)] + rest) == Increments(e) + LineIncrements(rest)
  {
    hide Increments;
    var ss, ns := [ExprStmt(e)] + rest, [Increments(e)];
    assert ss[1..] == rest && ss[0] == ExprStmt(e) && StmtIncrements(ss[0]) == ns;
    assert Kept(ns, |ss| == 1) == ns && ns[1..] == [] && Sum([]) == 0 && Sum(ns) == Increments(e);
  }

  /** These lines fit their names, and their sizes are known exactly. */
  lemma {:induction false} PiecesSize(env: Env, vars: seq<Variable>, name: string, j: nat, c: bool, r: nat, u: nat)
    requires IsInt(env, vars, name)
    ensures var ss := Pieces(name, j, c, r);
      && LineFits(env, vars, ss) && LineIncrements(ss) == j
      && LineNodes(ss) == 2 * j + (if c then 1 else 0) + r
      && (BuildLine(env, vars, ss, u).Nil? <==> ss == []) && (ss == [] <==> j == 0 && !c && r == 0)
      && (ss != [] ==> LineBytes(BuildLine(env, vars, ss, u)) == 24 * j + (if c then 3 else 0) + 6 * r - 1)
    decreases j, c, r
  {
    hide Resolve, IsName, LineBytes, TreeBytes, Build, BuildLine, LineFits, LineNodes, LineIncrements;
    if j > 0 {
      PieceFacts(env, vars, name);
      PiecesSize(env, vars, name, j - 1, c, r, u + 2);
      IncrementBytes(env, vars, name, u);
      PiecesStep(env, vars, PostTerm(false, NameTerm(name)), Pieces(name, j - 1, c, r), u);
    } else if c {
      PiecesSize(env, vars, name, 0, false, r, u + 1);
      CharBytes(env, vars, u);
      PiecesStep(env, vars, CharTerm(97), Pieces(name, 0, false, r), u);
    } else if r > 0 {
      PieceFacts(env, vars, name);
      PiecesSize(env, vars, name, 0, false, r - 1, u + 1);
      IntBytes(env, vars, name, u);
      PiecesStep(env, vars, NameTerm(name), Pieces(name, 0, false, r - 1), u);
    } else {
      NoPieces(env, vars, u);
    }
  }

  lemma NoPieces(env: Env, vars: seq<Variable>, u: nat)
    ensures BuildLine(env, vars, [], u) == Nil && LineFits(env, vars, [])
    ensures LineNodes([]) == 0 && LineIncrements([]) == 0
  {
  }

  lemma PieceFacts(env: Env, vars: seq<Variable>, name: string)
    requires IsInt(env, vars, name)
    ensures var e := NameTerm(name);
      && Stratified(e) && Known(env, vars, e) && Stratified(PostTerm(false, e)) && Known(env, vars, PostTerm(false, e))
  {
    hide Resolve, IsName;
  }

  lemma PiecesStep(env: Env, vars: seq<Variable>, e: Term, rest: seq<Stmt>, u: nat)
    ensures var ss := [ExprStmt(e)] + rest;
      var f := BuildLine(env, vars, ss, u);
      var g := BuildLine(env, vars, rest, u + Size(e));
      && f.Node? && LineBytes(f) == TreeBytes(Build(env, vars, e, u)) + (if g.Nil? then 0 else 1 + LineBytes(g))
      && LineNodes(ss) == Size(e) + LineNodes(rest)
      && LineIncrements(ss) == Increments(e) + LineIncrements(rest)
      && (LineFits(env, vars, ss) <==> Stratified(e) && Known(env, vars, e) && LineFits(env, vars, rest))
  {
    hide LineBytes, TreeBytes, BuildLine, LineFits, LineNodes, LineIncrements, Increments, Stratified, Known;
    PiecesCons(env, vars, e, rest, u);
    ConsBytes(Build(env, vars, e, u), BuildLine(env, vars, rest, u + Size(e)));
  }

  // ----- the text segment -----

  /** All lines of `n` nodes and `k` increments fit the text segment. */
  ghost predicate AllFit(env: Env, vars: seq<Variable>, n: nat, k: nat) {
    forall ss :: LineFits(env, vars, ss) && LineNodes(ss) == n && LineIncrements(ss) == k ==>
      LineBytes(BuildLine(env, vars, ss, 0)) <= TEXT_MAX
  }

  lemma LineBytesBound(env: Env, vars: seq<Variable>, ss: seq<Stmt>)
    requires LineNodes(ss) > 0
    ensures LineBytes(BuildLine(env, vars, ss, 0)) <= 6 * LineNodes(ss) + 12 * LineIncrements(ss) - 1
  {
    var f := BuildLine(env, vars, ss, 0);
    LineNodeCount(env, vars, ss, 0);
    LineSteps(env, vars, ss, 0);
    AnnotateCounts(f, false);
    hide BuildLine, Annotate, LineCode, EncodeAll;
    LineSize(Annotate(f, false));
  }

  /** The size formula is exact: where an `int` variable can be named, the lines of `n` nodes with `k`
      increments all fit the text segment if and only if `6n + 12k - 1` is at most 128. */
  lemma TextFitsExactly(env: Env, vars: seq<Variable>, name: string, n: nat, k: nat)
    requires IsInt(env, vars, name) && n > 0 && 2 * k <= n
    ensures AllFit(env, vars, n, k) <==> 6 * n + 12 * k - 1 <= TEXT_MAX
  {
    hide IsInt, LineBytes, BuildLine, LineFits, LineNodes, LineIncrements, Pieces;
    forall ss | LineFits(env, vars, ss) && LineNodes(ss) == n && LineIncrements(ss) == k
      ensures LineBytes(BuildLine(env, vars, ss, 0)) <= 6 * n + 12 * k - 1
    {
      LineBytesBound(env, vars, ss);
    }
    var ss := Pieces(name, k, false, n - 2 * k);
    PiecesSize(env, vars, name, k, false, n - 2 * k, 0);
    assert LineBytes(BuildLine(env, vars, ss, 0)) == 6 * n + 12 * k - 1;
  }

  /** The text of a line of pieces is parsed without error into its trees. */
  function PiecesText(env: Env, vars: seq<Variable>, name: string, j: nat, c: bool, r: nat): (line: string)
    requires IsInt(env, vars, name) && j + r > 0 && 2 * j + (if c then 1 else 0) + r <= NODE_MAX
    ensures Good(line)
    ensures var (f, end) := ParsedLine(env, vars, line);
      end.err == ERROR_OK && f == BuildLine(env, vars, Pieces(name, j, c, r), 0)
  {
    hide IsInt, BuildLine, Text, ParserRun, Tokens, LineBytes, Pieces, LineFits, LineNodes, LineToks;
    PiecesSize(env, vars, name, j, c, r, 0);
    PiecesPlain(env, vars, name, j, c, r);
    NothingSwallowed(Pieces(name, j, c, r), false, true);
    LineRoundTrip(env, vars, Pieces(name, j, c, r));
    LineRead(env, vars, Pieces(name, j, c, r), Text(LineToks(Pieces(name, j, c, r))));
    Text(LineToks(Pieces(name, j, c, r)))
  }

  /** `x++; x++; x++; x; ...` with ten plain uses: sixteen nodes, no error, and 131 bytes of code. */
  lemma ThreeIncrementsOverflow(env: Env, vars: seq<Variable>, name: string)
    requires IsInt(env, vars, name)
    ensures var line := PiecesText(env, vars, name, 3, false, 10);
      var (f, end) := ParsedLine(env, vars, line);
      end.err == ERROR_OK && Count(f) == NODE_MAX && LineBytes(f) == TEXT_MAX + 3 && !Safe(env, vars, line)
  {
    hide IsInt, BuildLine, PiecesText, ParsedLine, LineHeight, Annotate, LineCode, EncodeAll, Pieces, LineNodes;
    PiecesSize(env, vars, name, 3, false, 10, 0);
    PiecesPlain(env, vars, name, 3, false, 10);
    LineNodeCount(env, vars, Pieces(name, 3, false, 10), 0);
  }

  lemma PieceTrees(env: Env, vars: seq<Variable>, name: string, u: nat)
    requires IsInt(env, vars, name)
    ensures NoVoid(Build(env, vars, NameTerm(name), u)) && NoVoid(Build(env, vars, CharTerm(97), u))
    ensures NoVoid(Build(env, vars, PostTerm(false, NameTerm(name)), u))
  {
    hide Resolve, IsName;
    var leaf := NewNode(u, KId, 0, Resolve(env, vars, Id(name)), Nil);
    assert Build(env, vars, NameTerm(name), u) == leaf && NoVoid(leaf);
  }

  lemma NoVoidLinked(f: Forest, g: Forest)
    requires NoVoid(f) && NoVoid(g)
    ensures NoVoid(Linked(f, g))
  {
  }

  lemma {:induction false} PiecesNoVoid(env: Env, vars: seq<Variable>, name: string, j: nat, c: bool, r: nat, u: nat)
    requires IsInt(env, vars, name)
    ensures NoVoid(BuildLine(env, vars, Pieces(name, j, c, r), u))
    decreases j, c, r
  {
    hide IsInt, Build, NoVoid, Linked, LineFits, LineNodes, LineIncrements;
    PieceTrees(env, vars, name, u);
    if j > 0 {
      PiecesNoVoid(env, vars, name, j - 1, c, r, u + 2);
      var e := PostTerm(false, NameTerm(name));
      PiecesCons(env, vars, e, Pieces(name, j - 1, c, r), u);
      NoVoidLinked(Build(env, vars, e, u), BuildLine(env, vars, Pieces(name, j - 1, c, r), u + 2));
    } else if c {
      PiecesNoVoid(env, vars, name, 0, false, r, u + 1);
      PiecesCons(env, vars, CharTerm(97), Pieces(name, 0, false, r), u);
      NoVoidLinked(Build(env, vars, CharTerm(97), u), BuildLine(env, vars, Pieces(name, 0, false, r), u + 1));
    } else if r > 0 {
      PiecesNoVoid(env, vars, name, 0, false, r - 1, u + 1);
      PiecesCons(env, vars, NameTerm(name), Pieces(name, 0, false, r - 1), u);
      NoVoidLinked(Build(env, vars, NameTerm(name), u), BuildLine(env, vars, Pieces(name, 0, false, r - 1), u + 1));
    } else {
      NothingVoid(env, vars, u);
    }
  }

  lemma NothingVoid(env: Env, vars: seq<Variable>, u: nat)
    ensures NoVoid(BuildLine(env, vars, [], u))
  {
  }

  /** `x++; x++; x++; 'a'; x; ...` with nine plain uses fills the text segment to the last byte and is safe to
      run; what listing it does is said by `Disassemble`. */
  lemma FullText(env: Env, vars: seq<Variable>, name: string)
    requires IsInt(env, vars, name)
    ensures var line := PiecesText(env, vars, name, 3, true, 9);
      var (f, end) := ParsedLine(env, vars, line);
      end.err == ERROR_OK && LineBytes(f) == TEXT_MAX && Safe(env, vars, line)
  {
    hide IsInt, BuildLine, PiecesText, ParsedLine, Pieces, NoVoid, CodeSize, Safe;
    PiecesSize(env, vars, name, 3, true, 9, 0);
    PiecesNoVoid(env, vars, name, 3, true, 9, 0);
    AcceptedLinesAreSafe(env, vars, PiecesText(env, vars, name, 3, true, 9));
  }

  /** Lines that fit the text segment: by the size formula, and so always with at most two increments. */
  lemma FewIncrementsFit(env: Env, vars: seq<Variable>, ss: seq<Stmt>)
    requires LineNodes(ss) <= NODE_MAX
    requires 6 * LineNodes(ss) + 12 * LineIncrements(ss) - 1 <= TEXT_MAX || LineIncrements(ss) <= 2
    ensures LineBytes(BuildLine(env, vars, ss, 0)) <= TEXT_MAX
  {
    hide LineNodes, LineIncrements, BuildLine, CodeOf;
    LineNodeCount(env, vars, ss, 0);
    LineSteps(env, vars, ss, 0);
    CodeBound(BuildLine(env, vars, ss, 0));
  }

  // ----- the stack -----

  /** `1 + v` with `v` of type `void`. */
  function VoidLine(name: string): seq<Stmt> {
    [ExprStmt(BinTerm(Add, IntTerm(1), NameTerm(name)))]
  }

  lemma VoidHeight(env: Env, vars: seq<Variable>, name: string)
    requires IsName(name) && Resolve(env, vars, Id(name)).VarSym? && Resolve(env, vars, Id(name)).ty == TVoid
    ensures var f := BuildLine(env, vars, VoidLine(name), 0);
      && LineFits(env, vars, VoidLine(name)) && LineNodes(VoidLine(name)) == 3 && ErrorOf(f) == ERROR_OK
      && LineHeight(Annotate(f, false), 0) == None
  {
    hide Resolve, IsName;
    var e := BinTerm(Add, IntTerm(1), NameTerm(name));
    assert VoidLine(name) == [ExprStmt(e)] + [];
    assert Stratified(IntTerm(1)) && Stratified(NameTerm(name)) && Stratified(e);
    assert Known(env, vars, IntTerm(1)) && Known(env, vars, NameTerm(name)) && Known(env, vars, e);
    PiecesCons(env, vars, e, [], 0);
    NoPieces(env, vars, 3);
    var f := Build(env, vars, e, 0);
    assert Linked(f, Nil) == f;
    var one, v := f.child, f.child.next;
    var a := Annotate(f, false);
    assert Annotate(v, false).next == Nil && Annotate(v, false).child == Nil;
    assert a.child == Annotate(one, false) && a.child.next == Annotate(v, false);
    VoidTreeHeight(a);
    VoidTreeError(f, a);
  }

  lemma VoidTreeHeight(a: Forest)
    requires a.Node? && a.kind == KBin(Add) && a.dt == DT_DWORD && a.next.Nil?
    requires a.child.Node? && a.child.kind == KInt && a.child.child.Nil?
    requires var v := a.child.next;
      v.Node? && v.kind == KId && v.sym.VarSym? && v.sym.ty == TVoid && v.child.Nil? && v.next.Nil?
    ensures LineHeight(a, 0) == None
  {
    var one, v := a.child, a.child.next;
    assert TreeHeight(v, 1) == Some(1) && Height(v.next, 1) == Some(1);
    assert Height(v, 1) == Some(1);
    assert TreeHeight(one, 0) == Some(1);
    assert Height(one, 0) == Some(1);
    assert TreeHeight(a, 0) == None;
  }

  lemma VoidTreeError(f: Forest, a: Forest)
    requires a == Annotate(f, false) && f.Node? && f.kind == KBin(Add) && f.next.Nil?
    requires f.child.Node? && f.child.kind == KInt && f.child.child.Nil?
    requires var v := f.child.next;
      v.Node? && v.kind == KId && v.sym.VarSym? && v.sym.ty == TVoid && v.child.Nil? && v.next.Nil?
    ensures ErrorOf(f) == ERROR_OK
  {
    var one, v := f.child, f.child.next;
    assert CheckError(v, ERROR_OK) == ERROR_OK;
    assert CheckError(one, ERROR_OK) == ERROR_OK;
    assert CheckError(f, ERROR_OK) == ERROR_OK;
    assert CompileError(a.child.next, ERROR_OK) == ERROR_OK;
    assert CompileError(a.child, ERROR_OK) == ERROR_OK;
    assert a.kind == KBin(Add) && OwnError(a, ERROR_OK) == ERROR_OK && a.next == Nil;
    assert LineError(a.next, ERROR_OK) == ERROR_OK;
  }

  /** The failing input behind the condition on identifiers: the line is parsed and compiled without an
      error, and its addition takes an operand from below the stack. */
  lemma VoidOperandUnderflows(env: Env, vars: seq<Variable>, name: string)
    requires IsName(name) && Resolve(env, vars, Id(name)).VarSym? && Resolve(env, vars, Id(name)).ty == TVoid
    ensures AllPrintable(LineToks(VoidLine(name))) && Good(Text(LineToks(VoidLine(name))))
    ensures var line := Text(LineToks(VoidLine(name)));
      var (f, end) := ParsedLine(env, vars, line);
      end.err == ERROR_OK && ErrorOf(f) == ERROR_OK && !Safe(env, vars, line)
  {
    hide IsName, Resolve, BuildLine, Text, LineToks, Tokens, ParserRun, LineHeight, Annotate, LineFits, LineNodes,
         CheckError, LineError;
    VoidHeight(env, vars, name);
    assert PlainTerm(IntTerm(1)) && PlainTerm(NameTerm(name));
    TermAlone(env, vars, VoidLine(name)[0].e);
    LineRoundTrip(env, vars, VoidLine(name));
    LineRead(env, vars, VoidLine(name), Text(LineToks(VoidLine(name))));
  }

  // ----- bytes left over -----

  lemma TermAlone(env: Env, vars: seq<Variable>, e: Term)
    ensures Linked(Build(env, vars, e, 0), Nil) == Build(env, vars, e, 0)
    ensures LineVars(vars, [ExprStmt(e)]) == vars && LineNew(vars, [ExprStmt(e)])
    ensures PlainTerm(e) ==> LinePlain([ExprStmt(e)])
  {
    assert [ExprStmt(e)][1..] == [];
  }

  lemma TermLine(env: Env, vars: seq<Variable>, e: Term)
    requires Stratified(e) && PlainTerm(e) && Known(env, vars, e) && Size(e) <= NODE_MAX
    ensures var ss := [ExprStmt(e)];
      && LineFits(env, vars, ss) && LinePlain(ss) && LineNew(vars, ss) && LineNodes(ss) <= NODE_MAX
      && BuildLine(env, vars, ss, 0) == Build(env, vars, e, 0) && LineVars(vars, ss) == vars
  {
    TermAlone(env, vars, e);
    hide Build, Stratified, Known, Size, BuildLine, LineFits, LineNodes, LineVars, LineNew, LinePlain, LineIncrements,
         PlainTerm, Increments;
    assert [ExprStmt(e)] + [] == [ExprStmt(e)];
    PiecesCons(env, vars, e, [], 0);
    NoPieces(env, vars, Size(e));
  }

  /** The text of one expression is parsed without error into its tree. */
  function TermText(env: Env, vars: seq<Variable>, e: Term): (line: string)
    requires Stratified(e) && PlainTerm(e) && Known(env, vars, e) && Size(e) <= NODE_MAX
    ensures Good(line)
    ensures var (f, end) := ParsedLine(env, vars, line);
      end.err == ERROR_OK && f == Build(env, vars, e, 0) && end.vars == vars
  {
    hide Build, Text, ParserRun, Tokens, LineToks, Stratified, Known, Size, BuildLine, LineFits, LineNodes, LineVars,
         LineNew, LinePlain, PlainTerm;
    TermLine(env, vars, e);
    LineRoundTrip(env, vars, [ExprStmt(e)]);
    LineRead(env, vars, [ExprStmt(e)], Text(LineToks([ExprStmt(e)])));
    Text(LineToks([ExprStmt(e)]))
  }

  const INT := TypeName(false, IntName, false)

  const LEAVING := BinTerm(Add, IntTerm(0), IntTerm(0xFFFF_FF00))
  const WIDENED := BinTerm(Add, IntTerm(1), CastTerm(INT, CharTerm(97)))

  lemma SessionTerms(env: Env, vars: seq<Variable>)
    ensures Stratified(LEAVING) && PlainTerm(LEAVING) && Known(env, vars, LEAVING) && Size(LEAVING) == 3
    ensures Stratified(WIDENED) && PlainTerm(WIDENED) && Known(env, vars, WIDENED) && Size(WIDENED) == 3
  {
    assert Stratified(IntTerm(0)) && Stratified(IntTerm(1)) && Stratified(IntTerm(0xFFFF_FF00));
    assert Stratified(CharTerm(97)) && Stratified(CastTerm(INT, CharTerm(97)));
  }

  /** The forest of a sum of two leaves. */
  ghost predicate SumOf(f: Forest, l: Kind, a: Word, r: Kind, b: Word) {
    && f.Node? && f.kind == KBin(Add) && f.next.Nil? && !f.isAddr
    && f.child.Node? && f.child.kind == l && f.child.value == a && f.child.child.Nil?
    && var g := f.child.next; g.Node? && g.kind == r && g.value == b && g.child.Nil? && g.next.Nil?
  }

  lemma SumTrees(env: Env, vars: seq<Variable>)
    ensures SumOf(Build(env, vars, LEAVING, 0), KInt, 0, KInt, 0xFFFF_FF00)
    ensures SumOf(Build(env, vars, WIDENED, 0), KInt, 1, KChar, 97)
  {
    hide TypeNumber;
    var g := Build(env, vars, CastTerm(INT, CharTerm(97)), 1);
    assert g == NewNode(1, KChar, 97, NoSymbol, Nil).(dt := TypeNumber(TInt)) by {
      assert Build(env, vars, CharTerm(97), 1) == NewNode(1, KChar, 97, NoSymbol, Nil);
    }
    var f := Build(env, vars, BinTerm(Add, IntTerm(1), CastTerm(INT, CharTerm(97))), 0);
    assert Build(env, vars, IntTerm(1), 0) == NewNode(0, KInt, 1, NoSymbol, Nil) && Size(IntTerm(1)) == 1;
    assert f.child == Linked(NewNode(0, KInt, 1, NoSymbol, Nil), g);
  }

  /** Its code loads both leaves and adds double words, with no error. */
  lemma SumCode(f: Forest, a: Word, r: Kind, b: Word)
    requires SumOf(f, KInt, a, r, b) && (r == KInt || (r == KChar && b < 0x100))
    ensures CodeOf(f) == [Instr(OpLd(W32), a), Instr(OpLd(if r == KInt then W32 else W8), b), Ins(OpBin(Add, W32))]
    ensures ErrorOf(f) == ERROR_OK && NoVoid(f) && Steps(f) == 0
  {
    var c := Annotate(f, false);
    var x, y := c.child, c.child.next;
    assert y == Annotate(f.child.next, false) && y.next == Nil && y.child == Nil;
    assert x.child == Nil && x.dt == DT_DWORD && c.dt == DT_DWORD && c.next == Nil;
    assert Code(y) == TreeCode(y) + [] == Own(y);
    assert Code(x) == TreeCode(x) + Code(y) == Own(x) + Own(y);
    assert LineCode(c) == TreeCode(c) == Own(x) + Own(y) + Own(c);
    SumError(f, c);
    assert NoVoid(f.child.next) && NoVoid(f.child);
    assert Steps(f.child.next) == 0 && Steps(f.child) == 0;
  }

  lemma SumError(f: Forest, c: Forest)
    requires c == Annotate(f, false) && f.Node? && f.kind == KBin(Add) && f.next.Nil?
    requires f.child.Node? && f.child.kind == KInt && f.child.child.Nil?
    requires var g := f.child.next; g.Node? && (g.kind == KInt || g.kind == KChar) && g.child.Nil? && g.next.Nil?
    ensures ErrorOf(f) == ERROR_OK
  {
    var one, v := f.child, f.child.next;
    assert CheckError(v, ERROR_OK) == ERROR_OK;
    assert CheckError(one, ERROR_OK) == ERROR_OK;
    assert CheckError(f, ERROR_OK) == ERROR_OK;
    assert CompileError(c.child.next, ERROR_OK) == ERROR_OK;
    assert CompileError(c.child, ERROR_OK) == ERROR_OK;
    assert LineError(c.next, ERROR_OK) == ERROR_OK;
  }

  /** What its code does to the two lowest slots. */
  lemma SumRun(p: Platform, a: Word, w: Width, b: Word, s: State)
    requires s.sp == 0 && |s.stack| >= 2
    ensures var out := ExecAll(p, [Instr(OpLd(W32), a), Instr(OpLd(w), b), Ins(OpBin(Add, W32))], s);
      var y := SetLow(s.stack[1], b, w);
      out.Some? && out.value.stack == s.stack[0 := p.binary(Add, W32, a, y)][1 := y] && out.value.mem == s.mem
  {
    hide SetLow;
    var i, j, k := Instr(OpLd(W32), a), Instr(OpLd(w), b), Ins(OpBin(Add, W32));
    SetLowWord(s.stack[0], a);
    var s1 := Exec(p, i, s).value;
    assert s1.stack == s.stack[0 := a];
    var s2 := Exec(p, j, s1).value;
    var y := SetLow(s.stack[1], b, w);
    assert s2.stack == s.stack[0 := a][1 := y];
    SetLowWord(a, p.binary(Add, W32, a, y));
    Correctness.ExecCons(p, i, [j, k], s, s1);
    Correctness.ExecCons(p, j, [k], s1, s2);
    Correctness.ExecOne(p, k, s2);
    assert [i] + [j, k] == [i, j, k] && [j] + [k] == [j, k];
    assert Low(a, W32) == a && Low(y, W32) == y;
  }

  lemma SetLowWord(x: Word, v: Word)
    ensures SetLow(x, v, W32) == v
  {
  }

  /** The text of `e` is safe and leaves the stack `out`. */
  ghost predicate Leaves(p: Platform, env: Env, vars: seq<Variable>, e: Term, stack: seq<Word>, mem: Mem,
      out: seq<Word>)
    requires Stratified(e) && PlainTerm(e) && Known(env, vars, e) && Size(e) <= NODE_MAX && |stack| == STACK_MAX
  {
    var line := TermText(env, vars, e);
    Safe(env, vars, line) && OutcomeOf(p, env, vars, stack, mem, line) == Ran(out, mem)
  }

  /** The outcome of such a line. */
  lemma SumOutcome(p: Platform, env: Env, vars: seq<Variable>, e: Term, a: Word, r: Kind, b: Word, stack: seq<Word>,
      mem: Mem)
    requires Stratified(e) && PlainTerm(e) && Known(env, vars, e) && Size(e) <= NODE_MAX && |stack| == STACK_MAX
    requires SumOf(Build(env, vars, e, 0), KInt, a, r, b) && (r == KInt || (r == KChar && b < 0x100))
    ensures var y := SetLow(stack[1], b, if r == KInt then W32 else W8);
      Leaves(p, env, vars, e, stack, mem, stack[0 := p.binary(Add, W32, a, y)][1 := y])
  {
    hide Stratified, Known, Build, ParsedLine, NoVoid, Steps, CodeOf, ErrorOf, SetLow, SumOf, OutcomeOf, Safe, ExecAll,
         Size, TermText;
    var line := TermText(env, vars, e);
    var w := if r == KInt then W32 else W8;
    SumCode(Build(env, vars, e, 0), a, r, b);
    ShortLinesAreSafe(env, vars, line);
    OutcomeIs(p, env, vars, stack, mem, line);
    SumRun(p, a, w, b, Start(stack, mem));
    var v := p.binary(Add, W32, a, SetLow(stack[1], b, w));
    assert stack[0 := 0][0 := v] == stack[0 := v];
  }

  /** Two lines typed in one after the other, `0 + 0xFFFFFF00;` and `1 + (int)'a';`: the second is answered with
      -158 as an `int`, where C makes it 98, because the cast fills none of the bytes the first line has left
      in the second slot. */
  lemma StaleBytes(p: Platform, env: Env, vars: seq<Variable>, stack: seq<Word>, mem: Mem)
    requires |stack| == STACK_MAX && AddsUp(p)
    ensures Stratified(LEAVING) && PlainTerm(LEAVING) && Known(env, vars, LEAVING) && Size(LEAVING) == 3
    ensures Stratified(WIDENED) && PlainTerm(WIDENED) && Known(env, vars, WIDENED) && Size(WIDENED) == 3
    ensures var first, second := TermText(env, vars, LEAVING), TermText(env, vars, WIDENED);
      && Safe(env, vars, first) && Safe(env, vars, second)
      && var out := OutcomeOf(p, env, vars, stack, mem, first);
         && out.Ran? && |out.stack| == STACK_MAX
         && var out' := OutcomeOf(p, env, vars, out.stack, out.mem, second);
            out'.Ran? && out'.stack != [] && out'.stack[0] == 0xFFFF_FF62
  {
    hide Stratified, Known, Size, Build, SumOf, OutcomeOf, Safe, TermText, SetLow, AddsUp;
    SessionTerms(env, vars);
    SumTrees(env, vars);
    SumOutcome(p, env, vars, LEAVING, 0, KInt, 0xFFFF_FF00, stack, mem);
    var out := OutcomeOf(p, env, vars, stack, mem, TermText(env, vars, LEAVING));
    SetLowWord(stack[1], 0xFFFF_FF00);
    assert out.stack[1] == 0xFFFF_FF00;
    SumOutcome(p, env, vars, WIDENED, 1, KChar, 97, out.stack, out.mem);
    StaleWord(p);
  }

  lemma StaleWord(p: Platform)
    requires AddsUp(p)
    ensures SetLow(0xFFFF_FF00, 97, W8) == 0xFFFF_FF61 && p.binary(Add, W32, 1, 0xFFFF_FF61) == 0xFFFF_FF62
  {
  }

  // ----- a narrow value in a wide variable -----

  function NarrowAssignment(name: string, c: Byte): Term {
    AssignTerm(NameTerm(name), CharTerm(c))
  }

  lemma NarrowTerm(env: Env, vars: seq<Variable>, name: string, c: Byte)
    requires IsInt(env, vars, name)
    ensures var e := NarrowAssignment(name, c);
      && Stratified(e) && PlainTerm(e) && Known(env, vars, e) && Size(e) == 3
      && var f := Build(env, vars, e, 0);
         f.Node? && f.kind == KAssign && f.next.Nil? && !f.isAddr && f.sym == NoSymbol
         && var l, r := f.child, f.child.next;
            && l.Node? && l.kind == KId && l.sym == Resolve(env, vars, Id(name)) && !l.isAddr && l.child.Nil?
            && r.Node? && r.kind == KChar && r.value == c && !r.isAddr && r.child.Nil? && r.next.Nil?
  {
    hide Resolve, IsName;
    var l, r := NameTerm(name), CharTerm(c);
    assert Stratified(l) && Stratified(r) && PlainTerm(l) && PlainTerm(r) && Known(env, vars, l) && Known(env, vars, r);
    assert Build(env, vars, l, 0) == NewNode(0, KId, 0, Resolve(env, vars, Id(name)), Nil);
    assert Size(l) == 1 && Size(r) == 1;
    assert Build(env, vars, r, 1) == NewNode(1, KChar, c, NoSymbol, Nil);
  }

  /** Walking over such a tree. */
  lemma NarrowWalk(p: Platform, f: Forest, c: Byte, s: State)
    requires f.Node? && f.kind == KAssign && f.next.Nil? && !f.isAddr && f.child.Node?
    requires s.sp == 0 && |s.stack| == STACK_MAX
    requires var l, r := f.child, f.child.next;
      && l.Node? && l.kind == KId && l.sym.VarSym? && l.sym.ty == TInt && !l.isAddr && l.child.Nil?
      && r.Node? && r.kind == KChar && r.value == c && !r.isAddr && r.child.Nil? && r.next.Nil?
    ensures !Refused(f)
    ensures var x, out := SetLow(s.stack[1], c, W8), Statements(p, f, s);
      && out.Some? && out.value.stack == s.stack[0 := x][1 := x]
      && out.value.mem == Store(s.mem, f.child.sym.addr, x, W32)
  {
    hide Store, SetLow, Low;
    var l, r := f.child, f.child.next;
    var a, x := l.sym.addr, SetLow(s.stack[1], c, W8);
    WholeSlot(s.stack[0], a);
    var s1 := s.(stack := s.stack[0 := a], sp := 1);
    assert Trees(p, Nil, true, s) == Some(s) && Trees(p, Nil, false, s1) == Some(s1);
    assert Tree(p, l, true, s) == Some(s1);
    var s2 := s1.(stack := s1.stack[1 := x], sp := 2);
    assert Tree(p, r, false, s1) == Some(s2);
    assert Trees(p, r, false, s1) == Some(s2);
    assert Trees(p, l, true, s) == Some(s2);
    assert DataType(l) == 3 && DataType(f) == 3;
    WholeSlot(a, x);
    assert Tree(p, f, false, s) == StoreTop(W32, s2);
    assert Low(x, W32) == x by { WholeSlot(a, x); }
    assert !Refused(Nil) && !Wrong(r) && !Wrong(l) && !Wrong(f);
    assert !Refused(r);
    assert !Refused(l);
  }

  lemma WholeSlot(x: Word, v: Word)
    ensures SetLow(x, v, W32) == v && Low(v, W32) == v
  {
  }

  /** `x = 'c'` with an `int` variable `x`: what is stored has the character in its low byte and the bytes of the
      second stack slot above, so that `x` is the character if and only if that slot was below 256. */
  lemma NarrowAssigned(p: Platform, env: Env, vars: seq<Variable>, name: string, c: Byte, stack: seq<Word>, mem: Mem)
    requires IsInt(env, vars, name) && |stack| == STACK_MAX
    ensures var e := NarrowAssignment(name, c);
      && Stratified(e) && PlainTerm(e) && Known(env, vars, e) && Size(e) <= NODE_MAX
      && var line, a, x := TermText(env, vars, e), Resolve(env, vars, Id(name)).addr, SetLow(stack[1], c, W8);
         && Safe(env, vars, line)
         && OutcomeOf(p, env, vars, stack, mem, line) == Ran(stack[0 := x][1 := x], Store(mem, a, x, W32))
         && (Load(Store(mem, a, x, W32), a, W32) == c <==> stack[1] < 0x100)
  {
    hide IsName, Resolve, Stratified, PlainTerm, Known, Size, Build, ParsedLine, Safe, OutcomeOf, Statements, Refused,
         TermText, Load, Store;
    var e := NarrowAssignment(name, c);
    NarrowTerm(env, vars, name, c);
    var line, f := TermText(env, vars, e), Build(env, vars, e, 0);
    NarrowIsShort(f);
    NarrowWalk(p, f, c, State(stack[0 := 0], 0, 0, mem));
    AcceptedExactly(f);
    ShortLinesAreSafe(env, vars, line);
    EveryLine(p, env, vars, stack, mem, line);
    var a, x := Resolve(env, vars, Id(name)).addr, SetLow(stack[1], c, W8);
    LoadStore(mem, a, x, W32);
    assert stack[0 := 0][0 := x][1 := x] == stack[0 := x][1 := x];
  }

  lemma NarrowIsShort(f: Forest)
    requires f.Node? && f.kind == KAssign && f.next.Nil? && f.child.Node?
    requires var l, r := f.child, f.child.next;
      && l.Node? && l.kind == KId && l.sym.VarSym? && l.sym.ty == TInt && l.child.Nil?
      && r.Node? && r.kind == KChar && r.child.Nil? && r.next.Nil?
    ensures NoVoid(f) && Steps(f) == 0
  {
    var l, r := f.child, f.child.next;
    assert NoVoid(r) && NoVoid(l) && Steps(r) == 0 && Steps(l) == 0;
  }
}
