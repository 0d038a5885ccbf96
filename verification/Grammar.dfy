/** The recursive-descent parser (finsh_parser.c) as functions from a token stream to a forest, with
    the node constructors (finsh_node.c) and the variable table (finsh_var.c). */
module Grammar {
  import opened Machine
  import opened Limits
  import opened Ast
  import opened Lexer

  // ----- names and variables -----

  /** The C string in the first `n` characters of a buffer. */
  function CName(s: string, n: nat): string {
    if n == 0 || s == "" || s[0] == '\0' then "" else [s[0]] + CName(s[1..], n - 1)
  }

  /** The C string a character array holds. */
  function CString(s: string): string {
    CName(s, |s|)
  }

  /** An entry of `global_variable`; a free one has an unknown type. */
  datatype Variable = Variable(name: string, ty: FinshType)

  /** The surroundings of the parser: where variable values lie, the tables of system variables and
      calls, and the addresses the heap gives to string literals. */
  datatype Env = Env(varAddr: nat -> Word, system: string -> Symbol, stringAt: (nat, string) -> Word)

  function VarFind(vars: seq<Variable>, name: string): (r: nat)
    ensures r <= |vars|
  {
    if vars == [] || vars[0].name == name then 0 else 1 + VarFind(vars[1..], name)
  }

  function FreeSlot(vars: seq<Variable>): (r: nat)
    ensures r <= |vars|
  {
    if vars == [] || vars[0].ty == TUnknown then 0 else 1 + FreeSlot(vars[1..])
  }

  /** `finsh_var_insert`: `None` when the name is taken or no entry is free. */
  function VarInsert(vars: seq<Variable>, name: string, ty: FinshType): Option<seq<Variable>> {
    var empty := FreeSlot(vars);
    if VarFind(vars, name) < |vars| || empty == |vars| then None
    else Some(vars[empty := Variable(name, ty)])
  }

  /** What a name means: variables first, then system variables, then system calls. */
  function Resolve(env: Env, vars: seq<Variable>, name: string): Symbol {
    var i := VarFind(vars, name);
    if i < |vars| then VarSym(vars[i].ty, env.varAddr(i)) else env.system(name)
  }

  // ----- the token stream with one token of replay -----

  /** The parser's state: the current token, whether it is to be replayed, the tokens behind it, how
      many pool nodes are taken, the error code and the variables. */
  datatype Parser = Parser(cur: Tok, replay: bool, rest: seq<Tok>, used: nat, err: nat, vars: seq<Variable>)

  function Next(ps: Parser): Parser {
    if ps.replay then ps.(replay := false)
    else if ps.rest == [] then ps.(cur := ps.cur.(kind := TokEof))
    else
      var t := ps.rest[0];
      ps.(cur := t.(err := 0), rest := ps.rest[1..], err := if t.err != 0 then t.err else ps.err)
  }

  function Replay(ps: Parser): Parser {
    ps.(replay := true)
  }

  function Error(ps: Parser, e: nat): Parser {
    ps.(err := e)
  }

  function Cur(ps: Parser): TokenKind {
    ps.cur.kind
  }

  /** Tokens still to come. */
  function Fuel(ps: Parser): nat {
    |ps.rest| + if ps.replay && Cur(ps) != TokEof then 1 else 0
  }

  predicate AtEnd(ps: Parser) {
    Cur(Next(ps)) == TokEof
  }

  /** `check_token`. */
  function Check(ps: Parser, actual: TokenKind, expected: TokenKind): (r: Parser)
    ensures Fuel(r) <= Fuel(Replay(ps))
  {
    if actual == expected then ps else Replay(Error(ps, ERROR_INVALID_TOKEN))
  }

  function Match(ps: Parser, k: TokenKind): Parser {
    Check(Next(ps), Cur(Next(ps)), k)
  }

  // ----- types and identifiers -----

  function BaseType(k: TokenKind): FinshType {
    match k
    case TokVoid => TVoid
    case TokChar => TChar
    case TokShort => TShort
    case TokInt => TInt
    case TokLong => TLong
    case _ => TUnknown
  }

  predicate IsBaseType(k: TokenKind) {
    BaseType(k) != TUnknown
  }

  function UnsignedType(ty: FinshType): FinshType {
    match ty
    case TChar => TUChar
    case TShort => TUShort
    case TInt => TUInt
    case TLong => TULong
    case _ => TUnknown
  }

  function PointerTo(ty: FinshType): FinshType {
    match ty
    case TChar | TUChar => TCharP
    case TShort | TUShort => TShortP
    case TInt | TUInt => TIntP
    case TLong | TULong => TLongP
    case _ => TVoidP
  }

  function ParsePointer(ps: Parser, ty: FinshType): (FinshType, Parser) {
    var p1 := Next(ps);
    if Cur(p1) == TokMul then (PointerTo(ty), p1) else (ty, Replay(p1))
  }

  function ParseType(ps: Parser): (r: (FinshType, Parser))
    ensures Fuel(r.1) <= Fuel(ps)
    ensures IsBaseType(Cur(Next(ps))) || Cur(Next(ps)) == TokUnsigned ==> Fuel(r.1) < Fuel(ps)
  {
    var p1 := Next(ps);
    if IsBaseType(Cur(p1)) then ParsePointer(p1, BaseType(Cur(p1)))
    else if Cur(p1) == TokUnsigned then
      var p2 := Next(p1);
      if Cur(p2) == TokVoid then (TUnknown, Error(Replay(p2), ERROR_UNKNOWN_TYPE))
      else if IsBaseType(Cur(p2)) then ParsePointer(p2, UnsignedType(BaseType(Cur(p2))))
      else ParsePointer(Error(Replay(p2), ERROR_EXPECT_TYPE), TUnknown)
    else (TUnknown, Error(Replay(p1), ERROR_UNKNOWN_TYPE))
  }

  function ParseIdentifier(ps: Parser): (r: (string, Parser))
    ensures Fuel(r.1) <= Fuel(ps)
  {
    var p1 := Match(ps, TokIdentifier);
    (CName(p1.cur.str, NAME_MAX), p1)
  }

  // ----- nodes -----

  function NewNode(at: nat, kind: Kind, value: Word, sym: Symbol, child: Forest): (f: Forest)
    ensures f.Node? && f.next.Nil?
  {
    Node(at, kind, DT_VOID, false, value, sym, child, Nil)
  }

  function Taken(ps: Parser): Parser {
    ps.(used := ps.used + 1)
  }

  /** `finsh_node_new_char` and its like. */
  function NewLeaf(ps: Parser, kind: Kind, value: Word): (Forest, Parser) {
    if ps.used < NODE_MAX then (NewNode(ps.used, kind, value, NoSymbol, Nil), Taken(ps))
    else (Nil, Error(ps, ERROR_MEMORY_FULL))
  }

  function NewId(env: Env, ps: Parser, name: string): (Forest, Parser) {
    var sym := Resolve(env, ps.vars, name);
    if sym == NoSymbol then (Nil, Error(ps, ERROR_UNKNOWN_SYMBOL))
    else if ps.used < NODE_MAX then (NewNode(ps.used, KId, 0, sym, Nil), Taken(ps))
    else (Nil, Error(ps, ERROR_MEMORY_FULL))
  }

  /** The node `f` with its sibling link set to `g`. */
  function Linked(f: Forest, g: Forest): Forest {
    if f.Nil? then Nil else f.(next := g)
  }

  function MakeSys(ps: Parser, kind: Kind, node1: Forest, node2: Forest): (r: (Forest, Parser))
    ensures Fuel(r.1) == Fuel(ps) && r.1.replay == ps.replay
  {
    if ps.used < NODE_MAX then
      if node1.Node? then (NewNode(ps.used, kind, 0, NoSymbol, Linked(node1, node2)), Taken(ps))
      else (NewNode(ps.used, kind, 0, NoSymbol, Nil), Error(Taken(ps), ERROR_NULL_NODE))
    else (Nil, Error(ps, ERROR_NULL_NODE))
  }

  // ----- expressions -----

  /** The number of a type in the enumeration `finsh_type`. */
  function TypeNumber(ty: FinshType): nat {
    match ty
    case TUnknown => 0 case TVoid => 1 case TVoidP => 2
    case TChar => 3 case TUChar => 4 case TCharP => 5
    case TShort => 6 case TUShort => 7 case TShortP => 8
    case TInt => 9 case TUInt => 10 case TIntP => 11
    case TLong => 12 case TULong => 13 case TLongP => 14
  }

  /** The binary operators of a level: 1 for `|` up to 6 for `*`, `/` and `%`. */
  function LevelOp(k: nat, t: TokenKind): Option<BinOp> {
    match t
    case TokOr => if k == 1 then Some(Or) else None
    case TokXor => if k == 2 then Some(Xor) else None
    case TokAnd => if k == 3 then Some(And) else None
    case TokShl => if k == 4 then Some(Shl) else None
    case TokShr => if k == 4 then Some(Shr) else None
    case TokSub => if k == 5 then Some(Sub) else None
    case TokAdd => if k == 5 then Some(Add) else None
    case TokMul => if k == 6 then Some(Mul) else None
    case TokDiv => if k == 6 then Some(Div) else None
    case TokMod => if k == 6 then Some(Mod) else None
    case _ => None
  }

  const CAST_LEVEL: nat := 7

  function ParseAssign(env: Env, ps: Parser): (r: (Forest, Parser))
    ensures r.1.replay && Fuel(r.1) <= Fuel(ps) && (!AtEnd(ps) ==> Fuel(r.1) < Fuel(ps))
    decreases Fuel(ps), 12
  {
    var (left, p1) := ParseBin(env, ps, 1);
    var p2 := Next(p1);
    if Cur(p2) == TokAssign then
      var (right, p3) := ParseAssign(env, p2);
      var (node, p4) := MakeSys(p3, KAssign, left, right);
      (node, p4)
    else (left, Replay(p2))
  }

  /** The levels of binary operators. */
  function ParseBin(env: Env, ps: Parser, k: nat): (r: (Forest, Parser))
    requires 1 <= k <= CAST_LEVEL
    ensures r.1.replay && Fuel(r.1) <= Fuel(ps) && (!AtEnd(ps) ==> Fuel(r.1) < Fuel(ps))
    decreases Fuel(ps), 11 - k
  {
    if k == CAST_LEVEL then ParseCast(env, ps)
    else
      var (left, p1) := ParseBin(env, ps, k + 1);
      BinLoop(env, p1, k, left)
  }

  function BinLoop(env: Env, ps: Parser, k: nat, left: Forest): (r: (Forest, Parser))
    requires 1 <= k < CAST_LEVEL
    ensures r.1.replay && Fuel(r.1) <= Fuel(ps)
    decreases Fuel(ps), 0
  {
    var p1 := Next(ps);
    var op := LevelOp(k, Cur(p1));
    if op.None? then (left, Replay(p1))
    else
      var (right, p2) := ParseBin(env, p1, k + 1);
      if right.Nil? then BinLoop(env, Error(p2, ERROR_EXPECT_OPERATOR), k, left)
      else
        var (node, p3) := MakeSys(p2, KBin(op.value), left, right);
        BinLoop(env, p3, k, node)
  }

  function ParseCast(env: Env, ps: Parser): (r: (Forest, Parser))
    ensures r.1.replay && Fuel(r.1) <= Fuel(ps) && (!AtEnd(ps) ==> Fuel(r.1) < Fuel(ps))
    decreases Fuel(ps), 3
  {
    var p1 := Next(ps);
    if Cur(p1) == TokLeftParen then
      var (ty, p2) := ParseType(p1);
      var (cast, p3) := ParseCast(env, Match(p2, TokRightParen));
      if cast.Node? then (cast.(dt := TypeNumber(ty)), p3) else ParseUnary(env, Replay(p3))
    else ParseUnary(env, Replay(p1))
  }

  /** Unary minus: a subtraction from a zero that is allocated behind the operand. */
  function Negate(ps: Parser, f: Forest): (r: (Forest, Parser))
    ensures Fuel(r.1) == Fuel(ps) && r.1.replay == ps.replay
  {
    var (zero, p1) := NewLeaf(ps, KLong, 0);
    MakeSys(p1, KBin(Sub), zero, f)
  }

  function UnaryKind(t: TokenKind): Option<Kind> {
    match t
    case TokInc => Some(KPreInc)
    case TokDec => Some(KPreDec)
    case TokBitwise => Some(KInvert)
    case TokMul => Some(KGetValue)
    case TokAnd => Some(KGetAddr)
    case _ => None
  }

  function ParseUnary(env: Env, ps: Parser): (r: (Forest, Parser))
    ensures r.1.replay && Fuel(r.1) <= Fuel(ps) && (!AtEnd(ps) ==> Fuel(r.1) < Fuel(ps))
    decreases Fuel(ps), 2
  {
    var p1 := Next(ps);
    if Cur(p1) == TokAdd then ParseCast(env, p1)
    else if Cur(p1) == TokSub then
      var (cast, p2) := ParseCast(env, p1);
      Negate(p2, cast)
    else if UnaryKind(Cur(p1)).Some? then
      var (cast, p2) := ParseCast(env, p1);
      MakeSys(p2, UnaryKind(Cur(p1)).value, cast, Nil)
    else ParsePostfix(env, Replay(p1))
  }

  function ParsePostfix(env: Env, ps: Parser): (r: (Forest, Parser))
    ensures r.1.replay && Fuel(r.1) <= Fuel(ps) && (!AtEnd(ps) ==> Fuel(r.1) < Fuel(ps))
    decreases Fuel(ps), 1
  {
    var (primary, p1) := ParsePrimary(env, ps);
    PostLoop(env, p1, primary)
  }

  function PostLoop(env: Env, ps: Parser, postfix: Forest): (r: (Forest, Parser))
    ensures r.1.replay && Fuel(r.1) <= Fuel(ps)
    decreases Fuel(ps), 0
  {
    var p1 := Next(ps);
    if Cur(p1) == TokInc then
      var (node, p2) := MakeSys(p1, KInc, postfix, Nil);
      PostLoop(env, p2, node)
    else if Cur(p1) == TokDec then
      var (node, p2) := MakeSys(p1, KDec, postfix, Nil);
      PostLoop(env, p2, node)
    else if Cur(p1) == TokLeftParen then
      var (params, p2) := ParseParens(env, p1);
      var (node, p3) := MakeSys(p2, KFunc, postfix, params);
      PostLoop(env, p3, node)
    else (postfix, Replay(p1))
  }

  /** The parameters behind `(`, and the closing parenthesis. */
  function ParseParens(env: Env, ps: Parser): (r: (Forest, Parser))
    ensures Fuel(r.1) <= Fuel(ps)
    decreases Fuel(ps), 14
  {
    var p1 := Next(ps);
    if Cur(p1) == TokRightParen then (Nil, p1)
    else
      var (params, p2) := ParseParams(env, Replay(p1));
      (params, Match(p2, TokRightParen))
  }

  function ParsePrimary(env: Env, ps: Parser): (r: (Forest, Parser))
    ensures Fuel(r.1) <= Fuel(ps) && (!AtEnd(ps) ==> Fuel(r.1) < Fuel(ps))
    decreases Fuel(ps), 0
  {
    var p1 := Next(ps);
    match Cur(p1)
    case TokIdentifier =>
      var (id, p2) := ParseIdentifier(Replay(p1));
      NewId(env, p2, id)
    case TokLeftParen =>
      var (expr, p2) := ParseAssign(env, p1);
      (expr, Match(p2, TokRightParen))
    case TokValueInt => NewLeaf(p1, KInt, p1.cur.value)
    case TokValueLong => NewLeaf(p1, KLong, p1.cur.value)
    case TokValueChar => NewLeaf(p1, KChar, p1.cur.value)
    case TokValueString => NewLeaf(p1, KString, env.stringAt(p1.used, CString(p1.cur.str)))
    case TokValueNull => NewLeaf(p1, KNull, 0)
    case _ => (Nil, Error(p1, ERROR_INVALID_TOKEN))
  }

  function ParseParams(env: Env, ps: Parser): (r: (Forest, Parser))
    ensures Fuel(r.1) <= Fuel(ps)
    decreases Fuel(ps), 13
  {
    var (first, p1) := ParseAssign(env, ps);
    if first.Nil? then (Nil, p1)
    else
      var (rest, p2) := ParamLoop(env, p1);
      (Linked(first, rest), p2)
  }

  /** The parameters behind the first one. */
  function ParamLoop(env: Env, ps: Parser): (r: (Forest, Parser))
    ensures Fuel(r.1) <= Fuel(ps)
    decreases Fuel(ps), 0
  {
    var p1 := Next(ps);
    if Cur(p1) != TokComma then (Nil, Replay(p1))
    else
      var (e, p2) := ParseAssign(env, p1);
      if e.Nil? then ParamLoop(env, Error(p2, ERROR_EXPECT_OPERATOR))
      else
        var (rest, p3) := ParamLoop(env, p2);
        (Linked(e, rest), p3)
  }

  // ----- statements and declarations -----

  function ParseStatement(env: Env, ps: Parser): (r: (Forest, Parser))
    ensures Fuel(r.1) <= Fuel(ps) && (!AtEnd(ps) ==> Fuel(r.1) < Fuel(ps))
  {
    var p1 := Next(ps);
    if Cur(p1) == TokSemicolon then (Nil, p1)
    else
      var (expr, p2) := ParseAssign(env, Replay(p1));
      (expr, Match(p2, TokSemicolon))
  }

  /** A declared name goes into the variable table. */
  function Declare(ps: Parser, id: string, ty: FinshType): (r: Parser)
    ensures Fuel(r) == Fuel(ps)
  {
    match VarInsert(ps.vars, id, ty)
    case Some(vars) => ps.(vars := vars)
    case None => Error(ps, ERROR_VARIABLE_EXIST)
  }

  /** The trees of a statement chain; nothing is appended for a null node. */
  function Append(trees: seq<Forest>, f: Forest): seq<Forest> {
    if f.Nil? then trees else trees + [f]
  }

  function Chain(trees: seq<Forest>, tail: Forest): Forest {
    if trees == [] then tail else Linked(trees[0], Chain(trees[1..], tail))
  }

  /** A tree at the end of a chain can be counted with the list or with the tail. */
  lemma {:induction false} ChainTail(trees: seq<Forest>, f: Forest, g: Forest)
    ensures Chain(trees + [f], g) == Chain(trees, Linked(f, g))
  {
    var more := trees + [f];
    if trees == [] {
      assert Chain(more[1..], g) == g;
    } else {
      assert more[1..] == trees[1..] + [f];
      ChainTail(trees[1..], f, g);
    }
  }

  /** Behind `=`: the assignments so far, and the token that follows. */
  function Initialiser(env: Env, ps: Parser, id: string, trees: seq<Forest>): (r: (seq<Forest>, Parser, TokenKind))
    ensures Fuel(Replay(r.1)) <= Fuel(ps) && (r.2 == TokComma ==> Fuel(r.1) < Fuel(ps))
  {
    var (right, p1) := ParseAssign(env, ps);
    if right.Nil? then (trees, p1, TokAssign)
    else
      var (left, p2) := NewId(env, p1, id);
      var (node, p3) := MakeSys(p2, KAssign, left, right);
      var p4 := Next(p3);
      (Append(trees, node), p4, Cur(p4))
  }

  /** A name, declared and possibly initialised, and the token that follows. */
  function Declarator(env: Env, ps: Parser, ty: FinshType, trees: seq<Forest>): (r: (seq<Forest>, Parser, TokenKind))
    ensures Fuel(Replay(r.1)) <= Fuel(ps) && (r.2 == TokComma ==> Fuel(r.1) < Fuel(ps))
  {
    var (id, p1) := ParseIdentifier(ps);
    var p2 := Next(Declare(p1, id, ty));
    if Cur(p2) == TokAssign then Initialiser(env, p2, id, trees) else (trees, p2, Cur(p2))
  }

  /** The declarators behind a comma, as long as one follows; then the semicolon. */
  function DeclLoop(env: Env, ps: Parser, ty: FinshType, token: TokenKind, trees: seq<Forest>): (r: (seq<Forest>,
      Parser))
    ensures Fuel(r.1) <= if token == TokComma then Fuel(ps) else Fuel(Replay(ps))
    decreases Fuel(ps), if token == TokComma then 1 else 0
  {
    hide Declarator, Check;
    if token != TokComma then (trees, Check(ps, token, TokSemicolon))
    else
      var (trees', p1, token') := Declarator(env, ps, ty, trees);
      DeclLoop(env, p1, ty, token', trees')
  }

  function ParseDecl(env: Env, ps: Parser): (r: (Forest, Parser))
    ensures Fuel(r.1) <= Fuel(ps)
    ensures IsBaseType(Cur(Next(ps))) || Cur(Next(ps)) == TokUnsigned ==> Fuel(r.1) < Fuel(ps)
  {
    var (ty, p1) := ParseType(ps);
    var (id, p2) := ParseIdentifier(p1);
    Declarators(env, Next(Declare(p2, id, ty)), id, ty)
  }

  /** The token behind the first declared name is the current one. */
  function Declarators(env: Env, ps: Parser, id: string, ty: FinshType): (r: (Forest, Parser))
    requires !ps.replay
    ensures Fuel(r.1) <= Fuel(ps) + if Cur(ps) == TokEof then 0 else 1
  {
    match Cur(ps)
    case TokComma =>
      var (trees, p1) := DeclLoop(env, ps, ty, TokComma, []);
      (Chain(trees, Nil), p1)
    case TokAssign =>
      var (trees, p1, token) := Initialiser(env, ps, id, []);
      var (trees', p2) := DeclLoop(env, p1, ty, token, trees);
      (Chain(trees', Nil), p2)
    case TokSemicolon => (Nil, ps)
    case _ => (Nil, Error(ps, ERROR_EXPECT_TYPE))
  }

  // ----- finsh_parser_run -----

  /** The statements parsed so far, from `root` to `node`, and what `node` is linked to. */
  datatype Line = Line(trees: seq<Forest>, tail: Forest)

  /** A new statement is linked behind `node`, dropping what was linked there. */
  function Extend(line: Line, f: Forest): Line {
    if f.Nil? then line.(tail := Nil)
    else Line(line.trees + [f.(next := Nil)], f.next)
  }

  /** One turn of the main loop: the statement that begins with the current token, and the token behind
      it. An empty statement behind another one swallows a token, unless it begins with a name. */
  function LineTurn(env: Env, ps: Parser, started: bool): (r: (Forest, Parser))
    requires Cur(ps) != TokEof && Cur(ps) != TokBad && !ps.replay
    ensures Fuel(r.1) < Fuel(ps) || (Fuel(r.1) <= Fuel(ps) && Cur(r.1) == TokEof)
  {
    var p := Replay(ps);
    if Cur(ps) == TokIdentifier then
      var (f, p1) := ParseStatement(env, p);
      (f, Next(p1))
    else if IsBaseType(Cur(ps)) || Cur(ps) == TokUnsigned then
      var (f, p1) := ParseDecl(env, p);
      (f, Next(p1))
    else
      var (f, p1) := ParseStatement(env, p);
      (f, Next(if started && f.Nil? then Next(p1) else p1))
  }

  lemma TurnReads(env: Env, ps: Parser, started: bool)
    requires Cur(ps) != TokEof && Cur(ps) != TokBad && !ps.replay
    ensures !LineTurn(env, ps, started).1.replay
  {
    hide ParseStatement, ParseDecl;
  }

  function ParseLine(env: Env, ps: Parser, line: Line): (Line, Parser)
    requires !ps.replay
    decreases Fuel(ps), if Cur(ps) == TokEof then 0 else 1
  {
    if Cur(ps) == TokEof || Cur(ps) == TokBad then (line, ps)
    else
      hide LineTurn;
      TurnReads(env, ps, line.trees != []);
      var (f, p1) := LineTurn(env, ps, line.trees != []);
      ParseLine(env, p1, Extend(line, f))
  }

  /** `finsh_parser_run` after `finsh_flush`: the tree below `root` and the parser at the end. */
  function ParserRun(env: Env, vars: seq<Variable>, tokens: seq<Tok>): (Forest, Parser) {
    var ps := Parser(Tok(TokEof, "", 0, 0), false, tokens, 0, 0, vars);
    var (line, end) := ParseLine(env, Next(ps), Line([], Nil));
    (Chain(line.trees, line.tail), end)
  }

  // ----- the loops, one turn at a time -----

  lemma BinStep(env: Env, ps: Parser, k: nat, left: Forest, op: BinOp, right: Forest, p2: Parser)
    requires 1 <= k < CAST_LEVEL && LevelOp(k, Cur(Next(ps))) == Some(op) && right.Node?
    requires ParseBin(env, Next(ps), k + 1) == (right, p2)
    ensures BinLoop(env, ps, k, left) ==
      var (node, p3) := MakeSys(p2, KBin(op), left, right);
      BinLoop(env, p3, k, node)
  {
    hide ParseBin, MakeSys, Next, LevelOp;
  }

  lemma BinStop(env: Env, ps: Parser, k: nat, left: Forest)
    requires 1 <= k < CAST_LEVEL && LevelOp(k, Cur(Next(ps))) == None
    ensures BinLoop(env, ps, k, left) == (left, Replay(Next(ps)))
  {
    hide ParseBin, MakeSys, Next, LevelOp;
  }

  lemma BinSkip(env: Env, ps: Parser, k: nat, left: Forest, p2: Parser)
    requires 1 <= k < CAST_LEVEL && LevelOp(k, Cur(Next(ps))).Some?
    requires ParseBin(env, Next(ps), k + 1) == (Nil, p2)
    ensures BinLoop(env, ps, k, left) == BinLoop(env, Error(p2, ERROR_EXPECT_OPERATOR), k, left)
  {
    hide ParseBin, MakeSys, Next, LevelOp;
  }

  lemma PostStop(env: Env, ps: Parser, f: Forest)
    requires Cur(Next(ps)) !in {TokInc, TokDec, TokLeftParen}
    ensures PostLoop(env, ps, f) == (f, Replay(Next(ps)))
  {
    hide ParseParens, MakeSys, Next;
  }

  lemma PostStep(env: Env, ps: Parser, f: Forest, down: bool)
    requires Cur(Next(ps)) == if down then TokDec else TokInc
    ensures PostLoop(env, ps, f) ==
      var (node, p2) := MakeSys(Next(ps), if down then KDec else KInc, f, Nil);
      PostLoop(env, p2, node)
  {
    hide ParseParens, MakeSys, Next;
  }

  lemma CallStep(env: Env, ps: Parser, f: Forest, params: Forest, p2: Parser)
    requires Cur(Next(ps)) == TokLeftParen && ParseParens(env, Next(ps)) == (params, p2)
    ensures PostLoop(env, ps, f) ==
      var (node, p3) := MakeSys(p2, KFunc, f, params);
      PostLoop(env, p3, node)
  {
    hide ParseParens, MakeSys, Next;
  }

  lemma ParamStop(env: Env, ps: Parser)
    requires Cur(Next(ps)) != TokComma
    ensures ParamLoop(env, ps) == (Nil, Replay(Next(ps)))
  {
    hide ParseAssign, Next;
  }

  lemma ParamStep(env: Env, ps: Parser, e: Forest, p2: Parser, rest: Forest, p3: Parser)
    requires Cur(Next(ps)) == TokComma && ParseAssign(env, Next(ps)) == (e, p2) && e.Node?
    requires ParamLoop(env, p2) == (rest, p3)
    ensures ParamLoop(env, ps) == (Linked(e, rest), p3)
  {
    hide ParseAssign, Next;
  }

  lemma ParamSkip(env: Env, ps: Parser, p2: Parser)
    requires Cur(Next(ps)) == TokComma && ParseAssign(env, Next(ps)) == (Nil, p2)
    ensures ParamLoop(env, ps) == ParamLoop(env, Error(p2, ERROR_EXPECT_OPERATOR))
  {
    hide ParseAssign, Next;
  }

  lemma DeclLoopTurn(env: Env, ps: Parser, ty: FinshType, trees: seq<Forest>)
    ensures var (more, p1, token) := Declarator(env, ps, ty, trees);
      DeclLoop(env, ps, ty, TokComma, trees) == DeclLoop(env, p1, ty, token, more)
  {
    hide Declarator;
  }

  lemma DeclLoopStop(env: Env, ps: Parser, ty: FinshType, token: TokenKind, trees: seq<Forest>)
    requires token != TokComma
    ensures DeclLoop(env, ps, ty, token, trees) == (trees, Check(ps, token, TokSemicolon))
  {
    hide Declarator;
  }

  lemma NextFacts(ps: Parser)
    ensures Fuel(Next(ps)) <= Fuel(ps) && (Cur(Next(ps)) != TokEof ==> Fuel(Next(ps)) < Fuel(ps))
    ensures Fuel(Replay(Next(ps))) <= Fuel(ps)
    ensures Next(ps).used == ps.used && Next(ps).vars == ps.vars && (ps.err != 0 ==> Next(ps).err != 0)
  {
  }

  lemma LevelOpIsToken(k: nat, t: TokenKind)
    ensures LevelOp(k, t).Some? ==> t != TokEof
  {
  }
}
