/** Writing a line as text and reading it back: the lexer and the parser return exactly the trees the
    line stands for, without an error. */
module RoundTrip {
  import opened Machine
  import opened Limits
  import opened Ast
  import opened Lexer
  import opened Printer
  import opened Grammar
  import opened Syntax

  // ----- parser states -----

  function Stream(ps: Parser): seq<Tok> {
    if ps.replay then [ps.cur] + ps.rest else ps.rest
  }

  ghost predicate Clean(s: seq<Tok>) {
    forall t :: t in s ==> t.err == 0
  }

  /** The parser with the first token of `s` read, the rest of `s` to come and `u` nodes taken. */
  function After(ps: Parser, t: Tok, s: seq<Tok>, u: nat): Parser {
    Parser(t, false, s, u, ps.err, ps.vars)
  }

  /** The same with the first token put back. */
  function At(ps: Parser, s: seq<Tok>, u: nat): Parser
    requires s != []
  {
    Parser(s[0], true, s[1..], u, ps.err, ps.vars)
  }

  lemma NextIs(ps: Parser, t: Tok, s: seq<Tok>)
    requires Stream(ps) == [t] + s && t.err == 0
    ensures Next(ps) == After(ps, t, s, ps.used) && Replay(Next(ps)) == At(ps, [t] + s, ps.used)
    ensures Stream(Next(ps)) == s
  {
    assert ([t] + s)[0] == t && ([t] + s)[1..] == s;
  }

  lemma AtIs(ps: Parser, s: seq<Tok>, u: nat)
    requires s != []
    ensures Stream(At(ps, s, u)) == s
    ensures Next(At(ps, s, u)) == After(ps, s[0], s[1..], u) && Replay(Next(At(ps, s, u))) == At(ps, s, u)
    ensures Cur(Next(At(ps, s, u))) == s[0].kind && Taken(At(ps, s, u)) == At(ps, s, u + 1)
  {
  }

  lemma AtCons(ps: Parser, t: Tok, s: seq<Tok>, u: nat)
    ensures Next(At(ps, [t] + s, u)) == After(ps, t, s, u)
  {
    assert ([t] + s)[1..] == s;
  }

  lemma CleanHead(s: seq<Tok>)
    requires Clean(s) && s != []
    ensures s == [s[0]] + s[1..] && s[0].err == 0
  {
    assert s[0] in s;
  }

  lemma Assoc(a: seq<Tok>, b: seq<Tok>, c: seq<Tok>)
    ensures (a + b) + c == a + (b + c)
  {
  }

  lemma Between(a: seq<Tok>, t: Tok, b: seq<Tok>, tail: seq<Tok>)
    ensures (a + [t] + b) + tail == a + ([t] + (b + tail))
  {
    Assoc(a + [t], b, tail);
    Assoc(a, [t], b + tail);
  }

  lemma CleanAppend(a: seq<Tok>, b: seq<Tok>)
    ensures Clean(a + b) <==> Clean(a) && Clean(b)
  {
    if Clean(a + b) {
      assert forall t :: t in a ==> t in a + b;
      assert forall t :: t in b ==> t in a + b;
    }
  }

  lemma CleanOne(t: Tok)
    requires t.err == 0
    ensures Clean([t])
  {
  }

  lemma TypeClean(ty: TypeName)
    ensures Clean(TypeToks(ty))
  {
  }

  lemma {:induction false} ToksClean(t: Term)
    ensures Clean(Toks(t))
  {
    match t
    case BinTerm(_, l, r) => ToksClean(l); ToksClean(r);
    case UnaryTerm(_, e) => ToksClean(e);
    case CastTerm(ty, e) => ToksClean(e); TypeClean(ty);
    case AssignTerm(l, r) => ToksClean(l); ToksClean(r);
    case PostTerm(_, e) => ToksClean(e);
    case CallTerm(f, args) => ToksClean(f); ArgToksClean(args);
    case _ =>
  }

  lemma {:induction false} ArgToksClean(a: Terms)
    ensures Clean(ArgToks(a)) && Clean(MoreToks(a))
  {
    if a.MoreTerms? {
      ToksClean(a.e);
      ArgToksClean(a.rest);
    }
  }

  lemma CleanTerm(t: Term)
    ensures Clean(Toks(t)) && Toks(t) != []
  {
    ToksClean(t);
    FirstToken(t);
  }

  /** How tightly a token binds to an expression before it. */
  function Binds(k: TokenKind): int {
    match k
    case TokAssign => 0
    case TokOr => 1
    case TokXor => 2
    case TokAnd => 3
    case TokShl | TokShr => 4
    case TokAdd | TokSub => 5
    case TokMul | TokDiv | TokMod => 6
    case TokInc | TokDec | TokLeftParen => 8
    case _ => -1
  }

  lemma LevelOpBinds(k: nat, t: TokenKind)
    requires 1 <= k < CAST_LEVEL
    ensures LevelOp(k, t).Some? <==> Binds(t) == k
  {
  }

  lemma OpTokenLevel(op: BinOp)
    ensures Binds(OpToken(op)) == OpLevel(op) && LevelOp(OpLevel(op), OpToken(op)) == Some(op)
  {
  }

  /** How an expression of a level can begin. */
  lemma {:induction false} FirstToken(t: Term)
    ensures Toks(t) != [] && Toks(t)[0].kind !in {TokRightParen, TokSemicolon, TokEof, TokBad}
    ensures !IsBaseType(Toks(t)[0].kind) && Toks(t)[0].kind != TokUnsigned
    ensures Level(t) >= CAST_LEVEL && !t.CastTerm? && Stratified(t) ==> Toks(t)[0].kind != TokLeftParen
    ensures Level(t) == POST_LEVEL && Stratified(t) ==>
      Toks(t)[0].kind in {TokIdentifier, TokValueInt, TokValueLong, TokValueChar, TokValueString, TokValueNull}
  {
    match t
    case BinTerm(_, l, _) => FirstToken(l);
    case AssignTerm(l, _) => FirstToken(l);
    case PostTerm(_, e) => FirstToken(e);
    case CallTerm(f, _) => FirstToken(f);
    case _ =>
  }

  /** A term stands before `tail`, its names are known and the pool has room for it. */
  ghost predicate Ready(env: Env, ps: Parser, t: Term, tail: seq<Tok>) {
    && Stream(ps) == Toks(t) + tail && Clean(tail) && tail != []
    && Stratified(t) && Known(env, ps.vars, t) && ps.used + Size(t) <= NODE_MAX
  }

  ghost predicate Parsed(env: Env, ps: Parser, t: Term, tail: seq<Tok>, r: (Forest, Parser))
    requires tail != []
  {
    r == (Build(env, ps.vars, t, ps.used), At(ps, tail, ps.used + Size(t)))
  }

  lemma Begin(env: Env, ps: Parser, t: Term, tail: seq<Tok>)
    requires tail != [] && Ready(env, ps, t, tail)
    ensures Stratified(t)
    ensures var s := Toks(t) + tail;
      && Toks(t) != [] && s != [] && s[0] == Toks(t)[0]
      && Next(ps) == After(ps, s[0], s[1..], ps.used) && Replay(Next(ps)) == At(ps, s, ps.used)
      && Ready(env, At(ps, s, ps.used), t, tail)
  {
    CleanTerm(t);
    var s := Toks(t) + tail;
    assert s == [s[0]] + s[1..] && s[0] == Toks(t)[0] && Toks(t)[0] in Toks(t);
    NextIs(ps, s[0], s[1..]);
  }

  lemma ReadyFor(env: Env, ps: Parser, t: Term, tail: seq<Tok>)
    requires Stream(ps) == Toks(t) + tail && Clean(tail) && tail != []
    requires Stratified(t) && Known(env, ps.vars, t) && ps.used + Size(t) <= NODE_MAX
    ensures Ready(env, ps, t, tail)
  {
  }

  lemma Make(ps: Parser, kind: Kind, f: Forest, g: Forest)
    requires ps.used < NODE_MAX && f.Node?
    ensures MakeSys(ps, kind, f, g) == (NewNode(ps.used, kind, 0, NoSymbol, Linked(f, g)), Taken(ps))
  {
  }

  lemma TermFacts(t: Term, tail: seq<Tok>, sign: Tok)
    requires Stratified(t) && Clean(tail) && sign.err == 0
    ensures Clean(Toks(t) + tail) && Clean([sign] + (Toks(t) + tail)) && Toks(t) + tail != []
  {
    hide Clean, Toks;
    CleanTerm(t);
    CleanOne(sign);
    CleanAppend(Toks(t), tail);
    CleanAppend([sign], Toks(t) + tail);
  }

  // ----- assignment -----

  lemma AssignToks(l: Term, r: Term, tail: seq<Tok>)
    ensures Toks(AssignTerm(l, r)) + tail == Toks(l) + ([Sign(TokAssign)] + (Toks(r) + tail))
  {
    Between(Toks(l), Sign(TokAssign), Toks(r), tail);
  }

  lemma AssignStep(env: Env, ps: Parser, left: Forest, p1: Parser, right: Forest, p3: Parser)
    requires ParseBin(env, ps, 1) == (left, p1) && Cur(Next(p1)) == TokAssign
    requires ParseAssign(env, Next(p1)) == (right, p3)
    ensures ParseAssign(env, ps) == MakeSys(p3, KAssign, left, right)
  {
    hide ParseBin, MakeSys, Next;
  }

  lemma AssignStop(env: Env, ps: Parser, left: Forest, p1: Parser)
    requires ParseBin(env, ps, 1) == (left, p1) && Cur(Next(p1)) != TokAssign
    ensures ParseAssign(env, ps) == (left, Replay(Next(p1)))
  {
    hide ParseBin, MakeSys, Next;
  }

  lemma AssignParts(env: Env, ps: Parser, l: Term, r: Term, tail: seq<Tok>)
    requires tail != [] && Ready(env, ps, AssignTerm(l, r), tail)
    ensures Ready(env, ps, l, [Sign(TokAssign)] + (Toks(r) + tail)) && Level(l) >= 1
    ensures Ready(env, After(ps, Sign(TokAssign), Toks(r) + tail, ps.used + Size(l)), r, tail)
    ensures Size(AssignTerm(l, r)) == Size(l) + Size(r) + 1 && ps.used + Size(l) + Size(r) < NODE_MAX
  {
    hide Clean, Toks;
    TermFacts(r, tail, Sign(TokAssign));
    AssignToks(l, r, tail);
  }

  lemma BuildAssign(env: Env, vars: seq<Variable>, l: Term, r: Term, u: nat)
    ensures Build(env, vars, AssignTerm(l, r), u) ==
      NewNode(u + Size(l) + Size(r), KAssign, 0, NoSymbol,
              Linked(Build(env, vars, l, u), Build(env, vars, r, u + Size(l))))
  {
    hide NewNode, Linked, Size, SizeAll, Resolve, OpLevel;
  }

  lemma {:induction false} TermExact(env: Env, ps: Parser, t: Term, tail: seq<Tok>)
    requires tail != [] && Ready(env, ps, t, tail) && Binds(tail[0].kind) < 0
    ensures Parsed(env, ps, t, tail, ParseAssign(env, ps))
    decreases t, 30
  {
    hide Ready, Clean, Stratified, Known, Toks, Build, Size, Level, Next, MakeSys, ParseBin, ParseAssign;
    if t.AssignTerm? {
      var l, r := t.l, t.r;
      AssignParts(env, ps, l, r, tail);
      BuildAssign(env, ps.vars, l, r, ps.used);
      var u := ps.used + Size(l);
      var more := [Sign(TokAssign)] + (Toks(r) + tail);
      BinExact(env, ps, l, 1, more);
      var p1 := At(ps, more, u);
      AtCons(ps, Sign(TokAssign), Toks(r) + tail, u);
      TermExact(env, Next(p1), r, tail);
      var p3 := At(ps, tail, u + Size(r));
      var left := Build(env, ps.vars, l, ps.used);
      var right := Build(env, ps.vars, r, u);
      AssignStep(env, ps, left, p1, right, p3);
      AtIs(ps, tail, u + Size(r));
      Make(p3, KAssign, left, right);
    } else {
      LevelOfTerm(t);
      BinExact(env, ps, t, 1, tail);
      AtIs(ps, tail, ps.used + Size(t));
      AssignStop(env, ps, Build(env, ps.vars, t, ps.used), At(ps, tail, ps.used + Size(t)));
    }
  }

  lemma LevelOfTerm(t: Term)
    requires !t.AssignTerm?
    ensures Level(t) >= 1
  {
  }

  // ----- binary operators -----

  lemma BinEnter(env: Env, ps: Parser, k: nat, left: Forest, p1: Parser)
    requires 1 <= k < CAST_LEVEL && ParseBin(env, ps, k + 1) == (left, p1)
    ensures ParseBin(env, ps, k) == BinLoop(env, p1, k, left)
  {
    hide BinLoop;
  }

  lemma BinToks(op: BinOp, l: Term, r: Term, tail: seq<Tok>)
    ensures Toks(BinTerm(op, l, r)) + tail == Toks(l) + ([Sign(OpToken(op))] + (Toks(r) + tail))
  {
    Between(Toks(l), Sign(OpToken(op)), Toks(r), tail);
  }

  lemma BinParts(env: Env, ps: Parser, op: BinOp, l: Term, r: Term, tail: seq<Tok>)
    requires tail != [] && Ready(env, ps, BinTerm(op, l, r), tail)
    ensures Ready(env, ps, l, [Sign(OpToken(op))] + (Toks(r) + tail))
    ensures Ready(env, After(ps, Sign(OpToken(op)), Toks(r) + tail, ps.used + Size(l)), r, tail)
    ensures Level(l) >= OpLevel(op) && Level(r) > OpLevel(op)
    ensures Size(BinTerm(op, l, r)) == Size(l) + Size(r) + 1 && ps.used + Size(l) + Size(r) < NODE_MAX
  {
    hide Clean, Toks, OpToken, OpLevel;
    TermFacts(r, tail, Sign(OpToken(op)));
    BinToks(op, l, r, tail);
  }

  lemma BuildBin(env: Env, vars: seq<Variable>, op: BinOp, l: Term, r: Term, u: nat)
    ensures Build(env, vars, BinTerm(op, l, r), u) ==
      NewNode(u + Size(l) + Size(r), KBin(op), 0, NoSymbol,
              Linked(Build(env, vars, l, u), Build(env, vars, r, u + Size(l))))
  {
    hide NewNode, Linked, Size, SizeAll, Resolve, OpLevel;
  }

  lemma {:induction false} BinExact(env: Env, ps: Parser, t: Term, k: nat, tail: seq<Tok>)
    requires tail != [] && Ready(env, ps, t, tail) && 1 <= k <= CAST_LEVEL && Level(t) >= k && Binds(tail[0].kind) < k
    ensures Parsed(env, ps, t, tail, ParseBin(env, ps, k))
    decreases t, 2 * (POST_LEVEL - k) + 3
  {
    hide Ready, Clean, Stratified, Known, Toks, Build, Size, Level, Binds, Next, MakeSys, BinLoop, ParseCast, LevelOp;
    if k == CAST_LEVEL {
      CastExact(env, ps, t, tail);
    } else {
      BinSpine(env, ps, t, k, tail);
      var p1 := At(ps, tail, ps.used + Size(t));
      AtIs(ps, tail, ps.used + Size(t));
      LevelOpBinds(k, tail[0].kind);
      BinStop(env, p1, k, Build(env, ps.vars, t, ps.used));
    }
  }

  /** Parsing at a level gets as far as the loop of that level with the whole term on its left. */
  lemma {:induction false} BinSpine(env: Env, ps: Parser, t: Term, k: nat, tail: seq<Tok>)
    requires tail != [] && Ready(env, ps, t, tail) && 1 <= k < CAST_LEVEL && Level(t) >= k && Binds(tail[0].kind) <= k
    ensures ParseBin(env, ps, k) ==
      BinLoop(env, At(ps, tail, ps.used + Size(t)), k, Build(env, ps.vars, t, ps.used))
    decreases t, 2 * (POST_LEVEL - k) + 2
  {
    hide Ready, Clean, Stratified, Known, Toks, Build, Size, Level, Binds, Next, MakeSys, ParseBin, BinLoop, LevelOp,
         OpToken, OpLevel;
    if t.BinTerm? && OpLevel(t.op) == k {
      var op, l, r := t.op, t.l, t.r;
      BinParts(env, ps, op, l, r, tail);
      BuildBin(env, ps.vars, op, l, r, ps.used);
      OpTokenLevel(op);
      var u := ps.used + Size(l);
      var more := [Sign(OpToken(op))] + (Toks(r) + tail);
      BinSpine(env, ps, l, k, more);
      var p1 := At(ps, more, u);
      AtCons(ps, Sign(OpToken(op)), Toks(r) + tail, u);
      BinExact(env, Next(p1), r, k + 1, tail);
      var p2 := At(ps, tail, u + Size(r));
      var left := Build(env, ps.vars, l, ps.used);
      var right := Build(env, ps.vars, r, u);
      BinStep(env, p1, k, left, op, right, p2);
      AtIs(ps, tail, u + Size(r));
      Make(p2, KBin(op), left, right);
    } else {
      LevelOfBin(t, k);
      BinExact(env, ps, t, k + 1, tail);
      BinEnter(env, ps, k, Build(env, ps.vars, t, ps.used), At(ps, tail, ps.used + Size(t)));
    }
  }

  lemma LevelOfBin(t: Term, k: nat)
    requires 1 <= k < CAST_LEVEL && Level(t) >= k && !(t.BinTerm? && OpLevel(t.op) == k)
    ensures Level(t) >= k + 1
  {
  }

  // ----- casts -----

  lemma NextFields(ps: Parser)
    requires Stream(ps) != [] && Clean(Stream(ps))
    ensures var p := Next(ps);
      && p.cur == Stream(ps)[0] && !p.replay && p.rest == Stream(ps)[1..] && Stream(p) == Stream(ps)[1..]
      && p.used == ps.used && p.err == ps.err && p.vars == ps.vars
  {
    assert Stream(ps)[0] in Stream(ps);
  }

  lemma PointerBack(ps: Parser, ty: FinshType, star: bool, rest: seq<Tok>)
    requires Stream(ps) == (if star then [Sign(TokMul)] else []) + rest
    requires rest != [] && Clean(rest) && rest[0].kind != TokMul
    ensures var (t, p1) := ParsePointer(ps, ty);
      && t == (if star then PointerTo(ty) else ty)
      && Stream(p1) == rest && p1.used == ps.used && p1.err == ps.err && p1.vars == ps.vars
  {
    NextFields(ps);
    if star {
      assert Stream(ps)[1..] == rest;
    }
  }

  lemma BaseShape(b: BaseName)
    ensures var t := BaseTok(b);
      && t.err == 0 && IsBaseType(t.kind) && t.kind != TokUnsigned && (t.kind == TokVoid <==> b == VoidName)
      && BaseType(t.kind) == TypeOf(TypeName(false, b, false))
      && PointerTo(BaseType(t.kind)) == TypeOf(TypeName(false, b, true))
      && (b != VoidName ==> UnsignedType(BaseType(t.kind)) == TypeOf(TypeName(true, b, false)))
      && (b != VoidName ==> PointerTo(UnsignedType(BaseType(t.kind))) == TypeOf(TypeName(true, b, true)))
  {
  }

  lemma UnsignedStep(ps: Parser)
    requires Cur(Next(ps)) == TokUnsigned
    requires var k := Cur(Next(Next(ps))); IsBaseType(k) && k != TokVoid
    ensures ParseType(ps) == ParsePointer(Next(Next(ps)), UnsignedType(BaseType(Cur(Next(Next(ps))))))
  {
    hide ParsePointer, Next;
  }

  lemma SignedStep(ps: Parser)
    requires IsBaseType(Cur(Next(ps)))
    ensures ParseType(ps) == ParsePointer(Next(ps), BaseType(Cur(Next(ps))))
  {
    hide ParsePointer, Next;
  }

  /** A type written out is read back, when no `*` follows it. */
  lemma TypeBack(ps: Parser, n: TypeName, rest: seq<Tok>)
    requires Stream(ps) == TypeToks(n) + rest && IsTypeName(n)
    requires rest != [] && Clean(rest) && rest[0].kind != TokMul
    ensures var (t, p1) := ParseType(ps);
      t == TypeOf(n) && Stream(p1) == rest && p1.used == ps.used && p1.err == ps.err && p1.vars == ps.vars
  {
    hide ParsePointer, ParseType, Next, Stream, Clean, BaseType, UnsignedType, PointerTo, BaseTok, TypeOf;
    BaseShape(n.base);
    var b, star := BaseTok(n.base), if n.star then [Sign(TokMul)] else [];
    if n.unsigned {
      var u := WordTok(TokUnsigned, "unsigned");
      assert TypeToks(n) + rest == [u] + ([b] + (star + rest));
      NextIs(ps, u, [b] + (star + rest));
      NextIs(Next(ps), b, star + rest);
      UnsignedStep(ps);
      PointerBack(Next(Next(ps)), UnsignedType(BaseType(b.kind)), n.star, rest);
    } else {
      assert TypeToks(n) + rest == [b] + (star + rest);
      NextIs(ps, b, star + rest);
      SignedStep(ps);
      PointerBack(Next(ps), BaseType(b.kind), n.star, rest);
    }
  }

  lemma CastToks(ty: TypeName, e: Term)
    ensures Toks(CastTerm(ty, e)) == [Sign(TokLeftParen)] + TypeToks(ty) + [Sign(TokRightParen)] + Toks(e)
  {
  }

  lemma BuildCast(env: Env, vars: seq<Variable>, ty: TypeName, e: Term, u: nat)
    ensures Build(env, vars, e, u).Node?
    ensures Build(env, vars, CastTerm(ty, e), u) == Build(env, vars, e, u).(dt := TypeNumber(TypeOf(ty)))
  {
  }

  lemma CastParts(env: Env, ps: Parser, ty: TypeName, e: Term, tail: seq<Tok>)
    requires tail != [] && Ready(env, ps, CastTerm(ty, e), tail)
    ensures var rest := [Sign(TokRightParen)] + (Toks(e) + tail);
      && Clean(rest) && IsTypeName(ty) && Level(e) >= CAST_LEVEL
      && Stream(ps) == [Sign(TokLeftParen)] + (TypeToks(ty) + rest)
    ensures Ready(env, After(ps, Sign(TokRightParen), Toks(e) + tail, ps.used), e, tail)
    ensures Size(CastTerm(ty, e)) == Size(e)
  {
    hide Clean, Toks, TypeToks;
    var open, close := [Sign(TokLeftParen)], [Sign(TokRightParen)];
    TermFacts(e, tail, close[0]);
    assert Toks(CastTerm(ty, e)) == open + TypeToks(ty) + close + Toks(e) by { CastToks(ty, e); }
    Assoc(open + TypeToks(ty) + close, Toks(e), tail);
    Assoc(open + TypeToks(ty), close, Toks(e) + tail);
    Assoc(open, TypeToks(ty), close + (Toks(e) + tail));
  }

  lemma CastStep(env: Env, ps: Parser, ty: FinshType, p2: Parser, f: Forest, p3: Parser)
    requires Cur(Next(ps)) == TokLeftParen && ParseType(Next(ps)) == (ty, p2)
    requires Cur(Next(p2)) == TokRightParen && ParseCast(env, Next(p2)) == (f, p3) && f.Node?
    ensures ParseCast(env, ps) == (f.(dt := TypeNumber(ty)), p3)
  {
    hide ParseUnary, ParseType, Next, TypeNumber;
  }

  lemma CastStop(env: Env, ps: Parser)
    requires Cur(Next(ps)) != TokLeftParen
    ensures ParseCast(env, ps) == ParseUnary(env, Replay(Next(ps)))
  {
    hide ParseUnary, ParseType, Next;
  }

  lemma CastBegin(env: Env, ps: Parser, t: Term, tail: seq<Tok>)
    requires tail != [] && Ready(env, ps, t, tail) && Level(t) >= CAST_LEVEL && !t.CastTerm?
    ensures var s := Toks(t) + tail;
      && s != [] && ParseCast(env, ps) == ParseUnary(env, At(ps, s, ps.used))
      && Ready(env, At(ps, s, ps.used), t, tail)
  {
    hide Ready, Toks, Stratified, ParseUnary, ParseCast, Level, Next;
    Begin(env, ps, t, tail);
    FirstToken(t);
    CastStop(env, ps);
  }

  lemma {:induction false} CastExact(env: Env, ps: Parser, t: Term, tail: seq<Tok>)
    requires tail != [] && Ready(env, ps, t, tail) && Level(t) >= CAST_LEVEL && Binds(tail[0].kind) < CAST_LEVEL
    ensures Parsed(env, ps, t, tail, ParseCast(env, ps))
    decreases t, 4
  {
    hide Ready, Clean, Stratified, Known, Toks, Build, Size, Level, Binds, Next, MakeSys, ParseCast, ParseUnary,
         ParseType, TypeToks, TypeOf, TypeNumber, Stream;
    if t.CastTerm? {
      var ty, e := t.ty, t.e;
      CastParts(env, ps, ty, e, tail);
      BuildCast(env, ps.vars, ty, e, ps.used);
      var rest := [Sign(TokRightParen)] + (Toks(e) + tail);
      NextIs(ps, Sign(TokLeftParen), TypeToks(ty) + rest);
      TypeBack(Next(ps), ty, rest);
      var p2 := ParseType(Next(ps)).1;
      NextIs(p2, Sign(TokRightParen), Toks(e) + tail);
      CastExact(env, Next(p2), e, tail);
      CastStep(env, ps, TypeOf(ty), p2, Build(env, ps.vars, e, ps.used), At(ps, tail, ps.used + Size(e)));
    } else {
      CastBegin(env, ps, t, tail);
      UnaryExact(env, At(ps, Toks(t) + tail, ps.used), t, tail);
    }
  }

  // ----- unary operators -----

  lemma UnaryToks(u: Unary, e: Term)
    ensures Toks(UnaryTerm(u, e)) == [Sign(UnaryToken(u))] + Toks(e)
  {
  }

  lemma UnaryParts(env: Env, ps: Parser, u: Unary, e: Term, tail: seq<Tok>)
    requires tail != [] && Ready(env, ps, UnaryTerm(u, e), tail)
    ensures Stream(ps) == [Sign(UnaryToken(u))] + (Toks(e) + tail)
    ensures Ready(env, After(ps, Sign(UnaryToken(u)), Toks(e) + tail, ps.used), e, tail)
    ensures Level(e) >= CAST_LEVEL && ps.used + Size(UnaryTerm(u, e)) <= NODE_MAX
  {
    hide Clean, Toks, UnaryToken;
    assert Toks(UnaryTerm(u, e)) == [Sign(UnaryToken(u))] + Toks(e) by { UnaryToks(u, e); }
    Assoc([Sign(UnaryToken(u))], Toks(e), tail);
  }

  /** What becomes of the operand of a unary operator. */
  function UnaryResult(ps: Parser, u: Unary, f: Forest): (Forest, Parser) {
    if u.Plus? then (f, ps) else if u.Minus? then Negate(ps, f) else MakeSys(ps, UnaryNode(u), f, Nil)
  }

  lemma UnaryStep(env: Env, ps: Parser, u: Unary, f: Forest, p2: Parser)
    requires Cur(Next(ps)) == UnaryToken(u) && ParseCast(env, Next(ps)) == (f, p2)
    ensures ParseUnary(env, ps) == UnaryResult(p2, u, f)
  {
    hide ParseCast, ParsePostfix, Next, Negate, MakeSys;
  }

  lemma UnaryStop(env: Env, ps: Parser)
    requires UnaryKind(Cur(Next(ps))) == None && Cur(Next(ps)) !in {TokAdd, TokSub}
    ensures ParseUnary(env, ps) == ParsePostfix(env, Replay(Next(ps)))
  {
    hide ParseCast, ParsePostfix, Next, Negate, MakeSys;
  }

  lemma BuildUnary(env: Env, vars: seq<Variable>, u: Unary, e: Term, n: nat)
    ensures var f := Build(env, vars, e, n);
      var v := n + Size(e);
      Build(env, vars, UnaryTerm(u, e), n) ==
        if u.Plus? then f
        else if u.Minus? then NewNode(v + 1, KBin(Sub), 0, NoSymbol, Linked(NewNode(v, KLong, 0, NoSymbol, Nil), f))
        else NewNode(v, UnaryNode(u), 0, NoSymbol, f)
    ensures Size(UnaryTerm(u, e)) == Size(e) + if u.Plus? then 0 else if u.Minus? then 2 else 1
  {
    hide UnaryNode, NewNode, Linked, Resolve;
  }

  lemma Negated(ps: Parser, f: Forest)
    requires ps.used + 2 <= NODE_MAX
    ensures Negate(ps, f) ==
      (NewNode(ps.used + 1, KBin(Sub), 0, NoSymbol, Linked(NewNode(ps.used, KLong, 0, NoSymbol, Nil), f)),
          Taken(Taken(ps)))
  {
  }

  lemma UnaryBuilt(env: Env, ps: Parser, u: Unary, e: Term, tail: seq<Tok>)
    requires tail != [] && ps.used + Size(UnaryTerm(u, e)) <= NODE_MAX
    ensures var t := UnaryTerm(u, e);
      UnaryResult(At(ps, tail, ps.used + Size(e)), u, Build(env, ps.vars, e, ps.used))
      == (Build(env, ps.vars, t, ps.used), At(ps, tail, ps.used + Size(t)))
  {
    hide Build, Size, UnaryNode, MakeSys, Negate;
    BuildUnary(env, ps.vars, u, e, ps.used);
    var f := Build(env, ps.vars, e, ps.used);
    var p := At(ps, tail, ps.used + Size(e));
    assert Linked(f, Nil) == f;
    if u.Minus? {
      Negated(p, f);
    } else if !u.Plus? {
      Make(p, UnaryNode(u), f, Nil);
    }
  }

  lemma UnaryBegin(env: Env, ps: Parser, t: Term, tail: seq<Tok>)
    requires tail != [] && Ready(env, ps, t, tail) && Level(t) == POST_LEVEL
    ensures var s := Toks(t) + tail;
      && s != [] && ParseUnary(env, ps) == ParsePostfix(env, At(ps, s, ps.used))
      && Ready(env, At(ps, s, ps.used), t, tail)
  {
    hide Ready, Toks, Stratified, ParseUnary, ParsePostfix, Level, Next;
    Begin(env, ps, t, tail);
    FirstToken(t);
    UnaryStop(env, ps);
  }

  lemma {:induction false} UnaryExact(env: Env, ps: Parser, t: Term, tail: seq<Tok>)
    requires tail != [] && Ready(env, ps, t, tail) && Level(t) >= CAST_LEVEL && !t.CastTerm?
    requires Binds(tail[0].kind) < CAST_LEVEL
    ensures Parsed(env, ps, t, tail, ParseUnary(env, ps))
    decreases t, 3
  {
    hide Ready, Clean, Stratified, Known, Toks, Build, Size, Level, Binds, Next, ParseCast, ParseUnary, ParsePostfix,
         UnaryResult, UnaryToken, Stream;
    if t.UnaryTerm? {
      var u, e := t.u, t.e;
      UnaryParts(env, ps, u, e, tail);
      NextIs(ps, Sign(UnaryToken(u)), Toks(e) + tail);
      CastExact(env, Next(ps), e, tail);
      UnaryStep(env, ps, u, Build(env, ps.vars, e, ps.used), At(ps, tail, ps.used + Size(e)));
      UnaryBuilt(env, ps, u, e, tail);
    } else {
      HighLevel(t);
      UnaryBegin(env, ps, t, tail);
      PostExact(env, At(ps, Toks(t) + tail, ps.used), t, tail);
    }
  }

  lemma {:induction false} PostExact(env: Env, ps: Parser, t: Term, tail: seq<Tok>)
    requires tail != [] && Ready(env, ps, t, tail) && Level(t) == POST_LEVEL && Binds(tail[0].kind) < CAST_LEVEL
    ensures Parsed(env, ps, t, tail, ParsePostfix(env, ps))
    decreases t, 2, 1
  {
    hide Ready, Build, Size, Level, Next, ParsePostfix, PostLoop;
    PostSpine(env, ps, t, tail);
    AtIs(ps, tail, ps.used + Size(t));
    PostStop(env, At(ps, tail, ps.used + Size(t)), Build(env, ps.vars, t, ps.used));
  }

  lemma HighLevel(t: Term)
    requires Level(t) >= CAST_LEVEL && !t.CastTerm? && !t.UnaryTerm?
    ensures Level(t) == POST_LEVEL
  {
  }

  // ----- postfix operators and calls -----

  /** The loop only looks at what comes next. */
  lemma PostLoopSame(env: Env, p: Parser, q: Parser, f: Forest)
    requires Next(p) == Next(q)
    ensures PostLoop(env, p, f) == PostLoop(env, q, f)
  {
    hide ParseParens, MakeSys, Next;
  }

  lemma PostLoopAt(env: Env, ps: Parser, p: Parser, tail: seq<Tok>, f: Forest)
    requires tail != [] && Clean(tail) && p == After(ps, p.cur, tail, p.used)
    ensures PostLoop(env, p, f) == PostLoop(env, At(ps, tail, p.used), f)
  {
    assert tail == [tail[0]] + tail[1..] && tail[0] in tail;
    NextIs(p, tail[0], tail[1..]);
    AtIs(ps, tail, p.used);
    PostLoopSame(env, p, At(ps, tail, p.used), f);
  }

  lemma PostParts(env: Env, ps: Parser, down: bool, e: Term, tail: seq<Tok>)
    requires tail != [] && Ready(env, ps, PostTerm(down, e), tail)
    ensures Ready(env, ps, e, [Sign(if down then TokDec else TokInc)] + tail) && Clean(tail)
    ensures Level(e) == POST_LEVEL && ps.used + Size(e) < NODE_MAX && Size(PostTerm(down, e)) == Size(e) + 1
  {
    var more := [Sign(if down then TokDec else TokInc)] + tail;
    assert Toks(PostTerm(down, e)) + tail == Toks(e) + more;
  }

  lemma CallParts(env: Env, ps: Parser, f: Term, args: Terms, tail: seq<Tok>)
    requires tail != [] && Ready(env, ps, CallTerm(f, args), tail)
    ensures var rest := ArgToks(args) + ([Sign(TokRightParen)] + tail);
      Ready(env, ps, f, [Sign(TokLeftParen)] + rest) && Clean(rest) && Clean(tail)
    ensures Level(f) == POST_LEVEL && AllStratified(args) && AllKnown(env, ps.vars, args)
    ensures ps.used + Size(f) + SizeAll(args) < NODE_MAX && Size(CallTerm(f, args)) == Size(f) + SizeAll(args) + 1
  {
    var rest := ArgToks(args) + ([Sign(TokRightParen)] + tail);
    assert Toks(CallTerm(f, args)) + tail == Toks(f) + ([Sign(TokLeftParen)] + rest);
    ArgToksClean(args);
  }

  lemma BuildPost(env: Env, vars: seq<Variable>, down: bool, e: Term, u: nat)
    ensures var f := Build(env, vars, e, u);
      Build(env, vars, PostTerm(down, e), u) == NewNode(u + Size(e), if down then KDec else KInc, 0, NoSymbol,
          Linked(f, Nil))
  {
    assert Build(env, vars, e, u).next == Nil;
  }

  lemma BuildCall(env: Env, vars: seq<Variable>, f: Term, args: Terms, u: nat)
    ensures Build(env, vars, CallTerm(f, args), u) ==
      NewNode(u + Size(f) + SizeAll(args), KFunc, 0, NoSymbol,
              Linked(Build(env, vars, f, u), BuildAll(env, vars, args, u + Size(f))))
  {
    hide NewNode, Linked, Size, SizeAll, Resolve, OpLevel;
  }

  /** Parsing a postfix expression gets as far as its loop with the whole term on the left. */
  lemma {:induction false} PostSpine(env: Env, ps: Parser, t: Term, tail: seq<Tok>)
    requires tail != [] && Ready(env, ps, t, tail) && Level(t) == POST_LEVEL
    ensures ParsePostfix(env, ps) == PostLoop(env, At(ps, tail, ps.used + Size(t)), Build(env, ps.vars, t, ps.used))
    decreases t, 2, 0
  {
    hide Ready, Clean, Toks, Build, Size, Next, ParsePostfix, PostLoop;
    if t.PostTerm? {
      PostOpSpine(env, ps, t.down, t.e, tail);
    } else if t.CallTerm? {
      CallSpine(env, ps, t.f, t.args, tail);
    } else {
      LeafExact(env, ps, t, tail);
    }
  }

  lemma {:induction false} PostOpSpine(env: Env, ps: Parser, down: bool, e: Term, tail: seq<Tok>)
    requires var t := PostTerm(down, e); tail != [] && Ready(env, ps, t, tail)
    ensures var t := PostTerm(down, e);
      ParsePostfix(env, ps) == PostLoop(env, At(ps, tail, ps.used + Size(t)), Build(env, ps.vars, t, ps.used))
    decreases e, 2, 1
  {
    hide Ready, Clean, Stratified, Known, Toks, Build, Size, Level, Next, MakeSys, ParsePostfix, PostLoop;
    PostParts(env, ps, down, e, tail);
    BuildPost(env, ps.vars, down, e, ps.used);
    var u := ps.used + Size(e);
    var sign := Sign(if down then TokDec else TokInc);
    PostSpine(env, ps, e, [sign] + tail);
    var p1 := At(ps, [sign] + tail, u);
    AtCons(ps, sign, tail, u);
    var f := Build(env, ps.vars, e, ps.used);
    PostStep(env, p1, f, down);
    Make(Next(p1), if down then KDec else KInc, f, Nil);
    PostLoopAt(env, ps, Taken(Next(p1)), tail, Build(env, ps.vars, PostTerm(down, e), ps.used));
  }

  lemma {:induction false} CallSpine(env: Env, ps: Parser, f: Term, args: Terms, tail: seq<Tok>)
    requires var t := CallTerm(f, args); tail != [] && Ready(env, ps, t, tail)
    ensures var t := CallTerm(f, args);
      ParsePostfix(env, ps) == PostLoop(env, At(ps, tail, ps.used + Size(t)), Build(env, ps.vars, t, ps.used))
    decreases CallTerm(f, args), 1, 0
  {
    hide Ready, Clean, Stratified, Known, Toks, Build, Size, Level, Next, MakeSys, BuildAll, SizeAll, ArgToks,
         AllStratified, AllKnown, ParsePostfix, ParseParens, PostLoop;
    CallParts(env, ps, f, args, tail);
    BuildCall(env, ps.vars, f, args, ps.used);
    var u := ps.used + Size(f);
    var rest := ArgToks(args) + ([Sign(TokRightParen)] + tail);
    PostSpine(env, ps, f, [Sign(TokLeftParen)] + rest);
    var p1 := At(ps, [Sign(TokLeftParen)] + rest, u);
    AtCons(ps, Sign(TokLeftParen), rest, u);
    ParensExact(env, Next(p1), args, tail);
    var p2 := After(ps, Sign(TokRightParen), tail, u + SizeAll(args));
    var head := Build(env, ps.vars, f, ps.used);
    var params := BuildAll(env, ps.vars, args, u);
    CallStep(env, p1, head, params, p2);
    Make(p2, KFunc, head, params);
    PostLoopAt(env, ps, Taken(p2), tail, Build(env, ps.vars, CallTerm(f, args), ps.used));
  }

  lemma {:induction false} NameBack(name: string, n: nat)
    requires |name| <= n && '\0' !in name
    ensures CName(name, n) == name
  {
    if name != "" {
      assert name[0] in name;
      NameBack(name[1..], n - 1);
    }
  }

  /** Short names are taken whole. */
  lemma NameParts(name: string)
    requires |name| <= NAME_MAX && '\0' !in name
    ensures Id(name) == name
  {
    NameBack(name, NAME_MAX);
  }

  lemma PrimaryName(env: Env, ps: Parser, name: string, tail: seq<Tok>)
    requires Next(ps) == After(ps, WordTok(TokIdentifier, name), tail, ps.used) && ps.used < NODE_MAX
    requires Resolve(env, ps.vars, Id(name)) != NoSymbol
    ensures ParsePrimary(env, ps) ==
      (NewNode(ps.used, KId, 0, Resolve(env, ps.vars, Id(name)), Nil), Taken(Next(ps)))
  {
    hide Next, ParseIdentifier, Resolve, ParseAssign, Id, ParsePrimary;
    IdentifierBack(Next(ps), name);
    PrimaryStep(env, ps, Id(name), Next(ps));
  }

  lemma IdentifierBack(p1: Parser, name: string)
    requires p1.cur == WordTok(TokIdentifier, name) && !p1.replay
    ensures ParseIdentifier(Replay(p1)) == (Id(name), p1)
  {
    hide CName;
  }

  lemma PrimaryStep(env: Env, ps: Parser, name: string, p2: Parser)
    requires Cur(Next(ps)) == TokIdentifier && ParseIdentifier(Replay(Next(ps))) == (name, p2)
    ensures ParsePrimary(env, ps) == NewId(env, p2, name)
  {
    hide Next, ParseIdentifier, NewId, ParseAssign;
  }

  lemma PrimaryLeaf(env: Env, ps: Parser, t: Tok, tail: seq<Tok>, kind: Kind, value: Word)
    requires Next(ps) == After(ps, t, tail, ps.used) && ps.used < NODE_MAX
    requires match t.kind {
      case TokValueInt => kind == KInt && value == t.value
      case TokValueLong => kind == KLong && value == t.value
      case TokValueChar => kind == KChar && value == t.value
      case TokValueString => kind == KString && value == env.stringAt(ps.used, CString(t.str))
      case TokValueNull => kind == KNull && value == 0
      case _ => false
    }
    ensures ParsePrimary(env, ps) == (NewNode(ps.used, kind, value, NoSymbol, Nil), Taken(Next(ps)))
  {
    hide ParseIdentifier, NewId, ParseAssign, Next;
  }

  lemma PrimaryExact(env: Env, ps: Parser, t: Term, tail: seq<Tok>)
    requires Level(t) == POST_LEVEL && !t.PostTerm? && !t.CallTerm?
    requires Next(ps) == After(ps, Toks(t)[0], tail, ps.used) && ps.used < NODE_MAX
    requires Stratified(t) && Known(env, ps.vars, t)
    ensures ParsePrimary(env, ps) == (Build(env, ps.vars, t, ps.used), Taken(Next(ps)))
  {
    hide ParsePrimary, Next, Resolve, Id;
    var tok := Toks(t)[0];
    match t
    case NameTerm(name) => PrimaryName(env, ps, name, tail);
    case CharTerm(c) => PrimaryLeaf(env, ps, tok, tail, KChar, c);
    case IntTerm(v) => PrimaryLeaf(env, ps, tok, tail, KInt, v);
    case LongTerm(v) => PrimaryLeaf(env, ps, tok, tail, KLong, v);
    case StringTerm(w) => PrimaryLeaf(env, ps, tok, tail, KString, env.stringAt(ps.used, CString(w)));
    case NullTerm(_) => PrimaryLeaf(env, ps, tok, tail, KNull, 0);
  }

  lemma LeafParts(env: Env, ps: Parser, t: Term, tail: seq<Tok>)
    requires Ready(env, ps, t, tail) && Level(t) == POST_LEVEL && !t.PostTerm? && !t.CallTerm?
    ensures |Toks(t)| == 1 && (Toks(t) + tail)[1..] == tail && Size(t) == 1 && Clean(tail)
    ensures Known(env, ps.vars, t) && ps.used < NODE_MAX
  {
  }

  lemma LeafExact(env: Env, ps: Parser, t: Term, tail: seq<Tok>)
    requires tail != [] && Ready(env, ps, t, tail) && Level(t) == POST_LEVEL && !t.PostTerm? && !t.CallTerm?
    ensures ParsePostfix(env, ps) == PostLoop(env, At(ps, tail, ps.used + Size(t)), Build(env, ps.vars, t, ps.used))
  {
    hide Ready, Clean, Stratified, Known, Toks, Build, Size, Level, Binds, Next, MakeSys, ParsePrimary, PostLoop;
    Begin(env, ps, t, tail);
    LeafParts(env, ps, t, tail);
    PrimaryExact(env, ps, t, tail);
    PostLoopAt(env, ps, Taken(Next(ps)), tail, Build(env, ps.vars, t, ps.used));
  }

  // ----- arguments -----

  lemma ArgsToks(a: Terms, end: seq<Tok>)
    requires a.MoreTerms?
    ensures var more := MoreToks(a.rest) + end;
      ArgToks(a) + end == Toks(a.e) + more && MoreToks(a) + end == [Sign(TokComma)] + (Toks(a.e) + more)
  {
    hide Toks;
    assert MoreToks(a) == [Sign(TokComma)] + Toks(a.e) + MoreToks(a.rest);
    Assoc([Sign(TokComma)] + Toks(a.e), MoreToks(a.rest), end);
    Assoc([Sign(TokComma)], Toks(a.e), MoreToks(a.rest) + end);
  }

  lemma MoreShape(a: Terms, end: seq<Tok>)
    requires AllStratified(a) && end != [] && end[0].kind == TokRightParen && Clean(end)
    ensures var more := MoreToks(a) + end; more != [] && Clean(more) && Binds(more[0].kind) < 0
  {
    ArgToksClean(a);
    assert Clean(MoreToks(a)) by { hide MoreToks, ArgToks, AllStratified; }
    hide Clean, Toks;
    CleanAppend(MoreToks(a), end);
    if a.NoTerms? {
      assert MoreToks(a) + end == end;
    }
  }

  lemma ArgsParts(env: Env, vars: seq<Variable>, a: Terms, u: nat, end: seq<Tok>)
    requires a.MoreTerms? && AllStratified(a) && AllKnown(env, vars, a)
    requires end != [] && end[0].kind == TokRightParen && Clean(end)
    ensures var more := MoreToks(a.rest) + end;
      && more != [] && Clean(more) && Binds(more[0].kind) < 0
      && Stratified(a.e) && Known(env, vars, a.e) && AllStratified(a.rest) && AllKnown(env, vars, a.rest)
      && ArgToks(a) + end == Toks(a.e) + more && MoreToks(a) + end == [Sign(TokComma)] + (Toks(a.e) + more)
    ensures SizeAll(a) == Size(a.e) + SizeAll(a.rest)
    ensures BuildAll(env, vars, a, u) == Linked(Build(env, vars, a.e, u), BuildAll(env, vars, a.rest, u + Size(a.e)))
  {
    hide Toks, MoreToks, ArgToks, Clean, Binds, Build, Size, Stratified, Known;
    ArgsToks(a, end);
    MoreShape(a.rest, end);
  }

  lemma NoArgsParts(env: Env, vars: seq<Variable>, u: nat)
    ensures ArgToks(NoTerms) == [] && MoreToks(NoTerms) == []
    ensures SizeAll(NoTerms) == 0 && BuildAll(env, vars, NoTerms, u) == Nil
  {
  }

  lemma ParensEmpty(env: Env, ps: Parser)
    requires Cur(Next(ps)) == TokRightParen
    ensures ParseParens(env, ps) == (Nil, Next(ps))
  {
    hide ParseParams, Next;
  }

  lemma ParensStep(env: Env, ps: Parser, first: Forest, p1: Parser, rest: Forest, p2: Parser)
    requires Cur(Next(ps)) != TokRightParen
    requires ParseAssign(env, Replay(Next(ps))) == (first, p1) && first.Node?
    requires ParamLoop(env, p1) == (rest, p2) && Cur(Next(p2)) == TokRightParen
    ensures ParseParens(env, ps) == (Linked(first, rest), Next(p2))
  {
    hide ParseAssign, ParamLoop, Next;
  }

  lemma ParensBegin(env: Env, ps: Parser, a: Terms, end: seq<Tok>)
    requires Stream(ps) == ArgToks(a) + end && a.MoreTerms?
    requires Clean(end) && end != [] && end[0].kind == TokRightParen
    requires AllStratified(a) && AllKnown(env, ps.vars, a) && ps.used + SizeAll(a) <= NODE_MAX
    ensures var more := MoreToks(a.rest) + end;
      var s := Toks(a.e) + more;
      && s != [] && Cur(Next(ps)) != TokRightParen && Replay(Next(ps)) == At(ps, s, ps.used)
      && Ready(env, At(ps, s, ps.used), a.e, more)
  {
    hide Toks, MoreToks, ArgToks, Size, SizeAll, Build, BuildAll, AllStratified, AllKnown, Stratified, Known, Clean,
         Next, Ready, Binds;
    ArgsParts(env, ps.vars, a, ps.used, end);
    ReadyFor(env, ps, a.e, MoreToks(a.rest) + end);
    Begin(env, ps, a.e, MoreToks(a.rest) + end);
    FirstToken(a.e);
  }

  lemma MoreBegin(env: Env, ps: Parser, a: Terms, tail: seq<Tok>)
    requires Stream(ps) == MoreToks(a) + tail && a.MoreTerms?
    requires Clean(tail) && tail != [] && tail[0].kind == TokRightParen
    requires AllStratified(a) && AllKnown(env, ps.vars, a) && ps.used + SizeAll(a) <= NODE_MAX
    ensures var more := MoreToks(a.rest) + tail;
      && Next(ps) == After(ps, Sign(TokComma), Toks(a.e) + more, ps.used)
      && Ready(env, Next(ps), a.e, more)
  {
    hide Toks, MoreToks, ArgToks, Size, SizeAll, Build, BuildAll, AllStratified, AllKnown, Stratified, Known, Clean,
         Next, Ready, Binds;
    ArgsParts(env, ps.vars, a, ps.used, tail);
    var more := MoreToks(a.rest) + tail;
    NextIs(ps, Sign(TokComma), Toks(a.e) + more);
    ReadyFor(env, Next(ps), a.e, more);
  }

  /** Arguments and the closing parenthesis. */
  lemma {:induction false} ParensExact(env: Env, ps: Parser, a: Terms, tail: seq<Tok>)
    requires var s := ArgToks(a) + ([Sign(TokRightParen)] + tail); Stream(ps) == s && Clean(s) && tail != []
    requires AllStratified(a) && AllKnown(env, ps.vars, a) && ps.used + SizeAll(a) <= NODE_MAX
    ensures ParseParens(env, ps) ==
      (BuildAll(env, ps.vars, a, ps.used), After(ps, Sign(TokRightParen), tail, ps.used + SizeAll(a)))
    decreases a, 1
  {
    var end := [Sign(TokRightParen)] + tail;
    CleanAppend(ArgToks(a), end);
    if a.NoTerms? {
      ParensNone(env, ps, tail);
    } else {
      ParensSome(env, ps, a, tail);
    }
  }

  lemma ParensNone(env: Env, ps: Parser, tail: seq<Tok>)
    requires Stream(ps) == ArgToks(NoTerms) + ([Sign(TokRightParen)] + tail)
    ensures ParseParens(env, ps) == (BuildAll(env, ps.vars, NoTerms, ps.used), After(ps, Sign(TokRightParen), tail,
        ps.used))
  {
    hide ParseParens, Next;
    NoArgsParts(env, ps.vars, ps.used);
    var end := [Sign(TokRightParen)] + tail;
    assert [] + end == end;
    NextIs(ps, Sign(TokRightParen), tail);
    ParensEmpty(env, ps);
  }

  lemma {:induction false} ParensSome(env: Env, ps: Parser, a: Terms, tail: seq<Tok>)
    requires var end := [Sign(TokRightParen)] + tail; Stream(ps) == ArgToks(a) + end && Clean(end) && tail != []
    requires a.MoreTerms? && AllStratified(a) && AllKnown(env, ps.vars, a) && ps.used + SizeAll(a) <= NODE_MAX
    ensures ParseParens(env, ps) ==
      (BuildAll(env, ps.vars, a, ps.used), After(ps, Sign(TokRightParen), tail, ps.used + SizeAll(a)))
    decreases a, 0
  {
    hide Ready, Clean, Stratified, Known, Toks, Build, Size, Level, Binds, Next, BuildAll, SizeAll, ArgToks, MoreToks,
         AllStratified, AllKnown, ParseAssign, ParamLoop, ParseParens;
    var end := [Sign(TokRightParen)] + tail;
    ArgsParts(env, ps.vars, a, ps.used, end);
    ParensBegin(env, ps, a, end);
    var more := MoreToks(a.rest) + end;
    TermExact(env, At(ps, Toks(a.e) + more, ps.used), a.e, more);
    var u := ps.used + Size(a.e);
    var p1 := At(ps, more, u);
    AtIs(ps, more, u);
    MoreExact(env, p1, a.rest, end);
    AtCons(ps, Sign(TokRightParen), tail, u + SizeAll(a.rest));
    ParensStep(env, ps, Build(env, ps.vars, a.e, ps.used), p1, BuildAll(env, ps.vars, a.rest, u),
               At(ps, end, u + SizeAll(a.rest)));
  }

  lemma {:induction false} MoreExact(env: Env, ps: Parser, a: Terms, tail: seq<Tok>)
    requires Stream(ps) == MoreToks(a) + tail && Clean(tail) && tail != [] && tail[0].kind == TokRightParen
    requires AllStratified(a) && AllKnown(env, ps.vars, a) && ps.used + SizeAll(a) <= NODE_MAX
    ensures ParamLoop(env, ps) == (BuildAll(env, ps.vars, a, ps.used), At(ps, tail, ps.used + SizeAll(a)))
    decreases a, 1
  {
    if a.NoTerms? {
      MoreNone(env, ps, tail);
    } else {
      MoreSome(env, ps, a, tail);
    }
  }

  lemma {:induction false} MoreSome(env: Env, ps: Parser, a: Terms, tail: seq<Tok>)
    requires Stream(ps) == MoreToks(a) + tail && Clean(tail) && tail != [] && tail[0].kind == TokRightParen
    requires a.MoreTerms? && AllStratified(a) && AllKnown(env, ps.vars, a) && ps.used + SizeAll(a) <= NODE_MAX
    ensures ParamLoop(env, ps) == (BuildAll(env, ps.vars, a, ps.used), At(ps, tail, ps.used + SizeAll(a)))
    decreases a, 0
  {
    hide Ready, Clean, Stratified, Known, Toks, Build, Size, Level, Binds, Next, BuildAll, SizeAll, ArgToks, MoreToks,
         AllStratified, AllKnown, ParseAssign, ParamLoop;
    ArgsParts(env, ps.vars, a, ps.used, tail);
    MoreBegin(env, ps, a, tail);
    var more := MoreToks(a.rest) + tail;
    TermExact(env, Next(ps), a.e, more);
    var u := ps.used + Size(a.e);
    AtIs(ps, more, u);
    MoreExact(env, At(ps, more, u), a.rest, tail);
    ParamStep(env, ps, Build(env, ps.vars, a.e, ps.used), At(ps, more, u), BuildAll(env, ps.vars, a.rest, u),
              At(ps, tail, u + SizeAll(a.rest)));
  }

  lemma MoreNone(env: Env, ps: Parser, tail: seq<Tok>)
    requires Stream(ps) == MoreToks(NoTerms) + tail && Clean(tail) && tail != [] && tail[0].kind == TokRightParen
    ensures ParamLoop(env, ps) == (BuildAll(env, ps.vars, NoTerms, ps.used), At(ps, tail, ps.used + SizeAll(NoTerms)))
  {
    hide ParamLoop, Next, Clean;
    NoArgsParts(env, ps.vars, ps.used);
    CleanHead(tail);
    assert [] + tail == tail;
    NextIs(ps, tail[0], tail[1..]);
    ParamStop(env, ps);
  }

  // ----- statements -----

  lemma StatementStep(env: Env, ps: Parser, f: Forest, p2: Parser)
    requires Cur(Next(ps)) != TokSemicolon && ParseAssign(env, Replay(Next(ps))) == (f, p2)
    requires Cur(Next(p2)) == TokSemicolon
    ensures ParseStatement(env, ps) == (f, Next(p2))
  {
    hide ParseAssign, Next;
  }

  lemma StatementBegin(env: Env, ps: Parser, e: Term, more: seq<Tok>)
    requires Ready(env, ps, e, more) && more != []
    ensures var s := Toks(e) + more;
      && s != [] && Ready(env, At(ps, s, ps.used), e, more) && Replay(Next(ps)) == At(ps, s, ps.used)
      && Cur(Next(ps)) != TokSemicolon
  {
    hide Ready, Toks, Stratified, Next;
    Begin(env, ps, e, more);
    FirstToken(e);
  }

  /** An expression statement, read up to its semicolon. */
  lemma StatementExact(env: Env, ps: Parser, e: Term, tail: seq<Tok>)
    requires Ready(env, ps, e, [Sign(TokSemicolon)] + tail)
    ensures ParseStatement(env, ps) ==
      (Build(env, ps.vars, e, ps.used), After(ps, Sign(TokSemicolon), tail, ps.used + Size(e)))
  {
    hide Ready, Clean, Toks, Build, Size, Next, ParseAssign, ParseStatement;
    var more := [Sign(TokSemicolon)] + tail;
    var u := ps.used + Size(e);
    StatementBegin(env, ps, e, more);
    TermExact(env, At(ps, Toks(e) + more, ps.used), e, more);
    AtCons(ps, Sign(TokSemicolon), tail, u);
    StatementStep(env, ps, Build(env, ps.vars, e, ps.used), At(ps, more, u));
  }

  // ----- declarations -----

  /** The parser with a name declared: a name that is taken, or finds no entry free, leaves an error. */
  function Declared(ps: Parser, ty: FinshType, ds: seq<Item>): Parser {
    ps.(vars := ItemVars(ps.vars, ty, ds), err := if ItemsNew(ps.vars, ty, ds) then ps.err else ERROR_VARIABLE_EXIST)
  }

  lemma DeclaredOne(ps: Parser, ty: FinshType, d: Item)
    ensures Declared(ps, ty, [d]).vars == Entered(ps.vars, ty, Id(d.name))
    ensures Declared(ps, ty, [d]).err ==
      if VarInsert(ps.vars, Id(d.name), ty).Some? then ps.err else ERROR_VARIABLE_EXIST
  {
    hide VarInsert, Entered;
    var vars := Entered(ps.vars, ty, Id(d.name));
    assert [d][1..] == [];
    assert ItemVars(vars, ty, []) == vars && ItemsNew(vars, ty, []);
  }

  lemma DeclaredFirst(ps: Parser, ty: FinshType, ds: seq<Item>)
    requires ds != []
    ensures ds[..1] == [ds[0]] && Declared(ps, ty, ds[..1]).vars == Entered(ps.vars, ty, Id(ds[0].name))
    ensures Declared(Declared(ps, ty, ds[..1]), ty, ds[1..]) == Declared(ps, ty, ds)
  {
    DeclaredOne(ps, ty, ds[0]);
    hide VarInsert, Entered;
    assert ds[..1] == [ds[0]];
  }

  lemma DeclareExact(ps: Parser, d: Item, ty: FinshType, s: seq<Tok>)
    requires Stream(ps) == [WordTok(TokIdentifier, d.name)] + s && s != [] && Clean(s)
    ensures var (id, p1) := ParseIdentifier(ps);
      id == Id(d.name) && Next(Declare(p1, id, ty)) == After(Declared(ps, ty, [d]), s[0], s[1..], ps.used)
  {
    hide CName, VarInsert, Next, Stream, Clean, ItemVars, ItemsNew;
    NextIs(ps, WordTok(TokIdentifier, d.name), s);
    var p1 := Next(ps);
    var p2 := Declare(p1, Id(d.name), ty);
    DeclaredOne(ps, ty, d);
    assert p2.vars == Declared(ps, ty, [d]).vars && p2.err == Declared(ps, ty, [d]).err;
    StreamKept(p1, p2.vars, p2.err);
    CleanHead(s);
    NextIs(p2, s[0], s[1..]);
  }

  lemma StreamKept(ps: Parser, vars: seq<Variable>, err: nat)
    ensures Stream(ps.(vars := vars, err := err)) == Stream(ps)
  {
  }

  lemma NewIdExact(env: Env, ps: Parser, name: string)
    requires Resolve(env, ps.vars, name) != NoSymbol && ps.used < NODE_MAX
    ensures NewId(env, ps, name) == (NewNode(ps.used, KId, 0, Resolve(env, ps.vars, name), Nil), Taken(ps))
  {
    hide Resolve;
  }

  lemma InitialiserStep(env: Env, ps: Parser, id: string, trees: seq<Forest>, right: Forest, p1: Parser, left: Forest,
      p2: Parser, node: Forest, p3: Parser)
    requires ParseAssign(env, ps) == (right, p1) && right.Node?
    requires NewId(env, p1, id) == (left, p2) && MakeSys(p2, KAssign, left, right) == (node, p3) && node.Node?
    ensures Initialiser(env, ps, id, trees) == (trees + [node], Next(p3), Cur(Next(p3)))
  {
    hide ParseAssign, NewId, MakeSys, Next;
  }

  lemma AssignedName(env: Env, p1: Parser, name: string, right: Forest)
    requires Resolve(env, p1.vars, name) != NoSymbol && p1.used + 2 <= NODE_MAX
    ensures var left := NewNode(p1.used, KId, 0, Resolve(env, p1.vars, name), Nil);
      && NewId(env, p1, name) == (left, Taken(p1))
      && MakeSys(Taken(p1), KAssign, left, right)
         == (NewNode(p1.used + 1, KAssign, 0, NoSymbol, Linked(left, right)), Taken(Taken(p1)))
  {
    hide NewId, MakeSys, Resolve;
    NewIdExact(env, p1, name);
    Make(Taken(p1), KAssign, NewNode(p1.used, KId, 0, Resolve(env, p1.vars, name), Nil), right);
  }

  predicate EndsItem(k: TokenKind) {
    k == TokComma || k == TokSemicolon
  }

  /** An initialiser, read up to the token behind it. */
  lemma InitialiserExact(env: Env, ps: Parser, name: string, e: Term, sep: TokenKind, tail: seq<Tok>,
      trees: seq<Forest>)
    requires Ready(env, ps, e, [Sign(sep)] + tail) && EndsItem(sep)
    requires Resolve(env, ps.vars, Id(name)) != NoSymbol && ps.used + Size(e) + 2 <= NODE_MAX
    ensures var u := ps.used + Size(e);
      var ts := BuildItem(env, ps.vars, Item(name, Some(e)), ps.used);
      Initialiser(env, ps, Id(name), trees) == (trees + ts, After(ps, Sign(sep), tail, u + 2), sep)
  {
    hide Ready, Clean, Toks, Build, Size, Next, ParseAssign, Initialiser, NewId, MakeSys, Resolve, NewNode, Linked;
    var more := [Sign(sep)] + tail;
    var u := ps.used + Size(e);
    TermExact(env, ps, e, more);
    AssignedName(env, At(ps, more, u), Id(name), Build(env, ps.vars, e, ps.used));
    var left := NewNode(u, KId, 0, Resolve(env, ps.vars, Id(name)), Nil);
    var right := Build(env, ps.vars, e, ps.used);
    AtCons(ps, Sign(sep), tail, u + 2);
    InitialiserStep(env, ps, Id(name), trees, right, At(ps, more, u), left, At(ps, more, u + 1),
                    NewNode(u + 1, KAssign, 0, NoSymbol, Linked(left, right)), At(ps, more, u + 2));
  }

  /** What follows the name of an item. */
  function ItemTail(d: Item, tail: seq<Tok>): seq<Tok> {
    match d.init
    case None => tail
    case Some(e) => [Sign(TokAssign)] + (Toks(e) + tail)
  }

  predicate ItemWritten(d: Item) {
    d.init.Some? ==> Stratified(d.init.value)
  }

  lemma ItemTailIs(d: Item, tail: seq<Tok>)
    requires ItemWritten(d) && tail != [] && Clean(tail)
    ensures ItemToks(d) + tail == [WordTok(TokIdentifier, d.name)] + ItemTail(d, tail)
    ensures var s := ItemTail(d, tail); s != [] && Clean(s) && Clean(ItemToks(d) + tail)
  {
    hide Clean, Toks, Stratified;
    var id := [WordTok(TokIdentifier, d.name)];
    match d.init {
      case None => assert id + [] == id;
      case Some(e) =>
        TermFacts(e, tail, Sign(TokAssign));
        Assoc(id, [Sign(TokAssign)] + Toks(e), tail);
        Assoc([Sign(TokAssign)], Toks(e), tail);
    }
    CleanOne(id[0]);
    CleanAppend(id, ItemTail(d, tail));
  }

  lemma DeclaratorIs(env: Env, ps: Parser, d: Item, ty: FinshType, trees: seq<Forest>, p2: Parser)
    requires ParseIdentifier(ps).0 == Id(d.name) && Next(Declare(ParseIdentifier(ps).1, Id(d.name), ty)) == p2
    ensures Declarator(env, ps, ty, trees) ==
      if Cur(p2) == TokAssign then Initialiser(env, p2, Id(d.name), trees) else (trees, p2, Cur(p2))
  {
    hide ParseIdentifier, Next, Declare, Initialiser;
  }

  /** A declared name, with or without an initialiser, read up to the token behind it. */
  lemma ItemExact(env: Env, ps: Parser, ty: FinshType, d: Item, sep: TokenKind, tail: seq<Tok>, trees: seq<Forest>)
    requires Stream(ps) == ItemToks(d) + ([Sign(sep)] + tail) && Clean(tail) && EndsItem(sep)
    requires ItemFits(env, Entered(ps.vars, ty, Id(d.name)), d) && ps.used + ItemSize(d) <= NODE_MAX
    ensures var p1 := Declared(ps, ty, [d]);
      && p1.vars == Entered(ps.vars, ty, Id(d.name))
      && Declarator(env, ps, ty, trees)
         == (trees + BuildItem(env, p1.vars, d, ps.used), After(p1, Sign(sep), tail, ps.used + ItemSize(d)), sep)
  {
    hide Clean, Stream, Toks, Resolve, Size, Stratified, Known, Declarator, Initialiser, ParseIdentifier, Declare, Next,
         ItemToks, Ready, BuildItem, Entered, ItemVars, ItemsNew;
    var p1, more := Declared(ps, ty, [d]), [Sign(sep)] + tail;
    DeclaredOne(ps, ty, d);
    CleanOne(Sign(sep));
    CleanAppend([Sign(sep)], tail);
    ItemTailIs(d, more);
    DeclareExact(ps, d, ty, ItemTail(d, more));
    var s := ItemTail(d, more);
    DeclaratorIs(env, ps, d, ty, trees, After(p1, s[0], s[1..], ps.used));
    match d.init
    case None => NoInitialiser(env, p1.vars, d, ps.used, trees); assert s[1..] == tail;
    case Some(e) =>
      var p := After(p1, s[0], s[1..], ps.used);
      assert s[1..] == Toks(e) + more;
      StreamAfter(p1, s[0], s[1..], ps.used);
      ReadyFor(env, p, e, more);
      assert d == Item(d.name, Some(e));
      InitialiserExact(env, p, d.name, e, sep, tail, trees);
  }

  lemma NoInitialiser(env: Env, vars: seq<Variable>, d: Item, u: nat, trees: seq<Forest>)
    requires d.init == None
    ensures trees + BuildItem(env, vars, d, u) == trees
  {
  }

  lemma StreamAfter(ps: Parser, t: Tok, s: seq<Tok>, u: nat)
    ensures Stream(After(ps, t, s, u)) == s
  {
  }

  /** The items behind a comma, as long as there are some, and the semicolon. */
  function ItemsTail(ds: seq<Item>, tail: seq<Tok>): seq<Tok> {
    MoreItems(ds) + ([Sign(TokSemicolon)] + tail)
  }

  lemma {:induction false} ItemsTailIs(ds: seq<Item>, tail: seq<Tok>)
    requires Clean(tail)
    ensures Clean(ItemsTail(ds, tail))
    ensures ds == [] ==> ItemsTail(ds, tail) == [Sign(TokSemicolon)] + tail
    ensures ds != [] ==> ItemsTail(ds, tail) == [Sign(TokComma)] + (ItemToks(ds[0]) + ItemsTail(ds[1..], tail))
    ensures ds != [] ==> Clean(ItemToks(ds[0]) + ItemsTail(ds[1..], tail))
    decreases |ds|
  {
    hide Clean, ItemToks;
    var semi, comma := [Sign(TokSemicolon)], [Sign(TokComma)];
    if ds == [] {
      CleanOne(semi[0]);
      CleanAppend(semi, tail);
      assert [] + (semi + tail) == semi + tail;
    } else {
      ItemsTailIs(ds[1..], tail);
      Assoc(comma + ItemToks(ds[0]), MoreItems(ds[1..]), semi + tail);
      Assoc(comma, ItemToks(ds[0]), ItemsTail(ds[1..], tail));
      ItemClean(ds[0]);
      CleanAppend(ItemToks(ds[0]), ItemsTail(ds[1..], tail));
      CleanOne(comma[0]);
      CleanAppend(comma, ItemToks(ds[0]) + ItemsTail(ds[1..], tail));
    }
  }

  lemma ItemClean(d: Item)
    ensures Clean(ItemToks(d))
  {
    if d.init.Some? {
      ToksClean(d.init.value);
    }
  }

  lemma ItemsParts(env: Env, ps: Parser, ty: FinshType, ds: seq<Item>)
    requires ds != [] && ItemsFit(env, ps.vars, ty, ds)
    ensures var p1 := Declared(ps, ty, ds[..1]);
      && ds[..1] == [ds[0]] && p1.vars == Entered(ps.vars, ty, Id(ds[0].name)) && Declared(p1, ty, ds[1..])
        == Declared(ps, ty, ds)
      && ItemFits(env, p1.vars, ds[0]) && ItemsFit(env, p1.vars, ty, ds[1..])
      && ItemsSize(ds) == ItemSize(ds[0]) + ItemsSize(ds[1..])
      && BuildItems(env, ps.vars, ty, ds, ps.used)
        == BuildItem(env, p1.vars, ds[0], ps.used) + BuildItems(env, p1.vars, ty, ds[1..], ps.used + ItemSize(ds[0]))
  {
    hide ItemFits, Entered, BuildItem, ItemSize;
    DeclaredFirst(ps, ty, ds);
  }

  lemma DeclaredAfter(ps: Parser, t: Tok, s: seq<Tok>, u: nat, ty: FinshType, ds: seq<Item>)
    ensures Declared(After(ps, t, s, u), ty, ds) == After(Declared(ps, ty, ds), t, s, u)
  {
    hide ItemVars, ItemsNew;
  }

  /** All items of a declaration from one on, and the semicolon. */
  lemma {:induction false} ItemsExact(env: Env, ps: Parser, ty: FinshType, ds: seq<Item>, tail: seq<Tok>,
      trees: seq<Forest>)
    requires ds != [] && Stream(ps) == ItemToks(ds[0]) + ItemsTail(ds[1..], tail) && Clean(tail)
    requires ItemsFit(env, ps.vars, ty, ds) && ps.used + ItemsSize(ds) <= NODE_MAX
    ensures DeclLoop(env, ps, ty, TokComma, trees) ==
      (trees + BuildItems(env, ps.vars, ty, ds, ps.used),
       After(Declared(ps, ty, ds), Sign(TokSemicolon), tail, ps.used + ItemsSize(ds)))
    decreases |ds|
  {
    hide Clean, Stream, ItemToks, ItemsTail, ItemsFit, ItemFits, ItemsSize, ItemSize, DeclLoop, Declarator, BuildItems,
         BuildItem, Declared, Entered;
    ItemsParts(env, ps, ty, ds);
    ItemsTailIs(ds[1..], tail);
    var d, p1, u := ds[0], Declared(ps, ty, ds[..1]), ps.used + ItemSize(ds[0]);
    var more := trees + BuildItem(env, p1.vars, d, ps.used);
    DeclLoopTurn(env, ps, ty, trees);
    if ds[1..] == [] {
      ItemExact(env, ps, ty, d, TokSemicolon, tail, trees);
      NoItems(env, p1, ty, u);
      assert trees + (BuildItem(env, p1.vars, d, ps.used) + []) == more;
      DeclLoopStop(env, After(p1, Sign(TokSemicolon), tail, u), ty, TokSemicolon, more);
    } else {
      var rest := ItemToks(ds[1]) + ItemsTail(ds[2..], tail);
      assert ds[1..][0] == ds[1] && ds[1..][1..] == ds[2..];
      ItemExact(env, ps, ty, d, TokComma, rest, trees);
      var p2 := After(p1, Sign(TokComma), rest, u);
      StreamAfter(p1, Sign(TokComma), rest, u);
      ItemsExact(env, p2, ty, ds[1..], tail, more);
      DeclaredAfter(p1, Sign(TokComma), rest, u, ty, ds[1..]);
      Between3(trees, BuildItem(env, p1.vars, d, ps.used), BuildItems(env, p1.vars, ty, ds[1..], u));
    }
  }

  lemma Between3(a: seq<Forest>, b: seq<Forest>, c: seq<Forest>)
    ensures (a + b) + c == a + (b + c)
  {
  }

  lemma NoItems(env: Env, ps: Parser, ty: FinshType, u: nat)
    ensures BuildItems(env, ps.vars, ty, [], u) == [] && ItemsSize([]) == 0 && Declared(ps, ty, []) == ps
  {
  }

  /** A declaration is read as the loop over its items does it, the first one among them. */
  lemma DeclAsLoop(env: Env, ps: Parser, ty: FinshType, p1: Parser)
    requires ParseType(ps) == (ty, p1)
    requires var (id, p) := ParseIdentifier(p1);
      Cur(Next(Declare(p, id, ty))) == TokAssign || EndsItem(Cur(Next(Declare(p, id, ty))))
    ensures ParseDecl(env, ps) == var (trees, p2) := DeclLoop(env, p1, ty, TokComma, []); (Chain(trees, Nil), p2)
  {
    DeclLoopTurn(env, p1, ty, []);
    var (id, p) := ParseIdentifier(p1);
    var p2 := Next(Declare(p, id, ty));
    NextIsRead(Declare(p, id, ty));
    hide ParseType, ParseIdentifier, Declare, Next, Initialiser, DeclLoop;
    if Cur(p2) == TokSemicolon {
      DeclLoopStop(env, p2, ty, TokSemicolon, []);
    }
  }

  lemma NextIsRead(ps: Parser)
    ensures !Next(ps).replay
  {
  }

  /** A statement with names, and terms that need no parentheses. */
  predicate Written(s: Stmt) {
    match s
    case ExprStmt(e) => Stratified(e)
    case DeclStmt(ty, ds) => IsTypeName(ty) && ds != [] && forall d :: d in ds ==> ItemWritten(d)
    case EmptyStmt(_) => true
  }

  lemma {:induction false} FitsIsWritten(env: Env, vars: seq<Variable>, ty: FinshType, ds: seq<Item>)
    requires ItemsFit(env, vars, ty, ds)
    ensures forall d :: d in ds ==> ItemWritten(d)
    decreases |ds|
  {
    hide Entered, Known, Stratified, Resolve;
    if ds != [] {
      FitsIsWritten(env, Entered(vars, ty, Id(ds[0].name)), ty, ds[1..]);
    }
  }

  ghost predicate DeclReady(env: Env, ps: Parser, s: Stmt, tail: seq<Tok>) {
    && s.DeclStmt? && StmtFits(env, ps.vars, s) && Stream(ps) == StmtToks(s) + tail && Clean(tail)
    && ps.used + StmtSize(s) <= NODE_MAX
  }

  lemma DeclToks(s: Stmt, tail: seq<Tok>)
    requires s.DeclStmt? && s.items != []
    ensures StmtToks(s) + tail == TypeToks(s.ty) + (ItemToks(s.items[0]) + ItemsTail(s.items[1..], tail))
  {
    hide TypeToks, ItemToks, MoreItems;
    var a, b, semi := ItemToks(s.items[0]), MoreItems(s.items[1..]), [Sign(TokSemicolon)];
    Assoc(TypeToks(s.ty) + (a + b), semi, tail);
    Assoc(TypeToks(s.ty), a + b, semi + tail);
    Assoc(a, b, semi + tail);
  }

  /** What follows the type. */
  lemma DeclPrefix(ps: Parser, s: Stmt, tail: seq<Tok>)
    requires s.DeclStmt? && Written(s) && Stream(ps) == StmtToks(s) + tail && Clean(tail)
    ensures var (ty, p1) := ParseType(ps);
      && ty == TypeOf(s.ty) && Stream(p1) == ItemToks(s.items[0]) + ItemsTail(s.items[1..], tail)
      && p1.used == ps.used && p1.err == ps.err && p1.vars == ps.vars
      && var (id, p) := ParseIdentifier(p1);
         Cur(Next(Declare(p, id, ty))) == TokAssign || EndsItem(Cur(Next(Declare(p, id, ty))))
  {
    hide Clean, Stream, TypeToks, ItemToks, ParseType, ParseIdentifier, Declare, VarInsert, Next,
         ItemsTail, StmtToks, Stratified;
    var d, end := s.items[0], ItemsTail(s.items[1..], tail);
    assert ItemWritten(d);
    ItemsTailIs(s.items[1..], tail);
    DeclToks(s, tail);
    ItemTailIs(d, end);
    var rest := ItemToks(d) + end;
    TypeBack(ps, s.ty, rest);
    DeclareExact(ParseType(ps).1, d, TypeOf(s.ty), ItemTail(d, end));
  }

  /** A declaration, read up to its semicolon: every name enters the table with the declared type, and the
      trees are one assignment for each initialiser, in order, each to its own name. */
  lemma DeclExact(env: Env, ps: Parser, s: Stmt, tail: seq<Tok>)
    requires DeclReady(env, ps, s, tail)
    ensures ParseDecl(env, ps) == (Chain(BuildStmt(env, ps.vars, s, ps.used), Nil),
      After(Declared(ps, TypeOf(s.ty), s.items), Sign(TokSemicolon), tail, ps.used + StmtSize(s)))
  {
    hide Clean, Stream, ItemToks, ItemsTail, StmtToks, ParseDecl, ParseType, ParseIdentifier, DeclLoop, Next, Declare,
         BuildItems, ItemsFit, ItemsSize, EndsItem, ItemVars, ItemsNew, Chain;
    FitsIsWritten(env, ps.vars, TypeOf(s.ty), s.items);
    DeclPrefix(ps, s, tail);
    var (ty, p1) := ParseType(ps);
    DeclAsLoop(env, ps, ty, p1);
    ItemsExact(env, p1, ty, s.items, tail, []);
    var ts := BuildItems(env, ps.vars, ty, s.items, ps.used);
    assert [] + ts == ts;
  }

  // ----- the table behind a declaration -----

  /** A declared name is found again, as a variable. */
  lemma {:induction false} FindDeclared(vars: seq<Variable>, name: string, ty: FinshType)
    requires VarFind(vars, name) == |vars| && FreeSlot(vars) < |vars|
    ensures VarFind(vars[FreeSlot(vars) := Variable(name, ty)], name) == FreeSlot(vars)
    ensures vars[FreeSlot(vars)].ty == TUnknown
  {
    var k := FreeSlot(vars);
    if k > 0 {
      FindDeclared(vars[1..], name, ty);
      assert vars[k := Variable(name, ty)][1..] == vars[1..][k - 1 := Variable(name, ty)];
    }
  }

  /** After a declaration the name means the new variable. */
  lemma DeclaredMeans(env: Env, vars: seq<Variable>, name: string, ty: FinshType)
    requires VarInsert(vars, name, ty).Some?
    ensures Resolve(env, VarInsert(vars, name, ty).value, name) == VarSym(ty, env.varAddr(FreeSlot(vars)))
  {
    FindDeclared(vars, name, ty);
  }

  /** `name` is that of the entry `k`, which is in use, and of none before it. */
  ghost predicate Names(vars: seq<Variable>, name: string, k: nat) {
    k < |vars| && VarFind(vars, name) == k && vars[k].name == name && vars[k].ty != TUnknown
  }

  lemma {:induction false} FoundStays(vars: seq<Variable>, name: string, j: nat, v: Variable)
    requires j < |vars| && vars[j].ty == TUnknown && v.name != name
    requires VarFind(vars, name) < |vars| && vars[VarFind(vars, name)].ty != TUnknown
    ensures VarFind(vars[j := v], name) == VarFind(vars, name)
  {
    if j > 0 && vars[0].name != name {
      assert vars[j := v][1..] == vars[1..][j - 1 := v];
      FoundStays(vars[1..], name, j - 1, v);
    }
  }

  lemma {:induction false} NotFound(vars: seq<Variable>, name: string, k: nat)
    requires k < |vars| && VarFind(vars, name) == |vars|
    ensures vars[k].name != name
  {
    if k > 0 {
      NotFound(vars[1..], name, k - 1);
    }
  }

  lemma EnteredFacts(vars: seq<Variable>, ty: FinshType, name: string)
    requires VarInsert(vars, name, ty).Some? && ty != TUnknown
    ensures var k, after := FreeSlot(vars), Entered(vars, ty, name);
      && k < |vars| && after == vars[k := Variable(name, ty)] && vars[k].ty == TUnknown && Names(after, name, k)
      && forall n, i: nat :: Names(vars, n, i) ==> n != name && Names(after, n, i) && after[i] == vars[i]
  {
    var k, after := FreeSlot(vars), Entered(vars, ty, name);
    FindDeclared(vars, name, ty);
    forall n, i: nat | Names(vars, n, i) ensures n != name && Names(after, n, i) && after[i] == vars[i] {
      EntryStays(vars, ty, name, n, i);
    }
    hide VarFind, FreeSlot;
  }

  lemma EntryStays(vars: seq<Variable>, ty: FinshType, name: string, n: string, i: nat)
    requires VarInsert(vars, name, ty).Some? && Names(vars, n, i)
    ensures var after := Entered(vars, ty, name); n != name && Names(after, n, i) && after[i] == vars[i]
  {
    FindDeclared(vars, name, ty);
    hide VarFind, FreeSlot;
    NotFound(vars, name, i);
    FoundStays(vars, n, FreeSlot(vars), Variable(name, ty));
  }

  /** A name in the table keeps its entry, and is not declared again. */
  lemma {:induction false} NamesStay(vars: seq<Variable>, ty: FinshType, ds: seq<Item>, n: string, k: nat)
    requires ItemsNew(vars, ty, ds) && ty != TUnknown && Names(vars, n, k)
    ensures var after := ItemVars(vars, ty, ds); Names(after, n, k) && after[k] == vars[k]
    ensures forall d :: d in ds ==> Id(d.name) != n
    decreases |ds|
  {
    hide Names, VarFind, FreeSlot, VarInsert, Entered;
    if ds != [] {
      EnteredFacts(vars, ty, Id(ds[0].name));
      assert Names(Entered(vars, ty, Id(ds[0].name)), n, k) && n != Id(ds[0].name);
      NamesStay(Entered(vars, ty, Id(ds[0].name)), ty, ds[1..], n, k);
      assert forall d :: d in ds ==> d == ds[0] || d in ds[1..];
      assert k < |vars| && Entered(vars, ty, Id(ds[0].name))[k] == vars[k] by { NamesInside(vars, n, k); }
    }
  }

  lemma NamesInside(vars: seq<Variable>, n: string, k: nat)
    requires Names(vars, n, k)
    ensures k < |vars|
  {
  }

  lemma {:induction false} ItemDeclared(vars: seq<Variable>, ty: FinshType, ds: seq<Item>, i: nat)
    requires ItemsNew(vars, ty, ds) && ty != TUnknown && i < |ds|
    ensures var after := ItemVars(vars, ty, ds);
      exists k: nat :: Names(after, Id(ds[i].name), k) && k < |vars| == |after|
        && after[k] == Variable(Id(ds[i].name), ty) && vars[k].ty == TUnknown
    ensures forall j :: i < j < |ds| ==> Id(ds[j].name) != Id(ds[i].name)
    decreases i
  {
    hide Names, VarFind, FreeSlot, VarInsert, Entered;
    var vars' := Entered(vars, ty, Id(ds[0].name));
    EnteredFacts(vars, ty, Id(ds[0].name));
    SameLength(vars', ty, ds[1..]);
    if i == 0 {
      var k := FreeSlot(vars);
      NamesStay(vars', ty, ds[1..], Id(ds[0].name), k);
      forall j | 0 < j < |ds| ensures Id(ds[j].name) != Id(ds[0].name) {
        assert ds[j] == ds[1..][j - 1];
      }
    } else {
      ItemDeclared(vars', ty, ds[1..], i - 1);
      assert ds[1..][i - 1] == ds[i];
      forall j | i < j < |ds| ensures Id(ds[j].name) != Id(ds[i].name) {
        assert ds[j] == ds[1..][j - 1];
      }
    }
  }

  lemma {:induction false} SameLength(vars: seq<Variable>, ty: FinshType, ds: seq<Item>)
    ensures |ItemVars(vars, ty, ds)| == |vars|
    decreases |ds|
  {
    if ds != [] {
      SameLength(Entered(vars, ty, Id(ds[0].name)), ty, ds[1..]);
    }
  }

  /** Behind a declaration of new names each of them means a variable of exactly the declared type, in an entry
      that was free; the names differ; and the names in use before mean what they meant. */
  lemma DeclaredTypes(env: Env, vars: seq<Variable>, ty: FinshType, ds: seq<Item>)
    requires ItemsNew(vars, ty, ds) && ty != TUnknown
    ensures var after := ItemVars(vars, ty, ds);
      && |after| == |vars|
      && (forall i :: 0 <= i < |ds| ==>
           var k := VarFind(after, Id(ds[i].name));
           && k < |vars| && vars[k].ty == TUnknown && after[k] == Variable(Id(ds[i].name), ty)
           && Resolve(env, after, Id(ds[i].name)) == VarSym(ty, env.varAddr(k)))
      && (forall i, j :: 0 <= i < j < |ds| ==> Id(ds[j].name) != Id(ds[i].name))
      && (forall n, k: nat :: Names(vars, n, k) ==>
           Names(after, n, k) && Resolve(env, after, n) == Resolve(env, vars, n))
  {
    hide VarFind, ItemVars, ItemsNew;
    var after := ItemVars(vars, ty, ds);
    SameLength(vars, ty, ds);
    forall i | 0 <= i < |ds|
      ensures var k := VarFind(after, Id(ds[i].name));
        && k < |vars| && vars[k].ty == TUnknown && after[k] == Variable(Id(ds[i].name), ty)
        && Resolve(env, after, Id(ds[i].name)) == VarSym(ty, env.varAddr(k))
      ensures forall j :: i < j < |ds| ==> Id(ds[j].name) != Id(ds[i].name)
    {
      ItemDeclared(vars, ty, ds, i);
    }
    forall n, k: nat | Names(vars, n, k)
      ensures Names(after, n, k) && Resolve(env, after, n) == Resolve(env, vars, n)
    {
      NamesStay(vars, ty, ds, n, k);
    }
  }

  lemma OneTree(env: Env, vars: seq<Variable>, d: Item, u: nat)
    ensures |BuildItem(env, vars, d, u)| == if d.init.Some? then 1 else 0
  {
  }

  lemma {:induction false} ItemInOrder(env: Env, vars: seq<Variable>, ty: FinshType, ds: seq<Item>, u: nat, i: nat)
    requires i < |ds| && ds[i].init.Some?
    ensures var ts, before, vars' := BuildItems(env, vars, ty, ds, u), ds[..i], ItemVars(vars, ty, ds[..i + 1]);
      |ts| == Inits(ds) && Inits(before) < |ts|
      && [ts[Inits(before)]] == BuildItem(env, vars', ds[i], u + ItemsSize(before))
    decreases i
  {
    hide Resolve, Build, Size, Entered, ItemSize, BuildItem;
    ItemCount(env, vars, ty, ds, u);
    var vars' := Entered(vars, ty, Id(ds[0].name));
    assert ds[..i + 1][0] == ds[0] && ds[..i + 1][1..] == ds[1..][..i];
    if i == 0 {
      assert ds[..0] == [] && ds[1..][..0] == [];
      OneTree(env, vars', ds[0], u);
      assert ItemVars(vars', ty, []) == vars' && Inits([]) == 0 && ItemsSize([]) == 0;
    } else {
      ItemInOrder(env, vars', ty, ds[1..], u + ItemSize(ds[0]), i - 1);
      ItemCount(env, vars', ty, ds[1..], u + ItemSize(ds[0]));
      assert ds[..i][0] == ds[0] && ds[..i][1..] == ds[1..][..i - 1];
    }
  }

  lemma {:induction false} ItemCount(env: Env, vars: seq<Variable>, ty: FinshType, ds: seq<Item>, u: nat)
    ensures |BuildItems(env, vars, ty, ds, u)| == Inits(ds)
    decreases |ds|
  {
    hide Entered, ItemSize;
    if ds != [] {
      ItemCount(env, Entered(vars, ty, Id(ds[0].name)), ty, ds[1..], u + ItemSize(ds[0]));
    }
  }

  lemma StmtTreeCount(env: Env, vars: seq<Variable>, s: Stmt, u: nat)
    ensures |BuildStmt(env, vars, s, u)| == StmtTrees(s)
  {
    if s.DeclStmt? {
      ItemCount(env, vars, TypeOf(s.ty), s.items, u);
    }
  }

  lemma {:induction false} TakeNew(vars: seq<Variable>, ty: FinshType, ds: seq<Item>, i: nat)
    requires ItemsNew(vars, ty, ds) && i <= |ds|
    ensures ItemsNew(vars, ty, ds[..i]) && ItemsNew(ItemVars(vars, ty, ds[..i]), ty, ds[i..])
    ensures ItemVars(vars, ty, ds) == ItemVars(ItemVars(vars, ty, ds[..i]), ty, ds[i..])
    decreases i
  {
    hide Entered, VarInsert;
    if i == 0 {
      assert ds[0..] == ds;
    } else {
      TakeNew(Entered(vars, ty, Id(ds[0].name)), ty, ds[1..], i - 1);
      assert ds[..i][0] == ds[0] && ds[..i][1..] == ds[1..][..i - 1] && ds[1..][i - 1..] == ds[i..];
    }
  }

  /** The trees of a declaration are as many as there are initialisers, and the one of each assigns it to the
      variable its own name means behind the whole declaration. */
  lemma DeclaredInOrder(env: Env, vars: seq<Variable>, ty: FinshType, ds: seq<Item>, u: nat, i: nat)
    requires ItemsNew(vars, ty, ds) && ty != TUnknown && i < |ds| && ds[i].init.Some?
    ensures var ts, n, e := BuildItems(env, vars, ty, ds, u), u + ItemsSize(ds[..i]), ds[i].init.value;
      var target := NewNode(n + Size(e), KId, 0, Resolve(env, ItemVars(vars, ty, ds), Id(ds[i].name)), Nil);
      && |ts| == Inits(ds) && Inits(ds[..i]) < |ts|
      && target.sym.VarSym? && target.sym.ty == ty
      && ts[Inits(ds[..i])] == NewNode(n + Size(e) + 1, KAssign, 0, NoSymbol,
           Linked(target, Build(env, ItemVars(vars, ty, ds[..i + 1]), e, n)))
  {
    hide VarFind, FreeSlot, VarInsert, Build, Size, ItemsSize, Inits, BuildItems, Entered;
    ItemInOrder(env, vars, ty, ds, u, i);
    DeclaredTypes(env, vars, ty, ds);
    TakeNew(vars, ty, ds, i + 1);
    var vars' := ItemVars(vars, ty, ds[..i + 1]);
    assert ds[..i + 1][i] == ds[i];
    ItemDeclared(vars, ty, ds[..i + 1], i);
    var k: nat :| Names(vars', Id(ds[i].name), k) && k < |vars'| && vars'[k] == Variable(Id(ds[i].name), ty);
    NamesStay(vars', ty, ds[i + 1..], Id(ds[i].name), k);
    assert Resolve(env, vars', Id(ds[i].name)) == Resolve(env, ItemVars(vars, ty, ds), Id(ds[i].name));
  }

  // ----- lines -----

  lemma LineStep(env: Env, ps: Parser, line: Line, f: Forest, p1: Parser)
    requires !ps.replay && Cur(ps) != TokEof && Cur(ps) != TokBad && !IsBaseType(Cur(ps)) && Cur(ps) != TokUnsigned
    requires ParseStatement(env, Replay(ps)) == (f, p1) && f.Node?
    ensures !Next(p1).replay
    ensures ParseLine(env, ps, line) == ParseLine(env, Next(p1), Extend(line, f))
  {
    NextIsRead(p1);
    hide ParseStatement, Next, Extend;
  }

  lemma LineDeclStep(env: Env, ps: Parser, line: Line, f: Forest, p1: Parser)
    requires !ps.replay && (IsBaseType(Cur(ps)) || Cur(ps) == TokUnsigned)
    ensures !Next(p1).replay
    requires ParseDecl(env, Replay(ps)) == (f, p1)
    ensures ParseLine(env, ps, line) == ParseLine(env, Next(p1), Extend(line, f))
  {
    NextIsRead(p1);
    hide ParseDecl, ParseStatement, Next, Extend;
  }

  /** The next statement takes the place of all trees of a declaration but the first. */
  lemma Extended(line: Line, ts: seq<Forest>, rest: Forest, last: bool)
    requires forall f :: f in ts ==> f.Node? && f.next.Nil?
    ensures var more := Extend(line, Chain(ts, Nil));
      Chain(more.trees, if last then more.tail else rest)
        == Chain(line.trees, Chain(Kept(ts, last), if last then Nil else rest))
  {
    if ts != [] {
      assert ts[0] in ts;
      var f, tail := ts[0], Chain(ts[1..], Nil);
      assert Chain(ts, Nil) == Linked(f, tail);
      assert Linked(f, tail).(next := Nil) == f;
      var more := Extend(line, Chain(ts, Nil));
      assert more == Line(line.trees + [f], tail);
      ChainTail(line.trees, f, if last then tail else rest);
      if !last {
        assert Kept(ts, last)[1..] == [];
      }
    }
  }

  /** What a line can end in: nothing, or a token at which the loop stops. */
  ghost predicate Trailing(rest: seq<Tok>) {
    Clean(rest) && (rest != [] ==> rest[0].kind == TokBad)
  }

  /** The main loop stands before the statements `ss`, the first token of which is current. */
  ghost predicate Before(env: Env, ps: Parser, ss: seq<Stmt>, rest: seq<Tok>) {
    && !ps.replay && LineFits(env, ps.vars, ss) && ps.used + LineNodes(ss) <= NODE_MAX && Trailing(rest)
    && var s := LineToks(ss) + rest; if s == [] then Cur(ps) == TokEof else [ps.cur] + ps.rest == s
  }

  lemma LineParts(env: Env, ps: Parser, ss: seq<Stmt>, rest: seq<Tok>, started: bool)
    requires Before(env, ps, ss, rest) && ss != [] && Swallows(ss, started, rest == [])
    ensures var tail := LineToks(ss[1..]) + rest;
      && StmtFits(env, ps.vars, ss[0]) && LineFits(env, VarsAfter(ps.vars, ss[0]), ss[1..]) && Clean(tail)
      && LineNodes(ss) == StmtSize(ss[0]) + LineNodes(ss[1..])
      && Stream(Replay(ps)) == StmtToks(ss[0]) + tail
    ensures !ps.replay && ps.used + LineNodes(ss) <= NODE_MAX
    ensures Replay(ps).vars == ps.vars && Replay(ps).used == ps.used && Replay(ps).err == ps.err
  {
    StmtClean(ss[0]);
    hide StmtToks, StmtFits, VarsAfter, Clean, StmtTrees;
    LineClean(ss[1..], started || StmtTrees(ss[0]) > 0, rest == []);
    CleanAppend(LineToks(ss[1..]), rest);
    Assoc(StmtToks(ss[0]), LineToks(ss[1..]), rest);
  }

  /** What an empty statement swallows is no error. */
  predicate SwallowsClean(s: Stmt) {
    s.EmptyStmt? ==> |s.skipped| <= 1 && forall t :: t in s.skipped ==> t.err == 0
  }

  lemma {:induction false} LineClean(ss: seq<Stmt>, started: bool, atEnd: bool)
    requires Swallows(ss, started, atEnd)
    ensures Clean(LineToks(ss))
    ensures ss != [] ==> LineToks(ss) != []
    decreases |ss|
  {
    if ss != [] {
      StmtClean(ss[0]);
      LineClean(ss[1..], started || StmtTrees(ss[0]) > 0, atEnd);
      hide Clean, StmtToks;
      CleanAppend(StmtToks(ss[0]), LineToks(ss[1..]));
    }
  }

  lemma StmtClean(s: Stmt)
    ensures StmtToks(s) != [] && (SwallowsClean(s) ==> Clean(StmtToks(s)))
  {
    hide Clean, Toks, TypeToks, ItemToks, MoreItems;
    var semi := [Sign(TokSemicolon)];
    CleanOne(semi[0]);
    match s
    case ExprStmt(e) =>
      ToksClean(e);
      CleanAppend(Toks(e), semi);
    case DeclStmt(ty, ds) =>
      TypeClean(ty);
      var items := if ds == [] then [] else ItemToks(ds[0]) + MoreItems(ds[1..]);
      assert Clean(items) by { ItemsClean(ds); }
      CleanAppend(TypeToks(ty), items);
      CleanAppend(TypeToks(ty) + items, semi);
    case EmptyStmt(k) =>
      if SwallowsClean(s) {
        SkippedClean(k);
        CleanAppend(semi, k);
      }
  }

  lemma SkippedClean(k: seq<Tok>)
    requires forall t :: t in k ==> t.err == 0
    ensures Clean(k)
  {
  }

  lemma ItemsClean(ds: seq<Item>)
    ensures Clean(if ds == [] then [] else ItemToks(ds[0]) + MoreItems(ds[1..]))
  {
    if ds == [] {
      assert Clean([]);
    } else {
      MoreClean(ds[1..]);
      ItemClean(ds[0]);
      hide Clean, ItemToks, MoreItems;
      CleanAppend(ItemToks(ds[0]), MoreItems(ds[1..]));
    }
  }

  lemma {:induction false} MoreClean(ds: seq<Item>)
    ensures Clean(MoreItems(ds))
    decreases |ds|
  {
    if ds != [] {
      MoreClean(ds[1..]);
      ItemClean(ds[0]);
      hide Clean, ItemToks;
      CleanOne(Sign(TokComma));
      CleanAppend([Sign(TokComma)], ItemToks(ds[0]));
      CleanAppend([Sign(TokComma)] + ItemToks(ds[0]), MoreItems(ds[1..]));
    }
  }

  /** After a statement the loop stands before the next one. */
  lemma Onwards(env: Env, p1: Parser, ss: seq<Stmt>, rest: seq<Tok>, started: bool)
    requires !p1.replay && p1.rest == LineToks(ss) + rest && Trailing(rest) && Swallows(ss, started, rest == [])
    requires LineFits(env, p1.vars, ss) && p1.used + LineNodes(ss) <= NODE_MAX
    ensures Before(env, Next(p1), ss, rest)
    ensures Next(p1).used == p1.used && Next(p1).vars == p1.vars && Next(p1).err == p1.err
  {
    hide LineFits, StmtToks, Swallows;
    LineClean(ss, started, rest == []);
    var s := LineToks(ss) + rest;
    CleanAppend(LineToks(ss), rest);
    if s != [] {
      hide LineToks, Clean;
      CleanHead(s);
      NextIs(p1, s[0], s[1..]);
    }
  }

  /** What parsing the remaining statements adds to a line. */
  ghost predicate Adds(env: Env, ps: Parser, line: Line, ss: seq<Stmt>)
    requires !ps.replay
  {
    var (l, end) := ParseLine(env, ps, line);
    && Chain(l.trees, l.tail) ==
       Chain(line.trees, if ss == [] then line.tail else BuildLine(env, ps.vars, ss, ps.used))
    && end.err == (if LineNew(ps.vars, ss) then ps.err else ERROR_VARIABLE_EXIST)
    && end.used == ps.used + LineNodes(ss) && end.vars == LineVars(ps.vars, ss)
  }

  /** The parser behind a statement, its last token being the current one. */
  function Behind(ps: Parser, s: Stmt, tail: seq<Tok>): Parser {
    After(if s.DeclStmt? then Declared(ps, TypeOf(s.ty), s.items) else ps,
          if s.EmptyStmt? && s.skipped != [] then s.skipped[0] else Sign(TokSemicolon), tail, ps.used + StmtSize(s))
  }

  lemma StmtExact(env: Env, ps: Parser, line: Line, ss: seq<Stmt>, rest: seq<Tok>)
    requires Before(env, ps, ss, rest) && ss != [] && Swallows(ss, line.trees != [], rest == [])
    ensures var ts := BuildStmt(env, ps.vars, ss[0], ps.used);
      ParseLine(env, ps, line) ==
        ParseLine(env, Next(Behind(ps, ss[0], LineToks(ss[1..]) + rest)), Extend(line, Chain(ts, Nil)))
  {
    hide Before, ParseLine, LineToks, StmtToks, LineFits, Build, Next, Extend, Clean, VarInsert, Swallows, SwallowsAt;
    LineParts(env, ps, ss, rest, line.trees != []);
    SwallowsHere(ss, rest, line.trees != []);
    var s, tail := ss[0], LineToks(ss[1..]) + rest;
    match s
    case ExprStmt(e) => ExprStmtExact(env, ps, line, e, tail);
    case DeclStmt(_, _) => DeclStmtExact(env, ps, line, s, tail);
    case EmptyStmt(_) => EmptyStmtExact(env, ps, line, s, tail);
  }

  /** A token is swallowed if and only if there is a tree already and there is a token. */
  predicate SwallowsAt(s: Stmt, started: bool, tail: seq<Tok>)
    requires s.EmptyStmt?
  {
    if s.skipped == [] then !started || tail == []
    else |s.skipped| == 1 && s.skipped[0].err == 0 && started
  }

  lemma SwallowsHere(ss: seq<Stmt>, rest: seq<Tok>, started: bool)
    requires ss != [] && Swallows(ss, started, rest == [])
    ensures ss[0].EmptyStmt? ==> SwallowsAt(ss[0], started, LineToks(ss[1..]) + rest)
  {
    hide StmtToks;
    if ss[1..] == [] {
      assert LineToks(ss[1..]) + rest == rest;
    }
  }

  lemma EmptyStmtExact(env: Env, ps: Parser, line: Line, s: Stmt, tail: seq<Tok>)
    requires !ps.replay && s.EmptyStmt? && SwallowsAt(s, line.trees != [], tail)
    requires Stream(Replay(ps)) == StmtToks(s) + tail
    ensures ParseLine(env, ps, line) == ParseLine(env, Next(Behind(ps, s, tail)), Extend(line, Chain([], Nil)))
  {
    var k := s.skipped;
    assert StmtToks(s) + tail == [Sign(TokSemicolon)] + (k + tail);
    assert ps.cur == ([ps.cur] + ps.rest)[0] && ps.rest == ([ps.cur] + ps.rest)[1..];
    assert ps.cur == Sign(TokSemicolon) && ps.rest == k + tail;
    assert ParseStatement(env, Replay(ps)) == (Nil, ps);
    if k != [] {
      assert k == [k[0]];
      NextIs(ps, k[0], tail);
      assert Next(ps) == Behind(ps, s, tail);
    } else {
      assert k + tail == tail && Behind(ps, s, tail) == ps;
      if line.trees != [] {
        assert Next(Next(ps)) == Next(ps);
      }
    }
    hide ParseStatement, ParseDecl, Next;
  }

  lemma CurrentIs(ps: Parser, s: seq<Tok>, more: seq<Tok>)
    requires Stream(Replay(ps)) == s + more && s != []
    ensures ps.cur == s[0]
  {
    assert (s + more)[0] == s[0];
  }

  lemma ExprStmtExact(env: Env, ps: Parser, line: Line, e: Term, tail: seq<Tok>)
    requires !ps.replay && StmtFits(env, ps.vars, ExprStmt(e)) && Clean(tail) && ps.used + Size(e) <= NODE_MAX
    requires Stream(Replay(ps)) == StmtToks(ExprStmt(e)) + tail
    ensures ParseLine(env, ps, line) ==
      ParseLine(env, Next(After(ps, Sign(TokSemicolon), tail, ps.used + Size(e))),
                Extend(line, Chain([Build(env, ps.vars, e, ps.used)], Nil)))
  {
    hide ParseLine, ParseStatement, Clean, Toks, Build, Size, Next, Stratified, Known, Ready, Extend, Stream, VarsAfter;
    var more := [Sign(TokSemicolon)] + tail;
    Assoc(Toks(e), [Sign(TokSemicolon)], tail);
    CleanOne(Sign(TokSemicolon));
    CleanAppend([Sign(TokSemicolon)], tail);
    ReadyFor(env, Replay(ps), e, more);
    FirstToken(e);
    CurrentIs(ps, Toks(e), more);
    StatementExact(env, Replay(ps), e, tail);
    LineStep(env, ps, line, Build(env, ps.vars, e, ps.used), After(ps, Sign(TokSemicolon), tail, ps.used + Size(e)));
    ChainOne(Build(env, ps.vars, e, ps.used));
  }

  lemma ChainOne(f: Forest)
    requires f.Node? && f.next.Nil?
    ensures Chain([f], Nil) == f
  {
    assert [f][1..] == [];
  }

  lemma DeclHead(s: Stmt, tail: seq<Tok>)
    requires s.DeclStmt?
    ensures var k := (StmtToks(s) + tail)[0].kind; IsBaseType(k) || k == TokUnsigned
  {
    var k := TypeToks(s.ty)[0].kind;
    assert IsBaseType(k) || k == TokUnsigned;
    hide TypeToks;
    assert (StmtToks(s) + tail)[0] == TypeToks(s.ty)[0];
  }

  lemma DeclStmtExact(env: Env, ps: Parser, line: Line, s: Stmt, tail: seq<Tok>)
    requires !ps.replay && s.DeclStmt? && StmtFits(env, ps.vars, s) && Clean(tail) && ps.used + StmtSize(s) <= NODE_MAX
    requires Stream(Replay(ps)) == StmtToks(s) + tail
    ensures ParseLine(env, ps, line) ==
      ParseLine(env, Next(Behind(ps, s, tail)), Extend(line, Chain(BuildStmt(env, ps.vars, s, ps.used), Nil)))
  {
    hide ParseLine, ParseDecl, Clean, StmtToks, BuildStmt, StmtSize, Next, Extend, Declared, ItemsFit;
    DeclHead(s, tail);
    assert ps.cur == (StmtToks(s) + tail)[0];
    DeclExact(env, Replay(ps), s, tail);
    SameDeclared(ps, TypeOf(s.ty), s.items);
    LineDeclStep(env, ps, line, Chain(BuildStmt(env, ps.vars, s, ps.used), Nil), Behind(ps, s, tail));
  }

  lemma SameDeclared(ps: Parser, ty: FinshType, ds: seq<Item>)
    ensures Declared(Replay(ps), ty, ds) == Replay(Declared(ps, ty, ds))
  {
    hide ItemVars, ItemsNew;
  }

  lemma {:induction false} LineExact(env: Env, ps: Parser, line: Line, ss: seq<Stmt>, rest: seq<Tok>)
    requires Before(env, ps, ss, rest) && Swallows(ss, line.trees != [], rest == [])
    ensures Adds(env, ps, line, ss)
    decreases |ss|
  {
    if ss == [] {
      assert LineToks(ss) + rest == rest;
    } else {
      LineMore(env, ps, line, ss, rest);
    }
  }

  lemma LineCons(env: Env, vars: seq<Variable>, ss: seq<Stmt>, u: nat)
    requires ss != []
    ensures var s, rest := ss[0], ss[1..];
      && BuildLine(env, vars, ss, u) ==
           Chain(Kept(BuildStmt(env, vars, s, u), rest == []),
                 if rest == [] then Nil else BuildLine(env, VarsAfter(vars, s), rest, u + StmtSize(s)))
      && LineVars(vars, ss) == LineVars(VarsAfter(vars, s), rest)
      && LineNodes(ss) == StmtSize(s) + LineNodes(rest)
      && (LineNew(vars, ss) <==>
           (s.DeclStmt? ==> ItemsNew(vars, TypeOf(s.ty), s.items)) && LineNew(VarsAfter(vars, s), rest))
  {
    hide BuildStmt, VarsAfter, StmtSize, ItemsNew, Chain, Kept;
  }

  lemma StartedAfter(env: Env, vars: seq<Variable>, line: Line, ss: seq<Stmt>, u: nat, atEnd: bool)
    requires ss != [] && Swallows(ss, line.trees != [], atEnd)
    ensures Swallows(ss[1..], Extend(line, Chain(BuildStmt(env, vars, ss[0], u), Nil)).trees != [], atEnd)
  {
    StmtTreeCount(env, vars, ss[0], u);
    hide StmtTrees;
    var ts := BuildStmt(env, vars, ss[0], u);
    if ts != [] {
      assert ts[0] in ts && Chain(ts, Nil).Node?;
    }
  }

  /** What the rest adds behind a statement. */
  lemma AddsMore(env: Env, ps: Parser, line: Line, ss: seq<Stmt>, q: Parser)
    requires ss != [] && !ps.replay && !q.replay
    requires var s, ts := ss[0], BuildStmt(env, ps.vars, ss[0], ps.used);
      && ParseLine(env, ps, line) == ParseLine(env, q, Extend(line, Chain(ts, Nil)))
      && Adds(env, q, Extend(line, Chain(ts, Nil)), ss[1..])
      && q.vars == VarsAfter(ps.vars, s) && q.used == ps.used + StmtSize(s)
      && q.err == if s.DeclStmt? && !ItemsNew(ps.vars, TypeOf(s.ty), s.items) then ERROR_VARIABLE_EXIST else ps.err
    ensures Adds(env, ps, line, ss)
  {
    hide ParseLine, VarsAfter, ItemsNew, StmtSize, BuildStmt, Chain, Extend, BuildLine, LineNew, LineVars, LineNodes,
         Kept;
    LineCons(env, ps.vars, ss, ps.used);
    var ts := BuildStmt(env, ps.vars, ss[0], ps.used);
    Extended(line, ts, BuildLine(env, q.vars, ss[1..], q.used), ss[1..] == []);
  }

  lemma {:induction false} LineMore(env: Env, ps: Parser, line: Line, ss: seq<Stmt>, rest: seq<Tok>)
    requires Before(env, ps, ss, rest) && Swallows(ss, line.trees != [], rest == []) && ss != []
    ensures Adds(env, ps, line, ss)
    decreases |ss|, 0
  {
    BeforeRest(env, ps, ss, rest);
    hide Before, ParseLine, LineToks, StmtFits, LineFits, ItemVars, ItemsNew, StmtSize, BuildStmt, Next, Chain, Extend,
         Clean, BuildLine, LineNew, LineVars, LineNodes, Kept, Swallows, Adds, Trailing;
    var s := ss[0];
    var ts := BuildStmt(env, ps.vars, s, ps.used);
    LineParts(env, ps, ss, rest, line.trees != []);
    StmtExact(env, ps, line, ss, rest);
    StartedAfter(env, ps.vars, line, ss, ps.used, rest == []);
    var p1, more := Behind(ps, s, LineToks(ss[1..]) + rest), Extend(line, Chain(ts, Nil));
    Onwards(env, p1, ss[1..], rest, more.trees != []);
    NextIsRead(p1);
    LineExact(env, Next(p1), more, ss[1..], rest);
    AddsMore(env, ps, line, ss, Next(p1));
  }

  lemma BeforeRest(env: Env, ps: Parser, ss: seq<Stmt>, rest: seq<Tok>)
    requires Before(env, ps, ss, rest)
    ensures Trailing(rest)
  {
  }

  /** The tokens are those of the statements, up to a token at which the parser stops if there is one. */
  ghost predicate Reads(line: string, ss: seq<Stmt>) {
    && Good(line)
    && exists rest :: Tokens(Lex(line, 0, false)) == LineToks(ss) + rest && Trailing(rest)
         && Swallows(ss, false, rest == [])
  }

  /** Feeding a text that reads as some statements to lexer and parser gives the statement trees themselves, in
      order and numbered as allocated, and the declared variables are in the table; there is no error if and
      only if all declared names are new. The only condition on size is that the trees fit the pool. */
  lemma LineRead(env: Env, vars: seq<Variable>, ss: seq<Stmt>, line: string)
    requires Reads(line, ss) && LineFits(env, vars, ss) && LineNodes(ss) <= NODE_MAX
    ensures var (f, end) := ParserRun(env, vars, Tokens(Lex(line, 0, false)));
      && f == BuildLine(env, vars, ss, 0) && end.vars == LineVars(vars, ss) && end.used == LineNodes(ss)
      && end.err == if LineNew(vars, ss) then 0 else ERROR_VARIABLE_EXIST
  {
    hide ParseLine, BuildLine, Tokens, LineFits, LineToks, LineNodes, Next, Before, LineNew, Trailing, Swallows, Good;
    var tokens := Tokens(Lex(line, 0, false));
    var rest :| tokens == LineToks(ss) + rest && Trailing(rest) && Swallows(ss, false, rest == []);
    TokensRead(env, vars, ss, rest);
  }

  lemma TokensRead(env: Env, vars: seq<Variable>, ss: seq<Stmt>, rest: seq<Tok>)
    requires LineFits(env, vars, ss) && LineNodes(ss) <= NODE_MAX && Trailing(rest) && Swallows(ss, false, rest == [])
    ensures var (f, end) := ParserRun(env, vars, LineToks(ss) + rest);
      && f == BuildLine(env, vars, ss, 0) && end.vars == LineVars(vars, ss) && end.used == LineNodes(ss)
      && end.err == if LineNew(vars, ss) then 0 else ERROR_VARIABLE_EXIST
  {
    hide ParseLine, LineFits, LineToks, LineNodes, Next, Before, LineNew, Trailing, Swallows;
    var ps := Parser(Tok(TokEof, "", 0, 0), false, LineToks(ss) + rest, 0, 0, vars);
    Onwards(env, ps, ss, rest, false);
    LineExact(env, Next(ps), Line([], Nil), ss, rest);
    assert Chain([], BuildLine(env, vars, ss, 0)) == BuildLine(env, vars, ss, 0);
    NoTrees(env, vars);
  }

  lemma NoTrees(env: Env, vars: seq<Variable>)
    ensures BuildLine(env, vars, [], 0) == Nil && Chain([], Nil) == Nil
  {
  }

  /** Any way of writing the tokens that is read back, with any blanks between them, gives such a text. */
  lemma WordsRead(ss: seq<Stmt>, ws: seq<string>, gs: seq<string>)
    requires IsLineOf(LineToks(ss), ws) && AreGaps(gs, ws) && Swallows(ss, false, true)
    ensures Reads(Spaced(gs, ws), ss)
  {
    hide Tokens, LineToks, IsLineOf, Spaced, Good, Swallows;
    TokensOfSpaced(LineToks(ss), ws, gs);
    assert LineToks(ss) + [] == LineToks(ss) && Trailing([]);
  }

  /** Writing the statements out gives such a text. */
  lemma LineRoundTrip(env: Env, vars: seq<Variable>, ss: seq<Stmt>)
    requires ss != [] && LineFits(env, vars, ss) && LinePlain(ss) && Swallows(ss, false, true)
    ensures AllPrintable(LineToks(ss)) && Reads(Text(LineToks(ss)), ss)
  {
    hide Text, Tokens, LineFits, LineToks, IsLineText, Swallows;
    LinePrintable(env, vars, ss);
    TokensOfText(LineToks(ss));
    assert LineToks(ss) + [] == LineToks(ss) && Trailing([]);
  }

  /** Without empty statements nothing is swallowed. */
  lemma {:induction false} NothingSwallowed(ss: seq<Stmt>, started: bool, atEnd: bool)
    requires forall s :: s in ss ==> !s.EmptyStmt?
    ensures Swallows(ss, started, atEnd)
    decreases |ss|
  {
    hide StmtTrees;
    if ss != [] {
      assert ss[0] in ss;
      NothingSwallowed(ss[1..], started || StmtTrees(ss[0]) > 0, atEnd);
    }
  }
}
