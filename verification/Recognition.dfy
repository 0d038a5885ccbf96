/** What the parser accepts: from a run without an error the statements can be read off the tokens, so that the
    accepted token sequences are exactly the lines of Syntax.dfy whose names are right and whose trees fit. */
module Recognition {
  import Machine
  import opened Limits
  import opened Ast
  import opened Lexer
  import opened Grammar
  import opened Soundness
  import opened Syntax
  import opened RoundTrip
  import opened Rejection

  // ----- tokens as the lexer makes them -----

  predicate IsWordKind(k: TokenKind) {
    k in {TokVoid, TokChar, TokShort, TokInt, TokLong, TokUnsigned}
  }

  function KindWord(k: TokenKind): string {
    match k
    case TokVoid => "void"
    case TokChar => "char"
    case TokShort => "short"
    case TokInt => "int"
    case TokLong => "long"
    case TokUnsigned => "unsigned"
    case _ => ""
  }

  /** A token without an error carries nothing besides what its kind asks for. */
  predicate Shaped(t: Tok) {
    && t.err == 0
    && match t.kind {
      case TokEof => false
      case TokBad => true
      case TokIdentifier | TokValueString => t.value == 0
      case TokValueInt | TokValueLong => t.str == ""
      case TokValueChar => t.str == "" && t.value < 0x100
      case TokValueNull => t.value == 0 && (t.str == "NULL" || t.str == "null")
      case k => t.value == 0 && t.str == if IsWordKind(k) then KindWord(k) else ""
    }
  }

  predicate AllShaped(s: seq<Tok>) {
    forall t :: t in s ==> Shaped(t)
  }

  lemma KeywordShape(w: string)
    ensures var k := Keyword(w);
      && (k == Machine.Some(TokValueNull) ==> w == "NULL" || w == "null")
      && (k.Some? && k.value != TokValueNull ==> IsWordKind(k.value) && w == KindWord(k.value))
  {
  }

  lemma MarkShaped(s: Lex)
    requires InLine(s)
    ensures var t := Operator(s).0; t.err == 0 ==> Shaped(t)
  {
    hide ProcChar, ProcString, ProcNumber, PrevChar, TrimSpace, GetString;
    var (ch, s1) := NextChar(s);
    if SingleKind(ch).None? && ch !in "+-<>" {
      LiteralShaped(ch, s1);
    } else {
      hide Literal;
      assert forall b :: Shaped(Lexer.Symbol(DoubledKind(ch, b)));
    }
  }

  lemma LiteralShaped(ch: char, s1: Lex)
    requires InLine(s1) && (IsDigit(ch) ==> !s1.eof && s1.pos > 0 && s1.line[s1.pos - 1] == ch && ch != '\n')
    ensures var t := Literal(ch, s1).0; t.err == 0 ==> Shaped(t)
  {
    hide ProcChar, ProcString, NextChar, PrevChar, Prefixed, ReadWhile, Decimal;
  }

  /** The lexer makes no others. */
  lemma RunShaped(s: Lex)
    requires InLine(s)
    ensures var t := TokenRun(s).0; t.err == 0 && t.kind != TokEof ==> Shaped(t)
  {
    hide Operator, TrimSpace, GetString, Keyword;
    var s1 := TrimSpace(s);
    var (w, s2) := GetString(s1);
    if !s2.eof && w.Some? {
      MarkShaped(s2);
      KeywordShape(w.value);
    }
  }

  lemma {:induction false} TokensShaped(s: Lex)
    requires InLine(s) && Good(s.line)
    ensures forall t :: t in Tokens(s) && t.err == 0 ==> Shaped(t)
    decreases Left(s), if s.eof then 0 else 1
  {
    hide TokenRun, Shaped, Good;
    RunShaped(s);
    Progress(s);
    var (t, r) := TokenRun(s);
    if t.kind != TokEof {
      TokensShaped(r);
    }
  }

  // ----- parser states -----

  /** The tokens still to be read; the end that is put back is none. */
  function Ahead(ps: Parser): seq<Tok> {
    if ps.replay && Cur(ps) != TokEof then [ps.cur] + ps.rest else ps.rest
  }

  ghost predicate Sane(ps: Parser) {
    AllShaped(Ahead(ps)) && (ps.replay && Cur(ps) == TokEof ==> ps.rest == []) && ps.used <= NODE_MAX
  }

  /** Reading a token, and putting it back. */
  lemma NextSane(ps: Parser)
    requires Sane(ps)
    ensures var p, s := Next(ps), Ahead(ps);
      && Sane(p) && !p.replay && Sane(Replay(p)) && Ahead(Replay(p)) == s
      && p.err == ps.err && p.used == ps.used && p.vars == ps.vars
      && (if s == [] then Cur(p) == TokEof && Ahead(p) == [] else p.cur == s[0] && s == [p.cur] + Ahead(p))
      && (Cur(p) != TokEof <==> s != []) && (s != [] ==> Shaped(p.cur))
  {
    hide Shaped;
    var s := Ahead(ps);
    if s != [] {
      assert Shaped(s[0]);
      assert s[0].err == 0 && s[0].kind != TokEof by { ShapedKind(s[0]); }
      assert s[0] == Next(ps).cur;
      assert forall t :: t in s[1..] ==> t in s;
    }
  }

  lemma ShapedKind(t: Tok)
    requires Shaped(t)
    ensures t.err == 0 && t.kind != TokEof
  {
  }

  /** The token of an operator or a word is known by its kind. */
  lemma SignIs(t: Tok)
    requires Shaped(t)
    ensures t.kind !in {TokBad, TokIdentifier, TokValueString, TokValueInt, TokValueLong, TokValueChar, TokValueNull}
      ==> t == WordTok(t.kind, if IsWordKind(t.kind) then KindWord(t.kind) else "")
  {
  }

  /** The tokens of `xs` have been read. */
  ghost predicate Read(ps: Parser, xs: seq<Tok>, q: Parser) {
    Ahead(ps) == xs + Ahead(q) && Sane(q)
  }

  lemma ReadNone(ps: Parser)
    requires Sane(ps)
    ensures Read(ps, [], Replay(Next(ps)))
  {
    NextSane(ps);
    assert [] + Ahead(ps) == Ahead(ps);
  }

  lemma ReadOne(ps: Parser)
    requires Sane(ps) && Cur(Next(ps)) != TokEof
    ensures Read(ps, [Next(ps).cur], Next(ps)) && Shaped(Next(ps).cur)
  {
    NextSane(ps);
  }

  lemma ReadMore(ps: Parser, xs: seq<Tok>, q: Parser, ys: seq<Tok>, r: Parser)
    requires Read(ps, xs, q) && Read(q, ys, r)
    ensures Read(ps, xs + ys, r)
  {
    Assoc(xs, ys, Ahead(r));
  }

  /** Making a node reads nothing. */
  lemma ReadStays(ps: Parser, xs: seq<Tok>, q: Parser, r: Parser)
    requires Read(ps, xs, q) && r.cur == q.cur && r.replay == q.replay && r.rest == q.rest && r.used <= NODE_MAX
    ensures Read(ps, xs, r)
  {
  }

  lemma SysStays(ps: Parser, kind: Kind, f: Forest, g: Forest)
    requires ps.used <= NODE_MAX
    ensures var r := MakeSys(ps, kind, f, g).1;
      r.cur == ps.cur && r.replay == ps.replay && r.rest == ps.rest && r.used <= NODE_MAX
    ensures ps.err != 0 ==> MakeSys(ps, kind, f, g).1.err != 0
  {
  }

  lemma IdStays(env: Env, ps: Parser, name: string)
    requires ps.used <= NODE_MAX
    ensures var r := NewId(env, ps, name).1;
      r.cur == ps.cur && r.replay == ps.replay && r.rest == ps.rest && r.used <= NODE_MAX
    ensures ps.err != 0 ==> NewId(env, ps, name).1.err != 0
  {
  }

  lemma LeafStays(ps: Parser, kind: Kind, v: Machine.Word)
    requires ps.used <= NODE_MAX
    ensures var r := NewLeaf(ps, kind, v).1;
      r.cur == ps.cur && r.replay == ps.replay && r.rest == ps.rest && r.used <= NODE_MAX
    ensures ps.err != 0 ==> NewLeaf(ps, kind, v).1.err != 0
  {
  }

  // ----- types -----

  lemma PointerIs(ps: Parser, ty: FinshType) returns (star: bool)
    requires Sane(ps)
    ensures Read(ps, if star then [Sign(TokMul)] else [], ParsePointer(ps, ty).1)
    ensures ParsePointer(ps, ty).1.err == ps.err
  {
    hide Read, Sane, Ahead, Shaped, Next;
    NextErr(ps);
    star := Cur(Next(ps)) == TokMul;
    if star {
      ReadOne(ps);
      SignIs(Next(ps).cur);
    } else {
      ReadNone(ps);
    }
  }

  lemma NextErr(ps: Parser)
    requires Sane(ps)
    ensures Next(ps).err == ps.err && Next(ps).used == ps.used
  {
    NextSane(ps);
  }

  lemma BaseIs(t: Tok) returns (b: BaseName)
    requires Shaped(t) && IsBaseType(t.kind)
    ensures t == BaseTok(b) && (b == VoidName <==> t.kind == TokVoid)
  {
    b := match t.kind
      case TokVoid => VoidName
      case TokChar => CharName
      case TokShort => ShortName
      case TokInt => IntName
      case _ => LongName;
  }

  /** A type, read without an error. */
  lemma TypeIs(ps: Parser) returns (n: TypeName)
    requires Sane(ps) && ParseType(ps).1.err == 0
    ensures IsTypeName(n) && Read(ps, TypeToks(n), ParseType(ps).1)
  {
    hide Read, Sane, Ahead, Shaped, Next, BaseType, ParsePointer;
    NextErr(ps);
    var p1 := Next(ps);
    if IsBaseType(Cur(p1)) {
      BaseNotEof(Cur(p1));
      ReadOne(ps);
      ReadSane(ps, [p1.cur], p1);
      var b := BaseIs(p1.cur);
      var star := PointerIs(p1, BaseType(Cur(p1)));
      n := TypeName(false, b, star);
      ReadMore(ps, [p1.cur], p1, if star then [Sign(TokMul)] else [], ParseType(ps).1);
      assert TypeToks(n) == [p1.cur] + if star then [Sign(TokMul)] else [];
    } else {
      assert Cur(p1) == TokUnsigned;
      ReadOne(ps);
      ReadSane(ps, [p1.cur], p1);
      SignIs(p1.cur);
      NextErr(p1);
      var p2 := Next(p1);
      assert Cur(p2) != TokVoid && IsBaseType(Cur(p2)) by { PointerErr(p2); }
      BaseNotEof(Cur(p2));
      ReadOne(p1);
      ReadSane(p1, [p2.cur], p2);
      ReadMore(ps, [p1.cur], p1, [p2.cur], p2);
      var b := BaseIs(p2.cur);
      var star := PointerIs(p2, UnsignedType(BaseType(Cur(p2))));
      n := TypeName(true, b, star);
      ReadMore(ps, [p1.cur] + [p2.cur], p2, if star then [Sign(TokMul)] else [], ParseType(ps).1);
      assert TypeToks(n) == [p1.cur] + [p2.cur] + if star then [Sign(TokMul)] else [];
    }
  }

  lemma PointerErr(p2: Parser)
    ensures ParsePointer(Error(Replay(p2), ERROR_EXPECT_TYPE), TUnknown).1.err != 0
  {
  }

  lemma BaseNotEof(k: TokenKind)
    requires IsBaseType(k)
    ensures k != TokEof && k != TokBad
  {
  }

  lemma ReadSane(ps: Parser, xs: seq<Tok>, q: Parser)
    requires Read(ps, xs, q)
    ensures Sane(q)
  {
  }

  // ----- expressions -----

  /** A term of at least a level has been read. */
  ghost predicate IsTerm(ps: Parser, t: Term, k: nat, q: Parser) {
    Stratified(t) && Level(t) >= k && Read(ps, Toks(t), q)
  }

  lemma TermIs(ps: Parser, t: Term, k: nat, q: Parser)
    requires Stratified(t) && Level(t) >= k && Read(ps, Toks(t), q)
    ensures IsTerm(ps, t, k, q)
  {
  }

  lemma IsTermIs(ps: Parser, t: Term, k: nat, q: Parser)
    requires IsTerm(ps, t, k, q)
    ensures Stratified(t) && Level(t) >= k && Read(ps, Toks(t), q) && Sane(q)
    ensures forall j: nat :: j <= k ==> IsTerm(ps, t, j, q)
  {
  }

  lemma SaneUsed(ps: Parser)
    requires Sane(ps)
    ensures ps.used <= NODE_MAX
  {
  }

  /** Reading the token behind a term and putting it back changes nothing. */
  lemma TermStops(ps: Parser, t: Term, k: nat, q: Parser)
    requires IsTerm(ps, t, k, q)
    ensures IsTerm(ps, t, k, Replay(Next(q))) && Next(q).err == q.err
  {
    NextSane(q);
  }

  lemma {:induction false} AssignIs(env: Env, ps: Parser) returns (t: Term)
    requires Sane(ps) && ParseAssign(env, ps).1.err == 0
    ensures IsTerm(ps, t, 0, ParseAssign(env, ps).1)
    decreases Fuel(ps), 12
  {
    hide IsTerm, Read, Sane, Ahead, Shaped, Next, MakeSys, ParseBin, Toks, Stratified, Fresh, IsOperand;
    SaneUsed(ps);
    BinSound(env, ps, 1);
    var (left, p1) := ParseBin(env, ps, 1);
    var p2 := Next(p1);
    if p1.err != 0 {
      AssignRejects(env, ps);
    }
    var l := BinIs(env, ps, 1);
    IsTermIs(ps, l, 1, p1);
    NextErr(p1);
    if Cur(p2) == TokAssign {
      ReadOne(p1);
      ReadSane(p1, [p2.cur], p2);
      SignIs(p2.cur);
      NextFacts(p1);
      var (right, p3) := ParseAssign(env, p2);
      AssignSound(env, p2);
      SysStays(p3, KAssign, left, right);
      var r := AssignIs(env, p2);
      t := AssignTerm(l, r);
      IsTermIs(p2, r, 0, p3);
      Joined3(ps, Toks(l), p1, p2.cur, p2, Toks(r), p3);
      AssignWritten(l, r);
      ReadStays(ps, Toks(t), p3, ParseAssign(env, ps).1);
      TermIs(ps, t, 0, ParseAssign(env, ps).1);
    } else {
      t := l;
      TermStops(ps, l, 0, p1);
    }
  }

  lemma AssignWritten(l: Term, r: Term)
    requires Stratified(l) && Stratified(r) && Level(l) >= 1
    ensures var t := AssignTerm(l, r);
      Stratified(t) && Level(t) >= 0 && Toks(t) == Toks(l) + [Sign(TokAssign)] + Toks(r)
  {
  }

  lemma Joined3(ps: Parser, xs: seq<Tok>, p1: Parser, c: Tok, p2: Parser, ys: seq<Tok>, p3: Parser)
    requires Read(ps, xs, p1) && Read(p1, [c], p2) && Read(p2, ys, p3)
    ensures Read(ps, xs + [c] + ys, p3)
  {
    ReadMore(ps, xs, p1, [c], p2);
    ReadMore(ps, xs + [c], p2, ys, p3);
  }

  lemma {:induction false} BinIs(env: Env, ps: Parser, k: nat) returns (t: Term)
    requires Sane(ps) && 1 <= k <= CAST_LEVEL && ParseBin(env, ps, k).1.err == 0
    ensures IsTerm(ps, t, k, ParseBin(env, ps, k).1)
    decreases Fuel(ps), 11 - k
  {
    hide IsTerm, Read, Sane, Ahead, BinLoop, ParseCast, Fresh, IsOperand;
    SaneUsed(ps);
    if k == CAST_LEVEL {
      t := CastIs(env, ps);
    } else {
      BinSound(env, ps, k + 1);
      var (left, p1) := ParseBin(env, ps, k + 1);
      if p1.err != 0 {
        LevelFails(env, ps, k);
      }
      var l := BinIs(env, ps, k + 1);
      IsTermIs(ps, l, k + 1, p1);
      t := BinLoopIs(env, p1, k, left, ps, l);
    }
  }

  lemma BinWritten(op: Machine.BinOp, l: Term, r: Term, c: Tok)
    requires Stratified(l) && Stratified(r) && Level(l) >= OpLevel(op) && Level(r) >= OpLevel(op) + 1
    requires Shaped(c) && c.kind == OpToken(op)
    ensures var t := BinTerm(op, l, r);
      Stratified(t) && Level(t) == OpLevel(op) && Toks(t) == Toks(l) + [c] + Toks(r)
  {
    SignIs(c);
  }

  lemma LevelOpIs(k: nat, c: TokenKind)
    requires LevelOp(k, c).Some?
    ensures c == OpToken(LevelOp(k, c).value) && OpLevel(LevelOp(k, c).value) == k && c != TokEof
  {
  }

  /** The loop of a level, `l` having been read since `p0`. */
  lemma {:induction false} BinLoopIs(env: Env, ps: Parser, k: nat, left: Forest, p0: Parser, l: Term)
    returns (t: Term)
    requires 1 <= k < CAST_LEVEL && IsTerm(p0, l, k, ps) && BinLoop(env, ps, k, left).1.err == 0
    ensures IsTerm(p0, t, k, BinLoop(env, ps, k, left).1)
    decreases Fuel(ps), 0
  {
    hide IsTerm, Read, Sane, Ahead, Shaped, Next, MakeSys, ParseBin, Toks, Stratified, Fresh, IsOperand, LevelOp,
         OpToken, OpLevel, Level, BinLoop;
    IsTermIs(p0, l, k, ps);
    SaneUsed(ps);
    NextErr(ps);
    NextFacts(ps);
    var p1 := Next(ps);
    var op := LevelOp(k, Cur(p1));
    if op.None? {
      t := l;
      BinStop(env, ps, k, left);
      TermStops(p0, l, k, ps);
    } else {
      LevelOpIs(k, Cur(p1));
      ReadOne(ps);
      ReadSane(ps, [p1.cur], p1);
      BinSound(env, p1, k + 1);
      var (right, p2) := ParseBin(env, p1, k + 1);
      if p2.err != 0 || p2.used >= NODE_MAX {
        OperatorFails(env, ps, k, left, op.value);
      }
      var r := BinIs(env, p1, k + 1);
      IsTermIs(p1, r, k + 1, p2);
      if right.Nil? {
        BinSkip(env, ps, k, left, p2);
        BinLoopKeeps(env, Error(p2, ERROR_EXPECT_OPERATOR), k, left);
      } else {
        BinStep(env, ps, k, left, op.value, right, p2);
        SysStays(p2, Kind.KBin(op.value), left, right);
        var (node, p3) := MakeSys(p2, Kind.KBin(op.value), left, right);
        var l' := BinTerm(op.value, l, r);
        BinWritten(op.value, l, r, p1.cur);
        Joined3(p0, Toks(l), ps, p1.cur, p1, Toks(r), p2);
        ReadStays(p0, Toks(l'), p2, p3);
        TermIs(p0, l', k, p3);
        t := BinLoopIs(env, p3, k, node, p0, l');
      }
    }
  }

  lemma CastWritten(n: TypeName, e: Term, a: Tok, b: Tok)
    requires IsTypeName(n) && Stratified(e) && Level(e) >= CAST_LEVEL
    requires Shaped(a) && a.kind == TokLeftParen && Shaped(b) && b.kind == TokRightParen
    ensures var t := CastTerm(n, e);
      Stratified(t) && Level(t) >= CAST_LEVEL && Toks(t) == [a] + TypeToks(n) + [b] + Toks(e)
  {
    SignIs(a);
    SignIs(b);
  }

  lemma MatchIs(ps: Parser, k: TokenKind)
    requires Sane(ps) && Match(ps, k).err == 0 && k != TokEof
    ensures Match(ps, k) == Next(ps) && Cur(Next(ps)) == k && ps.err == 0
    ensures Read(ps, [Next(ps).cur], Next(ps)) && Shaped(Next(ps).cur)
  {
    NextSane(ps);
    if Cur(Next(ps)) == k {
      ReadOne(ps);
    }
  }

  lemma {:induction false} CastIs(env: Env, ps: Parser) returns (t: Term)
    requires Sane(ps) && ParseCast(env, ps).1.err == 0
    ensures IsTerm(ps, t, CAST_LEVEL, ParseCast(env, ps).1)
    decreases Fuel(ps), 3
  {
    hide IsTerm, Read, Sane, Ahead, Shaped, Next, ParseUnary, ParseType, Toks, TypeToks, Stratified, Level, Fresh,
         Complete, Match, TypeNumber;
    SaneUsed(ps);
    NextErr(ps);
    NextFacts(ps);
    var p1 := Next(ps);
    if Cur(p1) == TokLeftParen {
      ReadOne(ps);
      ReadSane(ps, [p1.cur], p1);
      ParenIsCast(env, ps);
      TypeOnward(p1);
      var p2 := ParseType(p1).1;
      MatchOnward(p2, TokRightParen);
      var p := Match(p2, TokRightParen);
      CastSound(env, p);
      var (cast, p3) := ParseCast(env, p);
      var n := TypeIs(p1);
      ReadSane(p1, TypeToks(n), p2);
      MatchIs(p2, TokRightParen);
      ReadSane(p2, [p.cur], p);
      MatchFuel(p2, TokRightParen);
      var e := CastIs(env, p);
      IsTermIs(p, e, CAST_LEVEL, p3);
      t := CastTerm(n, e);
      CastWritten(n, e, p1.cur, p.cur);
      ReadMore(ps, [p1.cur], p1, TypeToks(n), p2);
      Joined3(ps, [p1.cur] + TypeToks(n), p2, p.cur, p, Toks(e), p3);
      assert ParseCast(env, ps).1 == p3;
      TermIs(ps, t, CAST_LEVEL, p3);
    } else {
      ReplaySame(ps);
      t := UnaryIs(env, Replay(p1));
      FromReplay(ps, t, CAST_LEVEL, ParseUnary(env, Replay(p1)).1);
    }
  }

  lemma MatchFuel(ps: Parser, k: TokenKind)
    ensures Match(ps, k) == Next(ps) ==> Fuel(Match(ps, k)) <= Fuel(ps)
  {
  }

  lemma ReplaySame(ps: Parser)
    requires Sane(ps)
    ensures var q := Replay(Next(ps));
      Sane(q) && Next(q) == Next(ps) && Replay(Next(q)) == q && Ahead(q) == Ahead(ps) && Fuel(q) <= Fuel(ps)
  {
    NextSane(ps);
  }

  lemma FromReplay(ps: Parser, t: Term, k: nat, q: Parser)
    requires Sane(ps) && IsTerm(Replay(Next(ps)), t, k, q)
    ensures IsTerm(ps, t, k, q)
  {
    NextSane(ps);
  }

  lemma UnaryWritten(u: Unary, e: Term, c: Tok)
    requires Stratified(e) && Level(e) >= CAST_LEVEL && Shaped(c) && c.kind == UnaryToken(u)
    ensures var t := UnaryTerm(u, e);
      Stratified(t) && Level(t) >= CAST_LEVEL && Toks(t) == [c] + Toks(e)
  {
    SignIs(c);
  }

  /** Which operator a token is in front of an operand. */
  function UnaryOf(c: TokenKind): Unary {
    match c
    case TokSub => Minus
    case TokInc => PreUp
    case TokDec => PreDown
    case TokBitwise => Complement
    case TokMul => Contents
    case TokAnd => AddressOf
    case _ => Plus
  }

  lemma UnaryOfIs(c: TokenKind)
    requires c == TokAdd || c == TokSub || UnaryKind(c).Some?
    ensures UnaryToken(UnaryOf(c)) == c && c != TokEof
  {
  }

  lemma ResultStays(ps: Parser, u: Unary, f: Forest)
    requires ps.used <= NODE_MAX
    ensures var r := UnaryResult(ps, u, f).1;
      r.cur == ps.cur && r.replay == ps.replay && r.rest == ps.rest && r.used <= NODE_MAX
    ensures ps.err != 0 ==> UnaryResult(ps, u, f).1.err != 0
  {
  }

  lemma {:induction false} UnaryIs(env: Env, ps: Parser) returns (t: Term)
    requires Sane(ps) && Cur(Next(ps)) != TokLeftParen && ParseUnary(env, ps).1.err == 0
    ensures IsTerm(ps, t, CAST_LEVEL, ParseUnary(env, ps).1)
    decreases Fuel(ps), 2
  {
    hide IsTerm, Read, Sane, Ahead, Shaped, Next, ParseCast, ParsePostfix, ParseUnary, Toks, Stratified, Level, Fresh,
         IsOperand, UnaryResult, UnaryToken, UnaryOf, UnaryKind;
    SaneUsed(ps);
    NextErr(ps);
    NextFacts(ps);
    var p1 := Next(ps);
    if Cur(p1) == TokAdd || Cur(p1) == TokSub || UnaryKind(Cur(p1)).Some? {
      var u := UnaryOf(Cur(p1));
      UnaryOfIs(Cur(p1));
      ReadOne(ps);
      ReadSane(ps, [p1.cur], p1);
      CastSound(env, p1);
      var (f, p2) := ParseCast(env, p1);
      UnaryStep(env, ps, u, f, p2);
      ResultStays(p2, u, f);
      var e := CastIs(env, p1);
      IsTermIs(p1, e, CAST_LEVEL, p2);
      t := UnaryTerm(u, e);
      UnaryWritten(u, e, p1.cur);
      ReadMore(ps, [p1.cur], p1, Toks(e), p2);
      ReadStays(ps, Toks(t), p2, ParseUnary(env, ps).1);
      TermIs(ps, t, CAST_LEVEL, ParseUnary(env, ps).1);
    } else {
      ReplaySame(ps);
      UnaryStop(env, ps);
      t := PostfixIs(env, Replay(p1));
      FromReplay(ps, t, POST_LEVEL, ParsePostfix(env, Replay(p1)).1);
      IsTermIs(ps, t, POST_LEVEL, ParsePostfix(env, Replay(p1)).1);
    }
  }

  lemma {:induction false} PostfixIs(env: Env, ps: Parser) returns (t: Term)
    requires Sane(ps) && Cur(Next(ps)) != TokLeftParen && ParsePostfix(env, ps).1.err == 0
    ensures IsTerm(ps, t, POST_LEVEL, ParsePostfix(env, ps).1)
    decreases Fuel(ps), 1
  {
    hide IsTerm, Read, Sane, Ahead, Shaped, Next, ParsePrimary, PostLoop, Fresh, IsOperand;
    SaneUsed(ps);
    PrimarySound(env, ps);
    var (f, p1) := ParsePrimary(env, ps);
    if p1.err != 0 {
      PostLoopKeeps(env, p1, f);
    }
    var l := PrimaryIs(env, ps);
    t := PostLoopIs(env, p1, f, ps, l);
  }

  lemma LeafWritten(t: Term, c: Tok)
    requires t.CharTerm? || t.IntTerm? || t.LongTerm? || t.StringTerm? || t.NullTerm? || t.NameTerm?
    requires Toks(t) == [c]
    ensures Stratified(t) && Level(t) == POST_LEVEL
  {
  }

  /** The term a token is. */
  function LeafOf(c: Tok): Term
    requires Shaped(c)
  {
    match c.kind
    case TokValueInt => IntTerm(c.value)
    case TokValueLong => LongTerm(c.value)
    case TokValueChar => CharTerm(c.value)
    case TokValueString => StringTerm(c.str)
    case TokValueNull => NullTerm(c.str == "null")
    case _ => NameTerm(c.str)
  }

  lemma LeafOfIs(c: Tok)
    requires Shaped(c)
    requires c.kind in {TokIdentifier, TokValueInt, TokValueLong, TokValueChar, TokValueString, TokValueNull}
    ensures var t := LeafOf(c);
      && (t.CharTerm? || t.IntTerm? || t.LongTerm? || t.StringTerm? || t.NullTerm? || t.NameTerm?)
      && Toks(t) == [c]
  {
  }

  lemma PrimaryStays(env: Env, ps: Parser)
    requires Cur(Next(ps)) != TokLeftParen && ParsePrimary(env, ps).1.err == 0 && Next(ps).used <= NODE_MAX
    requires !Next(ps).replay
    ensures var c := Cur(Next(ps)); c in {TokIdentifier, TokValueInt, TokValueLong, TokValueChar, TokValueString,
      TokValueNull}
    ensures var r := ParsePrimary(env, ps).1;
      r.cur == Next(ps).cur && r.replay == Next(ps).replay && r.rest == Next(ps).rest && r.used <= NODE_MAX
  {
    hide Next, ParseAssign, NewId, NewLeaf, ParseIdentifier;
    var p1 := Next(ps);
    match Cur(p1)
    case TokIdentifier =>
      IdentifierStays(p1);
      IdStays(env, ParseIdentifier(Replay(p1)).1, ParseIdentifier(Replay(p1)).0);
    case TokValueInt => LeafStays(p1, KInt, p1.cur.value);
    case TokValueLong => LeafStays(p1, KLong, p1.cur.value);
    case TokValueChar => LeafStays(p1, KChar, p1.cur.value);
    case TokValueString => LeafStays(p1, KString, env.stringAt(p1.used, CString(p1.cur.str)));
    case TokValueNull => LeafStays(p1, KNull, 0);
    case _ =>
  }

  lemma IdentifierStays(p1: Parser)
    requires !p1.replay && Cur(p1) == TokIdentifier
    ensures ParseIdentifier(Replay(p1)).1 == p1
  {
    hide CName;
  }

  lemma {:induction false} PrimaryIs(env: Env, ps: Parser) returns (t: Term)
    requires Sane(ps) && Cur(Next(ps)) != TokLeftParen && ParsePrimary(env, ps).1.err == 0
    ensures IsTerm(ps, t, POST_LEVEL, ParsePrimary(env, ps).1)
  {
    hide IsTerm, Read, Sane, Ahead, Shaped, Next, ParsePrimary, Toks, Stratified, Level, LeafOf;
    SaneUsed(ps);
    NextErr(ps);
    NextNotReplay(ps);
    PrimaryStays(env, ps);
    var c := Next(ps).cur;
    ReadOne(ps);
    t := LeafOf(c);
    LeafOfIs(c);
    LeafWritten(t, c);
    ReadStays(ps, Toks(t), Next(ps), ParsePrimary(env, ps).1);
    TermIs(ps, t, POST_LEVEL, ParsePrimary(env, ps).1);
  }

  lemma PostWritten(down: bool, e: Term, c: Tok)
    requires Stratified(e) && Level(e) >= POST_LEVEL && Shaped(c) && c.kind == if down then TokDec else TokInc
    ensures var t := PostTerm(down, e);
      Stratified(t) && Level(t) >= POST_LEVEL && Toks(t) == Toks(e) + [c]
  {
    SignIs(c);
  }

  lemma CallWritten(f: Term, args: Terms, c: Tok)
    requires Stratified(f) && Level(f) >= POST_LEVEL && AllStratified(args) && Shaped(c) && c.kind == TokLeftParen
    ensures var t := CallTerm(f, args);
      && Stratified(t) && Level(t) >= POST_LEVEL
      && Toks(t) == Toks(f) + [c] + (ArgToks(args) + [Sign(TokRightParen)])
  {
    SignIs(c);
    Assoc(Toks(f) + [c], ArgToks(args), [Sign(TokRightParen)]);
  }

  /** The postfix loop, `l` having been read since `p0`. */
  lemma {:induction false} PostLoopIs(env: Env, ps: Parser, f: Forest, p0: Parser, l: Term) returns (t: Term)
    requires IsTerm(p0, l, POST_LEVEL, ps) && PostLoop(env, ps, f).1.err == 0
    ensures IsTerm(p0, t, POST_LEVEL, PostLoop(env, ps, f).1)
    decreases Fuel(ps), 0
  {
    hide IsTerm, Read, Sane, Ahead, Shaped, Next, MakeSys, ParseParens, Toks, ArgToks, Stratified, AllStratified, Level,
         PostLoop, Fresh, Complete;
    IsTermIs(p0, l, POST_LEVEL, ps);
    SaneUsed(ps);
    NextErr(ps);
    NextFacts(ps);
    var p1 := Next(ps);
    if Cur(p1) == TokInc || Cur(p1) == TokDec {
      var down := Cur(p1) == TokDec;
      var kind := if down then KDec else KInc;
      ReadOne(ps);
      PostStep(env, ps, f, down);
      SysStays(p1, kind, f, Nil);
      var (node, p2) := MakeSys(p1, kind, f, Nil);
      if p2.err != 0 {
        PostLoopKeeps(env, p2, node);
      }
      var l' := PostTerm(down, l);
      PostWritten(down, l, p1.cur);
      ReadMore(p0, Toks(l), ps, [p1.cur], p1);
      ReadStays(p0, Toks(l'), p1, p2);
      TermIs(p0, l', POST_LEVEL, p2);
      t := PostLoopIs(env, p2, node, p0, l');
    } else if Cur(p1) == TokLeftParen {
      ReadOne(ps);
      ReadSane(ps, [p1.cur], p1);
      ParensSound(env, p1);
      var (params, p2) := ParseParens(env, p1);
      CallStep(env, ps, f, params, p2);
      SysStays(p2, KFunc, f, params);
      var (node, p3) := MakeSys(p2, KFunc, f, params);
      if p3.err != 0 {
        PostLoopKeeps(env, p3, node);
      }
      var a := ParensIs(env, p1);
      var l' := CallTerm(l, a);
      CallWritten(l, a, p1.cur);
      Joined3(p0, Toks(l), ps, p1.cur, p1, ArgToks(a) + [Sign(TokRightParen)], p2);
      ReadStays(p0, Toks(l'), p2, p3);
      TermIs(p0, l', POST_LEVEL, p3);
      t := PostLoopIs(env, p3, node, p0, l');
    } else {
      PostStop(env, ps, f);
      t := l;
      TermStops(p0, l, POST_LEVEL, ps);
    }
  }

  // ----- arguments -----

  lemma ParamsErr(env: Env, ps: Parser)
    requires ps.used <= NODE_MAX && ParseParams(env, ps).1.err == 0
    ensures var (first, p1) := ParseAssign(env, ps);
      && first.Node? && p1.err == 0 && p1.used <= NODE_MAX && Fuel(p1) <= Fuel(ps)
      && ParseParams(env, ps).1 == ParamLoop(env, p1).1
  {
    hide ParseAssign, ParamLoop, Fresh, Complete;
    AssignSound(env, ps);
    var (first, p1) := ParseAssign(env, ps);
    ParamLoopSound(env, p1);
  }

  lemma {:induction false} ParensIs(env: Env, ps: Parser) returns (a: Terms)
    requires Sane(ps) && ParseParens(env, ps).1.err == 0
    ensures AllStratified(a) && Read(ps, ArgToks(a) + [Sign(TokRightParen)], ParseParens(env, ps).1)
    decreases Fuel(ps), 14
  {
    hide IsTerm, Read, Sane, Ahead, Shaped, Next, ParseParams, Toks, ArgToks, MoreToks, Stratified, ParseAssign,
         ParamLoop, Match;
    SaneUsed(ps);
    NextErr(ps);
    NextFacts(ps);
    var p1 := Next(ps);
    if Cur(p1) == TokRightParen {
      ReadOne(ps);
      SignIs(p1.cur);
      a := NoTerms;
      NoArgs();
      assert [] + [p1.cur] == [p1.cur];
    } else {
      ReplaySame(ps);
      var q := Replay(p1);
      SaneUsed(q);
      var p2 := ParseParams(env, q).1;
      ParamsSound(env, q);
      MatchOnward(p2, TokRightParen);
      ParamsErr(env, q);
      var (first, p3) := ParseAssign(env, q);
      var e := AssignIs(env, q);
      IsTermIs(q, e, 0, p3);
      var more := ParamLoopIs(env, p3);
      a := MoreTerms(e, more);
      ReadSane(p3, MoreToks(more), p2);
      MatchIs(p2, TokRightParen);
      SignIs(Next(p2).cur);
      ReadMore(q, Toks(e), p3, MoreToks(more), p2);
      ReadMore(q, Toks(e) + MoreToks(more), p2, [Next(p2).cur], Next(p2));
      ArgsWritten(e, more);
      SameAhead(ps, q, ArgToks(a) + [Sign(TokRightParen)], Next(p2));
    }
  }

  lemma NoArgs()
    ensures ArgToks(NoTerms) == [] && MoreToks(NoTerms) == []
  {
  }

  lemma ArgsWritten(e: Term, more: Terms)
    ensures ArgToks(MoreTerms(e, more)) == Toks(e) + MoreToks(more)
    ensures MoreToks(MoreTerms(e, more)) == [Sign(TokComma)] + Toks(e) + MoreToks(more)
  {
  }

  lemma SameAhead(ps: Parser, q: Parser, xs: seq<Tok>, r: Parser)
    requires Ahead(q) == Ahead(ps) && Read(q, xs, r)
    ensures Read(ps, xs, r)
  {
  }

  lemma {:induction false} ParamLoopIs(env: Env, ps: Parser) returns (a: Terms)
    requires Sane(ps) && ParamLoop(env, ps).1.err == 0
    ensures AllStratified(a) && Read(ps, MoreToks(a), ParamLoop(env, ps).1)
    decreases Fuel(ps), 0
  {
    hide IsTerm, Read, Sane, Ahead, Shaped, Next, Toks, ArgToks, MoreToks, Stratified, ParseAssign, ParamLoop,
         Fresh, Complete;
    SaneUsed(ps);
    NextErr(ps);
    NextFacts(ps);
    var p1 := Next(ps);
    if Cur(p1) != TokComma {
      ParamStop(env, ps);
      ReadNone(ps);
      a := NoTerms;
      NoArgs();
    } else {
      ReadOne(ps);
      ReadSane(ps, [p1.cur], p1);
      SignIs(p1.cur);
      AssignSound(env, p1);
      var (e, p2) := ParseAssign(env, p1);
      if p2.err != 0 {
        ParamRejects(env, ps);
      }
      var t := AssignIs(env, p1);
      IsTermIs(p1, t, 0, p2);
      var (rest, p3) := ParamLoop(env, p2);
      ParamStep(env, ps, e, p2, rest, p3);
      var more := ParamLoopIs(env, p2);
      a := MoreTerms(t, more);
      ReadMore(ps, [p1.cur], p1, Toks(t), p2);
      ReadMore(ps, [p1.cur] + Toks(t), p2, MoreToks(more), p3);
      ArgsWritten(t, more);
    }
  }

  // ----- declarations -----

  lemma IdentifierIs(ps: Parser)
    requires Sane(ps) && ParseIdentifier(ps).1.err == 0
    ensures var (id, p1) := ParseIdentifier(ps);
      && p1 == Next(ps) && Shaped(p1.cur) && p1.cur == WordTok(TokIdentifier, p1.cur.str) && Read(ps, [p1.cur], p1)
      && ps.err == 0
  {
    hide CName;
    MatchIs(ps, TokIdentifier);
  }

  lemma DeclareStays(ps: Parser, id: string, ty: FinshType)
    requires Sane(ps)
    ensures var q := Declare(ps, id, ty); Sane(q) && Ahead(q) == Ahead(ps) && (ps.err != 0 ==> q.err != 0)
  {
    hide VarInsert;
  }

  lemma InitialiserParts(env: Env, ps: Parser, id: string, trees: seq<Forest>)
    requires Initialiser(env, ps, id, trees).1.err == 0 && ps.used <= NODE_MAX
    ensures var (right, p1) := ParseAssign(env, ps);
      && right.Node? && p1.err == 0 && p1.used <= NODE_MAX
      && var (left, p2) := NewId(env, p1, id);
         var (node, p3) := MakeSys(p2, KAssign, left, right);
         node.Node? && Initialiser(env, ps, id, trees) == (trees + [node], Next(p3), Cur(Next(p3)))
  {
    hide ParseAssign, Next, Fresh, Complete, NewId;
    AssignSound(env, ps);
    var (right, p1) := ParseAssign(env, ps);
    if right.Node? {
      IdStays(env, p1, id);
      var (left, p2) := NewId(env, p1, id);
      var (node, p3) := MakeSys(p2, KAssign, left, right);
      NextFacts(p3);
    }
  }

  /** An item, read up to the token behind it. */
  lemma ItemIs(env: Env, ps: Parser, ty: FinshType, trees: seq<Forest>) returns (d: Item)
    requires Sane(ps) && AreTrees(trees)
    requires var r := Declarator(env, ps, ty, trees); r.1.err == 0 && EndsItem(r.2)
    ensures var (more, p1, token) := Declarator(env, ps, ty, trees);
      && ItemWritten(d) && token == Cur(p1) && !p1.replay && AreTrees(more) && |more| == |trees| + Inits([d])
      && Read(ps, ItemToks(d) + [Sign(token)], p1)
  {
    hide IsTerm, Read, Sane, Ahead, Shaped, Next, Toks, Stratified, ParseAssign, ParseIdentifier, Declare,
         Initialiser, NewId, MakeSys, VarInsert;
    SaneUsed(ps);
    var (id, p1) := ParseIdentifier(ps);
    NamedOnward(ps, id, p1, ty);
    var p := Declare(p1, id, ty);
    var p2 := Next(p);
    if p2.err != 0 {
      InitialiserOnward(env, p2, id, trees);
    }
    NamedErr(ps, id, p1, ty);
    IdentifierIs(ps);
    ReadSane(ps, [p1.cur], p1);
    DeclareStays(p1, id, ty);
    NextErr(p);
    SameRead(ps, [p1.cur], p1, p);
    NextNotReplay(p);
    if Cur(p2) == TokAssign {
      ReadOne(p);
      ReadSane(p, [p2.cur], p2);
      SignIs(p2.cur);
      InitialiserParts(env, p2, id, trees);
      var (right, p3) := ParseAssign(env, p2);
      var e := AssignIs(env, p2);
      IsTermIs(p2, e, 0, p3);
      IdStays(env, p3, id);
      var (left, p4) := NewId(env, p3, id);
      SysStays(p4, KAssign, left, right);
      var p5 := MakeSys(p4, KAssign, left, right).1;
      ReadStays(p2, Toks(e), p3, p5);
      ReadSane(p2, Toks(e), p5);
      ReadOne(p5);
      SignIs(Next(p5).cur);
      NextNotReplay(p5);
      d := Item(p1.cur.str, Machine.Some(e));
      Joined3(ps, [p1.cur], p, p2.cur, p2, Toks(e), p5);
      ReadMore(ps, [p1.cur] + [p2.cur] + Toks(e), p5, [Next(p5).cur], Next(p5));
      Assoc([p1.cur], [p2.cur], Toks(e));
      OneInit(d);
    } else {
      ReadOne(p);
      SignIs(p2.cur);
      d := Item(p1.cur.str, Machine.None);
      ReadMore(ps, [p1.cur], p, [p2.cur], p2);
      assert ItemToks(d) == [p1.cur];
      OneInit(d);
    }
  }

  lemma OneInit(d: Item)
    ensures Inits([d]) == if d.init.Some? then 1 else 0
  {
    assert [d][1..] == [] && Inits([]) == 0;
  }

  lemma NamedErr(ps: Parser, id: string, p1: Parser, ty: FinshType)
    requires ParseIdentifier(ps) == (id, p1) && Next(Declare(p1, id, ty)).err == 0
    ensures p1.err == 0
  {
    hide CName, VarInsert;
  }

  lemma NextNotReplay(ps: Parser)
    ensures !Next(ps).replay
  {
  }

  lemma SameRead(ps: Parser, xs: seq<Tok>, q: Parser, r: Parser)
    requires Read(ps, xs, q) && Sane(r) && Ahead(r) == Ahead(q)
    ensures Read(ps, xs, r)
  {
  }

  /** All items of a declaration from one on, and the semicolon. */
  lemma {:induction false} ItemsAre(env: Env, ps: Parser, ty: FinshType, trees: seq<Forest>) returns (ds: seq<Item>)
    requires Sane(ps) && AreTrees(trees) && DeclLoop(env, ps, ty, TokComma, trees).1.err == 0
    ensures var (more, q) := DeclLoop(env, ps, ty, TokComma, trees);
      && ds != [] && (forall d :: d in ds ==> ItemWritten(d)) && !q.replay
      && AreTrees(more) && |more| == |trees| + Inits(ds)
      && Read(ps, ItemToks(ds[0]) + MoreItems(ds[1..]) + [Sign(TokSemicolon)], q)
    decreases Fuel(ps)
  {
    hide Read, Sane, Ahead, Shaped, Declarator, DeclLoop, ItemToks, ItemWritten, Inits, AreTrees;
    SaneUsed(ps);
    DeclLoopTurn(env, ps, ty, trees);
    DeclaratorOnward(env, ps, ty, trees);
    var (trees', p1, token) := Declarator(env, ps, ty, trees);
    if p1.err != 0 {
      DeclLoopKeeps(env, p1, ty, token, trees');
    }
    if token == TokComma {
      DeclaratorFuel(env, ps, ty, trees);
      var d := ItemIs(env, ps, ty, trees);
      ReadSane(ps, ItemToks(d) + [Sign(token)], p1);
      var ds' := ItemsAre(env, p1, ty, trees');
      ds := [d] + ds';
      var (more, q) := DeclLoop(env, ps, ty, TokComma, trees);
      ReadMore(ps, ItemToks(d) + [Sign(token)], p1, ItemToks(ds'[0]) + MoreItems(ds'[1..]) + [Sign(TokSemicolon)], q);
      ItemsWritten(d, ds');
    } else {
      DeclLoopStop(env, p1, ty, token, trees');
      StopIs(p1, token);
      var d := ItemIs(env, ps, ty, trees);
      ds := [d];
      NoMoreItems(d);
    }
  }

  lemma DeclaratorFuel(env: Env, ps: Parser, ty: FinshType, trees: seq<Forest>)
    requires Declarator(env, ps, ty, trees).2 == TokComma
    ensures Fuel(Declarator(env, ps, ty, trees).1) < Fuel(ps)
  {
    hide Declarator;
  }

  lemma StopIs(ps: Parser, token: TokenKind)
    requires Check(ps, token, TokSemicolon).err == 0
    ensures token == TokSemicolon && Check(ps, token, TokSemicolon) == ps
  {
  }

  lemma NoMoreItems(d: Item)
    ensures var ds := [d];
      ItemToks(ds[0]) + MoreItems(ds[1..]) + [Sign(TokSemicolon)] == ItemToks(d) + [Sign(TokSemicolon)]
  {
    hide ItemToks;
    assert [d][1..] == [] && MoreItems([]) == [] && ItemToks(d) + [] == ItemToks(d);
  }

  lemma ItemsWritten(d: Item, ds: seq<Item>)
    requires ds != []
    ensures var all := [d] + ds;
      && all[0] == d && Inits(all) == Inits([d]) + Inits(ds)
      && ItemToks(d) + [Sign(TokComma)] + (ItemToks(ds[0]) + MoreItems(ds[1..]) + [Sign(TokSemicolon)])
         == ItemToks(all[0]) + MoreItems(all[1..]) + [Sign(TokSemicolon)]
  {
    hide ItemToks;
    var all := [d] + ds;
    assert all[1..] == ds;
    OneInit(d);
    var a, c, b, m, e := ItemToks(d), [Sign(TokComma)], ItemToks(ds[0]), MoreItems(ds[1..]), [Sign(TokSemicolon)];
    assert MoreItems(ds) == c + b + m;
    assert (a + c) + (b + m + e) == a + (c + b + m) + e;
  }

  lemma DeclParts(env: Env, ps: Parser)
    requires ParseDecl(env, ps).1.err == 0 && ps.used <= NODE_MAX
    ensures var (ty, p1) := ParseType(ps);
      && p1.err == 0 && p1.used == ps.used
      && ParseDecl(env, ps) ==
        var (trees, p2) := DeclLoop(env, p1, ty, TokComma, []); (Chain(trees, Nil), p2)
  {
    hide ParseType, ParseIdentifier, Declare, Next, Initialiser, DeclLoop;
    var (ty, p1) := ParseType(ps);
    TypeOnward(ps);
    var (id, p) := ParseIdentifier(p1);
    NextNotReplay(Declare(p, id, ty));
    DeclAsLoop(env, ps, ty, p1);
    if p1.err != 0 {
      DeclLoopKeeps(env, p1, ty, TokComma, []);
    }
  }

  /** A declaration, read without an error. */
  lemma DeclIs(env: Env, ps: Parser) returns (s: Stmt)
    requires Sane(ps) && ParseDecl(env, ps).1.err == 0
    ensures var (f, q) := ParseDecl(env, ps);
      s.DeclStmt? && Written(s) && Read(ps, StmtToks(s), q) && !q.replay && (f.Node? <==> StmtTrees(s) > 0)
  {
    hide Read, Sane, Ahead, Shaped, ParseDecl, ParseType, DeclLoop, TypeToks, ItemToks, MoreItems, ItemWritten, Inits;
    SaneUsed(ps);
    DeclParts(env, ps);
    var (ty, p1) := ParseType(ps);
    var n := TypeIs(ps);
    ReadSane(ps, TypeToks(n), p1);
    var ds := ItemsAre(env, p1, ty, []);
    s := DeclStmt(n, ds);
    var (trees, q) := DeclLoop(env, p1, ty, TokComma, []);
    var items := ItemToks(ds[0]) + MoreItems(ds[1..]);
    ReadMore(ps, TypeToks(n), p1, items + [Sign(TokSemicolon)], q);
    Assoc(TypeToks(n), items, [Sign(TokSemicolon)]);
    ChainNode(trees);
  }

  lemma ChainNode(trees: seq<Forest>)
    requires AreTrees(trees)
    ensures Chain(trees, Nil).Node? <==> |trees| > 0
  {
    if trees != [] {
      assert trees[0] in trees;
    }
  }

  // ----- lines -----

  /** A statement, read without an error. */
  lemma StatementIs(env: Env, ps: Parser) returns (e: Term)
    requires Sane(ps) && ParseStatement(env, ps).1.err == 0 && Cur(Next(ps)) != TokSemicolon
    ensures var (f, q) := ParseStatement(env, ps);
      Stratified(e) && Read(ps, Toks(e) + [Sign(TokSemicolon)], q) && !q.replay && f.Node?
  {
    hide IsTerm, Read, Sane, Ahead, Shaped, Next, Toks, Stratified, ParseAssign, Match, Fresh, Complete;
    SaneUsed(ps);
    ReplaySame(ps);
    var p := Replay(Next(ps));
    SaneUsed(p);
    AssignSound(env, p);
    var (f, p2) := ParseAssign(env, p);
    MatchOnward(p2, TokSemicolon);
    e := AssignIs(env, p);
    IsTermIs(p, e, 0, p2);
    MatchIs(p2, TokSemicolon);
    SignIs(Next(p2).cur);
    NextNotReplay(p2);
    ReadMore(p, Toks(e), p2, [Next(p2).cur], Next(p2));
    SameAhead(ps, p, Toks(e) + [Sign(TokSemicolon)], Next(p2));
  }

  /** The statements and what is left, seen from a token that is current. */
  ghost predicate LineIs(ps: Parser, started: bool, ss: seq<Stmt>, rest: seq<Tok>) {
    && Ahead(Replay(ps)) == LineToks(ss) + rest && Trailing(rest) && Swallows(ss, started, rest == [])
    && forall s :: s in ss ==> Written(s)
  }

  lemma LineNothing(ps: Parser, started: bool)
    requires Sane(Replay(ps)) && (Cur(ps) == TokEof || Cur(ps) == TokBad)
    ensures LineIs(ps, started, [], Ahead(Replay(ps)))
  {
    var s := Ahead(Replay(ps));
    assert [] + s == s;
    forall t | t in s ensures t.err == 0 {
      assert Shaped(t);
    }
  }

  /** A statement in front of the others. */
  lemma LineFront(ps: Parser, started: bool, s: Stmt, q: Parser, p1: Parser, ss: seq<Stmt>, rest: seq<Tok>)
    requires Read(Replay(ps), StmtToks(s), q) && Ahead(Replay(p1)) == Ahead(q) && Written(s)
    requires LineIs(p1, started || StmtTrees(s) > 0, ss, rest)
    requires s.EmptyStmt? ==>
      if started then |s.skipped| == 1 && s.skipped[0].err == 0 else s.skipped == []
    ensures LineIs(ps, started, [s] + ss, rest)
  {
    hide Written, StmtToks, StmtTrees;
    var all := [s] + ss;
    assert all[1..] == ss && all[0] == s;
    Assoc(StmtToks(s), LineToks(ss), rest);
  }

  lemma TurnParts(env: Env, ps: Parser, line: Line)
    requires !ps.replay && ps.used <= NODE_MAX && Cur(ps) != TokEof && Cur(ps) != TokBad
    requires ParseLine(env, ps, line).1.err == 0
    ensures var started := line.trees != [];
      var (f, p1) := LineTurn(env, ps, started);
      && !p1.replay && p1.err == 0 && p1.used <= NODE_MAX
      && ParseLine(env, ps, line) == ParseLine(env, p1, Extend(line, f))
      && (Fuel(p1) < Fuel(ps) || (Fuel(p1) <= Fuel(ps) && Cur(p1) == TokEof))
  {
    hide LineTurn, Extend, Fresh, Complete;
    var started := line.trees != [];
    TurnSound(env, ps, started);
    TurnReads(env, ps, started);
    ParseLineStep(env, ps, line);
    if LineTurn(env, ps, started).1.err != 0 {
      LineRejects(env, ps, line);
    }
  }

  lemma StartedIs(line: Line, f: Forest)
    ensures Extend(line, f).trees != [] <==> line.trees != [] || f.Node?
  {
  }

  /** The statement of a turn that is not empty. */
  lemma TurnIs(env: Env, ps: Parser, started: bool) returns (s: Stmt, q: Parser)
    requires !ps.replay && Sane(Replay(ps)) && Cur(ps) != TokEof && Cur(ps) != TokBad && Cur(ps) != TokSemicolon
    requires LineTurn(env, ps, started).1.err == 0
    ensures var (f, p1) := LineTurn(env, ps, started);
      && Written(s) && !s.EmptyStmt? && Read(Replay(ps), StmtToks(s), q) && p1 == Next(q) && !q.replay
      && (f.Node? <==> StmtTrees(s) > 0)
  {
    hide Read, Sane, Ahead, Shaped, ParseDecl, ParseStatement, StmtToks, Next;
    var p := Replay(ps);
    assert Next(p) == ps && Cur(Next(p)) != TokSemicolon by { ReplayNext(ps); }
    if Cur(ps) != TokIdentifier && (IsBaseType(Cur(ps)) || Cur(ps) == TokUnsigned) {
      q := ParseDecl(env, p).1;
      NextKeeps(q);
      s := DeclIs(env, p);
    } else {
      var f := ParseStatement(env, p).0;
      q := ParseStatement(env, p).1;
      NextKeeps(q);
      NextKeeps(Next(q));
      var e := StatementIs(env, p);
      s := ExprStmt(e);
      StmtToksIs(e);
    }
  }

  lemma StmtToksIs(e: Term)
    ensures StmtToks(ExprStmt(e)) == Toks(e) + [Sign(TokSemicolon)]
  {
  }

  lemma ReplayNext(ps: Parser)
    requires !ps.replay
    ensures Next(Replay(ps)) == ps
  {
  }

  lemma NextKeeps(ps: Parser)
    ensures ps.err != 0 ==> Next(ps).err != 0
  {
  }

  /** The turn of an empty statement. */
  lemma EmptyTurn(env: Env, ps: Parser, started: bool)
    requires !ps.replay && Cur(ps) == TokSemicolon
    ensures LineTurn(env, ps, started) == (Nil, Next(if started then Next(ps) else ps))
  {
    assert ParseStatement(env, Replay(ps)) == (Nil, ps);
    hide ParseStatement, ParseDecl, Next;
  }

  lemma {:induction false} LineRecognised(env: Env, ps: Parser, line: Line) returns (ss: seq<Stmt>, rest: seq<Tok>)
    requires !ps.replay && Sane(Replay(ps)) && ParseLine(env, ps, line).1.err == 0
    ensures LineIs(ps, line.trees != [], ss, rest)
    decreases Fuel(ps), if Cur(ps) == TokEof then 0 else 2
  {
    hide Read, Sane, Ahead, Shaped, LineIs, ParseLine, LineTurn, Written, StmtToks, Next, StmtTrees, Extend, Swallows;
    var started := line.trees != [];
    if Cur(ps) == TokEof || Cur(ps) == TokBad {
      ss, rest := [], Ahead(Replay(ps));
      LineNothing(ps, started);
    } else {
      SaneUsed(Replay(ps));
      TurnParts(env, ps, line);
      var (f, p1) := LineTurn(env, ps, started);
      StartedIs(line, f);
      if Cur(ps) != TokSemicolon {
        var s, q := TurnIs(env, ps, started);
        ReadSane(Replay(ps), StmtToks(s), q);
        NextSane(q);
        var more, rest' := LineRecognised(env, p1, Extend(line, f));
        ss, rest := [s] + more, rest';
        LineFront(ps, started, s, q, p1, more, rest);
      } else {
        EmptyTurn(env, ps, started);
        ss, rest := EmptyIs(env, ps, line, f, p1);
      }
    }
  }

  lemma SemicolonRead(ps: Parser)
    requires !ps.replay && Sane(Replay(ps)) && Cur(ps) == TokSemicolon
    ensures ps.cur == Sign(TokSemicolon) && Sane(ps) && Read(Replay(ps), [Sign(TokSemicolon)], ps)
  {
    hide Shaped;
    var s := Ahead(Replay(ps));
    assert s == [ps.cur] + ps.rest && ps.cur in s;
    SignIs(ps.cur);
    assert forall t :: t in ps.rest ==> t in s;
  }

  lemma {:induction false} EmptyIs(env: Env, ps: Parser, line: Line, f: Forest, p1: Parser)
    returns (ss: seq<Stmt>, rest: seq<Tok>)
    requires !ps.replay && Sane(Replay(ps)) && Cur(ps) == TokSemicolon && f == Nil
    requires p1 == Next(if line.trees != [] then Next(ps) else ps)
    requires !p1.replay && ParseLine(env, p1, Extend(line, f)).1.err == 0
    requires Fuel(p1) < Fuel(ps) || (Fuel(p1) <= Fuel(ps) && Cur(p1) == TokEof)
    ensures LineIs(ps, line.trees != [], ss, rest)
    decreases Fuel(ps), 1
  {
    hide Read, Sane, Ahead, Shaped, LineIs, ParseLine, LineTurn, Extend, Swallows;
    var started := line.trees != [];
    SemicolonRead(ps);
    StartedIs(line, f);
    NextSane(ps);
    if !started {
      var more, rest' := LineRecognised(env, p1, Extend(line, f));
      ss, rest := [EmptyStmt([])] + more, rest';
      assert StmtToks(EmptyStmt([])) == [Sign(TokSemicolon)] + [] == [Sign(TokSemicolon)];
      LineFront(ps, started, EmptyStmt([]), ps, p1, more, rest);
    } else if Cur(Next(ps)) == TokEof {
      ss, rest := [EmptyStmt([])], [];
      LastEmpty(ps, started);
    } else {
      var q := Next(ps);
      ReadOne(ps);
      ShapedKind(q.cur);
      NextSane(q);
      var more, rest' := LineRecognised(env, p1, Extend(line, f));
      var s := EmptyStmt([q.cur]);
      ss, rest := [s] + more, rest';
      ReadMore(Replay(ps), [Sign(TokSemicolon)], ps, [q.cur], q);
      assert StmtToks(s) == [Sign(TokSemicolon)] + [q.cur];
      LineFront(ps, started, s, q, p1, more, rest);
    }
  }

  lemma LastEmpty(ps: Parser, started: bool)
    requires Read(Replay(ps), [Sign(TokSemicolon)], ps) && Ahead(ps) == []
    ensures LineIs(ps, started, [EmptyStmt([])], [])
  {
    var ss := [EmptyStmt([])];
    assert ss[1..] == [] && LineToks([]) == [];
    assert LineToks(ss) == [Sign(TokSemicolon)];
  }

  // ----- the language of the parser -----

  /** The tokens are those of some statements whose names are right and whose trees fit the pool, up to a token
      at which the parser stops if there is one. */
  ghost predicate IsLine(env: Env, vars: seq<Variable>, tokens: seq<Tok>, ss: seq<Stmt>, rest: seq<Tok>) {
    && tokens == LineToks(ss) + rest && Trailing(rest) && Swallows(ss, false, rest == [])
    && (forall s :: s in ss ==> Written(s))
    && LineFits(env, vars, ss) && LineNew(vars, ss) && LineNodes(ss) <= NODE_MAX
  }

  /** For every sequence of tokens the lexer can make without an error: the parser accepts it if and only if it is
      such a line, and then the forest is the one of the line. */
  lemma AcceptedTokens(env: Env, vars: seq<Variable>, tokens: seq<Tok>)
    requires AllShaped(tokens)
    ensures ParserRun(env, vars, tokens).1.err == 0 <==> exists ss, rest :: IsLine(env, vars, tokens, ss, rest)
    ensures forall ss, rest :: IsLine(env, vars, tokens, ss, rest) ==>
      var (f, end) := ParserRun(env, vars, tokens);
      f == BuildLine(env, vars, ss, 0) && end.vars == LineVars(vars, ss) && end.err == 0
  {
    hide ParserRun, LineFits, LineNew, LineToks, LineNodes, Written, Swallows, Trailing, BuildLine, LineVars;
    forall ss, rest | IsLine(env, vars, tokens, ss, rest)
      ensures var (f, end) := ParserRun(env, vars, tokens);
        f == BuildLine(env, vars, ss, 0) && end.vars == LineVars(vars, ss) && end.err == 0
    {
      TokensRead(env, vars, ss, rest);
    }
    if ParserRun(env, vars, tokens).1.err == 0 {
      var ss, rest := Recognised(env, vars, tokens);
      TokensAccepted(env, vars, ss, rest);
      assert IsLine(env, vars, tokens, ss, rest);
    }
  }

  /** A token at which the loop stops hides whatever is behind it: the statements before it are accepted as if
      the line ended there. */
  lemma TailIgnored(env: Env, vars: seq<Variable>, ss: seq<Stmt>, tail: seq<Tok>)
    requires LineFits(env, vars, ss) && LineNew(vars, ss) && LineNodes(ss) <= NODE_MAX
    requires Swallows(ss, false, false) && Clean(tail)
    ensures var (f, end) := ParserRun(env, vars, LineToks(ss) + ([Sign(TokBad)] + tail));
      f == BuildLine(env, vars, ss, 0) && end.vars == LineVars(vars, ss) && end.err == 0
  {
    hide ParserRun, LineFits, LineNew, LineToks, LineNodes, Swallows, BuildLine, LineVars;
    CleanOne(Sign(TokBad));
    CleanAppend([Sign(TokBad)], tail);
    TokensRead(env, vars, ss, [Sign(TokBad)] + tail);
  }

  lemma Recognised(env: Env, vars: seq<Variable>, tokens: seq<Tok>) returns (ss: seq<Stmt>, rest: seq<Tok>)
    requires AllShaped(tokens) && ParserRun(env, vars, tokens).1.err == 0
    ensures tokens == LineToks(ss) + rest && Trailing(rest) && Swallows(ss, false, rest == [])
    ensures forall s :: s in ss ==> Written(s)
  {
    hide Shaped, ParseLine, LineToks, Swallows, Written;
    var p := Parser(Tok(TokEof, "", 0, 0), false, tokens, 0, 0, vars);
    assert Sane(p) && Ahead(p) == tokens;
    NextSane(p);
    ss, rest := LineRecognised(env, Next(p), Line([], Nil));
  }

  /** The same of lines of text that contain no lexical error. */
  lemma AcceptedExactly(env: Env, vars: seq<Variable>, line: string)
    requires Good(line) && Clean(Tokens(Lex(line, 0, false)))
    ensures ParserRun(env, vars, Tokens(Lex(line, 0, false))).1.err == 0 <==>
      exists ss :: Reads(line, ss) && (forall s :: s in ss ==> Written(s))
        && LineFits(env, vars, ss) && LineNew(vars, ss) && LineNodes(ss) <= NODE_MAX
  {
    hide ParserRun, LineFits, LineNew, LineToks, LineNodes, Written, Swallows, Trailing, Good, Tokens, TokenRun, Shaped;
    var tokens := Tokens(Lex(line, 0, false));
    TokensShaped(Lex(line, 0, false));
    AcceptedTokens(env, vars, tokens);
    if ParserRun(env, vars, tokens).1.err == 0 {
      var ss, rest :| IsLine(env, vars, tokens, ss, rest);
      assert Reads(line, ss);
    }
    forall ss | Reads(line, ss) && (forall s :: s in ss ==> Written(s))
      && LineFits(env, vars, ss) && LineNew(vars, ss) && LineNodes(ss) <= NODE_MAX
      ensures ParserRun(env, vars, tokens).1.err == 0
    {
      LineAccepted(env, vars, ss, line);
    }
  }
}
