/** Which lines the parser refuses: of all lines built from the syntax of Syntax.dfy, exactly those with a name
    that is unknown, or declared twice, or with more trees than the pool holds. */
module Rejection {
  import Machine
  import opened Limits
  import opened Ast
  import opened Lexer
  import opened Grammar
  import opened Soundness
  import opened Syntax
  import opened RoundTrip

  /** A term stands before `tail`, whatever its names and its size. */
  ghost predicate Stands(ps: Parser, t: Term, tail: seq<Tok>) {
    Stream(ps) == Toks(t) + tail && Clean(tail) && tail != [] && Stratified(t) && ps.used <= NODE_MAX
  }

  /** Its names are known and the pool has room for it. */
  ghost predicate Fit(env: Env, ps: Parser, t: Term) {
    Known(env, ps.vars, t) && ps.used + Size(t) <= NODE_MAX
  }

  lemma ReadyIs(env: Env, ps: Parser, t: Term, tail: seq<Tok>)
    requires Stands(ps, t, tail) && Fit(env, ps, t)
    ensures Ready(env, ps, t, tail)
  {
  }

  // ----- errors stay -----

  lemma SysFails(ps: Parser, kind: Kind, f: Forest, g: Forest)
    requires ps.err != 0 || ps.used >= NODE_MAX
    ensures MakeSys(ps, kind, f, g).1.err != 0
  {
  }

  lemma SysOnward(ps: Parser, kind: Kind, f: Forest, g: Forest)
    requires ps.used <= NODE_MAX
    ensures Onward(ps, MakeSys(ps, kind, f, g).1)
  {
  }

  lemma {:induction false} BinLoopKeeps(env: Env, ps: Parser, k: nat, left: Forest)
    requires 1 <= k < CAST_LEVEL && ps.used <= NODE_MAX && ps.err != 0
    ensures BinLoop(env, ps, k, left).1.err != 0
    decreases Fuel(ps)
  {
    hide MakeSys, ParseBin, Fresh, IsOperand;
    var p1 := Next(ps);
    var op := LevelOp(k, Cur(p1));
    if op.Some? {
      BinSound(env, p1, k + 1);
      var (right, p2) := ParseBin(env, p1, k + 1);
      if right.Nil? {
        BinLoopKeeps(env, Error(p2, ERROR_EXPECT_OPERATOR), k, left);
      } else {
        SysOnward(p2, KBin(op.value), left, right);
        var (node, p3) := MakeSys(p2, KBin(op.value), left, right);
        BinLoopKeeps(env, p3, k, node);
      }
    }
  }

  lemma {:induction false} PostLoopKeeps(env: Env, ps: Parser, f: Forest)
    requires ps.used <= NODE_MAX && ps.err != 0
    ensures PostLoop(env, ps, f).1.err != 0
    decreases Fuel(ps)
  {
    hide MakeSys, ParseParens, Fresh, Complete;
    var p1 := Next(ps);
    if Cur(p1) in {TokInc, TokDec} {
      var kind := if Cur(p1) == TokInc then KInc else KDec;
      SysOnward(p1, kind, f, Nil);
      var (node, p2) := MakeSys(p1, kind, f, Nil);
      PostLoopKeeps(env, p2, node);
    } else if Cur(p1) == TokLeftParen {
      ParensSound(env, p1);
      var (params, p2) := ParseParens(env, p1);
      SysOnward(p2, KFunc, f, params);
      var (node, p3) := MakeSys(p2, KFunc, f, params);
      PostLoopKeeps(env, p3, node);
    }
  }

  // ----- assignment -----

  lemma AssignStands(env: Env, ps: Parser, l: Term, r: Term, tail: seq<Tok>, n: nat)
    requires Stands(ps, AssignTerm(l, r), tail) && n <= NODE_MAX
    ensures var more := [Sign(TokAssign)] + (Toks(r) + tail);
      Stands(ps, l, more) && Level(l) >= 1 && Binds(more[0].kind) < 1
    ensures Stands(After(ps, Sign(TokAssign), Toks(r) + tail, n), r, tail)
    ensures Fit(env, ps, AssignTerm(l, r)) <==>
      Fit(env, ps, l) && Fit(env, After(ps, Sign(TokAssign), Toks(r) + tail, ps.used + Size(l)), r)
      && ps.used + Size(l) + Size(r) < NODE_MAX
  {
    hide Clean, Toks;
    TermFacts(r, tail, Sign(TokAssign));
    AssignToks(l, r, tail);
  }

  lemma {:induction false} TermFails(env: Env, ps: Parser, t: Term, tail: seq<Tok>)
    requires Stands(ps, t, tail) && tail != [] && Binds(tail[0].kind) < 0 && !Fit(env, ps, t)
    ensures ParseAssign(env, ps).1.err != 0
    decreases t, 30
  {
    hide Stands, Fit, Ready, Clean, Stratified, Known, Toks, Build, Size, Level, Next, MakeSys, ParseBin, ParseAssign,
         Fresh, IsOperand, Binds;
    StandsUsed(ps, t, tail);
    if t.AssignTerm? {
      var l, r, u := t.l, t.r, ps.used + Size(t.l);
      AssignStands(env, ps, l, r, tail, ps.used);
      var more := [Sign(TokAssign)] + (Toks(r) + tail);
      if !Fit(env, ps, l) {
        BinFails(env, ps, l, 1, more);
        AssignRejects(env, ps);
      } else {
        ReadyIs(env, ps, l, more);
        BinExact(env, ps, l, 1, more);
        FitUsed(env, ps, l);
        AssignStands(env, ps, l, r, tail, u);
        var p1 := At(ps, more, u);
        AtCons(ps, Sign(TokAssign), Toks(r) + tail, u);
        if !Fit(env, Next(p1), r) {
          TermFails(env, Next(p1), r, tail);
        } else {
          ReadyIs(env, Next(p1), r, tail);
          TermExact(env, Next(p1), r, tail);
        }
        var (right, p3) := ParseAssign(env, Next(p1));
        AssignStep(env, ps, Build(env, ps.vars, l, ps.used), p1, right, p3);
        SysFails(p3, KAssign, Build(env, ps.vars, l, ps.used), right);
      }
    } else {
      LevelOfTerm(t);
      Weaker(tail[0].kind);
      BinFails(env, ps, t, 1, tail);
      AssignRejects(env, ps);
    }
  }

  lemma Weaker(k: TokenKind)
    requires Binds(k) < 0
    ensures Binds(k) < 1
  {
  }

  lemma StandsUsed(ps: Parser, t: Term, tail: seq<Tok>)
    requires Stands(ps, t, tail)
    ensures ps.used <= NODE_MAX && Clean(tail) && tail != []
  {
  }

  lemma FitUsed(env: Env, ps: Parser, t: Term)
    requires Fit(env, ps, t)
    ensures ps.used + Size(t) <= NODE_MAX
  {
  }

  // ----- binary operators -----

  lemma BinStands(env: Env, ps: Parser, op: Machine.BinOp, l: Term, r: Term, tail: seq<Tok>, n: nat)
    requires Stands(ps, BinTerm(op, l, r), tail) && n <= NODE_MAX
    ensures Stands(ps, l, [Sign(OpToken(op))] + (Toks(r) + tail))
    ensures Stands(After(ps, Sign(OpToken(op)), Toks(r) + tail, n), r, tail)
    ensures Level(l) >= OpLevel(op) && Level(r) > OpLevel(op)
    ensures Fit(env, ps, BinTerm(op, l, r)) <==>
      Fit(env, ps, l) && Fit(env, After(ps, Sign(OpToken(op)), Toks(r) + tail, ps.used + Size(l)), r)
      && ps.used + Size(l) + Size(r) < NODE_MAX
  {
    hide Clean, Toks, OpToken, OpLevel;
    TermFacts(r, tail, Sign(OpToken(op)));
    BinToks(op, l, r, tail);
  }

  lemma LevelFails(env: Env, ps: Parser, k: nat)
    requires 1 <= k < CAST_LEVEL && ps.used <= NODE_MAX && ParseBin(env, ps, k + 1).1.err != 0
    ensures ParseBin(env, ps, k).1.err != 0
  {
    hide BinLoop, Fresh, IsOperand;
    BinSound(env, ps, k + 1);
    var (left, p1) := ParseBin(env, ps, k + 1);
    BinLoopKeeps(env, p1, k, left);
  }

  /** The right operand fails, or there is no node for the operator. */
  lemma OperatorFails(env: Env, p1: Parser, k: nat, left: Forest, op: Machine.BinOp)
    requires 1 <= k < CAST_LEVEL && LevelOp(k, Cur(Next(p1))) == Machine.Some(op) && Next(p1).used <= NODE_MAX
    requires var p2 := ParseBin(env, Next(p1), k + 1).1; p2.err != 0 || p2.used >= NODE_MAX
    ensures BinLoop(env, p1, k, left).1.err != 0
  {
    hide BinLoop, ParseBin, MakeSys, Next, Fresh, IsOperand, LevelOp;
    BinSound(env, Next(p1), k + 1);
    var (right, p2) := ParseBin(env, Next(p1), k + 1);
    if right.Nil? {
      BinSkip(env, p1, k, left, p2);
      BinLoopKeeps(env, Error(p2, ERROR_EXPECT_OPERATOR), k, left);
    } else {
      BinStep(env, p1, k, left, op, right, p2);
      SysFails(p2, KBin(op), left, right);
      SysOnward(p2, KBin(op), left, right);
      var (node, p3) := MakeSys(p2, KBin(op), left, right);
      BinLoopKeeps(env, p3, k, node);
    }
  }

  lemma {:induction false} BinFails(env: Env, ps: Parser, t: Term, k: nat, tail: seq<Tok>)
    requires Stands(ps, t, tail) && tail != [] && 1 <= k <= CAST_LEVEL && Level(t) >= k && Binds(tail[0].kind) <= k
    requires !Fit(env, ps, t) && (k == CAST_LEVEL ==> Binds(tail[0].kind) < k)
    ensures ParseBin(env, ps, k).1.err != 0
    decreases t, 2 * (POST_LEVEL - k) + 3
  {
    hide Stands, Fit, Ready, Clean, Stratified, Known, Toks, Build, Size, Level, Binds, Next, MakeSys, BinLoop,
         ParseCast, LevelOp, OpToken, OpLevel, Fresh, IsOperand;
    StandsUsed(ps, t, tail);
    if k == CAST_LEVEL {
      CastFails(env, ps, t, tail);
    } else if t.BinTerm? && OpLevel(t.op) == k {
      hide ParseBin;
      var op, l, r, u := t.op, t.l, t.r, ps.used + Size(t.l);
      BinStands(env, ps, op, l, r, tail, ps.used);
      OpTokenLevel(op);
      var more := [Sign(OpToken(op))] + (Toks(r) + tail);
      if !Fit(env, ps, l) {
        BinFails(env, ps, l, k, more);
      } else {
        ReadyIs(env, ps, l, more);
        BinSpine(env, ps, l, k, more);
        FitUsed(env, ps, l);
        BinStands(env, ps, op, l, r, tail, u);
        var p1 := At(ps, more, u);
        AtCons(ps, Sign(OpToken(op)), Toks(r) + tail, u);
        if !Fit(env, Next(p1), r) {
          BinFails(env, Next(p1), r, k + 1, tail);
        } else {
          ReadyIs(env, Next(p1), r, tail);
          BinExact(env, Next(p1), r, k + 1, tail);
        }
        OperatorFails(env, p1, k, Build(env, ps.vars, l, ps.used), op);
      }
    } else {
      hide ParseBin;
      LevelOfBin(t, k);
      BinFails(env, ps, t, k + 1, tail);
      LevelFails(env, ps, k);
    }
  }

  // ----- casts and unary operators -----

  lemma CastStands(env: Env, ps: Parser, ty: TypeName, e: Term, tail: seq<Tok>)
    requires Stands(ps, CastTerm(ty, e), tail)
    ensures var rest := [Sign(TokRightParen)] + (Toks(e) + tail);
      && Clean(rest) && IsTypeName(ty) && Level(e) >= CAST_LEVEL
      && Stream(ps) == [Sign(TokLeftParen)] + (TypeToks(ty) + rest)
    ensures Stands(After(ps, Sign(TokRightParen), Toks(e) + tail, ps.used), e, tail)
    ensures Fit(env, ps, CastTerm(ty, e)) <==>
      Fit(env, After(ps, Sign(TokRightParen), Toks(e) + tail, ps.used), e)
  {
    hide Clean, Toks, TypeToks;
    var open, close := [Sign(TokLeftParen)], [Sign(TokRightParen)];
    TermFacts(e, tail, close[0]);
    assert Toks(CastTerm(ty, e)) == open + TypeToks(ty) + close + Toks(e) by { CastToks(ty, e); }
    Assoc(open + TypeToks(ty) + close, Toks(e), tail);
    Assoc(open + TypeToks(ty), close, Toks(e) + tail);
    Assoc(open, TypeToks(ty), close + (Toks(e) + tail));
  }

  lemma StandsBegin(env: Env, ps: Parser, t: Term, tail: seq<Tok>)
    requires Stands(ps, t, tail)
    ensures var s := Toks(t) + tail;
      && Stratified(t) && Toks(t) != [] && s != [] && s[0] == Toks(t)[0]
      && Next(ps) == After(ps, s[0], s[1..], ps.used) && Replay(Next(ps)) == At(ps, s, ps.used)
      && Stands(At(ps, s, ps.used), t, tail) && (Fit(env, At(ps, s, ps.used), t) <==> Fit(env, ps, t))
  {
    hide Stratified, Known;
    CleanTerm(t);
    var s := Toks(t) + tail;
    assert s == [s[0]] + s[1..] && s[0] == Toks(t)[0] && Toks(t)[0] in Toks(t);
    NextIs(ps, s[0], s[1..]);
  }

  lemma CastRejects(env: Env, ps: Parser, ty: FinshType, p2: Parser)
    requires Cur(Next(ps)) == TokLeftParen && ParseType(Next(ps)) == (ty, p2) && Cur(Next(p2)) == TokRightParen
    requires Next(p2).used <= NODE_MAX && ParseCast(env, Next(p2)).1.err != 0
    ensures ParseCast(env, ps).1.err != 0
  {
    hide ParseUnary, ParseType, Next, TypeNumber, Fresh, IsOperand;
    CastSound(env, Next(p2));
    var (cast, p3) := ParseCast(env, Next(p2));
    if cast.Nil? {
      UnarySound(env, Replay(p3));
    }
  }

  lemma {:induction false} CastFails(env: Env, ps: Parser, t: Term, tail: seq<Tok>)
    requires Stands(ps, t, tail) && tail != [] && Level(t) >= CAST_LEVEL && Binds(tail[0].kind) < CAST_LEVEL
    requires !Fit(env, ps, t)
    ensures ParseCast(env, ps).1.err != 0
    decreases t, 4
  {
    hide Stands, Fit, Ready, Clean, Stratified, Known, Toks, Build, Size, Level, Binds, Next, MakeSys, ParseCast,
         ParseUnary, ParseType, TypeToks, TypeOf, TypeNumber, Stream;
    StandsUsed(ps, t, tail);
    if t.CastTerm? {
      var ty, e := t.ty, t.e;
      CastStands(env, ps, ty, e, tail);
      var rest := [Sign(TokRightParen)] + (Toks(e) + tail);
      NextIs(ps, Sign(TokLeftParen), TypeToks(ty) + rest);
      TypeBack(Next(ps), ty, rest);
      var p2 := ParseType(Next(ps)).1;
      NextIs(p2, Sign(TokRightParen), Toks(e) + tail);
      CastFails(env, Next(p2), e, tail);
      CastRejects(env, ps, TypeOf(ty), p2);
    } else {
      StandsBegin(env, ps, t, tail);
      FirstToken(t);
      CastStop(env, ps);
      UnaryFails(env, At(ps, Toks(t) + tail, ps.used), t, tail);
    }
  }

  lemma UnaryStands(env: Env, ps: Parser, u: Unary, e: Term, tail: seq<Tok>)
    requires Stands(ps, UnaryTerm(u, e), tail)
    ensures Stream(ps) == [Sign(UnaryToken(u))] + (Toks(e) + tail)
    ensures Stands(After(ps, Sign(UnaryToken(u)), Toks(e) + tail, ps.used), e, tail) && Level(e) >= CAST_LEVEL
    ensures Fit(env, ps, UnaryTerm(u, e)) <==>
      Fit(env, After(ps, Sign(UnaryToken(u)), Toks(e) + tail, ps.used), e)
      && ps.used + Size(e) + (if u.Plus? then 0 else if u.Minus? then 2 else 1) <= NODE_MAX
  {
    hide Clean, Toks, UnaryToken;
    assert Toks(UnaryTerm(u, e)) == [Sign(UnaryToken(u))] + Toks(e) by { UnaryToks(u, e); }
    Assoc([Sign(UnaryToken(u))], Toks(e), tail);
  }

  lemma ResultFails(ps: Parser, u: Unary, f: Forest)
    requires ps.err != 0 || ps.used + (if u.Plus? then 0 else if u.Minus? then 2 else 1) > NODE_MAX
    requires ps.used <= NODE_MAX
    ensures UnaryResult(ps, u, f).1.err != 0
  {
  }

  lemma {:induction false} UnaryFails(env: Env, ps: Parser, t: Term, tail: seq<Tok>)
    requires Stands(ps, t, tail) && tail != [] && Level(t) >= CAST_LEVEL && !t.CastTerm?
    requires Binds(tail[0].kind) < CAST_LEVEL && !Fit(env, ps, t)
    ensures ParseUnary(env, ps).1.err != 0
    decreases t, 3
  {
    hide Stands, Fit, Ready, Clean, Stratified, Known, Toks, Build, Size, Level, Binds, Next, ParseCast, ParseUnary,
         ParsePostfix, UnaryResult, UnaryToken, Stream, Fresh, IsOperand;
    StandsUsed(ps, t, tail);
    if t.UnaryTerm? {
      var u, e := t.u, t.e;
      UnaryStands(env, ps, u, e, tail);
      NextIs(ps, Sign(UnaryToken(u)), Toks(e) + tail);
      CastSound(env, Next(ps));
      if !Fit(env, Next(ps), e) {
        CastFails(env, Next(ps), e, tail);
      } else {
        ReadyIs(env, Next(ps), e, tail);
        CastExact(env, Next(ps), e, tail);
      }
      var (f, p2) := ParseCast(env, Next(ps));
      UnaryStep(env, ps, u, f, p2);
      ResultFails(p2, u, f);
    } else {
      HighLevel(t);
      StandsBegin(env, ps, t, tail);
      FirstToken(t);
      UnaryStop(env, ps);
      PostFails(env, At(ps, Toks(t) + tail, ps.used), t, tail);
    }
  }

  // ----- postfix operators and calls -----

  lemma PostStands(env: Env, ps: Parser, down: bool, e: Term, tail: seq<Tok>)
    requires Stands(ps, PostTerm(down, e), tail)
    ensures Stands(ps, e, [Sign(if down then TokDec else TokInc)] + tail) && Level(e) == POST_LEVEL
    ensures Fit(env, ps, PostTerm(down, e)) <==> Fit(env, ps, e) && ps.used + Size(e) < NODE_MAX
  {
    var more := [Sign(if down then TokDec else TokInc)] + tail;
    assert Toks(PostTerm(down, e)) + tail == Toks(e) + more;
  }

  lemma CallStands(env: Env, ps: Parser, f: Term, args: Terms, tail: seq<Tok>)
    requires Stands(ps, CallTerm(f, args), tail)
    ensures var rest := ArgToks(args) + ([Sign(TokRightParen)] + tail);
      Stands(ps, f, [Sign(TokLeftParen)] + rest) && Clean(rest) && Clean(tail)
    ensures Level(f) == POST_LEVEL && AllStratified(args)
    ensures Fit(env, ps, CallTerm(f, args)) <==>
      && Fit(env, ps, f) && AllKnown(env, ps.vars, args)
      && ps.used + Size(f) + SizeAll(args) < NODE_MAX
  {
    var rest := ArgToks(args) + ([Sign(TokRightParen)] + tail);
    assert Toks(CallTerm(f, args)) + tail == Toks(f) + ([Sign(TokLeftParen)] + rest);
    ArgToksClean(args);
  }

  lemma {:induction false} PostFails(env: Env, ps: Parser, t: Term, tail: seq<Tok>)
    requires Stands(ps, t, tail) && Level(t) == POST_LEVEL && !Fit(env, ps, t)
    ensures ParsePostfix(env, ps).1.err != 0
    decreases t, 2
  {
    hide Stands, Fit, Toks, Build, Size, Next, ParsePostfix, PostLoop, Clean;
    if t.PostTerm? {
      PostOpFails(env, ps, t.down, t.e, tail);
    } else if t.CallTerm? {
      CallFails(env, ps, t.f, t.args, tail);
    } else {
      LeafFails(env, ps, t, tail);
    }
  }

  lemma {:induction false} PostOpFails(env: Env, ps: Parser, down: bool, e: Term, tail: seq<Tok>)
    requires Stands(ps, PostTerm(down, e), tail) && !Fit(env, ps, PostTerm(down, e))
    ensures ParsePostfix(env, ps).1.err != 0
    decreases e, 3
  {
    hide Stands, Fit, Ready, Clean, Stratified, Known, Toks, Build, Size, Level, Next, MakeSys, ParsePostfix, PostLoop;
    PostStands(env, ps, down, e, tail);
    var sign := Sign(if down then TokDec else TokInc);
    if !Fit(env, ps, e) {
      PostFails(env, ps, e, [sign] + tail);
    } else {
      ReadyIs(env, ps, e, [sign] + tail);
      FitUsed(env, ps, e);
      var u, f := ps.used + Size(e), Build(env, ps.vars, e, ps.used);
      PostSpine(env, ps, e, [sign] + tail);
      var p1 := At(ps, [sign] + tail, u);
      AtCons(ps, sign, tail, u);
      PostStep(env, p1, f, down);
      var kind := if down then KDec else KInc;
      SysFails(Next(p1), kind, f, Nil);
      SysOnward(Next(p1), kind, f, Nil);
      var (node, p2) := MakeSys(Next(p1), kind, f, Nil);
      PostLoopKeeps(env, p2, node);
    }
  }

  lemma {:induction false} CallFails(env: Env, ps: Parser, f: Term, args: Terms, tail: seq<Tok>)
    requires Stands(ps, CallTerm(f, args), tail) && !Fit(env, ps, CallTerm(f, args))
    ensures ParsePostfix(env, ps).1.err != 0
    decreases CallTerm(f, args), 1
  {
    hide Stands, Fit, Ready, Clean, Stratified, Known, Toks, Build, Size, Level, Next, MakeSys, BuildAll, SizeAll,
         ArgToks, AllStratified, AllKnown, ParsePostfix, ParseParens, PostLoop, Fresh, Complete;
    StandsUsed(ps, CallTerm(f, args), tail);
    CallStands(env, ps, f, args, tail);
    var rest := ArgToks(args) + ([Sign(TokRightParen)] + tail);
    if !Fit(env, ps, f) {
      PostFails(env, ps, f, [Sign(TokLeftParen)] + rest);
    } else {
      ReadyIs(env, ps, f, [Sign(TokLeftParen)] + rest);
      FitUsed(env, ps, f);
      var u, head := ps.used + Size(f), Build(env, ps.vars, f, ps.used);
      PostSpine(env, ps, f, [Sign(TokLeftParen)] + rest);
      var p1 := At(ps, [Sign(TokLeftParen)] + rest, u);
      AtCons(ps, Sign(TokLeftParen), rest, u);
      ParensSound(env, Next(p1));
      if AllKnown(env, ps.vars, args) && u + SizeAll(args) <= NODE_MAX {
        ParensExact(env, Next(p1), args, tail);
      } else {
        ParensFails(env, Next(p1), args, tail);
      }
      var (params, p2) := ParseParens(env, Next(p1));
      CallStep(env, p1, head, params, p2);
      SysFails(p2, KFunc, head, params);
      SysOnward(p2, KFunc, head, params);
      var (node, p3) := MakeSys(p2, KFunc, head, params);
      PostLoopKeeps(env, p3, node);
    }
  }

  lemma NameFails(env: Env, ps: Parser, name: string)
    requires Resolve(env, ps.vars, name) == NoSymbol || ps.used >= NODE_MAX
    ensures NewId(env, ps, name).1.err != 0
  {
  }

  lemma PrimaryFails(env: Env, ps: Parser, t: Term, tail: seq<Tok>)
    requires Level(t) == POST_LEVEL && !t.PostTerm? && !t.CallTerm?
    requires Next(ps) == After(ps, Toks(t)[0], tail, ps.used)
    requires Stratified(t) && (!Known(env, ps.vars, t) || ps.used >= NODE_MAX)
    ensures ParsePrimary(env, ps).1.err != 0
  {
    hide Next, Resolve, ParseIdentifier, ParseAssign, NewId;
    match t
    case NameTerm(name) =>
      IdentifierBack(Next(ps), name);
      PrimaryStep(env, ps, Id(name), Next(ps));
      NameFails(env, Next(ps), Id(name));
    case _ =>
  }

  lemma LeafStands(env: Env, ps: Parser, t: Term, tail: seq<Tok>)
    requires Stands(ps, t, tail) && Level(t) == POST_LEVEL && !t.PostTerm? && !t.CallTerm? && !Fit(env, ps, t)
    ensures |Toks(t)| == 1 && (Toks(t) + tail)[1..] == tail && (!Known(env, ps.vars, t) || ps.used >= NODE_MAX)
  {
  }

  lemma LeafFails(env: Env, ps: Parser, t: Term, tail: seq<Tok>)
    requires Stands(ps, t, tail) && Level(t) == POST_LEVEL && !t.PostTerm? && !t.CallTerm? && !Fit(env, ps, t)
    ensures ParsePostfix(env, ps).1.err != 0
  {
    hide Stands, Fit, Clean, Stratified, Known, Toks, Size, Level, Next, ParsePrimary, PostLoop, Fresh, IsOperand;
    StandsUsed(ps, t, tail);
    StandsBegin(env, ps, t, tail);
    LeafStands(env, ps, t, tail);
    PrimaryFails(env, ps, t, tail);
    PrimarySound(env, ps);
    var (f, p1) := ParsePrimary(env, ps);
    PostLoopKeeps(env, p1, f);
  }

  // ----- arguments -----

  lemma ParensReject(env: Env, ps: Parser)
    requires Cur(Next(ps)) != TokRightParen && ps.used <= NODE_MAX
    requires var (first, p1) := ParseAssign(env, Replay(Next(ps)));
      p1.err != 0 || (first.Node? && ParamLoop(env, p1).1.err != 0)
    ensures ParseParens(env, ps).1.err != 0
  {
    hide ParseAssign, ParamLoop, Fresh, IsOperand, Complete;
    AssignSound(env, Replay(Next(ps)));
    var (first, p1) := ParseAssign(env, Replay(Next(ps)));
    ParamLoopSound(env, p1);
  }

  lemma {:induction false} ParensFails(env: Env, ps: Parser, a: Terms, tail: seq<Tok>)
    requires var s := ArgToks(a) + ([Sign(TokRightParen)] + tail); Stream(ps) == s && Clean(s) && tail != []
    requires AllStratified(a) && ps.used <= NODE_MAX
    requires !(AllKnown(env, ps.vars, a) && ps.used + SizeAll(a) <= NODE_MAX)
    ensures ParseParens(env, ps).1.err != 0
    decreases a, 3
  {
    var end := [Sign(TokRightParen)] + tail;
    CleanAppend(ArgToks(a), end);
    if a.MoreTerms? {
      hide Ready, Clean, Stratified, Known, Toks, Build, Size, Level, Binds, Next, BuildAll, ArgToks, MoreToks,
           Fit, Stands, ParseAssign, ParamLoop, ParseParens;
      var t, more := a.e, MoreToks(a.rest) + end;
      ArgsToks(a, end);
      MoreShape(a.rest, end);
      StandsFor(ps, t, more);
      StandsBegin(env, ps, t, more);
      FirstToken(t);
      var q := At(ps, Toks(t) + more, ps.used);
      FirstFails(env, q, a, more, end);
      ParensReject(env, ps);
    }
  }

  lemma StandsFor(ps: Parser, t: Term, tail: seq<Tok>)
    requires Stream(ps) == Toks(t) + tail && Clean(tail) && tail != [] && Stratified(t) && ps.used <= NODE_MAX
    ensures Stands(ps, t, tail)
  {
  }

  /** One argument fails or those behind it do. */
  lemma {:induction false} FirstFails(env: Env, ps: Parser, a: Terms, more: seq<Tok>, end: seq<Tok>)
    requires a.MoreTerms? && Stands(ps, a.e, more) && AllStratified(a) && more == MoreToks(a.rest) + end
    requires Clean(end) && end != [] && end[0].kind == TokRightParen
    requires !(AllKnown(env, ps.vars, a) && ps.used + SizeAll(a) <= NODE_MAX)
    ensures var (first, p1) := ParseAssign(env, ps);
      p1.err != 0 || (first.Node? && ParamLoop(env, p1).1.err != 0)
    decreases a, 2
  {
    hide Ready, Clean, Stratified, Known, Toks, Build, Size, Level, Binds, Next, BuildAll, ArgToks, MoreToks,
         Fit, Stands, ParseAssign, ParamLoop;
    var t := a.e;
    StandsUsed(ps, t, more);
    MoreShape(a.rest, end);
    if !Fit(env, ps, t) {
      TermFails(env, ps, t, more);
    } else {
      ReadyIs(env, ps, t, more);
      TermExact(env, ps, t, more);
      FitKnown(env, ps, t);
      var p1 := At(ps, more, ps.used + Size(t));
      AtIs(ps, more, ps.used + Size(t));
      MoreFails(env, p1, a.rest, end);
    }
  }

  lemma FitKnown(env: Env, ps: Parser, t: Term)
    requires Fit(env, ps, t)
    ensures Known(env, ps.vars, t) && ps.used + Size(t) <= NODE_MAX
  {
  }

  lemma ParamRejects(env: Env, ps: Parser)
    requires Cur(Next(ps)) == TokComma && ps.used <= NODE_MAX
    requires var (e, p1) := ParseAssign(env, Next(ps));
      p1.err != 0 || (e.Node? && ParamLoop(env, p1).1.err != 0)
    ensures ParamLoop(env, ps).1.err != 0
  {
    hide ParseAssign, ParamLoop, Fresh, IsOperand, Complete;
    AssignSound(env, Next(ps));
    var (e, p2) := ParseAssign(env, Next(ps));
    if e.Nil? {
      ParamSkip(env, ps, p2);
      ParamLoopSound(env, Error(p2, ERROR_EXPECT_OPERATOR));
    } else {
      ParamLoopSound(env, p2);
      ParamStep(env, ps, e, p2, ParamLoop(env, p2).0, ParamLoop(env, p2).1);
    }
  }

  lemma {:induction false} MoreFails(env: Env, ps: Parser, a: Terms, tail: seq<Tok>)
    requires Stream(ps) == MoreToks(a) + tail && Clean(tail) && tail != [] && tail[0].kind == TokRightParen
    requires AllStratified(a) && ps.used <= NODE_MAX
    requires !(AllKnown(env, ps.vars, a) && ps.used + SizeAll(a) <= NODE_MAX)
    ensures ParamLoop(env, ps).1.err != 0
    decreases a, 3
  {
    if a.MoreTerms? {
      hide Ready, Clean, Stratified, Known, Toks, Build, Size, Level, Binds, Next, BuildAll, ArgToks, MoreToks,
           Fit, Stands, ParseAssign, ParamLoop;
      var t, more := a.e, MoreToks(a.rest) + tail;
      ArgsToks(a, tail);
      MoreShape(a.rest, tail);
      NextIs(ps, Sign(TokComma), Toks(t) + more);
      StandsFor(Next(ps), t, more);
      FirstFails(env, Next(ps), a, more, tail);
      ParamRejects(env, ps);
    }
  }

  // ----- declarations -----

  lemma InitialiserOnward(env: Env, ps: Parser, id: string, trees: seq<Forest>)
    requires ps.used <= NODE_MAX
    ensures Onward(ps, Initialiser(env, ps, id, trees).1)
  {
    hide ParseAssign, NewId, MakeSys, Fresh, IsOperand, Next;
    AssignSound(env, ps);
    var (right, p1) := ParseAssign(env, ps);
    if right.Node? {
      IdSound(env, p1, id);
      var (left, p2) := NewId(env, p1, id);
      SysOnward(p2, KAssign, left, right);
      NextFacts(MakeSys(p2, KAssign, left, right).1);
    }
  }

  lemma DeclaratorOnward(env: Env, ps: Parser, ty: FinshType, trees: seq<Forest>)
    requires ps.used <= NODE_MAX
    ensures Onward(ps, Declarator(env, ps, ty, trees).1)
  {
    hide Initialiser, ParseIdentifier, Next, Declare;
    var (id, p1) := ParseIdentifier(ps);
    NamedOnward(ps, id, p1, ty);
    var p2 := Next(Declare(p1, id, ty));
    if Cur(p2) == TokAssign {
      InitialiserOnward(env, p2, id, trees);
    }
  }

  lemma {:induction false} DeclLoopKeeps(env: Env, ps: Parser, ty: FinshType, token: TokenKind, trees: seq<Forest>)
    requires ps.used <= NODE_MAX && ps.err != 0
    ensures DeclLoop(env, ps, ty, token, trees).1.err != 0
    decreases Fuel(ps), if token == TokComma then 1 else 0
  {
    hide Declarator;
    if token == TokComma {
      DeclaratorOnward(env, ps, ty, trees);
      var (trees', p1, token') := Declarator(env, ps, ty, trees);
      DeclLoopKeeps(env, p1, ty, token', trees');
    }
  }

  /** An initialiser that is wrong, or whose name is, or for which there are too few nodes. */
  lemma InitialiserFails(env: Env, ps: Parser, name: string, e: Term, sep: TokenKind, tail: seq<Tok>,
      trees: seq<Forest>)
    requires Stands(ps, e, [Sign(sep)] + tail) && EndsItem(sep)
    requires !Fit(env, ps, e) || Resolve(env, ps.vars, Id(name)) == NoSymbol || ps.used + Size(e) + 2 > NODE_MAX
    ensures Initialiser(env, ps, Id(name), trees).1.err != 0
  {
    hide Stands, Fit, Ready, Clean, Toks, Build, Size, Next, ParseAssign, NewId, MakeSys, Resolve, NewNode, Linked,
         Fresh, IsOperand;
    var more := [Sign(sep)] + tail;
    StandsUsed(ps, e, more);
    AssignSound(env, ps);
    if !Fit(env, ps, e) {
      TermFails(env, ps, e, more);
    } else {
      ReadyIs(env, ps, e, more);
      TermExact(env, ps, e, more);
    }
    var (right, p1) := ParseAssign(env, ps);
    if right.Node? {
      AssignmentFails(env, p1, Id(name), right);
    }
  }

  lemma AssignmentFails(env: Env, p1: Parser, name: string, right: Forest)
    requires p1.used <= NODE_MAX
    requires p1.err != 0 || Resolve(env, p1.vars, name) == NoSymbol || p1.used + 2 > NODE_MAX
    ensures var (left, p2) := NewId(env, p1, name); Next(MakeSys(p2, KAssign, left, right).1).err != 0
  {
    hide Resolve;
  }

  /** An item that is wrong: its name is taken or finds no entry free, or its initialiser is wrong. */
  lemma ItemFails(env: Env, ps: Parser, ty: FinshType, d: Item, sep: TokenKind, tail: seq<Tok>, trees: seq<Forest>)
    requires Stream(ps) == ItemToks(d) + ([Sign(sep)] + tail) && Clean(tail) && EndsItem(sep)
    requires ItemWritten(d) && ps.used <= NODE_MAX
    requires !(VarInsert(ps.vars, Id(d.name), ty).Some? && ItemFits(env, Entered(ps.vars, ty, Id(d.name)), d)
               && ps.used + ItemSize(d) <= NODE_MAX)
    ensures Declarator(env, ps, ty, trees).1.err != 0
  {
    hide Clean, Stream, Toks, Resolve, Size, Stratified, Known, Declarator, Initialiser, ParseIdentifier, Declare, Next,
         ItemToks, Entered, ItemVars, ItemsNew, Stands, Fit, VarInsert;
    var p1, more := Declared(ps, ty, [d]), [Sign(sep)] + tail;
    DeclaredOne(ps, ty, d);
    CleanOne(Sign(sep));
    CleanAppend([Sign(sep)], tail);
    ItemTailIs(d, more);
    DeclareExact(ps, d, ty, ItemTail(d, more));
    var s := ItemTail(d, more);
    var p := After(p1, s[0], s[1..], ps.used);
    DeclaratorIs(env, ps, d, ty, trees, p);
    match d.init
    case None =>
    case Some(e) =>
      assert s[1..] == Toks(e) + more;
      StreamAfter(p1, s[0], s[1..], ps.used);
      StandsFor(p, e, more);
      if p.err != 0 {
        InitialiserOnward(env, p, Id(d.name), trees);
      } else {
        FitIs(env, p, e);
        InitialiserFails(env, p, d.name, e, sep, tail, trees);
      }
  }

  lemma FitIs(env: Env, ps: Parser, t: Term)
    ensures Fit(env, ps, t) <==> Known(env, ps.vars, t) && ps.used + Size(t) <= NODE_MAX
  {
  }

  /** The first item is wrong, or it is right and those behind it are wrong. */
  lemma ItemsSplit(env: Env, ps: Parser, ty: FinshType, ds: seq<Item>)
    requires ds != []
    ensures var p1, d := Declared(ps, ty, ds[..1]), ds[0];
      && ds[..1] == [d] && p1.vars == Entered(ps.vars, ty, Id(d.name))
      && (ItemsNew(ps.vars, ty, ds) <==> VarInsert(ps.vars, Id(d.name), ty).Some? && ItemsNew(p1.vars, ty, ds[1..]))
      && (ItemsFit(env, ps.vars, ty, ds) <==> ItemFits(env, p1.vars, d) && ItemsFit(env, p1.vars, ty, ds[1..]))
      && ItemsSize(ds) == ItemSize(d) + ItemsSize(ds[1..])
  {
    hide ItemFits, Entered, ItemSize, VarInsert;
    DeclaredOne(ps, ty, ds[0]);
    assert ds[..1] == [ds[0]];
  }

  lemma NothingWrong(env: Env, vars: seq<Variable>, ty: FinshType)
    ensures ItemsNew(vars, ty, []) && ItemsFit(env, vars, ty, []) && ItemsSize([]) == 0
  {
  }

  lemma {:induction false} ItemsFail(env: Env, ps: Parser, ty: FinshType, ds: seq<Item>, tail: seq<Tok>,
      trees: seq<Forest>)
    requires ds != [] && Stream(ps) == ItemToks(ds[0]) + ItemsTail(ds[1..], tail) && Clean(tail)
    requires (forall d :: d in ds ==> ItemWritten(d)) && ps.used <= NODE_MAX
    requires !(ItemsNew(ps.vars, ty, ds) && ItemsFit(env, ps.vars, ty, ds) && ps.used + ItemsSize(ds) <= NODE_MAX)
    ensures DeclLoop(env, ps, ty, TokComma, trees).1.err != 0
    decreases |ds|
  {
    hide Clean, Stream, ItemToks, ItemsTail, ItemsFit, ItemFits, ItemsSize, ItemSize, DeclLoop, Declarator, ItemsNew,
         Declared, Entered, ItemWritten, VarInsert, BuildItem;
    ItemsSplit(env, ps, ty, ds);
    ItemsTailIs(ds[1..], tail);
    NothingWrong(env, Declared(ps, ty, ds[..1]).vars, ty);
    var d, p1, last := ds[0], Declared(ps, ty, ds[..1]), ds[1..] == [];
    var rest := if last then tail else ItemToks(ds[1]) + ItemsTail(ds[2..], tail);
    assert !last ==> ds[1..][0] == ds[1] && ds[1..][1..] == ds[2..];
    var sep := if last then TokSemicolon else TokComma;
    DeclLoopTurn(env, ps, ty, trees);
    DeclaratorOnward(env, ps, ty, trees);
    var (trees', p2, token) := Declarator(env, ps, ty, trees);
    if VarInsert(ps.vars, Id(d.name), ty).Some? && ItemFits(env, p1.vars, d) && ps.used + ItemSize(d) <= NODE_MAX {
      ItemExact(env, ps, ty, d, sep, rest, trees);
      StreamAfter(p1, Sign(sep), rest, ps.used + ItemSize(d));
      ItemsFail(env, p2, ty, ds[1..], tail, trees');
    } else {
      ItemFails(env, ps, ty, d, sep, rest, trees);
      DeclLoopKeeps(env, p2, ty, token, trees');
    }
  }

  /** A declaration with an item that is wrong. */
  lemma DeclFails(env: Env, ps: Parser, s: Stmt, tail: seq<Tok>)
    requires s.DeclStmt? && Written(s) && Stream(ps) == StmtToks(s) + tail && Clean(tail) && ps.used <= NODE_MAX
    requires !(ItemsNew(ps.vars, TypeOf(s.ty), s.items) && StmtFits(env, ps.vars, s)
               && ps.used + StmtSize(s) <= NODE_MAX)
    ensures ParseDecl(env, ps).1.err != 0
  {
    hide Clean, Stream, ItemToks, ItemsTail, StmtToks, ParseDecl, ParseType, ParseIdentifier, DeclLoop, Next, Declare,
         ItemsFit, ItemsSize, EndsItem, ItemsNew, Chain, ItemWritten;
    DeclPrefix(ps, s, tail);
    var (ty, p1) := ParseType(ps);
    DeclAsLoop(env, ps, ty, p1);
    ItemsFail(env, p1, ty, s.items, tail, []);
  }

  // ----- lines -----

  /** The names of a statement are known or new, and the pool has room for its trees. */
  ghost predicate StmtRight(env: Env, ps: Parser, s: Stmt) {
    && StmtFits(env, ps.vars, s) && (s.DeclStmt? ==> ItemsNew(ps.vars, TypeOf(s.ty), s.items))
    && ps.used + StmtSize(s) <= NODE_MAX
  }

  lemma StatementFails(env: Env, ps: Parser, e: Term, tail: seq<Tok>)
    requires Stands(ps, e, [Sign(TokSemicolon)] + tail) && !Fit(env, ps, e)
    ensures ParseStatement(env, ps).1.err != 0
  {
    hide Stands, Fit, Clean, Toks, Build, Size, Next, ParseAssign, Stratified;
    var more := [Sign(TokSemicolon)] + tail;
    StandsBegin(env, ps, e, more);
    FirstToken(e);
    TermFails(env, RoundTrip.At(ps, Toks(e) + more, ps.used), e, more);
    StatementKeeps(env, ps);
  }

  lemma StatementKeeps(env: Env, ps: Parser)
    requires Cur(Next(ps)) != TokSemicolon && ParseAssign(env, Replay(Next(ps))).1.err != 0
    ensures ParseStatement(env, ps).1.err != 0
  {
    hide ParseAssign;
  }

  lemma TurnFails(env: Env, ps: Parser, started: bool)
    requires !ps.replay && Cur(ps) != TokEof && Cur(ps) != TokBad
    requires if IsBaseType(Cur(ps)) || Cur(ps) == TokUnsigned then ParseDecl(env, Replay(ps)).1.err != 0
      else ParseStatement(env, Replay(ps)).1.err != 0
    ensures LineTurn(env, ps, started).1.err != 0
  {
    hide ParseStatement, ParseDecl;
  }

  lemma LineRejects(env: Env, ps: Parser, line: Line)
    requires !ps.replay && ps.used <= NODE_MAX && Cur(ps) != TokEof && Cur(ps) != TokBad
    requires LineTurn(env, ps, line.trees != []).1.err != 0
    ensures ParseLine(env, ps, line).1.err != 0
  {
    hide LineTurn, Extend, Fresh, Complete;
    TurnSound(env, ps, line.trees != []);
    TurnReads(env, ps, line.trees != []);
    var (f, p1) := LineTurn(env, ps, line.trees != []);
    LineKeepsError(env, p1, Extend(line, f));
  }

  /** A statement that is wrong leaves an error in the whole line. */
  lemma StmtFails(env: Env, ps: Parser, line: Line, s: Stmt, tail: seq<Tok>)
    requires !ps.replay && Written(s) && Clean(tail) && ps.used <= NODE_MAX && !StmtRight(env, ps, s)
    requires Stream(Replay(ps)) == StmtToks(s) + tail
    ensures ParseLine(env, ps, line).1.err != 0
  {
    hide ParseLine, ParseDecl, ParseStatement, Clean, Toks, Size, Next, Stratified, Known, Stands, Fit, LineTurn,
         ItemsFit, ItemsNew, ItemsSize, ItemWritten;
    match s
    case ExprStmt(e) =>
      var more := [Sign(TokSemicolon)] + tail;
      Assoc(Toks(e), [Sign(TokSemicolon)], tail);
      CleanOne(Sign(TokSemicolon));
      CleanAppend([Sign(TokSemicolon)], tail);
      StandsFor(Replay(ps), e, more);
      FitIs(env, Replay(ps), e);
      FirstToken(e);
      CurrentIs(ps, Toks(e), more);
      StatementFails(env, Replay(ps), e, tail);
      TurnFails(env, ps, line.trees != []);
      LineRejects(env, ps, line);
    case DeclStmt(_, _) =>
      DeclHead(s, tail);
      assert ps.cur == (StmtToks(s) + tail)[0];
      hide StmtToks;
      DeclFails(env, Replay(ps), s, tail);
      TurnFails(env, ps, line.trees != []);
      LineRejects(env, ps, line);
    case EmptyStmt(_) =>
  }

  /** A statement that is right is parsed, and the rest of the line follows. */
  lemma StmtPasses(env: Env, ps: Parser, line: Line, s: Stmt, tail: seq<Tok>)
    requires !ps.replay && Written(s) && Clean(tail) && StmtRight(env, ps, s)
    requires Stream(Replay(ps)) == StmtToks(s) + tail && (s.EmptyStmt? ==> SwallowsAt(s, line.trees != [], tail))
    ensures ParseLine(env, ps, line) ==
      ParseLine(env, Next(Behind(ps, s, tail)), Extend(line, Chain(BuildStmt(env, ps.vars, s, ps.used), Nil)))
  {
    hide ParseLine, Clean, StmtToks, BuildItems, Build, Size, Next, Extend, Declared, ItemsFit, Stratified, Known,
         ItemWritten, ItemsSize;
    match s
    case ExprStmt(e) => ExprStmtExact(env, ps, line, e, tail);
    case DeclStmt(_, _) => DeclStmtExact(env, ps, line, s, tail);
    case EmptyStmt(_) => EmptyStmtExact(env, ps, line, s, tail);
  }

  ghost predicate LineRight(env: Env, ps: Parser, ss: seq<Stmt>) {
    LineFits(env, ps.vars, ss) && LineNew(ps.vars, ss) && ps.used + LineNodes(ss) <= NODE_MAX
  }

  lemma RightCons(env: Env, ps: Parser, ss: seq<Stmt>, tail: seq<Tok>)
    requires ss != []
    ensures LineRight(env, ps, ss) <==> StmtRight(env, ps, ss[0]) && LineRight(env, Behind(ps, ss[0], tail), ss[1..])
  {
    hide StmtFits, StmtSize, StmtToks, ItemsNew, ItemVars;
  }

  lemma TokensCons(ss: seq<Stmt>, rest: seq<Tok>, started: bool)
    requires ss != [] && Swallows(ss, started, rest == []) && Trailing(rest)
    ensures LineToks(ss) + rest == StmtToks(ss[0]) + (LineToks(ss[1..]) + rest)
    ensures Clean(LineToks(ss[1..]) + rest) && (ss[1..] != [] ==> LineToks(ss[1..]) + rest != [])
  {
    hide StmtToks, Clean, StmtTrees;
    LineClean(ss[1..], started || StmtTrees(ss[0]) > 0, rest == []);
    CleanAppend(LineToks(ss[1..]), rest);
    Assoc(StmtToks(ss[0]), LineToks(ss[1..]), rest);
  }

  lemma {:induction false} LineFails(env: Env, ps: Parser, line: Line, ss: seq<Stmt>, rest: seq<Tok>)
    requires !ps.replay && ps.used <= NODE_MAX && ss != [] && [ps.cur] + ps.rest == LineToks(ss) + rest
    requires Trailing(rest) && Swallows(ss, line.trees != [], rest == [])
    requires (forall s :: s in ss ==> Written(s)) && !LineRight(env, ps, ss)
    ensures ParseLine(env, ps, line).1.err != 0
    decreases |ss|
  {
    hide ParseLine, LineToks, StmtToks, StmtRight, LineRight, Clean, Next, Extend, Chain, BuildStmt, Written, Swallows,
         SwallowsAt;
    var s, tail := ss[0], LineToks(ss[1..]) + rest;
    RightCons(env, ps, ss, tail);
    TokensCons(ss, rest, line.trees != []);
    SwallowsHere(ss, rest, line.trees != []);
    if !StmtRight(env, ps, s) {
      StmtFails(env, ps, line, s, tail);
    } else {
      StmtPasses(env, ps, line, s, tail);
      var p1, more := Behind(ps, s, tail), Extend(line, Chain(BuildStmt(env, ps.vars, s, ps.used), Nil));
      RoomFor(env, ps, s, tail);
      NothingIsRight(env, p1);
      CleanHead(tail);
      NextIs(p1, tail[0], tail[1..]);
      SameRight(env, p1, Next(p1), ss[1..]);
      StartedAfter(env, ps.vars, line, ss, ps.used, rest == []);
      LineFails(env, Next(p1), more, ss[1..], rest);
    }
  }

  lemma RoomFor(env: Env, ps: Parser, s: Stmt, tail: seq<Tok>)
    requires StmtRight(env, ps, s)
    ensures var p1 := Behind(ps, s, tail); p1.used <= NODE_MAX && Stream(p1) == tail && !p1.replay
  {
    hide ItemVars, ItemsNew, StmtSize;
  }

  lemma NothingIsRight(env: Env, ps: Parser)
    ensures ps.used <= NODE_MAX ==> LineRight(env, ps, [])
  {
  }

  lemma SameRight(env: Env, p: Parser, q: Parser, ss: seq<Stmt>)
    requires p.vars == q.vars && p.used == q.used
    ensures LineRight(env, p, ss) == LineRight(env, q, ss)
  {
  }

  /** The tokens of a line of statements are parsed without an error if and only if every name in it is known
      where it is used, every declared name is new and finds an entry, and the trees fit the pool. */
  lemma TokensAccepted(env: Env, vars: seq<Variable>, ss: seq<Stmt>, rest: seq<Tok>)
    requires (forall s :: s in ss ==> Written(s)) && Trailing(rest) && Swallows(ss, false, rest == [])
    ensures ParserRun(env, vars, LineToks(ss) + rest).1.err == 0 <==>
      LineFits(env, vars, ss) && LineNew(vars, ss) && LineNodes(ss) <= NODE_MAX
  {
    hide ParseLine, BuildLine, LineFits, LineToks, LineNodes, Next, LineNew, Written, Swallows, StmtToks, Clean;
    if LineFits(env, vars, ss) && LineNew(vars, ss) && LineNodes(ss) <= NODE_MAX {
      TokensRead(env, vars, ss, rest);
    } else {
      var all := LineToks(ss) + rest;
      var ps := Parser(Tok(TokEof, "", 0, 0), false, all, 0, 0, vars);
      NothingIsRight(env, ps);
      assert ss != [];
      TokensCons(ss, rest, false);
      LineClean(ss, false, rest == []);
      CleanAppend(LineToks(ss), rest);
      CleanHead(all);
      NextIs(ps, ps.rest[0], ps.rest[1..]);
      LineFails(env, Next(ps), Line([], Nil), ss, rest);
    }
  }

  /** The same of a line of text, however it is spelled. */
  lemma LineAccepted(env: Env, vars: seq<Variable>, ss: seq<Stmt>, line: string)
    requires Reads(line, ss) && forall s :: s in ss ==> Written(s)
    ensures ParserRun(env, vars, Tokens(Lex(line, 0, false))).1.err == 0 <==>
      LineFits(env, vars, ss) && LineNew(vars, ss) && LineNodes(ss) <= NODE_MAX
  {
    hide ParserRun, Tokens, LineFits, LineToks, LineNodes, LineNew, Written, Trailing, Swallows, Good;
    var tokens := Tokens(Lex(line, 0, false));
    var rest :| tokens == LineToks(ss) + rest && Trailing(rest) && Swallows(ss, false, rest == []);
    TokensAccepted(env, vars, ss, rest);
  }

  // ----- empty statements -----

  /** `e; ; c;` with a number or a name `c`: that statement is never made a tree of, and no error says so. */
  lemma SwallowedStatement(env: Env, vars: seq<Variable>, e: Term, c: Tok)
    requires Stratified(e) && Known(env, vars, e) && Size(e) <= NODE_MAX && c.err == 0
    ensures var semi := Sign(TokSemicolon);
      var (f, end) := ParserRun(env, vars, Toks(e) + [semi] + [semi, c] + [semi]);
      f == Build(env, vars, e, 0) && end.err == 0
  {
    hide Toks, Build, Stratified, Known, Size, ParserRun;
    var semi := Sign(TokSemicolon);
    var ss := [ExprStmt(e), EmptyStmt([c]), EmptyStmt([])];
    assert ss[1..] == [EmptyStmt([c]), EmptyStmt([])] && ss[1..][1..] == [EmptyStmt([])] && ss[1..][1..][1..] == [];
    assert LineToks(ss[1..][1..]) == [semi] + [] + [] == [semi];
    assert LineToks(ss[1..]) == [semi] + [c] + [semi] == [semi, c] + [semi];
    assert LineToks(ss) == Toks(e) + [semi] + ([semi, c] + [semi]);
    Assoc(Toks(e) + [semi], [semi, c], [semi]);
    assert LineToks(ss) + [] == LineToks(ss) && Trailing([]);
    SwallowedLine(env, vars, e, c);
    TokensRead(env, vars, ss, []);
  }

  /** An empty statement before the end, or before another one. */
  lemma EmptyLine(env: Env, vars: seq<Variable>, k: seq<Tok>, u: nat)
    requires (k != [] ==> |k| == 1 && k[0].err == 0)
    ensures var ss := [EmptyStmt(k)] + if k != [] then [EmptyStmt([])] else [];
      && LineFits(env, vars, ss) && LineNodes(ss) == 0 && Swallows(ss, true, true) && LineNew(vars, ss)
      && BuildLine(env, vars, ss, u) == Nil
  {
    var one := [EmptyStmt([])];
    assert one[1..] == [];
    assert LineFits(env, vars, one) && LineNodes(one) == 0 && Swallows(one, true, true) && LineNew(vars, one);
    assert BuildLine(env, vars, one, u) == Nil;
    if k != [] {
      var ss := [EmptyStmt(k)] + one;
      assert ss[1..] == one && ss[0] == EmptyStmt(k);
    }
  }

  lemma SwallowedLine(env: Env, vars: seq<Variable>, e: Term, c: Tok)
    requires Stratified(e) && Known(env, vars, e) && Size(e) <= NODE_MAX && c.err == 0
    ensures var ss := [ExprStmt(e), EmptyStmt([c]), EmptyStmt([])];
      && LineFits(env, vars, ss) && LineNodes(ss) <= NODE_MAX && Swallows(ss, false, true) && LineNew(vars, ss)
      && BuildLine(env, vars, ss, 0) == Build(env, vars, e, 0)
  {
    hide Build, Stratified, Known, Size;
    var ss := [ExprStmt(e), EmptyStmt([c]), EmptyStmt([])];
    assert ss[1..] == [EmptyStmt([c]), EmptyStmt([])] && ss[1..][1..] == [EmptyStmt([])] && ss[1..][1..][1..] == [];
    var f := Build(env, vars, e, 0);
    ChainOne(f);
    assert Kept([f], false) == [f];
    EmptyLine(env, vars, [c], Size(e));
    assert [EmptyStmt([c])] + [EmptyStmt([])] == ss[1..];
  }
}
