/** Whatever line is parsed: the result is a finite forest of distinct pool nodes, and without an error
    every operator in it has all its operands. */
module Soundness {
  import opened Machine
  import opened Limits
  import opened Ast
  import opened Lexer
  import opened Grammar
  import opened Codegen

  ghost predicate HasArity(kind: Kind, child: Forest) {
    match kind
    case KBin(_) | KAssign => Length(child) == 2
    case KInvert | KPreInc | KPreDec | KInc | KDec | KGetValue | KGetAddr => Length(child) == 1
    case KFunc => Length(child) >= 1
    case KId | KChar | KInt | KLong | KString | KNull => Length(child) == 0
    case KUnknown => false
  }

  /** Every node has the operands its kind asks for, and every identifier stands for something. */
  ghost predicate Complete(f: Forest) {
    f.Node? ==>
      && HasArity(f.kind, f.child) && (f.kind == KId ==> f.sym != NoSymbol)
      && Complete(f.child) && Complete(f.next)
  }

  /** No node twice, and all of them from one range of the pool. */
  ghost predicate Fresh(f: Forest, lo: nat, hi: nat) {
    Distinct(f) && forall i :: i in Indices(f) ==> lo <= i < hi
  }

  /** A parsed expression: one tree, without errors complete. */
  ghost predicate IsOperand(f: Forest, err: nat) {
    && (f.Node? ==> f.next.Nil?)
    && (err == 0 ==> f.Node? && Complete(f))
  }

  /** A step of the parser takes nodes in order and never forgets an error. */
  ghost predicate Onward(ps: Parser, ps': Parser) {
    ps.used <= ps'.used <= NODE_MAX && (ps.err != 0 ==> ps'.err != 0)
  }

  ghost predicate Sound(ps: Parser, lo: nat, r: (Forest, Parser)) {
    Onward(ps, r.1) && Fresh(r.0, lo, r.1.used) && IsOperand(r.0, r.1.err)
  }

  lemma Widen(f: Forest, lo: nat, hi: nat, lo': nat, hi': nat)
    requires Fresh(f, lo, hi) && lo' <= lo && hi <= hi'
    ensures Fresh(f, lo', hi')
  {
  }

  lemma FreshParts(f: Forest, lo: nat, hi: nat)
    requires f.Node?
    ensures Fresh(f, lo, hi) <==>
      && lo <= f.at < hi && Fresh(f.child, lo, hi) && Fresh(f.next, lo, hi)
      && f.at !in Indices(f.child) && f.at !in Indices(f.next) && Indices(f.child) !! Indices(f.next)
  {
    assert Indices(f) == {f.at} + Indices(f.child) + Indices(f.next);
    if Fresh(f, lo, hi) {
      assert f.at in Indices(f);
    }
  }

  /** Forests from separate ranges are disjoint. */
  lemma Apart(f: Forest, g: Forest, lo: nat, m: nat, hi: nat)
    requires Fresh(f, lo, m) && Fresh(g, m, hi) && lo <= m <= hi
    ensures Indices(f) !! Indices(g) && Fresh(f, lo, hi) && Fresh(g, lo, hi)
    ensures f.Node? ==> f.at in Indices(f) && lo <= f.at < m && f.at !in Indices(g)
    ensures g.Node? ==> g.at in Indices(g) && m <= g.at < hi && g.at !in Indices(f)
    ensures hi !in Indices(f) && hi !in Indices(g)
  {
  }

  lemma Link(f: Forest, g: Forest, lo: nat, m: nat, hi: nat)
    requires Fresh(f, lo, m) && Fresh(g, m, hi) && lo <= m <= hi && (f.Node? ==> f.next.Nil?)
    ensures Fresh(Linked(f, g), lo, hi)
    ensures f.Node? ==> Length(Linked(f, g)) == 1 + Length(g)
    ensures Complete(f) && Complete(g) ==> Complete(Linked(f, g))
  {
    if f.Node? {
      Apart(f, g, lo, m, hi);
      FreshParts(f, lo, m);
      FreshParts(Linked(f, g), lo, hi);
    }
  }

  lemma LeafSound(ps: Parser, kind: Kind, value: Word)
    requires ps.used <= NODE_MAX && kind in {KChar, KInt, KLong, KString, KNull}
    ensures Sound(ps, ps.used, NewLeaf(ps, kind, value))
  {
  }

  lemma IdSound(env: Env, ps: Parser, name: string)
    requires ps.used <= NODE_MAX
    ensures Sound(ps, ps.used, NewId(env, ps, name))
  {
    hide Resolve;
    var (f, p1) := NewId(env, ps, name);
    if f.Node? {
      FreshParts(f, ps.used, p1.used);
      assert Complete(f) && IsOperand(f, p1.err);
    }
    assert Onward(ps, p1);
    assert Fresh(f, ps.used, p1.used);
  }

  /** A node above its operands. */
  lemma SysSound(ps: Parser, kind: Kind, f: Forest, g: Forest, lo: nat, m: nat)
    requires ps.used <= NODE_MAX && lo <= m <= ps.used
    requires Fresh(f, lo, m) && Fresh(g, m, ps.used) && IsOperand(f, ps.err)
    requires ps.err == 0 ==> Complete(g) && HasArity(kind, Linked(f, g))
    ensures Sound(ps, lo, MakeSys(ps, kind, f, g))
  {
    Link(f, g, lo, m, ps.used);
    hide HasArity;
    var (node, p1) := MakeSys(ps, kind, f, g);
    if node.Node? {
      FreshParts(node, lo, p1.used);
    }
  }

  lemma OneOperand(ps: Parser, kind: Kind, f: Forest, lo: nat)
    requires lo <= ps.used <= NODE_MAX
    requires Fresh(f, lo, ps.used) && IsOperand(f, ps.err)
    requires kind in {KInvert, KPreInc, KPreDec, KInc, KDec, KGetValue, KGetAddr}
    ensures Sound(ps, lo, MakeSys(ps, kind, f, Nil))
  {
    Link(f, Nil, lo, ps.used, ps.used);
    SysSound(ps, kind, f, Nil, lo, ps.used);
  }

  lemma TwoOperands(ps: Parser, kind: Kind, f: Forest, g: Forest, lo: nat, m: nat)
    requires ps.used <= NODE_MAX && lo <= m <= ps.used
    requires Fresh(f, lo, m) && Fresh(g, m, ps.used) && IsOperand(f, ps.err) && IsOperand(g, ps.err)
    requires kind.KBin? || kind.KAssign?
    ensures Sound(ps, lo, MakeSys(ps, kind, f, g))
  {
    Link(f, g, lo, m, ps.used);
    SysSound(ps, kind, f, g, lo, m);
  }

  /** The first operand may have been allocated behind the second. */
  lemma SwappedOperands(ps: Parser, kind: Kind, left: Forest, right: Forest, lo: nat, m: nat)
    requires lo <= m <= ps.used <= NODE_MAX && (kind.KBin? || kind.KAssign?)
    requires Fresh(right, lo, m) && Fresh(left, m, ps.used) && IsOperand(left, ps.err) && IsOperand(right, ps.err)
    ensures Sound(ps, lo, MakeSys(ps, kind, left, right))
  {
    Apart(right, left, lo, m, ps.used);
    var (node, p1) := MakeSys(ps, kind, left, right);
    if left.Node? {
      FreshParts(left, lo, ps.used);
      FreshParts(Linked(left, right), lo, ps.used);
    }
    if node.Node? {
      FreshParts(node, lo, p1.used);
    }
  }

  lemma TypeOnward(ps: Parser)
    requires ps.used <= NODE_MAX
    ensures Onward(ps, ParseType(ps).1) && ParseType(ps).1.used == ps.used
  {
  }

  // One lemma for each level of the grammar.

  lemma {:induction false} AssignSound(env: Env, ps: Parser)
    requires ps.used <= NODE_MAX
    ensures Sound(ps, ps.used, ParseAssign(env, ps))
    decreases Fuel(ps), 12
  {
    hide Fresh, IsOperand, MakeSys, ParseBin;
    var (left, p1) := ParseBin(env, ps, 1);
    BinSound(env, ps, 1);
    var p2 := Next(p1);
    if Cur(p2) == TokAssign {
      AssignSound(env, p2);
      var (right, p3) := ParseAssign(env, p2);
      StillOperand(left, p1.err, p3.err);
      TwoOperands(p3, KAssign, left, right, ps.used, p1.used);
    } else {
      StillOperand(left, p1.err, p2.err);
    }
  }

  lemma StillOperand(f: Forest, err: nat, err': nat)
    requires IsOperand(f, err) && (err != 0 ==> err' != 0)
    ensures IsOperand(f, err')
  {
  }

  lemma {:induction false} BinSound(env: Env, ps: Parser, k: nat)
    requires ps.used <= NODE_MAX && 1 <= k <= CAST_LEVEL
    ensures Sound(ps, ps.used, ParseBin(env, ps, k))
    decreases Fuel(ps), 11 - k
  {
    hide Fresh, IsOperand;
    if k == CAST_LEVEL {
      CastSound(env, ps);
    } else {
      BinSound(env, ps, k + 1);
      var (left, p1) := ParseBin(env, ps, k + 1);
      BinLoopSound(env, p1, k, left, ps.used);
    }
  }

  lemma {:induction false} BinLoopSound(env: Env, ps: Parser, k: nat, left: Forest, lo: nat)
    requires lo <= ps.used <= NODE_MAX && 1 <= k < CAST_LEVEL
    requires Fresh(left, lo, ps.used) && IsOperand(left, ps.err)
    ensures Sound(ps, lo, BinLoop(env, ps, k, left))
    decreases Fuel(ps), 0
  {
    hide Fresh, IsOperand, MakeSys, ParseBin;
    var p1 := Next(ps);
    var op := LevelOp(k, Cur(p1));
    if op.None? {
      StillOperand(left, ps.err, p1.err);
    } else {
      BinSound(env, p1, k + 1);
      var (right, p2) := ParseBin(env, p1, k + 1);
      if right.Nil? {
        Widen(left, lo, ps.used, lo, p2.used);
        NoOperand(left, ps.err, ERROR_EXPECT_OPERATOR);
        BinLoopSound(env, Error(p2, ERROR_EXPECT_OPERATOR), k, left, lo);
      } else {
        StillOperand(left, ps.err, p2.err);
        TwoOperands(p2, KBin(op.value), left, right, lo, ps.used);
        var (node, p3) := MakeSys(p2, KBin(op.value), left, right);
        BinLoopSound(env, p3, k, node, lo);
      }
    }
  }

  lemma NoOperand(f: Forest, err: nat, err': nat)
    requires IsOperand(f, err) && err' != 0
    ensures IsOperand(f, err')
  {
  }

  lemma CastOf(f: Forest, dt: nat, lo: nat, hi: nat, err: nat)
    requires f.Node? && Fresh(f, lo, hi) && IsOperand(f, err)
    ensures Fresh(f.(dt := dt), lo, hi) && IsOperand(f.(dt := dt), err)
  {
    FreshParts(f, lo, hi);
    FreshParts(f.(dt := dt), lo, hi);
  }

  lemma {:induction false} CastSound(env: Env, ps: Parser)
    requires ps.used <= NODE_MAX
    ensures Sound(ps, ps.used, ParseCast(env, ps))
    decreases Fuel(ps), 3
  {
    hide Fresh, IsOperand, ParseUnary, ParseType;
    var p1 := Next(ps);
    if Cur(p1) == TokLeftParen {
      var (ty, p2) := ParseType(p1);
      TypeOnward(p1);
      var p := Match(p2, TokRightParen);
      CastSound(env, p);
      var (cast, p3) := ParseCast(env, p);
      if cast.Node? {
        CastOf(cast, TypeNumber(ty), ps.used, p3.used, p3.err);
      } else {
        UnarySound(env, Replay(p3));
        var r := ParseUnary(env, Replay(p3));
        Widen(r.0, p3.used, r.1.used, ps.used, r.1.used);
      }
    } else {
      UnarySound(env, Replay(p1));
    }
  }

  lemma {:induction false} UnarySound(env: Env, ps: Parser)
    requires ps.used <= NODE_MAX
    ensures Sound(ps, ps.used, ParseUnary(env, ps))
    decreases Fuel(ps), 2
  {
    hide Fresh, IsOperand, ParseCast, ParsePostfix, MakeSys, Negate;
    var p1 := Next(ps);
    if Cur(p1) == TokAdd {
      CastSound(env, p1);
    } else if Cur(p1) == TokSub {
      CastSound(env, p1);
      var (cast, p2) := ParseCast(env, p1);
      NegSound(p2, cast, ps.used);
    } else if UnaryKind(Cur(p1)).Some? {
      CastSound(env, p1);
      var (cast, p2) := ParseCast(env, p1);
      OneOperand(p2, UnaryKind(Cur(p1)).value, cast, ps.used);
    } else {
      PostfixSound(env, Replay(p1));
    }
  }

  /** The zero of a unary minus is allocated behind its operand and linked before it. */
  lemma NegSound(ps: Parser, f: Forest, lo: nat)
    requires lo <= ps.used <= NODE_MAX && Fresh(f, lo, ps.used) && IsOperand(f, ps.err)
    ensures Sound(ps, lo, Negate(ps, f))
  {
    var (zero, p1) := NewLeaf(ps, KLong, 0);
    LeafSound(ps, KLong, 0);
    StillOperand(f, ps.err, p1.err);
    SwappedOperands(p1, KBin(Sub), zero, f, lo, ps.used);
  }

  lemma {:induction false} PostfixSound(env: Env, ps: Parser)
    requires ps.used <= NODE_MAX
    ensures Sound(ps, ps.used, ParsePostfix(env, ps))
    decreases Fuel(ps), 1
  {
    hide Fresh, IsOperand, ParsePrimary, PostLoop;
    PrimarySound(env, ps);
    var (primary, p1) := ParsePrimary(env, ps);
    PostLoopSound(env, p1, primary, ps.used);
  }

  lemma {:induction false} PostLoopSound(env: Env, ps: Parser, f: Forest, lo: nat)
    requires lo <= ps.used <= NODE_MAX && Fresh(f, lo, ps.used) && IsOperand(f, ps.err)
    ensures Sound(ps, lo, PostLoop(env, ps, f))
    decreases Fuel(ps), 0
  {
    hide Fresh, IsOperand, MakeSys, ParseParens, Complete;
    var p1 := Next(ps);
    StillOperand(f, ps.err, p1.err);
    if Cur(p1) in {TokInc, TokDec} {
      var kind := if Cur(p1) == TokInc then KInc else KDec;
      OneOperand(p1, kind, f, lo);
      var (node, p2) := MakeSys(p1, kind, f, Nil);
      PostLoopSound(env, p2, node, lo);
    } else if Cur(p1) == TokLeftParen {
      ParensSound(env, p1);
      var (params, p2) := ParseParens(env, p1);
      StillOperand(f, p1.err, p2.err);
      CallSound(p2, f, params, lo, p1.used);
      var (node, p3) := MakeSys(p2, KFunc, f, params);
      PostLoopSound(env, p3, node, lo);
    }
  }

  lemma CallSound(ps: Parser, f: Forest, params: Forest, lo: nat, m: nat)
    requires ps.used <= NODE_MAX && lo <= m <= ps.used
    requires Fresh(f, lo, m) && Fresh(params, m, ps.used) && IsOperand(f, ps.err)
    requires ps.err == 0 ==> Complete(params)
    ensures Sound(ps, lo, MakeSys(ps, KFunc, f, params))
  {
    SysSound(ps, KFunc, f, params, lo, m);
  }

  /** A list of parameters: a chain of complete trees, possibly empty. */
  ghost predicate SoundList(ps: Parser, r: (Forest, Parser)) {
    Onward(ps, r.1) && Fresh(r.0, ps.used, r.1.used) && (r.1.err == 0 ==> Complete(r.0))
  }

  lemma Empty(n: nat)
    ensures Fresh(Nil, n, n) && Complete(Nil)
  {
  }

  lemma {:induction false} ParensSound(env: Env, ps: Parser)
    requires ps.used <= NODE_MAX
    ensures SoundList(ps, ParseParens(env, ps))
    decreases Fuel(ps), 14
  {
    hide Fresh, ParseParams;
    var p1 := Next(ps);
    if Cur(p1) == TokRightParen {
      Empty(ps.used);
    } else {
      ParamsSound(env, Replay(p1));
    }
  }

  lemma {:induction false} ParamsSound(env: Env, ps: Parser)
    requires ps.used <= NODE_MAX
    ensures SoundList(ps, ParseParams(env, ps))
    decreases Fuel(ps), 13
  {
    hide ParseAssign, ParamLoop;
    AssignSound(env, ps);
    var (first, p1) := ParseAssign(env, ps);
    if first.Node? {
      ParamLoopSound(env, p1);
      var (rest, p2) := ParamLoop(env, p1);
      Link(first, rest, ps.used, p1.used, p2.used);
    }
  }

  lemma {:induction false} ParamLoopSound(env: Env, ps: Parser)
    requires ps.used <= NODE_MAX
    ensures SoundList(ps, ParamLoop(env, ps))
    decreases Fuel(ps), 0
  {
    hide ParseAssign;
    var p1 := Next(ps);
    if Cur(p1) == TokComma {
      AssignSound(env, p1);
      var (e, p2) := ParseAssign(env, p1);
      if e.Nil? {
        ParamLoopSound(env, Error(p2, ERROR_EXPECT_OPERATOR));
      } else {
        ParamLoopSound(env, p2);
        var (rest, p3) := ParamLoop(env, p2);
        Link(e, rest, p1.used, p2.used, p3.used);
      }
    }
  }

  lemma {:induction false} PrimarySound(env: Env, ps: Parser)
    requires ps.used <= NODE_MAX
    ensures Sound(ps, ps.used, ParsePrimary(env, ps))
    decreases Fuel(ps), 0
  {
    hide ParseAssign, NewLeaf, NewId, CName;
    var p1 := Next(ps);
    match Cur(p1)
    case TokIdentifier =>
      var (id, p2) := ParseIdentifier(Replay(p1));
      hide Fresh, IsOperand;
      IdSound(env, p2, id);
    case TokLeftParen =>
      AssignSound(env, p1);
      var (f, p2) := ParseAssign(env, p1);
      StillOperand(f, p2.err, Match(p2, TokRightParen).err);
    case TokValueInt => LeafSound(p1, KInt, p1.cur.value);
    case TokValueLong => LeafSound(p1, KLong, p1.cur.value);
    case TokValueChar => LeafSound(p1, KChar, p1.cur.value);
    case TokValueString => LeafSound(p1, KString, env.stringAt(p1.used, CString(p1.cur.str)));
    case TokValueNull => LeafSound(p1, KNull, 0);
    case _ =>
  }

  // ----- chains of statements -----

  ghost predicate AreTrees(trees: seq<Forest>) {
    forall f :: f in trees ==> f.Node?
  }

  lemma {:induction false} ChainSnoc(trees: seq<Forest>, f: Forest)
    requires f.Node?
    ensures Chain(trees + [f.(next := Nil)], f.next) == Chain(trees, f)
  {
    var more := trees + [f.(next := Nil)];
    if trees == [] {
      assert Chain(more[1..], f.next) == f.next;
    } else {
      assert more[1..] == trees[1..] + [f.(next := Nil)];
      ChainSnoc(trees[1..], f);
    }
  }

  lemma {:induction false} ChainUncut(trees: seq<Forest>, g: Forest, lo: nat, hi: nat)
    requires AreTrees(trees) && Fresh(Chain(trees, g), lo, hi)
    ensures Fresh(Chain(trees, Nil), lo, hi) && Indices(Chain(trees, Nil)) <= Indices(Chain(trees, g))
    ensures Complete(Chain(trees, g)) ==> Complete(Chain(trees, Nil))
  {
    if trees != [] {
      assert trees[0] in trees;
      FreshParts(Chain(trees, g), lo, hi);
      ChainUncut(trees[1..], g, lo, hi);
      FreshParts(Chain(trees, Nil), lo, hi);
    }
  }

  lemma {:induction false} ChainJoin(trees: seq<Forest>, g: Forest, lo: nat, m: nat, hi: nat)
    requires AreTrees(trees) && Fresh(Chain(trees, Nil), lo, m) && Fresh(g, m, hi) && lo <= m <= hi
    ensures Fresh(Chain(trees, g), lo, hi)
    ensures Indices(Chain(trees, g)) == Indices(Chain(trees, Nil)) + Indices(g)
    ensures Complete(Chain(trees, Nil)) && Complete(g) ==> Complete(Chain(trees, g))
  {
    if trees != [] {
      assert trees[0] in trees;
      FreshParts(Chain(trees, Nil), lo, m);
      ChainJoin(trees[1..], g, lo, m, hi);
      FreshParts(Chain(trees, g), lo, hi);
    }
  }

  lemma AppendSound(trees: seq<Forest>, f: Forest, lo: nat, m: nat, hi: nat)
    requires AreTrees(trees) && Fresh(Chain(trees, Nil), lo, m) && Fresh(f, m, hi) && lo <= m <= hi
    requires f.Node? ==> f.next.Nil?
    ensures var more := Append(trees, f);
      && AreTrees(more) && Fresh(Chain(more, Nil), lo, hi)
      && (Complete(Chain(trees, Nil)) && Complete(f) ==> Complete(Chain(more, Nil)))
  {
    if f.Node? {
      ChainJoin(trees, f, lo, m, hi);
      ChainSnoc(trees, f);
      assert f.(next := Nil) == f;
    } else {
      Widen(Chain(trees, Nil), lo, m, lo, hi);
    }
  }

  /** The assignments of a declaration. */
  ghost predicate SoundTrees(ps: Parser, lo: nat, trees: seq<Forest>, end: Parser) {
    && Onward(ps, end) && AreTrees(trees) && Fresh(Chain(trees, Nil), lo, end.used)
    && (end.err == 0 ==> Complete(Chain(trees, Nil)))
  }

  ghost predicate TreesBefore(ps: Parser, lo: nat, trees: seq<Forest>) {
    lo <= ps.used <= NODE_MAX && SoundTrees(ps, lo, trees, ps)
  }

  lemma InitialiserSound(env: Env, ps: Parser, id: string, trees: seq<Forest>, lo: nat)
    requires TreesBefore(ps, lo, trees)
    ensures var r := Initialiser(env, ps, id, trees); SoundTrees(ps, lo, r.0, r.1)
  {
    hide ParseAssign, NewId, MakeSys, Fresh, Complete;
    AssignSound(env, ps);
    var (right, p1) := ParseAssign(env, ps);
    Widen(Chain(trees, Nil), lo, ps.used, lo, p1.used);
    if right.Node? {
      IdSound(env, p1, id);
      var (left, p2) := NewId(env, p1, id);
      StillOperand(right, p1.err, p2.err);
      SwappedOperands(p2, KAssign, left, right, ps.used, p1.used);
      var (node, p3) := MakeSys(p2, KAssign, left, right);
      AppendSound(trees, node, lo, ps.used, p3.used);
    }
  }

  lemma NamedOnward(ps: Parser, id: string, p1: Parser, ty: FinshType)
    requires ParseIdentifier(ps) == (id, p1)
    ensures var p2 := Next(Declare(p1, id, ty));
      p2.used == ps.used && (ps.err != 0 ==> p2.err != 0)
  {
    hide CName, VarInsert;
  }

  lemma DeclaratorSound(env: Env, ps: Parser, ty: FinshType, trees: seq<Forest>, lo: nat)
    requires TreesBefore(ps, lo, trees)
    ensures var r := Declarator(env, ps, ty, trees); SoundTrees(ps, lo, r.0, r.1)
  {
    hide Fresh, Complete, CName, VarInsert, Initialiser, AreTrees, Chain, ParseIdentifier, Next, Declare;
    var (id, p1) := ParseIdentifier(ps);
    var p2 := Next(Declare(p1, id, ty));
    NamedOnward(ps, id, p1, ty);
    if Cur(p2) == TokAssign {
      InitialiserSound(env, p2, id, trees, lo);
    }
  }

  lemma {:induction false} DeclLoopSound(env: Env, ps: Parser, ty: FinshType, token: TokenKind, trees: seq<Forest>,
      lo: nat)
    requires TreesBefore(ps, lo, trees)
    ensures var r := DeclLoop(env, ps, ty, token, trees); SoundTrees(ps, lo, r.0, r.1)
    decreases Fuel(ps), if token == TokComma then 1 else 0
  {
    hide Fresh, Complete, Declarator;
    if token == TokComma {
      DeclaratorSound(env, ps, ty, trees, lo);
      var (trees', p1, token') := Declarator(env, ps, ty, trees);
      DeclLoopSound(env, p1, ty, token', trees', lo);
    }
  }

  lemma DeclSound(env: Env, ps: Parser)
    requires ps.used <= NODE_MAX
    ensures SoundList(ps, ParseDecl(env, ps))
  {
    hide Declarators, CName, VarInsert, ParseType, Fresh, Complete;
    TypeOnward(ps);
    var (ty, p1) := ParseType(ps);
    var (id, p2) := ParseIdentifier(p1);
    DeclaratorsSound(env, Next(Declare(p2, id, ty)), id, ty);
  }

  lemma DeclaratorsSound(env: Env, ps: Parser, id: string, ty: FinshType)
    requires ps.used <= NODE_MAX && !ps.replay
    ensures SoundList(ps, Declarators(env, ps, id, ty))
  {
    hide Initialiser, DeclLoop;
    assert TreesBefore(ps, ps.used, []);
    hide Fresh, Complete;
    match Cur(ps)
    case TokComma => DeclLoopSound(env, ps, ty, TokComma, [], ps.used);
    case TokAssign =>
      InitialiserSound(env, ps, id, [], ps.used);
      var (trees, p1, token) := Initialiser(env, ps, id, []);
      DeclLoopSound(env, p1, ty, token, trees, ps.used);
    case _ =>
  }

  lemma StatementSound(env: Env, ps: Parser)
    requires ps.used <= NODE_MAX
    ensures SoundList(ps, ParseStatement(env, ps))
  {
    hide ParseAssign;
    var p1 := Next(ps);
    if Cur(p1) != TokSemicolon {
      AssignSound(env, Replay(p1));
    }
  }

  ghost predicate SoundLine(line: Line, ps: Parser) {
    && ps.used <= NODE_MAX && AreTrees(line.trees)
    && Fresh(Chain(line.trees, line.tail), 0, ps.used)
    && (ps.err == 0 ==> Complete(Chain(line.trees, line.tail)))
  }

  lemma ExtendSound(line: Line, ps: Parser, f: Forest, end: Parser)
    requires SoundLine(line, ps) && SoundList(ps, (f, end))
    ensures SoundLine(Extend(line, f), end)
  {
    hide Fresh, Complete;
    ChainUncut(line.trees, line.tail, 0, ps.used);
    if f.Node? {
      ChainJoin(line.trees, f, 0, ps.used, end.used);
      ChainSnoc(line.trees, f);
    } else {
      Widen(Chain(line.trees, Nil), 0, ps.used, 0, end.used);
    }
  }

  lemma TurnSound(env: Env, ps: Parser, started: bool)
    requires ps.used <= NODE_MAX && Cur(ps) != TokEof && Cur(ps) != TokBad && !ps.replay
    ensures SoundList(ps, LineTurn(env, ps, started))
  {
    hide Fresh, Complete, ParseStatement, ParseDecl;
    if Cur(ps) != TokIdentifier && (IsBaseType(Cur(ps)) || Cur(ps) == TokUnsigned) {
      DeclSound(env, Replay(ps));
    } else {
      StatementSound(env, Replay(ps));
    }
  }

  lemma {:induction false} ParseLineSound(env: Env, ps: Parser, line: Line)
    requires SoundLine(line, ps) && !ps.replay
    ensures var (l, end) := ParseLine(env, ps, line); SoundLine(l, end)
    decreases Fuel(ps), if Cur(ps) == TokEof then 0 else 1
  {
    hide LineTurn, SoundLine, SoundList, Extend;
    if Cur(ps) != TokEof && Cur(ps) != TokBad {
      var (f, p1) := LineTurn(env, ps, line.trees != []);
      SoundBound(line, ps);
      TurnSound(env, ps, line.trees != []);
      TurnReads(env, ps, line.trees != []);
      ExtendSound(line, ps, f, p1);
      ParseLineSound(env, p1, Extend(line, f));
    }
  }

  lemma SoundBound(line: Line, ps: Parser)
    requires SoundLine(line, ps)
    ensures ps.used <= NODE_MAX
  {
  }

  lemma {:induction false} CompleteHasOperands(f: Forest)
    requires Complete(f)
    ensures HasOperands(f)
  {
    if f.Node? {
      CompleteHasOperands(f.child);
      CompleteHasOperands(f.next);
    }
  }

  lemma {:induction false} Bounded(s: set<nat>, n: nat)
    requires forall i :: i in s ==> i < n
    ensures |s| <= n
  {
    if n > 0 {
      Bounded(s - {n - 1}, n - 1);
    }
  }

  /** For every line the shell can supply and every variable table: the parser's result is a forest
      of at most 16 distinct pool nodes; if no error was raised, every operator in it has all its
      operands, so the compiler can follow its links. */
  lemma ParseSound(env: Env, vars: seq<Variable>, line: string)
    requires Good(line)
    ensures var (f, end) := ParserRun(env, vars, Tokens(Lex(line, 0, false)));
      && Distinct(f) && Count(f) <= NODE_MAX && (forall i :: i in Indices(f) ==> i < NODE_MAX)
      && (end.err == 0 ==> Complete(f) && HasOperands(f))
  {
    var tokens := Tokens(Lex(line, 0, false));
    var ps := Parser(Tok(TokEof, "", 0, 0), false, tokens, 0, 0, vars);
    ParseLineSound(env, Next(ps), Line([], Nil));
    var (l, end) := ParseLine(env, Next(ps), Line([], Nil));
    var f := Chain(l.trees, l.tail);
    CountIsIndices(f);
    Bounded(Indices(f), end.used);
    if end.err == 0 {
      CompleteHasOperands(f);
    }
  }

  // ----- parentheses -----

  lemma TypeNeeded(ps: Parser)
    requires ps.used <= NODE_MAX
    ensures var k := Cur(Next(ps)); !IsBaseType(k) && k != TokUnsigned ==> ParseType(ps).1.err != 0
  {
  }

  /** A parenthesis where an operand can begin is accepted if and only if it is a cast that is: it never
      groups an expression, although the grammar comment lists that. */
  lemma ParenIsCast(env: Env, ps: Parser)
    requires ps.used <= NODE_MAX && Cur(Next(ps)) == TokLeftParen
    ensures var p2 := ParseType(Next(ps)).1;
      ParseCast(env, ps).1.err == 0 <==> ParseCast(env, Match(p2, TokRightParen)).1.err == 0
    ensures ParseCast(env, ps).1.err == 0 ==> var k := Cur(Next(Next(ps))); IsBaseType(k) || k == TokUnsigned
  {
    hide ParseType, ParseUnary, Fresh, Complete, Next, TypeNumber;
    NextFacts(ps);
    var p1 := Next(ps);
    TypeNeeded(p1);
    TypeOnward(p1);
    var p2 := ParseType(p1).1;
    MatchOnward(p2, TokRightParen);
    var p := Match(p2, TokRightParen);
    CastSound(env, p);
    var p3 := ParseCast(env, p).1;
    UnarySound(env, Replay(p3));
  }

  lemma MatchOnward(ps: Parser, k: TokenKind)
    requires ps.used <= NODE_MAX
    ensures Onward(ps, Match(ps, k)) && Match(ps, k).used == ps.used
  {
  }

  lemma {:induction false} LevelsReject(env: Env, ps: Parser, k: nat)
    requires ps.used <= NODE_MAX && 1 <= k <= CAST_LEVEL && ParseCast(env, ps).1.err != 0
    ensures ParseBin(env, ps, k).1.err != 0
    decreases CAST_LEVEL - k
  {
    hide ParseCast, BinLoop, Fresh, IsOperand;
    if k < CAST_LEVEL {
      LevelsReject(env, ps, k + 1);
      BinSound(env, ps, k + 1);
      var (left, p1) := ParseBin(env, ps, k + 1);
      BinLoopSound(env, p1, k, left, ps.used);
    }
  }

  lemma AssignRejects(env: Env, ps: Parser)
    requires ps.used <= NODE_MAX && ParseBin(env, ps, 1).1.err != 0
    ensures ParseAssign(env, ps).1.err != 0
  {
    hide ParseBin, MakeSys, Fresh, IsOperand, Next;
    BinSound(env, ps, 1);
    var (left, p1) := ParseBin(env, ps, 1);
    NextFacts(p1);
    var p2 := Next(p1);
    if Cur(p2) == TokAssign {
      AssignSound(env, p2);
      var (right, p3) := ParseAssign(env, p2);
      SysKeepsError(p3, KAssign, left, right);
    }
  }

  lemma SysKeepsError(ps: Parser, kind: Kind, f: Forest, g: Forest)
    requires ps.err != 0
    ensures MakeSys(ps, kind, f, g).1.err != 0
  {
  }

  lemma {:induction false} LineKeepsError(env: Env, ps: Parser, line: Line)
    requires !ps.replay && ps.used <= NODE_MAX && ps.err != 0
    ensures ParseLine(env, ps, line).1.err != 0
    decreases Fuel(ps), if Cur(ps) == TokEof then 0 else 1
  {
    hide LineTurn, Extend, Fresh, Complete;
    if Cur(ps) != TokEof && Cur(ps) != TokBad {
      var (f, p1) := LineTurn(env, ps, line.trees != []);
      TurnSound(env, ps, line.trees != []);
      TurnReads(env, ps, line.trees != []);
      LineKeepsError(env, p1, Extend(line, f));
    }
  }

  lemma StatementRejects(env: Env, ps: Parser)
    requires ps.used <= NODE_MAX && Cur(Next(ps)) == TokLeftParen && ParseAssign(env, Replay(Next(ps))).1.err != 0
    ensures ParseStatement(env, ps).1.err != 0
  {
    hide ParseAssign;
  }

  /** A line that begins with a parenthesis and no type behind it is rejected. */
  lemma GroupingRejected(env: Env, vars: seq<Variable>, tokens: seq<Tok>)
    requires |tokens| >= 2 && tokens[0].kind == TokLeftParen
    requires !IsBaseType(tokens[1].kind) && tokens[1].kind != TokUnsigned
    ensures ParserRun(env, vars, tokens).1.err != 0
  {
    hide ParseLine, ParseCast, ParseBin, ParseAssign, ParseStatement, LineTurn, Fresh, Complete;
    var p0 := Parser(Tok(TokEof, "", 0, 0), false, tokens, 0, 0, vars);
    var ps := Next(p0);
    var q := Replay(ps);
    assert Next(q) == ps && Replay(Next(q)) == q && Cur(ps) == TokLeftParen;
    assert Cur(Next(Next(q))) == tokens[1].kind;
    ParenIsCast(env, q);
    LevelsReject(env, q, 1);
    AssignRejects(env, q);
    StatementRejects(env, q);
    TurnRejects(env, ps);
    var (f, p1) := LineTurn(env, ps, false);
    TurnSound(env, ps, false);
    TurnReads(env, ps, false);
    ParseLineStep(env, ps, Line([], Nil));
    LineKeepsError(env, p1, Extend(Line([], Nil), f));
  }

  lemma TurnRejects(env: Env, ps: Parser)
    requires !ps.replay && Cur(ps) == TokLeftParen && ParseStatement(env, Replay(ps)).1.err != 0
    ensures LineTurn(env, ps, false).1.err != 0
  {
    hide ParseStatement, ParseDecl;
  }

  lemma ParseLineStep(env: Env, ps: Parser, line: Line)
    requires !ps.replay && Cur(ps) != TokEof && Cur(ps) != TokBad
    ensures var (f, p1) := LineTurn(env, ps, line.trees != []);
      !p1.replay && ParseLine(env, ps, line) == ParseLine(env, p1, Extend(line, f))
  {
    hide LineTurn, Extend;
    TurnReads(env, ps, line.trees != []);
  }
}
