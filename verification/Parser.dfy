/** The parser (finsh_parser.c, finsh_node.c, finsh_var.c) as it runs: recursive descent over a moving
    token state, linking nodes of the pool in place. Every method computes what its function in
    Grammar says, and the pool then holds that forest. */
module Parsing {
  import opened Machine
  import opened Limits
  import opened Ast
  import opened Lexer
  import opened Scanner
  import opened Grammar
  import opened Soundness

  /** Two pools that agree below an index. */
  ghost predicate SameBelow(pool: seq<NodeRec>, pool': seq<NodeRec>, n: nat) {
    && |pool| == |pool'|
    && forall i :: 0 <= i < n && i < |pool| ==> pool[i] == pool'[i]
  }

  /** The first `n` entries of the pool are taken and the others are clear. */
  ghost predicate Allocated(pool: seq<NodeRec>, n: nat) {
    && n <= |pool|
    && (forall i :: 0 <= i < n ==> pool[i].kind != KUnknown)
    && (forall i :: n <= i < |pool| ==> pool[i] == FREE_NODE)
  }

  /** Overwriting a taken entry, or taking the next one. */
  lemma Overwrite(pool: seq<NodeRec>, n: nat, i: nat, r: NodeRec)
    requires Allocated(pool, n) && i < |pool| && i <= n && r.kind != KUnknown
    ensures Allocated(pool[i := r], if i == n then n + 1 else n)
    ensures SameBelow(pool, pool[i := r], i)
  {
  }

  lemma SameTwice(p: seq<NodeRec>, q: seq<NodeRec>, r: seq<NodeRec>, m: nat, n: nat)
    requires SameBelow(p, q, m) && SameBelow(q, r, n) && m <= n
    ensures SameBelow(p, r, m)
  {
  }

  /** A forest whose nodes lie below the part of the pool that changed. */
  lemma TreeKept(pool: seq<NodeRec>, pool': seq<NodeRec>, f: Forest, lo: nat, hi: nat)
    requires InPool(pool, f) && Fresh(f, lo, hi) && SameBelow(pool, pool', hi)
    ensures InPool(pool', f)
  {
    InPoolFrame(pool, pool', f);
  }

  /** A forest that does not contain the one node that changed. */
  lemma TreeApart(pool: seq<NodeRec>, at: nat, n: NodeRec, f: Forest)
    requires InPool(pool, f) && at < |pool| && at !in Indices(f)
    ensures InPool(pool[at := n], f)
  {
    InPoolFrame(pool, pool[at := n], f);
  }

  /** Linking a tree to a sibling. */
  lemma LinkNode(pool: seq<NodeRec>, f: Forest, g: Forest, lo: nat, hi: nat)
    requires f.Node? && InPool(pool, f) && InPool(pool, g) && Fresh(f, lo, hi) && f.at !in Indices(g)
    ensures f.at < |pool| && InPool(pool[f.at := pool[f.at].(sibling := Root(g))], Linked(f, g))
  {
    FreshParts(f, lo, hi);
    var n := pool[f.at].(sibling := Root(g));
    TreeApart(pool, f.at, n, f.child);
    TreeApart(pool, f.at, n, g);
  }

  /** Linking the last tree of a chain to something new. */
  lemma {:induction false} Relink(pool: seq<NodeRec>, trees: seq<Forest>, tail: Forest, g: Forest, lo: nat, hi: nat)
    requires trees != [] && AreTrees(trees) && InPool(pool, Chain(trees, tail)) && Fresh(Chain(trees, tail), lo, hi)
    requires InPool(pool, g) && Indices(g) !! Indices(Chain(trees, tail))
    ensures var last := trees[|trees| - 1].at;
      && last in Indices(Chain(trees, tail)) && last < |pool|
      && InPool(pool[last := pool[last].(sibling := Root(g))], Chain(trees, g))
  {
    var f := Chain(trees, tail);
    var last := trees[|trees| - 1].at;
    assert trees[0] in trees;
    FreshParts(f, lo, hi);
    if |trees| == 1 {
      assert Chain(trees[1..], g) == g && Chain(trees[1..], tail) == tail;
      LinkNode(pool, f, g, lo, hi);
    } else {
      assert trees[1..][|trees| - 2] == trees[|trees| - 1];
      Relink(pool, trees[1..], tail, g, lo, hi);
      var pool' := pool[last := pool[last].(sibling := Root(g))];
      TreeApart(pool, last, pool'[last], f.child);
      assert Root(Chain(trees[1..], g)) == Root(Chain(trees[1..], tail));
    }
  }

  /** `finsh_var_lookup`. */
  method FinshVarLookup(vars: array<Variable>, name: string) returns (i: nat)
    requires vars.Length == VARIABLE_MAX
    ensures i == VarFind(vars[..], name)
  {
    i := 0;
    while i < VARIABLE_MAX
      invariant 0 <= i <= VARIABLE_MAX && VarFind(vars[..], name) == i + VarFind(vars[i..], name)
    {
      if vars[i].name == name {
        return;
      }
      assert vars[i..][1..] == vars[i + 1..];
      i := i + 1;
    }
  }

  /** `finsh_var_insert`. */
  method FinshVarInsert(vars: array<Variable>, name: string, ty: FinshType) returns (index: int)
    requires vars.Length == VARIABLE_MAX
    modifies vars
    ensures match VarInsert(old(vars[..]), name, ty) {
      case Some(after) => 0 <= index && vars[..] == after
      case None => index == -1 && vars[..] == old(vars[..])
    }
  {
    var empty := -1;
    var i := 0;
    while i < VARIABLE_MAX
      invariant 0 <= i <= VARIABLE_MAX && -1 <= empty < i
      invariant VarFind(vars[..], name) == i + VarFind(vars[i..], name)
      invariant empty == -1 ==> FreeSlot(vars[..]) == i + FreeSlot(vars[i..])
      invariant empty != -1 ==> FreeSlot(vars[..]) == empty
    {
      if vars[i].name == name {
        return -1;
      }
      if vars[i].ty == TUnknown && empty == -1 {
        empty := i;
      }
      assert vars[i..][1..] == vars[i + 1..];
      i := i + 1;
    }
    if empty == -1 {
      return -1;
    }
    vars[empty] := Variable(name, ty);
    index := empty;
  }

  class FinshParser {
    const token: Token
    const nodes: array<NodeRec>
    const vars: array<Variable>
    const env: Env
    var root: int
    ghost var used: nat
    ghost var cur: Tok

    ghost predicate Valid()
      reads this, token, nodes, vars
    {
      && token.Valid() && Good(token.line)
      && nodes.Length == NODE_MAX && vars.Length == VARIABLE_MAX && used <= NODE_MAX
      && Allocated(nodes[..], used)
      && cur.kind == token.current_token && cur.str == token.str && cur.err == 0
      && (cur.kind in {TokValueChar, TokValueInt, TokValueLong} ==> cur.value == token.value)
    }

    /** `finsh_token_init` on a cleared node pool (`finsh_flush`). */
    constructor (line: string, nodes: array<NodeRec>, vars: array<Variable>, env: Env)
      requires Good(line) && nodes.Length == NODE_MAX && vars.Length == VARIABLE_MAX
      requires forall i :: 0 <= i < NODE_MAX ==> nodes[i] == FREE_NODE
      ensures Valid() && fresh(token) && root == NULL
      ensures this.nodes == nodes && this.vars == vars && this.env == env && token.line == line
      ensures State() == Parser(Tok(TokEof, "", 0, 0), false, Tokens(Lex(line, 0, false)), 0, 0, vars[..])
    {
      this.nodes, this.vars, this.env := nodes, vars, env;
      root, used, cur := NULL, 0, Tok(TokEof, "", 0, 0);
      token := new Token(line);
    }

    /** The state as the grammar sees it. */
    ghost function State(): Parser
      requires token.Valid() && Good(token.line)
      reads this, token, vars
    {
      Parser(cur, token.replay, Tokens(token.Place()), used, token.errno, vars[..])
    }

    // ----- tokens -----

    /** `finsh_token_token`. */
    method NextToken() returns (kind: TokenKind)
      requires Valid()
      modifies this`cur, token
      ensures Valid() && State() == Next(old(State())) && kind == Cur(State()) && !token.replay
    {
      if token.replay {
        token.replay := false;
      } else {
        Progress(token.Place());
        ghost var (t, s) := Lexer.TokenRun(token.Place());
        hide Lexer.TokenRun;
        token.TokenRun();
        if t.kind == TokEof {
          cur := cur.(kind := TokEof);
          NothingLeft(s);
        } else {
          cur := t.(err := 0);
        }
      }
      kind := token.current_token;
    }

    method ReplayToken()
      requires Valid()
      modifies token`replay
      ensures Valid() && State() == Replay(old(State()))
    {
      token.replay := true;
    }

    method SetError(e: nat)
      requires Valid()
      modifies token`errno
      ensures Valid() && State() == Error(old(State()), e)
    {
      token.errno := e;
    }

    /** The macro `check_token`. */
    method CheckToken(actual: TokenKind, expected: TokenKind)
      requires Valid()
      modifies token`replay, token`errno
      ensures Valid() && State() == Check(old(State()), actual, expected)
    {
      if actual != expected {
        SetError(ERROR_INVALID_TOKEN);
        ReplayToken();
      }
    }

    /** The macro `match_token`. */
    method MatchToken(expected: TokenKind)
      requires Valid()
      modifies this`cur, token
      ensures Valid() && State() == Match(old(State()), expected)
    {
      var kind := NextToken();
      CheckToken(kind, expected);
    }

    // ----- nodes -----

    /** The forest is in the pool, its nodes taken from `lo` on, and nothing below `lo` has changed. */
    ghost predicate Grown(pool: seq<NodeRec>, lo: nat, node: int, f: Forest)
      reads this, nodes
    {
      node == Root(f) && InPool(nodes[..], f) && SameBelow(pool, nodes[..], lo)
    }

    /** `finsh_node_allocate`: the first free entry of the pool. */
    method NodeAllocate(kind: Kind) returns (node: int)
      requires Valid() && kind != KUnknown
      modifies this`used, nodes
      ensures Valid()
      ensures old(used) == NODE_MAX ==> node == NULL && used == old(used) && nodes[..] == old(nodes[..])
      ensures old(used) < NODE_MAX ==>
        && node == old(used) && used == old(used) + 1
        && nodes[..] == old(nodes[..])[node := FREE_NODE.(kind := kind)]
    {
      var i := 0;
      while i < NODE_MAX && nodes[i].kind != KUnknown
        invariant 0 <= i <= used
      {
        i := i + 1;
      }
      if i == NODE_MAX {
        return NULL;
      }
      nodes[i] := nodes[i].(kind := kind);
      node := i;
      used := used + 1;
    }

    /** `finsh_node_new_char` and its like. */
    method NewLeaf(kind: Kind, value: Word) returns (node: int, ghost f: Forest)
      requires Valid() && kind in {KChar, KInt, KLong, KString, KNull}
      modifies this`used, nodes, token`errno
      ensures Valid() && (f, State()) == Grammar.NewLeaf(old(State()), kind, value)
      ensures Grown(old(nodes[..]), old(used), node, f)
    {
      hide Tokens, Good, Allocated;
      ghost var pool, n := nodes[..], used;
      node := NodeAllocate(kind);
      if node == NULL {
        SetError(ERROR_MEMORY_FULL);
        f := Nil;
      } else {
        ghost var r := FREE_NODE.(kind := kind, value := value);
        Overwrite(pool, n, node, r);
        nodes[node] := nodes[node].(value := value);
        f := NewNode(node, kind, value, NoSymbol, Nil);
        assert nodes[..] == pool[node := r] && InPool(pool[node := r], f);
      }
    }

    /** `finsh_node_new_string`: the node comes first, then its copy of the string up to the first zero. */
    method NewString(s: string) returns (node: int, ghost f: Forest)
      requires Valid()
      modifies this`used, nodes, token`errno
      ensures Valid() && (f, State()) == Grammar.NewLeaf(old(State()), KString, env.stringAt(old(used), CString(s)))
      ensures Grown(old(nodes[..]), old(used), node, f)
    {
      hide Tokens, Good, Allocated;
      ghost var pool, n := nodes[..], used;
      node := NodeAllocate(KString);
      if node == NULL {
        SetError(ERROR_MEMORY_FULL);
        f := Nil;
      } else {
        var value := env.stringAt(node, CString(s));
        ghost var r := FREE_NODE.(kind := KString, value := value);
        Overwrite(pool, n, node, r);
        nodes[node] := nodes[node].(value := value);
        f := NewNode(node, KString, value, NoSymbol, Nil);
        assert nodes[..] == pool[node := r] && InPool(pool[node := r], f);
      }
    }

    /** `finsh_node_new_id`. */
    method NewId(name: string) returns (node: int, ghost f: Forest)
      requires Valid()
      modifies this`used, nodes, token`errno
      ensures Valid() && (f, State()) == Grammar.NewId(env, old(State()), name)
      ensures Grown(old(nodes[..]), old(used), node, f)
    {
      hide Tokens, Good, Allocated, VarFind;
      ghost var pool, n := nodes[..], used;
      var i := FinshVarLookup(vars, name);
      var symbol := if i < VARIABLE_MAX then VarSym(vars[i].ty, env.varAddr(i)) else env.system(name);
      node, f := NULL, Nil;
      if symbol != NoSymbol {
        node := NodeAllocate(KId);
        if node == NULL {
          SetError(ERROR_MEMORY_FULL);
        } else {
          ghost var r := FREE_NODE.(kind := KId, sym := symbol);
          Overwrite(pool, n, node, r);
          nodes[node] := nodes[node].(sym := symbol);
          f := NewNode(node, KId, 0, symbol, Nil);
          assert nodes[..] == pool[node := r] && InPool(pool[node := r], f);
        }
      } else {
        SetError(ERROR_UNKNOWN_SYMBOL);
      }
    }

    /** `make_sys_node`: a node over `node1`, whose sibling becomes `node2`. */
    method MakeSysNode(kind: Kind, node1: int, node2: int, ghost f: Forest, ghost g: Forest, ghost lo: nat)
      returns (node: int, ghost h: Forest)
      requires Valid() && kind != KUnknown && lo <= used
      requires Root(f) == node1 && Root(g) == node2 && InPool(nodes[..], f) && InPool(nodes[..], g)
      requires Fresh(f, lo, used) && Fresh(g, lo, used) && Indices(f) !! Indices(g)
      modifies this`used, nodes, token`errno
      ensures Valid() && (h, State()) == MakeSys(old(State()), kind, f, g)
      ensures Grown(old(nodes[..]), lo, node, h)
    {
      hide Tokens, Good, Allocated, InPool, Fresh, Indices, SameBelow;
      ghost var pool, n := nodes[..], used;
      node := NodeAllocate(kind);
      if node1 != NULL && node != NULL {
        ghost var r := FREE_NODE.(kind := kind, child := node1);
        SysNode(pool, n, r, f, g, lo);
        nodes[node] := nodes[node].(child := node1);
        assert nodes[..] == pool[n := r];
        nodes[node1] := nodes[node1].(sibling := node2);
        h := NewNode(node, kind, 0, NoSymbol, Linked(f, g));
      } else {
        SetError(ERROR_NULL_NODE);
        h := if node == NULL then Nil else NewNode(node, kind, 0, NoSymbol, Nil);
        SysBare(pool, n, FREE_NODE.(kind := kind), lo, h);
      }
    }

    // ----- types and identifiers -----

    method Pointer(ty: FinshType) returns (t: FinshType)
      requires Valid()
      modifies this`cur, token
      ensures Valid() && (t, State()) == ParsePointer(old(State()), ty)
    {
      hide Tokens, Good, Allocated, Next;
      var kind := NextToken();
      t := ty;
      if kind == TokMul {
        t := PointerTo(ty);
      } else {
        ReplayToken();
      }
    }

    /** `proc_type`. */
    method Type() returns (ty: FinshType)
      requires Valid()
      modifies this`cur, token
      ensures Valid() && (ty, State()) == ParseType(old(State()))
    {
      hide Tokens, Good, Allocated, Next, ParsePointer;
      ty := TUnknown;
      var kind := NextToken();
      if IsBaseType(kind) {
        ty := BaseType(kind);
      } else if kind == TokUnsigned {
        kind := NextToken();
        if kind == TokVoid {
          ReplayToken();
          SetError(ERROR_UNKNOWN_TYPE);
          return;
        } else if IsBaseType(kind) {
          ty := UnsignedType(BaseType(kind));
        } else {
          ReplayToken();
          SetError(ERROR_EXPECT_TYPE);
        }
      } else {
        ReplayToken();
        SetError(ERROR_UNKNOWN_TYPE);
        return;
      }
      ty := Pointer(ty);
    }

    /** `proc_identifier`. */
    method Identifier() returns (id: string)
      requires Valid()
      modifies this`cur, token
      ensures Valid() && (id, State()) == ParseIdentifier(old(State()))
    {
      hide Tokens, Good, Allocated, Next, CName;
      MatchToken(TokIdentifier);
      id := CName(token.str, NAME_MAX);
    }

    // ----- expressions -----

    /** `proc_assign_expr`. */
    method AssignExpr() returns (node: int, ghost f: Forest)
      requires Valid()
      modifies this`cur, this`used, token, nodes
      ensures Valid() && (f, State()) == ParseAssign(env, old(State()))
      ensures Grown(old(nodes[..]), old(used), node, f)
      decreases Fuel(State()), 12
    {
      hide Tokens, Good, Allocated, InPool, Fresh, Indices, Next, MakeSys, ParseBin, Fuel, IsOperand;
      ghost var pool, lo, s0 := nodes[..], used, State();
      node, f := BinExpr(1);
      BinSound(env, s0, 1);
      ghost var p1, pool1 := State(), nodes[..];
      NextFacts(p1);
      var kind := NextToken();
      if kind == TokAssign {
        ghost var p2 := State();
        var right, g := AssignExpr();
        AssignSound(env, p2);
        TreeKept(pool1, nodes[..], f, lo, p1.used);
        Apart(f, g, lo, p1.used, used);
        SameTwice(pool, pool1, nodes[..], lo, p1.used);
        ghost var pool2 := nodes[..];
        node, f := MakeSysNode(KAssign, node, right, f, g, lo);
        SameTwice(pool, pool2, nodes[..], lo, lo);
      } else {
        ReplayToken();
      }
    }

    /** The levels of binary operators (`proc_inclusive_or_expr` to `proc_multiplicative_expr`). */
    method BinExpr(k: nat) returns (node: int, ghost f: Forest)
      requires Valid() && 1 <= k <= CAST_LEVEL
      modifies this`cur, this`used, token, nodes
      ensures Valid() && (f, State()) == ParseBin(env, old(State()), k)
      ensures Grown(old(nodes[..]), old(used), node, f)
      decreases Fuel(State()), 11 - k
    {
      hide Tokens, Good, Allocated, InPool, Fresh, Indices, Next, MakeSys, Fuel, IsOperand, BinLoop, ParseCast, LevelOp;
      ghost var pool, lo, s0 := nodes[..], used, State();
      if k == CAST_LEVEL {
        node, f := CastExpr();
        return;
      }
      node, f := BinExpr(k + 1);
      BinSound(env, s0, k + 1);
      ghost var pre := State();
      var kind := NextToken();
      while LevelOp(k, kind).Some?
        invariant Valid() && State() == Next(pre) && kind == Cur(Next(pre))
        invariant BinLoop(env, pre, k, f) == ParseBin(env, s0, k)
        invariant Grown(pool, lo, node, f) && Fresh(f, lo, used) && lo <= used && pre.used == used
        invariant IsOperand(f, pre.err) && Fuel(pre) <= Fuel(s0)
        decreases Fuel(pre)
      {
        ghost var pool1 := nodes[..];
        NextFacts(pre);
        LevelOpIsToken(k, kind);
        node, f := BinTurn(k, kind, pre, node, f, lo);
        SameTwice(pool, pool1, nodes[..], lo, lo);
        pre := State();
        kind := NextToken();
      }
      BinStop(env, pre, k, f);
      NextFacts(pre);
      ReplayToken();
    }

    /** The operand behind the operator `kind`, and the node over both. */
    method BinTurn(k: nat, kind: TokenKind, ghost pre: Parser, left: int, ghost f: Forest, ghost lo: nat)
      returns (node: int, ghost h: Forest)
      requires Valid() && 1 <= k < CAST_LEVEL && State() == Next(pre) && kind == Cur(State()) && LevelOp(k, kind).Some?
      requires left == Root(f) && InPool(nodes[..], f) && Fresh(f, lo, used) && lo <= used && IsOperand(f, pre.err)
      modifies this`cur, this`used, token, nodes
      ensures Valid() && BinLoop(env, State(), k, h) == BinLoop(env, pre, k, f) && Fuel(State()) < Fuel(pre)
      ensures Grown(old(nodes[..]), lo, node, h) && Fresh(h, lo, used) && lo <= used && IsOperand(h, State().err)
      decreases Fuel(State()), 11 - k
    {
      hide Tokens, Good, Allocated, InPool, Fresh, Indices, Next, MakeSys, ParseBin, Fuel, IsOperand, BinLoop, LevelOp;
      ghost var pool, p1 := nodes[..], State();
      var op := LevelOp(k, kind).value;
      NextFacts(pre);
      LevelOpIsToken(k, kind);
      var right, g := BinExpr(k + 1);
      BinSound(env, p1, k + 1);
      TreeKept(pool, nodes[..], f, lo, p1.used);
      ghost var pool2, p2 := nodes[..], State();
      SameLess(pool, pool2, p1.used, lo);
      if right == NULL {
        SetError(ERROR_EXPECT_OPERATOR);
        ErrorFuel(p2, ERROR_EXPECT_OPERATOR);
        Widen(f, lo, p1.used, lo, used);
        NoOperand(f, pre.err, ERROR_EXPECT_OPERATOR);
        BinSkip(env, pre, k, f, p2);
        node, h := left, f;
      } else {
        Apart(f, g, lo, p1.used, used);
        node, h := MakeSysNode(KBin(op), left, right, f, g, lo);
        SameTwice(pool, pool2, nodes[..], lo, lo);
        StillOperand(f, pre.err, p2.err);
        TwoOperands(p2, KBin(op), f, g, lo, p1.used);
        BinStep(env, pre, k, f, op, g, p2);
      }
    }

    /** `proc_cast_expr`. */
    method CastExpr() returns (node: int, ghost f: Forest)
      requires Valid()
      modifies this`cur, this`used, token, nodes
      ensures Valid() && (f, State()) == ParseCast(env, old(State()))
      ensures Grown(old(nodes[..]), old(used), node, f)
      decreases Fuel(State()), 3
    {
      hide Tokens, Good, Allocated, InPool, Fresh, Indices, Next, ParseType, ParseUnary, Fuel, IsOperand, TypeNumber,
           Match;
      ghost var pool, s0 := nodes[..], State();
      NextFacts(s0);
      var kind := NextToken();
      if kind == TokLeftParen {
        ghost var p1 := State();
        var ty := Type();
        TypeOnward(p1);
        ghost var p2 := State();
        MatchFuel(p2, TokRightParen);
        MatchToken(TokRightParen);
        ghost var p := State();
        node, f := CastExpr();
        if node != NULL {
          CastSound(env, p);
          CastNode(nodes[..], used, f, p.used, TypeNumber(ty));
          nodes[node] := nodes[node].(dt := TypeNumber(ty));
          f := f.(dt := TypeNumber(ty));
          return;
        }
        CastSound(env, p);
        ghost var p3, pool3 := State(), nodes[..];
        ReplayToken();
        node, f := UnaryExpr();
        SameTwice(pool, pool3, nodes[..], p.used, p3.used);
      } else {
        ReplayToken();
        node, f := UnaryExpr();
      }
    }

    /** `proc_unary_expr`. */
    method UnaryExpr() returns (node: int, ghost f: Forest)
      requires Valid()
      modifies this`cur, this`used, token, nodes
      ensures Valid() && (f, State()) == ParseUnary(env, old(State()))
      ensures Grown(old(nodes[..]), old(used), node, f)
      decreases Fuel(State()), 2
    {
      hide Tokens, Good, Allocated, InPool, Fresh, Indices, Next, ParseCast, ParsePostfix, Fuel, MakeSys, Negate,
           IsOperand, UnaryKind;
      ghost var s0 := State();
      UnaryKinds();
      NextFacts(s0);
      var kind := NextToken();
      if kind == TokAdd {
        node, f := CastExpr();
      } else if kind == TokSub {
        node, f := Negated();
      } else if UnaryKind(kind).Some? {
        node, f := Prefixed(UnaryKind(kind).value);
      } else {
        ReplayToken();
        node, f := PostfixExpr();
      }
    }

    method Prefixed(kind: Kind) returns (node: int, ghost f: Forest)
      requires Valid() && kind != KUnknown
      modifies this`cur, this`used, token, nodes
      ensures Valid()
      ensures var (g, p2) := ParseCast(env, old(State())); (f, State()) == MakeSys(p2, kind, g, Nil)
      ensures Grown(old(nodes[..]), old(used), node, f)
      decreases Fuel(State()), 4
    {
      hide Tokens, Good, Allocated, InPool, Fresh, Indices, ParseCast, MakeSys, IsOperand;
      ghost var pool, s0 := nodes[..], State();
      var cast, g := CastExpr();
      CastSound(env, s0);
      NilFacts(nodes[..], s0.used, used, g);
      ghost var pool2 := nodes[..];
      node, f := MakeSysNode(kind, cast, NULL, g, Nil, s0.used);
      SameTwice(pool, pool2, nodes[..], s0.used, s0.used);
    }

    method Negated() returns (node: int, ghost f: Forest)
      requires Valid()
      modifies this`cur, this`used, token, nodes
      ensures Valid()
      ensures var (g, p2) := ParseCast(env, old(State())); (f, State()) == Negate(p2, g)
      ensures Grown(old(nodes[..]), old(used), node, f)
      decreases Fuel(State()), 4
    {
      hide Tokens, Good, Allocated, InPool, Fresh, Indices, ParseCast, MakeSys, IsOperand, Grammar.NewLeaf;
      ghost var pool, s0 := nodes[..], State();
      var cast, g := CastExpr();
      CastSound(env, s0);
      ghost var p2, pool2 := State(), nodes[..];
      var zero, z := NewLeaf(KLong, 0);
      LeafSound(p2, KLong, 0);
      TreeKept(pool2, nodes[..], g, s0.used, p2.used);
      SameTwice(pool, pool2, nodes[..], s0.used, p2.used);
      Apart(g, z, s0.used, p2.used, used);
      ghost var pool3 := nodes[..];
      node, f := MakeSysNode(KBin(Sub), zero, cast, z, g, s0.used);
      SameTwice(pool, pool3, nodes[..], s0.used, s0.used);
    }

    /** `proc_postfix_expr`. */
    method PostfixExpr() returns (node: int, ghost f: Forest)
      requires Valid()
      modifies this`cur, this`used, token, nodes
      ensures Valid() && (f, State()) == ParsePostfix(env, old(State()))
      ensures Grown(old(nodes[..]), old(used), node, f)
      decreases Fuel(State()), 1
    {
      hide Tokens, Good, Allocated, InPool, Fresh, Indices, Next, Fuel, IsOperand, PostLoop, ParsePrimary;
      ghost var pool, lo, s0 := nodes[..], used, State();
      node, f := PrimaryExpr();
      PrimarySound(env, s0);
      ghost var pre := State();
      var kind := NextToken();
      while kind in {TokInc, TokDec, TokLeftParen}
        invariant Valid() && State() == Next(pre) && kind == Cur(Next(pre))
        invariant PostLoop(env, pre, f) == ParsePostfix(env, s0)
        invariant Grown(pool, lo, node, f) && Fresh(f, lo, used) && lo <= used && pre.used == used
        invariant IsOperand(f, pre.err) && Fuel(pre) <= Fuel(s0)
        decreases Fuel(pre)
      {
        ghost var pool1 := nodes[..];
        NextFacts(pre);
        node, f := PostTurn(kind, pre, node, f, lo);
        SameTwice(pool, pool1, nodes[..], lo, lo);
        pre := State();
        kind := NextToken();
      }
      PostStop(env, pre, f);
      NextFacts(pre);
      ReplayToken();
    }

    /** One postfix operator or parameter list. */
    method PostTurn(kind: TokenKind, ghost pre: Parser, postfix: int, ghost f: Forest, ghost lo: nat)
      returns (node: int, ghost h: Forest)
      requires Valid() && State() == Next(pre) && kind == Cur(State()) && kind in {TokInc, TokDec, TokLeftParen}
      requires postfix == Root(f) && InPool(nodes[..], f) && Fresh(f, lo, used) && lo <= used && IsOperand(f, pre.err)
      modifies this`cur, this`used, token, nodes
      ensures Valid() && PostLoop(env, State(), h) == PostLoop(env, pre, f) && Fuel(State()) < Fuel(pre)
      ensures Grown(old(nodes[..]), lo, node, h) && Fresh(h, lo, used) && lo <= used && IsOperand(h, State().err)
      decreases Fuel(State()), 15
    {
      hide Tokens, Good, Allocated, InPool, Fresh, Indices, Next, MakeSys, ParseParens, Fuel, IsOperand, PostLoop,
           Complete;
      ghost var pool, p1 := nodes[..], State();
      NextFacts(pre);
      StillOperand(f, pre.err, p1.err);
      if kind == TokLeftParen {
        var params, g := Parens();
        ParensSound(env, p1);
        ghost var pool2, p2 := nodes[..], State();
        TreeKept(pool, pool2, f, lo, p1.used);
        SameLess(pool, pool2, p1.used, lo);
        Apart(f, g, lo, p1.used, used);
        node, h := MakeSysNode(KFunc, postfix, params, f, g, lo);
        SameTwice(pool, pool2, nodes[..], lo, lo);
        StillOperand(f, p1.err, p2.err);
        CallSound(p2, f, g, lo, p1.used);
        CallStep(env, pre, f, g, p2);
      } else {
        var down := kind == TokDec;
        NilFacts(pool, lo, used, f);
        node, h := MakeSysNode(if down then KDec else KInc, postfix, NULL, f, Nil, lo);
        OneOperand(p1, if down then KDec else KInc, f, lo);
        PostStep(env, pre, f, down);
      }
    }

    /** The parameters in parentheses, the opening one already read. */
    method Parens() returns (node: int, ghost f: Forest)
      requires Valid()
      modifies this`cur, this`used, token, nodes
      ensures Valid() && (f, State()) == ParseParens(env, old(State()))
      ensures Grown(old(nodes[..]), old(used), node, f)
      decreases Fuel(State()), 14
    {
      hide Tokens, Good, Allocated, InPool, Fresh, Indices, Next, Fuel, ParseParams;
      ghost var s0 := State();
      NextFacts(s0);
      var kind := NextToken();
      if kind == TokRightParen {
        NilFacts(nodes[..], used, used, Nil);
        SameAsItself(nodes[..], used);
        return NULL, Nil;
      }
      ReplayToken();
      node, f := ParamList();
      MatchToken(TokRightParen);
    }

    /** `proc_param_list`: expressions linked one behind the other. */
    method ParamList() returns (node: int, ghost f: Forest)
      requires Valid()
      modifies this`cur, this`used, token, nodes
      ensures Valid() && (f, State()) == ParseParams(env, old(State()))
      ensures Grown(old(nodes[..]), old(used), node, f)
      decreases Fuel(State()), 13
    {
      hide Tokens, Good, Allocated, InPool, Fresh, Indices, Next, Fuel, ParseAssign, ParamLoop, Complete;
      ghost var pool, lo, s0 := nodes[..], used, State();
      var assign, e := AssignExpr();
      AssignSound(env, s0);
      if assign == NULL {
        return NULL, Nil;
      }
      node := assign;
      ghost var trees := [e];
      ChainOfOne(e);
      ghost var pre := State();
      ghost var goal := ParseParams(env, s0);
      var kind := NextToken();
      while kind == TokComma
        invariant Valid() && State() == Next(pre) && kind == Cur(Next(pre)) && pre.used == used
        invariant ParamGoal(env, pre, trees) == goal && Fuel(pre) <= Fuel(s0)
        invariant Linking(pool, lo, node, assign, trees)
        decreases Fuel(pre)
      {
        NextFacts(pre);
        ghost var pool1 := nodes[..];
        assign, trees := ParamTurn(pre, node, assign, trees, lo);
        SameTwice(pool, pool1, nodes[..], lo, lo);
        pre := State();
        kind := NextToken();
      }
      ParamStop(env, pre);
      NextFacts(pre);
      ReplayToken();
      f := Chain(trees, Nil);
    }

    /** A chain under construction: it starts at `node`, and `end` is its last tree. */
    ghost predicate Linking(pool: seq<NodeRec>, lo: nat, node: int, end: int, trees: seq<Forest>)
      reads this, nodes
    {
      && trees != [] && AreTrees(trees) && end == trees[|trees| - 1].at
      && Grown(pool, lo, node, Chain(trees, Nil)) && lo <= used && Fresh(Chain(trees, Nil), lo, used)
    }

    /** The parameter behind a comma is linked behind the last one. */
    method ParamTurn(ghost pre: Parser, ghost node: int, assign: int, ghost trees: seq<Forest>, ghost lo: nat)
      returns (assign': int, ghost trees': seq<Forest>)
      requires Valid() && State() == Next(pre) && Cur(State()) == TokComma
      requires Linking(nodes[..], lo, node, assign, trees)
      modifies this`cur, this`used, token, nodes
      ensures Valid() && ParamGoal(env, State(), trees') == ParamGoal(env, pre, trees) && Fuel(State()) < Fuel(pre)
      ensures Linking(old(nodes[..]), lo, node, assign', trees')
      decreases Fuel(State()), 13
    {
      hide Tokens, Good, Allocated, InPool, Fresh, Indices, Next, Fuel, ParseAssign, ParamLoop, Chain, Complete;
      ghost var pool, p1 := nodes[..], State();
      NextFacts(pre);
      var e, g := AssignExpr();
      AssignSound(env, p1);
      ghost var p2, pool2 := State(), nodes[..];
      TreeKept(pool, pool2, Chain(trees, Nil), lo, p1.used);
      SameLess(pool, pool2, p1.used, lo);
      LinkLast(pool2, used, trees, g, lo, p1.used);
      nodes[assign] := nodes[assign].(sibling := e);
      SameTwice(pool, pool2, nodes[..], lo, lo);
      ParamGoalTurn(env, pre, trees, g, p2);
      trees' := Append(trees, g);
      if e != NULL {
        assign' := e;
      } else {
        assign' := assign;
        SetError(ERROR_EXPECT_OPERATOR);
        ErrorFuel(p2, ERROR_EXPECT_OPERATOR);
      }
    }

    /** `proc_primary_expr`. */
    method PrimaryExpr() returns (node: int, ghost f: Forest)
      requires Valid()
      modifies this`cur, this`used, token, nodes
      ensures Valid() && (f, State()) == ParsePrimary(env, old(State()))
      ensures Grown(old(nodes[..]), old(used), node, f)
      decreases Fuel(State()), 0
    {
      hide Tokens, Good, Allocated, InPool, Next, Fuel, ParseAssign, Grammar.NewLeaf, Grammar.NewId, ParseIdentifier;
      NextFacts(State());
      var kind := NextToken();
      match kind
      case TokIdentifier =>
        ReplayToken();
        var id := Identifier();
        IdentifierUses(Replay(State()));
        node, f := NewId(id);
      case TokLeftParen =>
        node, f := AssignExpr();
        MatchToken(TokRightParen);
      case TokValueInt => node, f := NewLeaf(KInt, token.value);
      case TokValueLong => node, f := NewLeaf(KLong, token.value);
      case TokValueChar => node, f := NewLeaf(KChar, token.value);
      case TokValueString => node, f := NewString(token.str);
      case TokValueNull => node, f := NewLeaf(KNull, 0);
      case _ =>
        SetError(ERROR_INVALID_TOKEN);
        NilFacts(nodes[..], used, used, Nil);
        SameAsItself(nodes[..], used);
        node, f := NULL, Nil;
    }

    // ----- declarations and statements -----

    method Declare(id: string, ty: FinshType)
      requires Valid()
      modifies vars, token`errno
      ensures Valid() && State() == Grammar.Declare(old(State()), id, ty)
    {
      hide Tokens, Good, Allocated, Grammar.VarInsert;
      var index := FinshVarInsert(vars, id, ty);
      if index < 0 {
        SetError(ERROR_VARIABLE_EXIST);
      }
    }

    /** The assignments of a declaration so far, from `node` to `end`. */
    ghost predicate Building(pool: seq<NodeRec>, lo: nat, node: int, end: int, trees: seq<Forest>)
      reads this, nodes
    {
      && AreTrees(trees) && lo <= used
      && Grown(pool, lo, node, Chain(trees, Nil)) && Fresh(Chain(trees, Nil), lo, used)
      && (trees != [] ==> end == trees[|trees| - 1].at || used == NODE_MAX)
    }

    /** The assignment of an initialiser, linked behind those before it; returns the next token. */
    method Initialiser(id: string, node: int, end: int, ghost trees: seq<Forest>, ghost lo: nat)
      returns (node': int, end': int, kind: TokenKind, ghost trees': seq<Forest>)
      requires Valid() && Building(nodes[..], lo, node, end, trees)
      modifies this`cur, this`used, token, nodes
      ensures Valid() && (trees', State(), kind) == Grammar.Initialiser(env, old(State()), id, trees)
      ensures Building(old(nodes[..]), lo, node', end', trees')
    {
      hide Tokens, Good, Allocated, InPool, Indices, Next, ParseAssign, Grammar.NewId, MakeSys, Chain, Complete;
      ghost var pool, s0 := nodes[..], State();
      node', end', trees' := node, end, trees;
      ChainMeans(trees);
      var right, g := AssignExpr();
      AssignSound(env, s0);
      ghost var p1, pool1 := State(), nodes[..];
      TreeKept(pool, pool1, Chain(trees, Nil), lo, s0.used);
      SameLess(pool, pool1, s0.used, lo);
      Widen(Chain(trees, Nil), lo, s0.used, lo, used);
      if right == NULL {
        return node', end', TokAssign, trees';
      }
      RoomFor(g, s0.used, used);
      var n, f := AssignTo(id, right, g, s0.used);
      ghost var pool2 := nodes[..];
      AssignedSound(env, p1, id, g, s0.used);
      TreeKept(pool1, pool2, Chain(trees, Nil), lo, s0.used);
      SameTwice(pool, pool1, pool2, lo, s0.used);
      if node != NULL {
        LinkLast(pool2, used, trees, f, lo, s0.used);
        nodes[end] := nodes[end].(sibling := n);
        SameTwice(pool, pool2, nodes[..], lo, lo);
        end' := n;
      } else {
        StartChain(pool2, used, f, lo, s0.used);
        end', node' := n, n;
      }
      trees' := Append(trees, f);
      kind := NextToken();
    }

    /** The identifier and the assignment node over it and the value. */
    method AssignTo(id: string, right: int, ghost g: Forest, ghost lo: nat) returns (n: int, ghost f: Forest)
      requires Valid() && right == Root(g) && InPool(nodes[..], g) && Fresh(g, lo, used) && lo <= used
      modifies this`used, token`errno, nodes
      ensures Valid() && (f, State()) == Assigned(env, old(State()), id, g)
      ensures Grown(old(nodes[..]), lo, n, f) && (f.Nil? ==> used == NODE_MAX)
    {
      hide Tokens, Good, Allocated, InPool, Fresh, Indices, Grammar.NewId;
      ghost var pool, s0 := nodes[..], State();
      var left, h := NewId(id);
      IdSound(env, s0, id);
      ghost var pool1 := nodes[..];
      TreeKept(pool, pool1, g, lo, s0.used);
      SameLess(pool, pool1, s0.used, lo);
      Apart(g, h, lo, s0.used, used);
      n, f := MakeSysNode(KAssign, left, right, h, g, lo);
      SameTwice(pool, pool1, nodes[..], lo, lo);
    }

    /** One declarator behind a comma. */
    method Declarator(ty: FinshType, node: int, end: int, ghost trees: seq<Forest>, ghost lo: nat)
      returns (node': int, end': int, kind: TokenKind, ghost trees': seq<Forest>)
      requires Valid() && Building(nodes[..], lo, node, end, trees)
      modifies this`cur, this`used, token, nodes, vars
      ensures Valid() && (trees', State(), kind) == Grammar.Declarator(env, old(State()), ty, trees)
      ensures Building(old(nodes[..]), lo, node', end', trees')
    {
      hide Tokens, Good, Allocated, InPool, Fresh, Indices, Next, Grammar.Initialiser, Grammar.Declare,
           ParseIdentifier, Chain;
      var id := Identifier();
      Declare(id, ty);
      kind := NextToken();
      node', end', trees' := node, end, trees;
      if kind == TokAssign {
        node', end', kind, trees' := Initialiser(id, node, end, trees, lo);
      }
    }

    /** `proc_variable_decl`. */
    method VariableDecl() returns (node: int, ghost f: Forest)
      requires Valid()
      modifies this`cur, this`used, token, nodes, vars
      ensures Valid() && (f, State()) == ParseDecl(env, old(State()))
      ensures Grown(old(nodes[..]), old(used), node, f)
    {
      hide Tokens, Good, Allocated, InPool, Fresh, Indices, Next, Grammar.Declare, ParseType, ParseIdentifier,
           Declarators;
      var ty := Type();
      var id := Identifier();
      Declare(id, ty);
      var kind := NextToken();
      node, f := Declarations(kind, id, ty);
    }

    /** The rest of a declaration, by the token behind the first name. */
    method Declarations(first: TokenKind, id: string, ty: FinshType) returns (node: int, ghost f: Forest)
      requires Valid() && first == Cur(State()) && !token.replay
      modifies this`cur, this`used, token, nodes, vars
      ensures Valid() && (f, State()) == Declarators(env, old(State()), id, ty)
      ensures Grown(old(nodes[..]), old(used), node, f)
    {
      hide Tokens, Good, Allocated, InPool, Fresh, Indices, Next, Grammar.Initialiser, Grammar.Declarator, DeclLoop,
           Chain, SameBelow;
      ghost var pool, lo, s0 := nodes[..], used, State();
      ghost var trees: seq<Forest> := [];
      var kind, end := first, NULL;
      node := NULL;
      NothingParsed(nodes[..], lo, lo);
      SameAsItself(nodes[..], lo);
      match first
      case TokComma =>
        node, f := DeclaratorList(kind, ty, node, end, trees, lo);
      case TokAssign =>
        node, end, kind, trees := Initialiser(id, node, end, trees, lo);
        ghost var pool1 := nodes[..];
        SameAsItself(pool1, lo);
        node, f := DeclaratorList(kind, ty, node, end, trees, lo);
        SameTwice(pool, pool1, nodes[..], lo, lo);
      case TokSemicolon => f := Nil;
      case _ =>
        SetError(ERROR_EXPECT_TYPE);
        f := Nil;
    }

    /** One turn of the loop over declarators. */
    method DeclaratorTurn(ty: FinshType, node: int, end: int, ghost trees: seq<Forest>, ghost pool: seq<NodeRec>,
        ghost lo: nat)
      returns (node': int, end': int, kind: TokenKind, ghost trees': seq<Forest>)
      requires Valid() && Building(pool, lo, node, end, trees)
      modifies this`cur, this`used, token, nodes, vars
      ensures Valid() && Building(pool, lo, node', end', trees')
      ensures DeclLoop(env, State(), ty, kind, trees') == DeclLoop(env, old(State()), ty, TokComma, trees)
      ensures Fuel(State()) <= Fuel(old(State())) && (kind == TokComma ==> Fuel(State()) < Fuel(old(State())))
    {
      hide Tokens, Good, Allocated, InPool, Fresh, Indices, Next, Grammar.Declarator, Chain, DeclLoop, Fuel, SameBelow;
      ghost var pool1, s1 := nodes[..], State();
      SameAsItself(pool1, lo);
      DeclLoopTurn(env, s1, ty, trees);
      DeclaratorFuel(env, s1, ty, trees);
      node', end', kind, trees' := Declarator(ty, node, end, trees, lo);
      SameTwice(pool, pool1, nodes[..], lo, lo);
    }

    /** Declarators as long as commas follow, then the semicolon. */
    method DeclaratorList(first: TokenKind, ty: FinshType, first_node: int, first_end: int, ghost before: seq<Forest>,
        ghost lo: nat)
      returns (node: int, ghost f: Forest)
      requires Valid() && Building(nodes[..], lo, first_node, first_end, before)
      modifies this`cur, this`used, token, nodes, vars
      ensures Valid()
      ensures f == Chain(DeclLoop(env, old(State()), ty, first, before).0, Nil)
      ensures State() == DeclLoop(env, old(State()), ty, first, before).1
      ensures Grown(old(nodes[..]), lo, node, f)
    {
      hide Tokens, Good, Allocated, InPool, Fresh, Indices, Next, Chain, DeclLoop, Check, Fuel, SameBelow;
      ghost var trees := before;
      var kind, end := first, first_end;
      node := first_node;
      while kind == TokComma
        invariant Valid() && DeclLoop(env, State(), ty, kind, trees) == DeclLoop(env, old(State()), ty, first, before)
        invariant Building(old(nodes[..]), lo, node, end, trees)
        decreases Fuel(State()), if kind == TokComma then 1 else 0
      {
        node, end, kind, trees := DeclaratorTurn(ty, node, end, trees, old(nodes[..]), lo);
      }
      DeclLoopStop(env, State(), ty, kind, trees);
      CheckToken(kind, TokSemicolon);
      f := Chain(trees, Nil);
    }

    /** `proc_expr_statement`. */
    method ExprStatement() returns (node: int, ghost f: Forest)
      requires Valid()
      modifies this`cur, this`used, token, nodes
      ensures Valid() && (f, State()) == ParseStatement(env, old(State()))
      ensures Grown(old(nodes[..]), old(used), node, f)
    {
      hide Tokens, Good, Allocated, InPool, Fresh, Indices, ParseAssign;
      var kind := NextToken();
      if kind == TokSemicolon {
        NilFacts(nodes[..], used, used, Nil);
        SameAsItself(nodes[..], used);
        return NULL, Nil;
      }
      ReplayToken();
      node, f := AssignExpr();
      MatchToken(TokSemicolon);
    }

    // ----- finsh_parser_run -----

    /** The statements parsed so far hang below `root`, and `node` is the last of them. */
    ghost predicate Rooted(node: int, line: Line)
      reads this, nodes
    {
      var f := Chain(line.trees, line.tail);
      && AreTrees(line.trees) && root == Root(f) && InPool(nodes[..], f) && Fresh(f, 0, used)
      && (line.trees == [] ==> line.tail.Nil? && node == NULL)
      && (line.trees != [] ==> node == line.trees[|line.trees| - 1].at)
    }

    /** One statement or declaration, not yet linked. */
    method Statement(kind: TokenKind) returns (node: int, ghost f: Forest)
      requires Valid() && kind == Cur(State()) && kind != TokEof && kind != TokBad && !token.replay
      modifies this`cur, this`used, token, nodes, vars
      ensures Valid() && Grown(old(nodes[..]), old(used), node, f)
      ensures (f, State()) == if kind != TokIdentifier && (IsBaseType(kind) || kind == TokUnsigned)
                              then ParseDecl(env, Replay(old(State()))) else ParseStatement(env, Replay(old(State())))
    {
      hide Tokens, Good, Allocated, InPool, ParseDecl, ParseStatement;
      ReplayToken();
      if kind != TokIdentifier && (IsBaseType(kind) || kind == TokUnsigned) {
        node, f := VariableDecl();
      } else {
        node, f := ExprStatement();
      }
    }

    /** The new statement becomes the root, or is linked behind `node`. */
    method LinkStatement(node: int, s: int, ghost f: Forest, ghost line: Line, ghost before: nat) returns (node': int)
      requires Valid() && before <= used && s == Root(f) && InPool(nodes[..], f) && Fresh(f, before, used)
      requires Rooted(node, line) && Fresh(Chain(line.trees, line.tail), 0, before)
      modifies this`root, nodes
      ensures Valid() && Rooted(node', Extend(line, f)) && State() == old(State())
    {
      hide Tokens, Good, Allocated, InPool, Fresh, Indices, Chain;
      ChainMeans(line.trees);
      NilFacts(nodes[..], before, used, f);
      ghost var pool := nodes[..];
      LineLink(pool, used, line, f, before);
      if root != NULL {
        assert node == line.trees[|line.trees| - 1].at;
        nodes[node] := nodes[node].(sibling := s);
        node' := node;
        if s != NULL {
          node' := s;
        }
      } else {
        node', root := s, s;
      }
    }

    /** `finsh_parser_run`: statements until the end of the line or a bad token. */
    method Run() returns (ghost f: Forest)
      requires Valid() && root == NULL
      requires State() == Parser(Tok(TokEof, "", 0, 0), false, Tokens(Lex(token.line, 0, false)), 0, 0, vars[..])
      modifies this, token, nodes, vars
      ensures Valid()
      ensures (f, State()) == ParserRun(env, old(vars[..]), Tokens(Lex(token.line, 0, false)))
      ensures root == Root(f) && InPool(nodes[..], f) && Distinct(f)
    {
      hide Tokens, Good, Allocated, InPool, Fresh, Indices, Next, ParseLine, LineTurn, Extend;
      NothingParsed(nodes[..], 0, used);
      var node := NULL;
      ghost var line := Line([], Nil);
      var kind := NextToken();
      ghost var goal := ParseLine(env, State(), line);
      while kind != TokEof && kind != TokBad
        invariant Valid() && !token.replay && kind == Cur(State())
        invariant ParseLine(env, State(), line) == goal
        invariant Rooted(node, line)
        decreases Fuel(State()), if kind == TokEof then 0 else 1
      {
        node, kind, line := RunTurn(kind, node, line);
      }
      ParseLineStop(env, State(), line);
      f := Chain(line.trees, line.tail);
      FreshIsDistinct(f, 0, used);
    }

    /** One turn of the main loop. */
    method RunTurn(kind: TokenKind, node: int, ghost line: Line) returns (node': int, next: TokenKind,
        ghost line': Line)
      requires Valid() && !token.replay && kind == Cur(State()) && kind != TokEof && kind != TokBad
      requires Rooted(node, line)
      modifies this, token, nodes, vars
      ensures Valid() && !token.replay && next == Cur(State())
      ensures ParseLine(env, State(), line') == ParseLine(env, old(State()), line)
      ensures Rooted(node', line')
      ensures Fuel(State()) < Fuel(old(State())) || (Fuel(State()) <= Fuel(old(State())) && next == TokEof)
    {
      hide Tokens, Good, Allocated, InPool, Fresh, Indices, Next, ParseLine, ParseDecl, ParseStatement, Extend, Chain;
      ghost var s0, pool := State(), nodes[..];
      var had := root != NULL;
      var s, f := Statement(kind);
      ghost var p1 := State();
      StatementUses(env, s0);
      TreeKept(pool, nodes[..], Chain(line.trees, line.tail), 0, s0.used);
      Widen(Chain(line.trees, line.tail), 0, s0.used, 0, used);
      LineStarted(line);
      node' := LinkStatement(node, s, f, line, s0.used);
      line' := Extend(line, f);
      ParseLineStep(env, s0, line);
      if kind != TokIdentifier && !(IsBaseType(kind) || kind == TokUnsigned) && had && s == NULL {
        var _ := NextToken();
      }
      next := NextToken();
    }
  }

  lemma NothingParsed(pool: seq<NodeRec>, lo: nat, n: nat)
    ensures Chain([], Nil) == Nil && InPool(pool, Nil) && Fresh(Nil, lo, n)
  {
  }

  lemma LineStarted(line: Line)
    requires AreTrees(line.trees) && (line.trees == [] ==> line.tail.Nil?)
    ensures Root(Chain(line.trees, line.tail)) == NULL <==> line.trees == []
  {
    if line.trees != [] {
      assert line.trees[0] in line.trees;
    }
  }

  lemma ParseLineStop(env: Env, ps: Parser, line: Line)
    requires (Cur(ps) == TokEof || Cur(ps) == TokBad) && !ps.replay
    ensures ParseLine(env, ps, line) == (line, ps)
  {
  }

  lemma FreshIsDistinct(f: Forest, lo: nat, hi: nat)
    requires Fresh(f, lo, hi)
    ensures Distinct(f)
  {
  }

  lemma StatementUses(env: Env, ps: Parser)
    requires ps.used <= NODE_MAX
    ensures SoundList(Replay(ps), ParseStatement(env, Replay(ps))) && SoundList(Replay(ps), ParseDecl(env, Replay(ps)))
  {
    StatementSound(env, Replay(ps));
    DeclSound(env, Replay(ps));
  }

  lemma DeclaratorFuel(env: Env, ps: Parser, ty: FinshType, trees: seq<Forest>)
    ensures var (_, p1, token) := Grammar.Declarator(env, ps, ty, trees);
      Fuel(p1) <= Fuel(ps) && (token == TokComma ==> Fuel(p1) < Fuel(ps))
  {
    hide Grammar.Declarator;
    var (_, p1, token) := Grammar.Declarator(env, ps, ty, trees);
    assert Fuel(p1) <= Fuel(Replay(p1));
  }

  /** The end of `Initialiser`: identifier, then assignment. */
  ghost function Assigned(env: Env, ps: Parser, id: string, right: Forest): (Forest, Parser) {
    var (left, p2) := NewId(env, ps, id);
    MakeSys(p2, KAssign, left, right)
  }

  lemma AssignedSound(env: Env, ps: Parser, id: string, g: Forest, lo: nat)
    requires lo <= ps.used <= NODE_MAX && Fresh(g, lo, ps.used) && IsOperand(g, ps.err)
    ensures Sound(ps, lo, Assigned(env, ps, id, g))
  {
    hide Fresh, IsOperand, MakeSys, NewId;
    IdSound(env, ps, id);
    var (left, p2) := NewId(env, ps, id);
    StillOperand(g, ps.err, p2.err);
    SwappedOperands(p2, KAssign, left, g, lo, ps.used);
  }

  lemma RoomFor(g: Forest, lo: nat, hi: nat)
    requires g.Node? && Fresh(g, lo, hi)
    ensures lo < hi
  {
    FreshParts(g, lo, hi);
  }

  lemma ChainMeans(trees: seq<Forest>)
    requires AreTrees(trees)
    ensures Root(Chain(trees, Nil)) == NULL <==> trees == []
    ensures trees == [] ==> Chain(trees, Nil) == Nil
  {
    if trees != [] {
      assert trees[0] in trees;
    }
  }

  lemma StartChain(pool: seq<NodeRec>, n: nat, f: Forest, lo: nat, m: nat)
    requires InPool(pool, f) && Fresh(f, m, n) && lo <= m <= n && (f.Node? ==> f.next.Nil?)
    ensures var more := Append([], f);
      && AreTrees(more) && InPool(pool, Chain(more, Nil)) && Fresh(Chain(more, Nil), lo, n)
      && Root(Chain(more, Nil)) == Root(f) && (f.Node? ==> more[|more| - 1].at == f.at)
  {
    Widen(f, m, n, lo, n);
    if f.Node? {
      ChainOfOne(f);
      assert Append([], f) == [f];
    }
  }

  /** What the parameters parsed so far and those still to come amount to. */
  ghost function ParamGoal(env: Env, ps: Parser, trees: seq<Forest>): (Forest, Parser) {
    var (rest, end) := ParamLoop(env, ps);
    (Chain(trees, rest), end)
  }

  lemma ParamGoalTurn(env: Env, ps: Parser, trees: seq<Forest>, e: Forest, p2: Parser)
    requires Cur(Next(ps)) == TokComma && ParseAssign(env, Next(ps)) == (e, p2) && (e.Node? ==> e.next.Nil?)
    ensures ParamGoal(env, ps, trees)
         == ParamGoal(env, if e.Nil? then Error(p2, ERROR_EXPECT_OPERATOR) else p2, Append(trees, e))
  {
    hide ParseAssign, ParamLoop, Next, Chain;
    if e.Nil? {
      ParamSkip(env, ps, p2);
    } else {
      var (rest, end) := ParamLoop(env, p2);
      ParamStep(env, ps, e, p2, rest, end);
      ChainTail(trees, e, rest);
    }
  }

  lemma ChainOfOne(f: Forest)
    requires f.Node?
    ensures forall g :: Chain([f], g) == Linked(f, g)
    ensures f.next.Nil? ==> Linked(f, Nil) == f
  {
    forall g ensures Chain([f], g) == Linked(f, g) {
      assert Chain([f][1..], g) == g;
    }
  }

  /** Linking a parsed tree, or nothing, behind the last tree of a chain. */
  lemma LinkLast(pool: seq<NodeRec>, n: nat, trees: seq<Forest>, g: Forest, lo: nat, m: nat)
    requires Allocated(pool, n) && trees != [] && AreTrees(trees)
    requires InPool(pool, Chain(trees, Nil)) && Fresh(Chain(trees, Nil), lo, m) && lo <= m <= n
    requires InPool(pool, g) && Fresh(g, m, n) && (g.Node? ==> g.next.Nil?)
    ensures var last, more := trees[|trees| - 1].at, Append(trees, g);
      && lo <= last < m
      && var pool' := pool[last := pool[last].(sibling := Root(g))];
         && Allocated(pool', n) && SameBelow(pool, pool', lo)
         && AreTrees(more) && more != [] && InPool(pool', Chain(more, Nil)) && Fresh(Chain(more, Nil), lo, n)
         && Root(Chain(more, Nil)) == Root(Chain(trees, Nil))
         && more[|more| - 1].at == if g.Nil? then last else g.at
  {
    hide Chain;
    var last := trees[|trees| - 1].at;
    Apart(Chain(trees, Nil), g, lo, m, n);
    Relink(pool, trees, Nil, g, lo, m);
    Overwrite(pool, n, last, pool[last].(sibling := Root(g)));
    if g.Node? {
      ChainTail(trees, g, Nil);
      assert Linked(g, Nil) == g;
      ChainJoin(trees, g, lo, m, n);
      ChainRoot(trees, g);
    } else {
      Widen(Chain(trees, Nil), lo, m, lo, n);
    }
  }

  lemma ChainRoot(trees: seq<Forest>, g: Forest)
    requires trees != [] && AreTrees(trees)
    ensures Root(Chain(trees, g)) == Root(Chain(trees, Nil)) == trees[0].at
  {
    assert trees[0] in trees;
  }

  lemma SameAsItself(pool: seq<NodeRec>, n: nat)
    ensures SameBelow(pool, pool, n)
  {
  }

  lemma IdentifierUses(ps: Parser)
    ensures ParseIdentifier(ps).1.used == ps.used && ParseIdentifier(ps).1.vars == ps.vars
  {
  }

  lemma UnaryKinds()
    ensures UnaryKind(TokEof).None?
    ensures forall t :: UnaryKind(t).Some? ==> UnaryKind(t).value in {KPreInc, KPreDec, KInvert, KGetValue, KGetAddr}
  {
  }

  lemma NilFacts(pool: seq<NodeRec>, lo: nat, hi: nat, f: Forest)
    ensures InPool(pool, Nil) && Fresh(Nil, lo, hi) && Indices(f) !! Indices(Nil)
  {
  }

  lemma MatchFuel(ps: Parser, k: TokenKind)
    ensures Fuel(Match(ps, k)) <= Fuel(ps)
    ensures Match(ps, k).used == ps.used && Match(ps, k).vars == ps.vars
  {
  }

  /** The data type of a tree's root does not matter to its shape. */
  lemma CastNode(pool: seq<NodeRec>, n: nat, f: Forest, lo: nat, dt: nat)
    requires Allocated(pool, n) && f.Node? && InPool(pool, f) && Fresh(f, lo, n)
    ensures lo <= f.at < n
    ensures var pool' := pool[f.at := pool[f.at].(dt := dt)];
      Allocated(pool', n) && SameBelow(pool, pool', lo) && InPool(pool', f.(dt := dt))
  {
    FreshParts(f, lo, n);
    var r := pool[f.at].(dt := dt);
    Overwrite(pool, n, f.at, r);
    TreeApart(pool, f.at, r, f.child);
    TreeApart(pool, f.at, r, f.next);
  }

  lemma ErrorFuel(ps: Parser, e: nat)
    ensures Fuel(Error(ps, e)) == Fuel(ps)
  {
  }

  lemma SameLess(p: seq<NodeRec>, q: seq<NodeRec>, n: nat, m: nat)
    requires SameBelow(p, q, n) && m <= n
    ensures SameBelow(p, q, m)
  {
  }

  /** The pool after linking the operands under a new node. */
  lemma SysNode(pool: seq<NodeRec>, n: nat, r: NodeRec, f: Forest, g: Forest, lo: nat)
    requires Allocated(pool, n) && n < |pool| && lo <= n && r.kind != KUnknown
    requires f.Node? && r == FREE_NODE.(kind := r.kind, child := f.at) && InPool(pool, f) && InPool(pool, g)
    requires Fresh(f, lo, n) && Fresh(g, lo, n) && Indices(f) !! Indices(g)
    ensures lo <= f.at < n
    ensures var h := NewNode(n, r.kind, 0, NoSymbol, Linked(f, g));
      var pool' := pool[n := r][f.at := pool[f.at].(sibling := Root(g))];
      Allocated(pool', n + 1) && SameBelow(pool, pool', lo) && InPool(pool', h)
  {
    FreshParts(f, lo, n);
    TreeApart(pool, n, r, f);
    TreeApart(pool, n, r, g);
    LinkNode(pool[n := r], f, g, lo, n);
  }

  lemma SysBare(pool: seq<NodeRec>, n: nat, r: NodeRec, lo: nat, h: Forest)
    requires Allocated(pool, n) && lo <= n
    requires h.Node? ==> n < |pool| && r == FREE_NODE.(kind := r.kind) && h == NewNode(n, r.kind, 0, NoSymbol, Nil)
    ensures SameBelow(pool, pool, lo) && (h.Node? ==> SameBelow(pool, pool[n := r], lo) && InPool(pool[n := r], h))
    ensures h.Nil? ==> InPool(pool, h)
  {
  }

  /** Linking a statement to the line: the pool then holds the extended line. */
  lemma LineLink(pool: seq<NodeRec>, n: nat, line: Line, f: Forest, before: nat)
    requires Allocated(pool, n) && before <= n && InPool(pool, f) && Fresh(f, before, n) && AreTrees(line.trees)
    requires InPool(pool, Chain(line.trees, line.tail)) && Fresh(Chain(line.trees, line.tail), 0, before)
    requires line.trees == [] ==> line.tail.Nil?
    ensures Root(Chain(line.trees, line.tail)) == NULL <==> line.trees == []
    ensures var g := Chain(Extend(line, f).trees, Extend(line, f).tail);
      && AreTrees(Extend(line, f).trees) && Fresh(g, 0, n)
      && (line.trees != [] ==>
            var last := line.trees[|line.trees| - 1].at;
            && last < before
            && var pool' := pool[last := pool[last].(sibling := Root(f))];
               Allocated(pool', n) && InPool(pool', g) && Root(g) == Root(Chain(line.trees, line.tail)))
      && (line.trees == [] ==> InPool(pool, g) && Root(g) == Root(f))
  {
    var trees := line.trees;
    var c := Chain(trees, line.tail);
    ChainUncut(trees, line.tail, 0, before);
    hide InPool, Fresh, Indices;
    if f.Node? {
      ChainJoin(trees, f, 0, before, n);
      ChainSnoc(trees, f);
    } else {
      Widen(Chain(trees, Nil), 0, before, 0, n);
    }
    if trees != [] {
      Apart(c, f, 0, before, n);
      Relink(pool, trees, line.tail, f, 0, before);
      var last := trees[|trees| - 1].at;
      LastBelow(c, last, before);
      Overwrite(pool, n, last, pool[last].(sibling := Root(f)));
      ChainRoot(trees, f);
      ChainRoot(trees, line.tail);
    }
  }

  lemma LastBelow(f: Forest, i: nat, hi: nat)
    requires Fresh(f, 0, hi) && i in Indices(f)
    ensures i < hi
  {
  }

  lemma NothingLeft(s: Lex)
    requires InLine(s) && Good(s.line) && s.eof
    ensures Tokens(s) == []
  {
    EndIsLatched(s);
    Progress(s);
  }
}
