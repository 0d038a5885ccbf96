/** What command lines mean: terms as expressions over the symbols their names stand for. */
module Meaning {
  import opened Machine
  import opened Limits
  import opened Printer
  import opened Ast
  import opened Source
  import opened Lexer
  import opened Grammar
  import opened Syntax
  import opened RoundTrip
  import opened Bounds

  /** The meaning of a term whose nodes are numbered from `u` on. Unary plus means
      nothing; `++` and `--` need a variable, a call a name. */
  function Means(env: Env, vars: seq<Variable>, t: Term, u: nat): Option<Expr> {
    match t
    case CharTerm(c) => Some(CharLit(c))
    case IntTerm(v) => Some(IntLit(v))
    case LongTerm(v) => Some(LongLit(v))
    case StringTerm(s) => Some(StrLit(env.stringAt(u, CString(s))))
    case NullTerm(_) => Some(NullLit)
    case NameTerm(name) => Some(Var(Resolve(env, vars, Id(name))))
    case BinTerm(op, l, r) =>
      match (Means(env, vars, l, u), Means(env, vars, r, u + Size(l))) {
        case (Some(a), Some(b)) => Some(Bin(op, a, b))
        case _ => None
      }
    case UnaryTerm(op, e) =>
      match Means(env, vars, e, u) {
        case None => None
        case Some(x) => UnaryMeans(op, x)
      }
    case CastTerm(ty, e) =>
      match Means(env, vars, e, u) {
        case None => None
        case Some(x) => Some(Cast(TypeOf(ty), x))
      }
    case AssignTerm(l, r) =>
      match (Means(env, vars, l, u), Means(env, vars, r, u + Size(l))) {
        case (Some(a), Some(b)) => Some(Assign(a, b))
        case _ => None
      }
    case PostTerm(down, e) =>
      match Means(env, vars, e, u) {
        case Some(Var(s)) => Some(PostInc(s, down))
        case _ => None
      }
    case CallTerm(f, args) =>
      match (Means(env, vars, f, u), AllMean(env, vars, args, u + Size(f))) {
        case (Some(Var(s)), Some(a)) => Some(Call(s, a))
        case _ => None
      }
  }

  function UnaryMeans(op: Unary, x: Expr): Option<Expr> {
    match op
    case Plus => Some(x)
    case Minus => Some(Neg(x))
    case PreUp => if x.Var? then Some(PreInc(x.s, false)) else None
    case PreDown => if x.Var? then Some(PreInc(x.s, true)) else None
    case Complement => Some(Invert(x))
    case Contents => Some(Deref(x))
    case AddressOf => Some(AddrOf(x))
  }

  function AllMean(env: Env, vars: seq<Variable>, a: Terms, u: nat): Option<Args> {
    if a.NoTerms? then Some(NoArgs)
    else
      match (Means(env, vars, a.e, u), AllMean(env, vars, a.rest, u + Size(a.e))) {
        case (Some(x), Some(xs)) => Some(Arg(x, xs))
        case _ => None
      }
  }

  /** An initialiser assigns to the variable its own name means. */
  function ItemMeans(env: Env, vars: seq<Variable>, d: Item, u: nat): Option<seq<Expr>> {
    match d.init
    case None => Some([])
    case Some(e) =>
      match Means(env, vars, e, u) {
        case Some(x) => Some([Assign(Var(Resolve(env, vars, Id(d.name))), x)])
        case None => None
      }
  }

  function ItemsMean(env: Env, vars: seq<Variable>, ty: FinshType, ds: seq<Item>, u: nat): Option<seq<Expr>>
    decreases |ds|
  {
    if ds == [] then Some([])
    else
      var vars' := Entered(vars, ty, Id(ds[0].name));
      match (ItemMeans(env, vars', ds[0], u), ItemsMean(env, vars', ty, ds[1..], u + ItemSize(ds[0]))) {
        case (Some(a), Some(b)) => Some(a + b)
        case _ => None
      }
  }

  /** The expressions a statement evaluates: none for a bare declaration. */
  function StmtMeans(env: Env, vars: seq<Variable>, s: Stmt, u: nat): Option<seq<Expr>> {
    match s
    case ExprStmt(e) => match Means(env, vars, e, u) { case Some(x) => Some([x]) case None => None }
    case DeclStmt(ty, ds) => ItemsMean(env, vars, TypeOf(ty), ds, u)
    case EmptyStmt(_) => Some([])
  }

  /** The expressions a line evaluates. A declaration with several initialisers performs them all only at the
      end of the line, and otherwise the first one. */
  function LineMeans(env: Env, vars: seq<Variable>, ss: seq<Stmt>, u: nat): Option<seq<Expr>>
    decreases |ss|
  {
    if ss == [] then Some([])
    else
      match (StmtMeans(env, vars, ss[0], u), LineMeans(env, VarsAfter(vars, ss[0]), ss[1..], u + StmtSize(ss[0]))) {
        case (Some(a), Some(b)) => Some(Kept(a, |ss| == 1) + b)
        case _ => None
      }
  }

  // ----- the trees mean the same -----

  /** Neither the data type nor the sibling of a root matters. */
  lemma {:induction false} SameTree(f: Forest, g: Forest, e: Expr)
    requires f.Node? && g.Node? && IsTree(f, e)
    requires g.kind == f.kind && g.isAddr == f.isAddr && g.value == f.value && g.sym == f.sym && g.child == f.child
    ensures IsTree(g, e)
  {
    if e.Cast? {
      SameTree(f, g, e.e);
    }
  }

  lemma LinkedTree(f: Forest, g: Forest, e: Expr)
    requires IsTree(f, e)
    ensures IsTree(Linked(f, g), e)
  {
    SameTree(f, Linked(f, g), e);
  }

  // One lemma for each way of building a term, given that its operands are the trees they should be.

  ghost predicate Fits(env: Env, vars: seq<Variable>, t: Term, u: nat) {
    Means(env, vars, t, u).Some? ==> IsTree(Build(env, vars, t, u), Means(env, vars, t, u).value)
  }

  lemma BinUnder(n: nat, op: BinOp, g: Forest, h: Forest, a: Expr, b: Expr)
    requires IsTree(g, a) && IsTree(h, b) && h.next.Nil?
    ensures IsTree(NewNode(n, KBin(op), 0, NoSymbol, Linked(g, h)), Bin(op, a, b))
  {
    LinkedTree(g, h, a);
  }

  lemma AssignUnder(n: nat, g: Forest, h: Forest, a: Expr, b: Expr)
    requires IsTree(g, a) && IsTree(h, b) && h.next.Nil?
    ensures IsTree(NewNode(n, KAssign, 0, NoSymbol, Linked(g, h)), Assign(a, b))
  {
    LinkedTree(g, h, a);
  }

  lemma CallUnder(n: nat, g: Forest, h: Forest, s: Symbol, args: Args)
    requires IsTree(g, Var(s)) && IsArgs(h, args)
    ensures IsTree(NewNode(n, KFunc, 0, NoSymbol, Linked(g, h)), Call(s, args))
  {
    LinkedTree(g, h, Var(s));
  }

  lemma BinTree(env: Env, vars: seq<Variable>, op: BinOp, l: Term, r: Term, u: nat)
    requires Fits(env, vars, l, u) && Fits(env, vars, r, u + Size(l))
    ensures Fits(env, vars, BinTerm(op, l, r), u)
  {
    hide Resolve, IsTree, NewNode, Linked, Size;
    var a, b := Means(env, vars, l, u), Means(env, vars, r, u + Size(l));
    if a.Some? && b.Some? {
      BinUnder(u + Size(l) + Size(r), op, Build(env, vars, l, u), Build(env, vars, r, u + Size(l)), a.value, b.value);
    }
  }

  lemma AssignTree(env: Env, vars: seq<Variable>, l: Term, r: Term, u: nat)
    requires Fits(env, vars, l, u) && Fits(env, vars, r, u + Size(l))
    ensures Fits(env, vars, AssignTerm(l, r), u)
  {
    hide Resolve, IsTree, NewNode, Linked, Size;
    var a, b := Means(env, vars, l, u), Means(env, vars, r, u + Size(l));
    if a.Some? && b.Some? {
      AssignUnder(u + Size(l) + Size(r), Build(env, vars, l, u), Build(env, vars, r, u + Size(l)), a.value, b.value);
    }
  }

  lemma UnaryTree(env: Env, vars: seq<Variable>, op: Unary, e: Term, u: nat)
    requires Fits(env, vars, e, u)
    ensures Fits(env, vars, UnaryTerm(op, e), u)
  {
    hide Resolve;
  }

  lemma CastTree(env: Env, vars: seq<Variable>, ty: TypeName, e: Term, u: nat)
    requires Fits(env, vars, e, u)
    ensures Fits(env, vars, CastTerm(ty, e), u)
  {
    hide Resolve, TypeNumber;
    var a := Means(env, vars, e, u);
    if a.Some? {
      SameTree(Build(env, vars, e, u), Build(env, vars, CastTerm(ty, e), u), a.value);
    }
  }

  lemma PostTree(env: Env, vars: seq<Variable>, down: bool, e: Term, u: nat)
    requires Fits(env, vars, e, u)
    ensures Fits(env, vars, PostTerm(down, e), u)
  {
    hide Resolve;
  }

  lemma CallTree(env: Env, vars: seq<Variable>, f: Term, args: Terms, u: nat)
    requires Fits(env, vars, f, u) && FitsAll(env, vars, args, u + Size(f))
    ensures Fits(env, vars, CallTerm(f, args), u)
  {
    hide Resolve, IsTree, IsArgs, NewNode, Linked, Size, SizeAll;
    var a, b := Means(env, vars, f, u), AllMean(env, vars, args, u + Size(f));
    if a.Some? && a.value.Var? && b.Some? {
      CallUnder(u + Size(f) + SizeAll(args), Build(env, vars, f, u), BuildAll(env, vars, args, u + Size(f)),
                a.value.s, b.value);
    }
  }

  lemma {:induction false} TreeFits(env: Env, vars: seq<Variable>, t: Term, u: nat)
    ensures Fits(env, vars, t, u)
    decreases t, 1
  {
    hide Resolve, Fits, Build, Means, FitsAll;
    match t
    case BinTerm(op, l, r) =>
      TreeFits(env, vars, l, u);
      TreeFits(env, vars, r, u + Size(l));
      BinTree(env, vars, op, l, r, u);
    case AssignTerm(l, r) =>
      TreeFits(env, vars, l, u);
      TreeFits(env, vars, r, u + Size(l));
      AssignTree(env, vars, l, r, u);
    case UnaryTerm(op, e) =>
      TreeFits(env, vars, e, u);
      UnaryTree(env, vars, op, e, u);
    case CastTerm(ty, e) =>
      TreeFits(env, vars, e, u);
      CastTree(env, vars, ty, e, u);
    case PostTerm(down, e) =>
      TreeFits(env, vars, e, u);
      PostTree(env, vars, down, e, u);
    case CallTerm(f, args) =>
      TreeFits(env, vars, f, u);
      ArgsFit(env, vars, args, u + Size(f));
      CallTree(env, vars, f, args, u);
    case _ => LeafTree(env, vars, t, u);
  }

  lemma LeafTree(env: Env, vars: seq<Variable>, t: Term, u: nat)
    requires t.CharTerm? || t.IntTerm? || t.LongTerm? || t.StringTerm? || t.NullTerm? || t.NameTerm?
    ensures Fits(env, vars, t, u)
  {
    hide Resolve;
  }

  ghost predicate FitsAll(env: Env, vars: seq<Variable>, a: Terms, u: nat) {
    AllMean(env, vars, a, u).Some? ==> IsArgs(BuildAll(env, vars, a, u), AllMean(env, vars, a, u).value)
  }

  lemma {:induction false} ArgsFit(env: Env, vars: seq<Variable>, a: Terms, u: nat)
    ensures FitsAll(env, vars, a, u)
    decreases a, 0
  {
    if a.MoreTerms? {
      TreeFits(env, vars, a.e, u);
      ArgsFit(env, vars, a.rest, u + Size(a.e));
      MoreFits(env, vars, a, u);
    }
  }

  lemma MoreFits(env: Env, vars: seq<Variable>, a: Terms, u: nat)
    requires a.MoreTerms? && Fits(env, vars, a.e, u) && FitsAll(env, vars, a.rest, u + Size(a.e))
    ensures FitsAll(env, vars, a, u)
  {
    var x := Means(env, vars, a.e, u);
    if x.Some? {
      LinkedTree(Build(env, vars, a.e, u), BuildAll(env, vars, a.rest, u + Size(a.e)), x.value);
    }
  }

  /** The tree a term is parsed into is the tree of the expression it means. */
  lemma TreeMeans(env: Env, vars: seq<Variable>, t: Term, u: nat)
    requires Means(env, vars, t, u).Some?
    ensures IsTree(Build(env, vars, t, u), Means(env, vars, t, u).value)
  {
    TreeFits(env, vars, t, u);
  }

  /** The trees of a statement are those of its expressions, in order. */
  ghost predicate AreTrees(ts: seq<Forest>, es: seq<Expr>) {
    |ts| == |es| && forall i :: 0 <= i < |ts| ==> ts[i].Node? && IsTree(ts[i], es[i])
  }

  lemma ItemTree(env: Env, vars: seq<Variable>, d: Item, u: nat)
    requires ItemMeans(env, vars, d, u).Some?
    ensures AreTrees(BuildItem(env, vars, d, u), ItemMeans(env, vars, d, u).value)
  {
    hide Resolve, Means, Build;
    match d.init
    case None =>
    case Some(e) =>
      TreeMeans(env, vars, e, u);
      var left := NewNode(u + Size(e), KId, 0, Resolve(env, vars, Id(d.name)), Nil);
      LinkedTree(left, Build(env, vars, e, u), Var(left.sym));
  }

  lemma {:induction false} ItemsTree(env: Env, vars: seq<Variable>, ty: FinshType, ds: seq<Item>, u: nat)
    requires ItemsMean(env, vars, ty, ds, u).Some?
    ensures AreTrees(BuildItems(env, vars, ty, ds, u), ItemsMean(env, vars, ty, ds, u).value)
    decreases |ds|
  {
    hide ItemMeans, BuildItem, Entered, IsTree, ItemSize;
    if ds != [] {
      var vars' := Entered(vars, ty, Id(ds[0].name));
      ItemTree(env, vars', ds[0], u);
      ItemsTree(env, vars', ty, ds[1..], u + ItemSize(ds[0]));
    }
  }

  lemma StmtTree(env: Env, vars: seq<Variable>, s: Stmt, u: nat)
    requires StmtMeans(env, vars, s, u).Some?
    ensures AreTrees(BuildStmt(env, vars, s, u), StmtMeans(env, vars, s, u).value)
  {
    hide Means, Build, IsTree;
    match s
    case ExprStmt(e) => TreeMeans(env, vars, e, u);
    case DeclStmt(ty, ds) => ItemsTree(env, vars, TypeOf(ty), ds, u);
    case EmptyStmt(_) =>
  }

  lemma {:induction false} ChainIsLine(ts: seq<Forest>, es: seq<Expr>, g: Forest, rest: seq<Expr>)
    requires AreTrees(ts, es) && IsLine(g, rest)
    ensures IsLine(Chain(ts, g), es + rest)
    decreases |ts|
  {
    hide IsTree;
    if ts == [] {
      assert es + rest == rest;
    } else {
      ChainIsLine(ts[1..], es[1..], g, rest);
      LinkedTree(ts[0], Chain(ts[1..], g), es[0]);
      assert (es + rest)[1..] == es[1..] + rest && (es + rest)[0] == es[0];
    }
  }

  /** The chain of statement trees is the chain of the expressions the line means. */
  lemma {:induction false} LineTree(env: Env, vars: seq<Variable>, ss: seq<Stmt>, u: nat)
    requires LineMeans(env, vars, ss, u).Some?
    ensures IsLine(BuildLine(env, vars, ss, u), LineMeans(env, vars, ss, u).value)
    decreases |ss|
  {
    hide StmtMeans, BuildStmt, StmtSize, VarsAfter, IsTree, Chain;
    if ss != [] {
      var s, vars', u' := ss[0], VarsAfter(vars, ss[0]), u + StmtSize(ss[0]);
      StmtTree(env, vars, s, u);
      LineTree(env, vars', ss[1..], u');
      var ts, es := BuildStmt(env, vars, s, u), StmtMeans(env, vars, s, u).value;
      ChainIsLine(Kept(ts, |ss| == 1), Kept(es, |ss| == 1), BuildLine(env, vars', ss[1..], u'),
                  LineMeans(env, vars', ss[1..], u').value);
    }
  }

  // ----- which initialisers a line performs -----

  /** The trees of all statements. */
  function AllTrees(env: Env, vars: seq<Variable>, ss: seq<Stmt>, u: nat): seq<Forest>
    decreases |ss|
  {
    if ss == [] then []
    else BuildStmt(env, vars, ss[0], u) + AllTrees(env, VarsAfter(vars, ss[0]), ss[1..], u + StmtSize(ss[0]))
  }

  lemma {:induction false} TreesOfChain(ts: seq<Forest>, g: Forest)
    requires forall f :: f in ts ==> f.Node?
    ensures Length(Chain(ts, g)) == |ts| + Length(g)
  {
    if ts != [] {
      TreesOfChain(ts[1..], g);
      assert ts[0] in ts && Chain(ts, g) == ts[0].(next := Chain(ts[1..], g));
    }
  }

  /** Only the last statement has several initialisers. */
  predicate SeveralOnlyLast(ss: seq<Stmt>) {
    forall i :: 0 <= i < |ss| - 1 ==> StmtTrees(ss[i]) <= 1
  }

  lemma {:induction false} ChainJoin(a: seq<Forest>, b: seq<Forest>)
    ensures Chain(a + b, Nil) == Chain(a, Chain(b, Nil))
  {
    if a == [] {
      assert a + b == b;
    } else {
      assert (a + b)[1..] == a[1..] + b;
      ChainJoin(a[1..], b);
    }
  }

  lemma AllTreesCons(env: Env, vars: seq<Variable>, ss: seq<Stmt>, u: nat)
    requires ss != []
    ensures AllTrees(env, vars, ss, u) ==
      BuildStmt(env, vars, ss[0], u) + AllTrees(env, VarsAfter(vars, ss[0]), ss[1..], u + StmtSize(ss[0]))
  {
    hide BuildStmt, VarsAfter, StmtSize;
  }

  lemma TreesJoin(ts: seq<Forest>, last: bool, g: Forest, all: seq<Forest>, several: bool)
    requires (forall f :: f in ts ==> f.Node?) && Length(g) <= |all| && (last ==> g == Nil && all == [] && several)
    requires if several then g == Chain(all, Nil) else Length(g) < |all|
    ensures var f := Chain(Kept(ts, last), g);
      && Length(f) <= |ts + all|
      && if (last || |ts| <= 1) && several then f == Chain(ts + all, Nil) else Length(f) < |ts + all|
  {
    hide Chain, Length;
    TreesOfChain(Kept(ts, last), g);
    ChainJoin(ts, all);
    if |ts| <= 1 {
      assert Kept(ts, last) == ts;
    }
  }

  /** A forest with no more trees than `all`, and all of these if `whole`, or fewer. */
  ghost predicate KeepsOf(f: Forest, all: seq<Forest>, whole: bool) {
    && (forall t :: t in all ==> t.Node?)
    && Length(f) <= |all| && if whole then f == Chain(all, Nil) else Length(f) < |all|
  }

  lemma NothingLeft(env: Env, vars: seq<Variable>, u: nat)
    ensures BuildLine(env, vars, [], u) == Nil && AllTrees(env, vars, [], u) == []
    ensures KeepsOf(Nil, [], true) && SeveralOnlyLast([])
  {
  }

  lemma TreesOfMore(env: Env, vars: seq<Variable>, ss: seq<Stmt>, u: nat)
    requires ss != []
    requires var vars', u', rest := VarsAfter(vars, ss[0]), u + StmtSize(ss[0]), ss[1..];
      KeepsOf(BuildLine(env, vars', rest, u'), AllTrees(env, vars', rest, u'), SeveralOnlyLast(rest))
    ensures KeepsOf(BuildLine(env, vars, ss, u), AllTrees(env, vars, ss, u), SeveralOnlyLast(ss))
  {
    hide BuildStmt, VarsAfter, StmtSize, Chain, StmtTrees, Length, SeveralOnlyLast, BuildLine, AllTrees, Kept, LineVars,
         LineNodes, LineNew;
    var vars', u', rest, ts := VarsAfter(vars, ss[0]), u + StmtSize(ss[0]), ss[1..], BuildStmt(env, vars, ss[0], u);
    AllTreesCons(env, vars, ss, u);
    RoundTrip.LineCons(env, vars, ss, u);
    NothingLeft(env, vars', u');
    StmtTreeCount(env, vars, ss[0], u);
    SeveralStep(ss);
    TreesJoin(ts, rest == [], BuildLine(env, vars', rest, u'), AllTrees(env, vars', rest, u'), SeveralOnlyLast(rest));
  }

  lemma {:induction false} TreesOfLine(env: Env, vars: seq<Variable>, ss: seq<Stmt>, u: nat)
    ensures KeepsOf(BuildLine(env, vars, ss, u), AllTrees(env, vars, ss, u), SeveralOnlyLast(ss))
    decreases |ss|
  {
    hide BuildLine, AllTrees, KeepsOf, SeveralOnlyLast;
    if ss == [] {
      NothingLeft(env, vars, u);
    } else {
      TreesOfLine(env, VarsAfter(vars, ss[0]), ss[1..], u + StmtSize(ss[0]));
      TreesOfMore(env, vars, ss, u);
    }
  }

  lemma SeveralStep(ss: seq<Stmt>)
    requires ss != []
    ensures SeveralOnlyLast(ss) <==> (ss[1..] == [] || StmtTrees(ss[0]) <= 1) && SeveralOnlyLast(ss[1..])
    ensures ss[1..] == [] ==> SeveralOnlyLast(ss[1..])
  {
    hide StmtTrees;
    var rest := ss[1..];
    if SeveralOnlyLast(ss) {
      assert forall i :: 0 <= i < |rest| - 1 ==> rest[i] == ss[i + 1];
    }
    if (rest == [] || StmtTrees(ss[0]) <= 1) && SeveralOnlyLast(rest) {
      assert forall i :: 1 <= i < |ss| - 1 ==> ss[i] == rest[i - 1];
    }
  }

  /** A line keeps the assignments of all its initialisers if and only if none but its last statement has more
      than one of them. */
  lemma AllInitialised(env: Env, vars: seq<Variable>, ss: seq<Stmt>, u: nat)
    ensures BuildLine(env, vars, ss, u) == Chain(AllTrees(env, vars, ss, u), Nil) <==> SeveralOnlyLast(ss)
  {
    TreesOfLine(env, vars, ss, u);
    TreesOfChain(AllTrees(env, vars, ss, u), Nil);
  }

  lemma TwoItems(env: Env, vars: seq<Variable>, ty: FinshType, c: Item, d: Item, u: nat)
    ensures var vars1 := Entered(vars, ty, Id(c.name));
      var vars2 := Entered(vars1, ty, Id(d.name));
      && ItemVars(vars, ty, [c, d]) == vars2
      && ItemsSize([c, d]) == ItemSize(c) + ItemSize(d)
      && (ItemsFit(env, vars, ty, [c, d]) <==> ItemFits(env, vars1, c) && ItemFits(env, vars2, d))
      && ItemsMean(env, vars, ty, [c, d], u) ==
        match (ItemMeans(env, vars1, c, u), ItemMeans(env, vars2, d, u + ItemSize(c))) {
          case (Some(a), Some(b)) => Some(a + b)
          case _ => None
        }
  {
    hide Entered, ItemFits, ItemMeans, ItemSize;
    var vars1 := Entered(vars, ty, Id(c.name));
    var vars2 := Entered(vars1, ty, Id(d.name));
    assert [c, d][1..] == [d] && [d][1..] == [];
    assert ItemVars(vars2, ty, []) == vars2 && ItemVars(vars1, ty, [d]) == vars2;
    assert ItemsSize([]) == 0 && ItemsSize([d]) == ItemSize(d);
    assert ItemsFit(env, vars2, ty, []) && (ItemsFit(env, vars1, ty, [d]) <==> ItemFits(env, vars2, d));
    assert ItemsMean(env, vars2, ty, [], u + ItemSize(c) + ItemSize(d)) == Some([]);
    assert ItemsMean(env, vars1, ty, [d], u + ItemSize(c)) == ItemMeans(env, vars2, d, u + ItemSize(c)) by {
      var x := ItemMeans(env, vars2, d, u + ItemSize(c));
      assert x.Some? ==> x.value + [] == x.value;
    }
  }

  /** `int a = 1, b = 2; a;` */
  const DROPPED: seq<Stmt> :=
    [DeclStmt(TypeName(false, IntName, false), [Item("a", Some(IntTerm(1))), Item("b", Some(IntTerm(2)))]),
     ExprStmt(NameTerm("a"))]

  lemma DroppedParts(env: Env, vars: seq<Variable>)
    requires LineNew(vars, DROPPED)
    ensures var after := LineVars(vars, DROPPED);
      && after == VarsAfter(vars, DROPPED[0]) && ItemsNew(vars, TInt, DROPPED[0].items)
      && (LineFits(env, vars, DROPPED) <==> StmtFits(env, vars, DROPPED[0]) && StmtFits(env, after, DROPPED[1]))
      && LineNodes(DROPPED) == StmtSize(DROPPED[0]) + StmtSize(DROPPED[1])
      && LineMeans(env, vars, DROPPED, 0) ==
        match (StmtMeans(env, vars, DROPPED[0], 0), StmtMeans(env, after, DROPPED[1], StmtSize(DROPPED[0]))) {
          case (Some(a), Some(b)) => Some(Kept(a, false) + (Kept(b, true) + []))
          case _ => None
        }
  {
    var d, e, after := DROPPED[0], DROPPED[1], VarsAfter(vars, DROPPED[0]);
    assert DROPPED[1..] == [e] && [e][1..] == [] && VarsAfter(after, e) == after;
    hide ItemVars, ItemsNew, StmtFits, StmtSize, StmtMeans, DROPPED, VarsAfter, Kept;
    assert LineVars(after, []) == after && LineVars(after, [e]) == after;
    assert LineNodes([]) == 0 && LineNodes([e]) == StmtSize(e);
    assert LineFits(env, after, []) && LineMeans(env, after, [], StmtSize(d) + StmtSize(e)) == Some([]);
    assert LineFits(env, after, [e]) <==> StmtFits(env, after, e);
  }

  lemma ShortNames()
    ensures Id("a") == "a" && Id("b") == "b"
  {
    NameParts("a");
    NameParts("b");
  }

  lemma DroppedFits(env: Env, vars: seq<Variable>)
    requires LineNew(vars, DROPPED)
    ensures LineFits(env, vars, DROPPED) && LineNodes(DROPPED) <= NODE_MAX
    ensures Resolve(env, LineVars(vars, DROPPED), "a").VarSym? && Resolve(env, LineVars(vars, DROPPED), "a").ty == TInt
    ensures Resolve(env, Entered(vars, TInt, "a"), "a") == Resolve(env, LineVars(vars, DROPPED), "a")
  {
    ShortNames();
    var c, d := Item("a", Some(IntTerm(1))), Item("b", Some(IntTerm(2)));
    hide Id, VarFind, FreeSlot, VarInsert, Entered;
    DroppedParts(env, vars);
    TwoItems(env, vars, TInt, c, d, 0);
    var vars1 := Entered(vars, TInt, "a");
    assert [c, d][0].name == "a" && [c, d][1].name == "b";
    DeclaredTypes(env, vars, TInt, [c, d]);
    ItemDeclared(vars, TInt, [c, d], 0);
    OneEntered(env, vars, TInt, c, d);
  }

  lemma OneEntered(env: Env, vars: seq<Variable>, ty: FinshType, c: Item, d: Item)
    requires ItemsNew(vars, ty, [c, d]) && ty != TUnknown
    ensures var vars1 := Entered(vars, ty, Id(c.name));
      Resolve(env, vars1, Id(c.name)) == Resolve(env, Entered(vars1, ty, Id(d.name)), Id(c.name))
  {
    hide VarFind, FreeSlot, VarInsert, Entered;
    var vars1 := Entered(vars, ty, Id(c.name));
    assert [c, d][1..] == [d];
    EnteredFacts(vars, ty, Id(c.name));
    EnteredFacts(vars1, ty, Id(d.name));
  }

  lemma DroppedMeans(env: Env, vars: seq<Variable>)
    requires LineNew(vars, DROPPED)
    ensures var a := Resolve(env, Entered(vars, TInt, "a"), "a");
      var a' := Resolve(env, LineVars(vars, DROPPED), "a");
      LineMeans(env, vars, DROPPED, 0) == Some([Assign(Var(a), IntLit(1)), Var(a')])
  {
    var c, d := Item("a", Some(IntTerm(1))), Item("b", Some(IntTerm(2)));
    ShortNames();
    DroppedParts(env, vars);
    TwoItems(env, vars, TInt, c, d, 0);
    hide LineNew, Resolve, Entered, LineMeans, LineVars, ItemsMean, ItemVars, ItemSize, ItemsSize;
    var a := Resolve(env, Entered(vars, TInt, "a"), "a");
    assert ItemMeans(env, Entered(vars, TInt, "a"), c, 0) == Some([Assign(Var(a), IntLit(1))]);
    assert ItemMeans(env, Entered(Entered(vars, TInt, "a"), TInt, "b"), d, ItemSize(c)).Some?;
    var x := StmtMeans(env, vars, DROPPED[0], 0);
    assert x.Some? && Kept(x.value, false) == [Assign(Var(a), IntLit(1))];
    var b := Var(Resolve(env, LineVars(vars, DROPPED), "a"));
    assert StmtMeans(env, LineVars(vars, DROPPED), DROPPED[1], StmtSize(DROPPED[0])) == Some([b]);
    assert Kept(x.value, false) + (Kept([b], true) + []) == [Assign(Var(a), IntLit(1)), b];
  }

  /** The second initialiser of this line is never performed, and no error says so. */
  lemma DroppedInitialiser(env: Env, vars: seq<Variable>, line: string)
    requires Reads(line, DROPPED) && LineNew(vars, DROPPED)
    ensures ParserRun(env, vars, Tokens(Lex(line, 0, false))).1.err == 0 && !SeveralOnlyLast(DROPPED)
    ensures var a := Resolve(env, LineVars(vars, DROPPED), "a");
      && a.VarSym? && a.ty == TInt
      && LineMeans(env, vars, DROPPED, 0) == Some([Assign(Var(a), IntLit(1)), Var(a)])
  {
    DroppedFits(env, vars);
    DroppedMeans(env, vars);
    var d := DROPPED[0].items;
    assert d[1..] == [d[1]] && d[1..][1..] == [] && Inits(d[1..]) == 1 && StmtTrees(DROPPED[0]) == 2;
    hide Reads, LineFits, LineNew, Resolve, Entered, LineMeans, LineVars, LineNodes, ParserRun, DROPPED, StmtTrees;
    LineRead(env, vars, DROPPED, line);
  }

  // ----- how many increments -----

  function Increments(t: Term): nat {
    match t
    case BinTerm(_, l, r) => Increments(l) + Increments(r)
    case UnaryTerm(op, e) => Increments(e) + if op.PreUp? || op.PreDown? then 1 else 0
    case CastTerm(_, e) => Increments(e)
    case AssignTerm(l, r) => Increments(l) + Increments(r)
    case PostTerm(_, e) => Increments(e) + 1
    case CallTerm(f, args) => Increments(f) + AllIncrements(args)
    case _ => 0
  }

  function AllIncrements(a: Terms): nat {
    if a.NoTerms? then 0 else Increments(a.e) + AllIncrements(a.rest)
  }

  /** The increments in the trees of a statement. */
  function StmtIncrements(s: Stmt): seq<nat> {
    match s case ExprStmt(e) => [Increments(e)] case DeclStmt(_, ds) => ItemsIncrements(ds) case EmptyStmt(_) => []
  }

  function ItemsIncrements(ds: seq<Item>): seq<nat> {
    if ds == [] then []
    else (if ds[0].init.Some? then [Increments(ds[0].init.value)] else []) + ItemsIncrements(ds[1..])
  }

  function Sum(ns: seq<nat>): nat {
    if ns == [] then 0 else ns[0] + Sum(ns[1..])
  }

  /** The increments in what a line keeps. */
  function LineIncrements(ss: seq<Stmt>): nat {
    if ss == [] then 0 else Sum(Kept(StmtIncrements(ss[0]), |ss| == 1)) + LineIncrements(ss[1..])
  }

  lemma StepsOver(n: nat, kind: Kind, f: Forest, g: Forest)
    requires f.Node? && f.next.Nil?
    ensures Steps(Linked(f, g)) == Steps(f) + Steps(g)
    ensures Steps(NewNode(n, kind, 0, NoSymbol, Linked(f, g))) ==
      (if kind in {KPreInc, KPreDec, KInc, KDec} then 1 else 0) + Steps(f) + Steps(g)
  {
    assert Steps(f) == (if f.kind in {KPreInc, KPreDec, KInc, KDec} then 1 else 0) + Steps(f.child);
  }

  lemma UnarySteps(env: Env, vars: seq<Variable>, op: Unary, e: Term, u: nat)
    ensures Steps(Build(env, vars, UnaryTerm(op, e), u)) ==
      Steps(Build(env, vars, e, u)) + if op.PreUp? || op.PreDown? then 1 else 0
  {
    BuildUnary(env, vars, op, e, u);
    hide Build, Size, Steps, NewNode;
    var f, v := Build(env, vars, e, u), u + Size(e);
    var zero := NewNode(v, KLong, 0, NoSymbol, Nil);
    assert Linked(f, Nil) == f && Steps(Nil) == 0 && Steps(zero) == 0 by { NoStep(v); }
    StepsOver(v, UnaryNode(op), f, Nil);
    StepsOver(v + 1, KBin(Sub), zero, f);
  }

  lemma NoStep(n: nat)
    ensures Steps(Nil) == 0 && Steps(NewNode(n, KLong, 0, NoSymbol, Nil)) == 0
  {
  }

  lemma LeafSteps(env: Env, vars: seq<Variable>, t: Term, u: nat)
    requires t.CharTerm? || t.IntTerm? || t.LongTerm? || t.StringTerm? || t.NullTerm? || t.NameTerm?
    ensures Steps(Build(env, vars, t, u)) == 0
  {
    hide Resolve, Id, CString;
  }

  lemma CastSteps(f: Forest, dt: nat)
    requires f.Node?
    ensures Steps(f.(dt := dt)) == Steps(f)
  {
  }

  lemma {:induction false} TermSteps(env: Env, vars: seq<Variable>, t: Term, u: nat)
    ensures Steps(Build(env, vars, t, u)) == Increments(t)
  {
    hide Build, Steps, Size, SizeAll, NewNode, Linked;
    match t
    case BinTerm(op, l, r) =>
      TermSteps(env, vars, l, u);
      TermSteps(env, vars, r, u + Size(l));
      BuildBin(env, vars, op, l, r, u);
      StepsOver(u + Size(l) + Size(r), KBin(op), Build(env, vars, l, u), Build(env, vars, r, u + Size(l)));
    case UnaryTerm(op, e) =>
      TermSteps(env, vars, e, u);
      UnarySteps(env, vars, op, e, u);
    case CastTerm(ty, e) =>
      TermSteps(env, vars, e, u);
      BuildCast(env, vars, ty, e, u);
      CastSteps(Build(env, vars, e, u), TypeNumber(TypeOf(ty)));
    case AssignTerm(l, r) =>
      TermSteps(env, vars, l, u);
      TermSteps(env, vars, r, u + Size(l));
      BuildAssign(env, vars, l, r, u);
      StepsOver(u + Size(l) + Size(r), KAssign, Build(env, vars, l, u), Build(env, vars, r, u + Size(l)));
    case PostTerm(down, e) =>
      TermSteps(env, vars, e, u);
      BuildPost(env, vars, down, e, u);
      NoStep(u);
      StepsOver(u + Size(e), if down then KDec else KInc, Build(env, vars, e, u), Nil);
    case CallTerm(f, args) =>
      TermSteps(env, vars, f, u);
      ArgSteps(env, vars, args, u + Size(f));
      BuildCall(env, vars, f, args, u);
      StepsOver(u + Size(f) + SizeAll(args), KFunc, Build(env, vars, f, u), BuildAll(env, vars, args, u + Size(f)));
    case _ => LeafSteps(env, vars, t, u);
  }

  lemma {:induction false} ArgSteps(env: Env, vars: seq<Variable>, a: Terms, u: nat)
    ensures Steps(BuildAll(env, vars, a, u)) == AllIncrements(a)
  {
    if a.MoreTerms? {
      TermSteps(env, vars, a.e, u);
      ArgSteps(env, vars, a.rest, u + Size(a.e));
    }
  }

  /** The increments of each tree. */
  ghost predicate StepsAre(ts: seq<Forest>, ns: seq<nat>) {
    |ts| == |ns| && forall i :: 0 <= i < |ts| ==> ts[i].Node? && ts[i].next.Nil? && Steps(ts[i]) == ns[i]
  }

  lemma ItemSteps(env: Env, vars: seq<Variable>, d: Item, u: nat)
    ensures StepsAre(BuildItem(env, vars, d, u), if d.init.Some? then [Increments(d.init.value)] else [])
  {
    hide Resolve, Build, Increments;
    if d.init.Some? {
      var e := d.init.value;
      TermSteps(env, vars, e, u);
      var left := NewNode(u + Size(e), KId, 0, Resolve(env, vars, Id(d.name)), Nil);
      assert Steps(Linked(left, Build(env, vars, e, u))) == Steps(Build(env, vars, e, u));
    }
  }

  lemma {:induction false} ItemsSteps(env: Env, vars: seq<Variable>, ty: FinshType, ds: seq<Item>, u: nat)
    ensures StepsAre(BuildItems(env, vars, ty, ds, u), ItemsIncrements(ds))
    decreases |ds|
  {
    hide BuildItem, Increments, Entered, ItemSize, Steps;
    if ds != [] {
      var vars' := Entered(vars, ty, Id(ds[0].name));
      ItemSteps(env, vars', ds[0], u);
      ItemsSteps(env, vars', ty, ds[1..], u + ItemSize(ds[0]));
    }
  }

  lemma StmtSteps(env: Env, vars: seq<Variable>, s: Stmt, u: nat)
    ensures StepsAre(BuildStmt(env, vars, s, u), StmtIncrements(s))
  {
    hide Build, Increments, Steps;
    match s
    case ExprStmt(e) => TermSteps(env, vars, e, u);
    case DeclStmt(ty, ds) => ItemsSteps(env, vars, TypeOf(ty), ds, u);
    case EmptyStmt(_) =>
  }

  lemma {:induction false} ChainSteps(ts: seq<Forest>, ns: seq<nat>, g: Forest)
    requires StepsAre(ts, ns)
    ensures Steps(Chain(ts, g)) == Sum(ns) + Steps(g)
    decreases |ts|
  {
    if ts != [] {
      ChainSteps(ts[1..], ns[1..], g);
      var f := ts[0];
      assert Chain(ts, g) == f.(next := Chain(ts[1..], g));
      assert Steps(f) == (if f.kind in {KPreInc, KPreDec, KInc, KDec} then 1 else 0) + Steps(f.child);
    }
  }

  lemma IncrementsCons(ss: seq<Stmt>)
    requires ss != []
    ensures LineIncrements(ss) == Sum(Kept(StmtIncrements(ss[0]), ss[1..] == [])) + LineIncrements(ss[1..])
  {
    hide StmtIncrements, Kept, Sum;
  }

  lemma KeptSteps(ts: seq<Forest>, ns: seq<nat>, last: bool, g: Forest)
    requires StepsAre(ts, ns)
    ensures Steps(Chain(Kept(ts, last), g)) == Sum(Kept(ns, last)) + Steps(g)
  {
    ChainSteps(Kept(ts, last), Kept(ns, last), g);
  }

  lemma NoSteps(env: Env, vars: seq<Variable>, u: nat)
    ensures Steps(BuildLine(env, vars, [], u)) == 0 == LineIncrements([]) && BuildLine(env, vars, [], u) == Nil
  {
  }

  /** The increments of a line are the nodes whose code is long. */
  lemma {:induction false} LineSteps(env: Env, vars: seq<Variable>, ss: seq<Stmt>, u: nat)
    ensures Steps(BuildLine(env, vars, ss, u)) == LineIncrements(ss)
    decreases |ss|
  {
    hide BuildStmt, StmtIncrements, VarsAfter, StmtSize, Steps, Chain, Sum, Kept, BuildLine, LineIncrements, StepsAre;
    if ss == [] {
      NoSteps(env, vars, u);
    } else {
      var vars', u' := VarsAfter(vars, ss[0]), u + StmtSize(ss[0]);
      RoundTrip.LineCons(env, vars, ss, u);
      IncrementsCons(ss);
      NoSteps(env, vars', u');
      StmtSteps(env, vars, ss[0], u);
      LineSteps(env, vars', ss[1..], u');
      KeptSteps(BuildStmt(env, vars, ss[0], u), StmtIncrements(ss[0]), ss[1..] == [],
                BuildLine(env, vars', ss[1..], u'));
    }
  }
}
