/** The string literals of a parsed line: where the parser takes their copies from, and whether they are still
    there when the line has been read. */
module Literals {
  import opened Machine
  import opened Limits
  import opened Ast
  import opened Lexer
  import opened Printer
  import opened Grammar
  import opened Syntax
  import opened RoundTrip
  import opened Meaning
  import opened Shell
  import opened StringCopies
  import opened StringHeap
  import HeapSpec

  /** A literal, up to its first zero, and the number of its node. */
  datatype Literal = Literal(at: nat, text: string)

  /** The literals of a term whose nodes are numbered from `u` on, from left to right. */
  function TermLiterals(t: Term, u: nat): seq<Literal> {
    match t
    case StringTerm(s) => [Literal(u, CString(s))]
    case BinTerm(_, l, r) => TermLiterals(l, u) + TermLiterals(r, u + Size(l))
    case UnaryTerm(_, e) => TermLiterals(e, u)
    case CastTerm(_, e) => TermLiterals(e, u)
    case AssignTerm(l, r) => TermLiterals(l, u) + TermLiterals(r, u + Size(l))
    case PostTerm(_, e) => TermLiterals(e, u)
    case CallTerm(f, args) => TermLiterals(f, u) + ArgLiterals(args, u + Size(f))
    case _ => []
  }

  function ArgLiterals(a: Terms, u: nat): seq<Literal> {
    if a.NoTerms? then [] else TermLiterals(a.e, u) + ArgLiterals(a.rest, u + Size(a.e))
  }

  function ItemsLiterals(ds: seq<Item>, u: nat): seq<seq<Literal>>
    decreases |ds|
  {
    if ds == [] then []
    else
      (if ds[0].init.Some? then [TermLiterals(ds[0].init.value, u)] else [])
      + ItemsLiterals(ds[1..], u + ItemSize(ds[0]))
  }

  /** The literals in each tree of a statement. */
  function StmtLiterals(s: Stmt, u: nat): seq<seq<Literal>> {
    match s
    case ExprStmt(e) => [TermLiterals(e, u)]
    case DeclStmt(_, ds) => ItemsLiterals(ds, u)
    case EmptyStmt(_) => []
  }

  function Flat(lss: seq<seq<Literal>>): seq<Literal> {
    if lss == [] then [] else lss[0] + Flat(lss[1..])
  }

  /** The literals of a line as they are read, a copy being taken of each. */
  function LineLiterals(ss: seq<Stmt>, u: nat): seq<Literal> {
    if ss == [] then [] else Flat(StmtLiterals(ss[0], u)) + LineLiterals(ss[1..], u + StmtSize(ss[0]))
  }

  /** Those in the trees the line keeps. */
  function KeptLiterals(ss: seq<Stmt>, u: nat): seq<Literal> {
    if ss == [] then []
    else Flat(Kept(StmtLiterals(ss[0], u), |ss| == 1)) + KeptLiterals(ss[1..], u + StmtSize(ss[0]))
  }

  function Texts(ls: seq<Literal>): (ts: seq<string>)
    ensures |ts| == |ls| && forall k :: 0 <= k < |ls| ==> ts[k] == ls[k].text
  {
    seq(|ls|, k requires 0 <= k < |ls| => ls[k].text)
  }

  // ----- the order of the literals is that of their nodes -----

  ghost predicate Ordered(ls: seq<Literal>, lo: nat, hi: nat) {
    && (forall k :: 0 <= k < |ls| ==> lo <= ls[k].at < hi)
    && (forall j, k :: 0 <= j < k < |ls| ==> ls[j].at < ls[k].at)
  }

  lemma OrderedWider(a: seq<Literal>, lo: nat, hi: nat, hi': nat)
    requires Ordered(a, lo, hi) && hi <= hi'
    ensures Ordered(a, lo, hi')
  {
  }

  lemma OrderedJoin(a: seq<Literal>, b: seq<Literal>, lo: nat, m: nat, hi: nat)
    requires Ordered(a, lo, m) && (Ordered(b, m, hi) || (hi > 0 && Ordered(b, m, hi - 1))) && lo <= m <= hi
    ensures Ordered(a + b, lo, hi)
  {
  }

  lemma {:induction false} TermOrdered(t: Term, u: nat)
    ensures Ordered(TermLiterals(t, u), u, u + Size(t))
    decreases t, 0
  {
    hide Ordered;
    match t
    case BinTerm(_, l, r) =>
      TermOrdered(l, u);
      TermOrdered(r, u + Size(l));
      OrderedJoin(TermLiterals(l, u), TermLiterals(r, u + Size(l)), u, u + Size(l), u + Size(t));
    case UnaryTerm(_, e) =>
      TermOrdered(e, u);
      OrderedWider(TermLiterals(e, u), u, u + Size(e), u + Size(t));
    case CastTerm(_, e) => TermOrdered(e, u);
    case AssignTerm(l, r) =>
      TermOrdered(l, u);
      TermOrdered(r, u + Size(l));
      OrderedJoin(TermLiterals(l, u), TermLiterals(r, u + Size(l)), u, u + Size(l), u + Size(t));
    case PostTerm(_, e) =>
      TermOrdered(e, u);
      OrderedWider(TermLiterals(e, u), u, u + Size(e), u + Size(t));
    case CallTerm(f, args) =>
      TermOrdered(f, u);
      ArgsOrdered(args, u + Size(f));
      OrderedJoin(TermLiterals(f, u), ArgLiterals(args, u + Size(f)), u, u + Size(f), u + Size(t));
    case _ => LeafOrdered(t, u);
  }

  lemma LeafOrdered(t: Term, u: nat)
    requires t.CharTerm? || t.IntTerm? || t.LongTerm? || t.StringTerm? || t.NullTerm? || t.NameTerm?
    ensures Ordered(TermLiterals(t, u), u, u + Size(t))
  {
  }

  lemma {:induction false} ArgsOrdered(a: Terms, u: nat)
    ensures Ordered(ArgLiterals(a, u), u, u + SizeAll(a))
    decreases a, 0
  {
    if a.MoreTerms? {
      TermOrdered(a.e, u);
      ArgsOrdered(a.rest, u + Size(a.e));
    }
  }

  lemma {:induction false} ItemsOrdered(ds: seq<Item>, u: nat)
    ensures Ordered(Flat(ItemsLiterals(ds, u)), u, u + ItemsSize(ds))
    decreases |ds|
  {
    hide TermLiterals, Size, Ordered;
    if ds == [] {
      NoneOrdered(u);
    } else {
      var u', lss := u + ItemSize(ds[0]), ItemsLiterals(ds[1..], u + ItemSize(ds[0]));
      ItemsOrdered(ds[1..], u');
      match ds[0].init {
        case None => assert [] + lss == lss;
        case Some(e) =>
          TermOrdered(e, u);
          OrderedWider(TermLiterals(e, u), u, u + Size(e), u');
          OrderedJoin(TermLiterals(e, u), Flat(lss), u, u', u + ItemsSize(ds));
          assert ([TermLiterals(e, u)] + lss)[1..] == lss;
      }
    }
  }

  lemma NoneOrdered(u: nat)
    ensures Ordered(Flat([]), u, u) && Ordered(LineLiterals([], u), u, u + LineNodes([]))
  {
  }

  lemma StmtOrdered(s: Stmt, u: nat)
    ensures Ordered(Flat(StmtLiterals(s, u)), u, u + StmtSize(s))
  {
    hide TermLiterals, Size, Ordered;
    match s
    case ExprStmt(e) =>
      TermOrdered(e, u);
      FlatOne(TermLiterals(e, u));
    case DeclStmt(_, ds) => ItemsOrdered(ds, u);
    case EmptyStmt(_) => NoneOrdered(u);
  }

  lemma FlatOne(ls: seq<Literal>)
    ensures Flat([ls]) == ls
  {
    assert [ls][1..] == [] && Flat([]) == [];
  }

  lemma LiteralsCons(ss: seq<Stmt>, u: nat)
    requires ss != []
    ensures var u' := u + StmtSize(ss[0]);
      && LineLiterals(ss, u) == Flat(StmtLiterals(ss[0], u)) + LineLiterals(ss[1..], u')
      && KeptLiterals(ss, u) == Flat(Kept(StmtLiterals(ss[0], u), |ss| == 1)) + KeptLiterals(ss[1..], u')
      && u + LineNodes(ss) == u' + LineNodes(ss[1..])
  {
    hide StmtLiterals, StmtSize, Flat, Kept;
  }

  /** The literals of a line in the order of their nodes are those from left to right. */
  lemma {:induction false} LineOrdered(ss: seq<Stmt>, u: nat)
    ensures Ordered(LineLiterals(ss, u), u, u + LineNodes(ss))
    decreases |ss|
  {
    hide StmtLiterals, StmtSize, Flat, Ordered, LineLiterals, LineNodes;
    if ss == [] {
      NoneOrdered(u);
    } else {
      var u' := u + StmtSize(ss[0]);
      LiteralsCons(ss, u);
      StmtOrdered(ss[0], u);
      LineOrdered(ss[1..], u');
      OrderedJoin(Flat(StmtLiterals(ss[0], u)), LineLiterals(ss[1..], u'), u, u', u + LineNodes(ss));
    }
  }

  /** Nothing is left out when only the last statement has several initialisers. */
  lemma {:induction false} AllLiteralsKept(ss: seq<Stmt>, u: nat)
    ensures forall x :: x in KeptLiterals(ss, u) ==> x in LineLiterals(ss, u)
    ensures SeveralOnlyLast(ss) ==> KeptLiterals(ss, u) == LineLiterals(ss, u)
    decreases |ss|
  {
    if ss != [] {
      hide StmtLiterals, StmtSize, SeveralOnlyLast;
      var lss := StmtLiterals(ss[0], u);
      AllLiteralsKept(ss[1..], u + StmtSize(ss[0]));
      SeveralStep(ss);
      LiteralCount(ss[0], u);
      if ss[1..] != [] && lss != [] {
        FlatOne(lss[0]);
        assert lss[..1] == [lss[0]];
        if |lss| == 1 {
          assert lss[..1] == lss;
        }
      }
    }
  }

  lemma {:induction false} ItemsLiteralCount(ds: seq<Item>, u: nat)
    ensures |ItemsLiterals(ds, u)| == Inits(ds)
    decreases |ds|
  {
    if ds != [] {
      ItemsLiteralCount(ds[1..], u + ItemSize(ds[0]));
    }
  }

  lemma LiteralCount(s: Stmt, u: nat)
    ensures |StmtLiterals(s, u)| == StmtTrees(s)
  {
    if s.DeclStmt? {
      ItemsLiteralCount(s.items, u);
    }
  }

  // ----- the literals are the string nodes of the tree -----

  /** Number and value of each string node. */
  ghost function StringNodes(f: Forest): set<(nat, Word)> {
    if f.Nil? then {}
    else (if f.kind == KString then {(f.at, f.value)} else {}) + StringNodes(f.child) + StringNodes(f.next)
  }

  ghost function Placed(env: Env, ls: seq<Literal>): set<(nat, Word)> {
    set k | 0 <= k < |ls| :: (ls[k].at, env.stringAt(ls[k].at, ls[k].text))
  }

  lemma PlacedJoin(env: Env, a: seq<Literal>, b: seq<Literal>)
    ensures Placed(env, a + b) == Placed(env, a) + Placed(env, b)
  {
    forall x | x in Placed(env, b) ensures x in Placed(env, a + b) {
      var k :| 0 <= k < |b| && x == (b[k].at, env.stringAt(b[k].at, b[k].text));
      assert (a + b)[|a| + k] == b[k];
    }
    forall x | x in Placed(env, a) ensures x in Placed(env, a + b) {
      var k :| 0 <= k < |a| && x == (a[k].at, env.stringAt(a[k].at, a[k].text));
      assert (a + b)[k] == a[k];
    }
  }

  lemma LinkedNodes(f: Forest, g: Forest)
    requires f.Node? && f.next.Nil?
    ensures StringNodes(Linked(f, g)) == StringNodes(f) + StringNodes(g)
  {
  }

  lemma NodeOver(n: nat, kind: Kind, child: Forest)
    requires kind != KString
    ensures StringNodes(NewNode(n, kind, 0, NoSymbol, child)) == StringNodes(child)
  {
  }

  lemma TwoUnder(env: Env, n: nat, kind: Kind, f: Forest, g: Forest, a: seq<Literal>, b: seq<Literal>)
    requires kind != KString && f.Node? && f.next.Nil?
    requires StringNodes(f) == Placed(env, a) && StringNodes(g) == Placed(env, b)
    ensures StringNodes(NewNode(n, kind, 0, NoSymbol, Linked(f, g))) == Placed(env, a + b)
  {
    LinkedNodes(f, g);
    NodeOver(n, kind, Linked(f, g));
    PlacedJoin(env, a, b);
  }

  lemma {:induction false} TermStrings(env: Env, vars: seq<Variable>, t: Term, u: nat)
    ensures StringNodes(Build(env, vars, t, u)) == Placed(env, TermLiterals(t, u))
    decreases t, 0
  {
    hide Resolve, TypeNumber, StringNodes, Placed, Linked, NewNode, Size;
    match t
    case BinTerm(op, l, r) =>
      TermStrings(env, vars, l, u);
      TermStrings(env, vars, r, u + Size(l));
      TwoUnder(env, u + Size(l) + Size(r), KBin(op), Build(env, vars, l, u), Build(env, vars, r, u + Size(l)),
               TermLiterals(l, u), TermLiterals(r, u + Size(l)));
    case UnaryTerm(op, e) =>
      TermStrings(env, vars, e, u);
      UnaryStrings(env, vars, op, e, u);
    case CastTerm(ty, e) =>
      TermStrings(env, vars, e, u);
      SameStrings(Build(env, vars, e, u), TypeNumber(TypeOf(ty)));
    case AssignTerm(l, r) =>
      TermStrings(env, vars, l, u);
      TermStrings(env, vars, r, u + Size(l));
      TwoUnder(env, u + Size(l) + Size(r), KAssign, Build(env, vars, l, u), Build(env, vars, r, u + Size(l)),
               TermLiterals(l, u), TermLiterals(r, u + Size(l)));
    case PostTerm(down, e) =>
      TermStrings(env, vars, e, u);
      NodeOver(u + Size(e), if down then KDec else KInc, Build(env, vars, e, u));
    case CallTerm(f, args) =>
      TermStrings(env, vars, f, u);
      ArgStrings(env, vars, args, u + Size(f));
      TwoUnder(env, u + Size(f) + SizeAll(args), KFunc, Build(env, vars, f, u), BuildAll(env, vars, args, u + Size(f)),
               TermLiterals(f, u), ArgLiterals(args, u + Size(f)));
    case _ => LeafStrings(env, vars, t, u);
  }

  lemma SameStrings(f: Forest, dt: nat)
    requires f.Node?
    ensures StringNodes(f.(dt := dt)) == StringNodes(f)
  {
  }

  lemma LeafStrings(env: Env, vars: seq<Variable>, t: Term, u: nat)
    requires t.CharTerm? || t.IntTerm? || t.LongTerm? || t.StringTerm? || t.NullTerm? || t.NameTerm?
    ensures StringNodes(Build(env, vars, t, u)) == Placed(env, TermLiterals(t, u))
  {
    hide Resolve;
    var f, ls := Build(env, vars, t, u), TermLiterals(t, u);
    assert StringNodes(f.child) == {} && StringNodes(f.next) == {};
    if t.StringTerm? {
      var x := (u, env.stringAt(u, CString(t.s)));
      assert ls[0] == Literal(u, CString(t.s)) && x in Placed(env, ls);
      assert forall y :: y in Placed(env, ls) ==> y == x;
    } else {
      assert Placed(env, ls) == {};
    }
  }

  lemma UnaryStrings(env: Env, vars: seq<Variable>, op: Unary, e: Term, u: nat)
    ensures StringNodes(Build(env, vars, UnaryTerm(op, e), u)) == StringNodes(Build(env, vars, e, u))
  {
    hide Resolve, Size;
    match op
    case Plus =>
    case Minus =>
      var zero := NewNode(u + Size(e), KLong, 0, NoSymbol, Nil);
      LinkedNodes(zero, Build(env, vars, e, u));
      NodeOver(u + Size(e) + 1, KBin(Sub), Linked(zero, Build(env, vars, e, u)));
      assert StringNodes(zero) == {};
    case _ => NodeOver(u + Size(e), UnaryNode(op), Build(env, vars, e, u));
  }

  lemma {:induction false} ArgStrings(env: Env, vars: seq<Variable>, a: Terms, u: nat)
    ensures StringNodes(BuildAll(env, vars, a, u)) == Placed(env, ArgLiterals(a, u))
    decreases a, 0
  {
    hide Resolve, Build, TermLiterals, Size;
    if a.MoreTerms? {
      TermStrings(env, vars, a.e, u);
      ArgStrings(env, vars, a.rest, u + Size(a.e));
      LinkedNodes(Build(env, vars, a.e, u), BuildAll(env, vars, a.rest, u + Size(a.e)));
      PlacedJoin(env, TermLiterals(a.e, u), ArgLiterals(a.rest, u + Size(a.e)));
    }
  }

  /** The string nodes of each tree. */
  ghost predicate StringsAre(env: Env, ts: seq<Forest>, lss: seq<seq<Literal>>) {
    && |ts| == |lss|
    && forall i :: 0 <= i < |ts| ==> ts[i].Node? && ts[i].next.Nil? && StringNodes(ts[i]) == Placed(env, lss[i])
  }

  lemma ItemStrings(env: Env, vars: seq<Variable>, d: Item, u: nat)
    ensures StringsAre(env, BuildItem(env, vars, d, u),
                       if d.init.Some? then [TermLiterals(d.init.value, u)] else [])
  {
    hide Resolve, Build, TermLiterals, Size;
    if d.init.Some? {
      var e := d.init.value;
      TermStrings(env, vars, e, u);
      var left := NewNode(u + Size(e), KId, 0, Resolve(env, vars, Id(d.name)), Nil);
      LinkedNodes(left, Build(env, vars, e, u));
      NodeOver(u + Size(e) + 1, KAssign, Linked(left, Build(env, vars, e, u)));
      assert StringNodes(left) == {};
    }
  }

  lemma {:induction false} ItemsStrings(env: Env, vars: seq<Variable>, ty: FinshType, ds: seq<Item>, u: nat)
    ensures StringsAre(env, BuildItems(env, vars, ty, ds, u), ItemsLiterals(ds, u))
    decreases |ds|
  {
    hide BuildItem, TermLiterals, Entered, ItemSize, StringNodes, Placed;
    if ds != [] {
      var vars' := Entered(vars, ty, Id(ds[0].name));
      ItemStrings(env, vars', ds[0], u);
      ItemsStrings(env, vars', ty, ds[1..], u + ItemSize(ds[0]));
    }
  }

  lemma StmtStrings(env: Env, vars: seq<Variable>, s: Stmt, u: nat)
    ensures StringsAre(env, BuildStmt(env, vars, s, u), StmtLiterals(s, u))
  {
    hide Build, TermLiterals, StringNodes, Placed;
    match s
    case ExprStmt(e) => TermStrings(env, vars, e, u);
    case DeclStmt(ty, ds) => ItemsStrings(env, vars, TypeOf(ty), ds, u);
    case EmptyStmt(_) =>
  }

  lemma {:induction false} ChainStrings(env: Env, ts: seq<Forest>, lss: seq<seq<Literal>>, g: Forest)
    requires StringsAre(env, ts, lss)
    ensures StringNodes(Chain(ts, g)) == Placed(env, Flat(lss)) + StringNodes(g)
    decreases |ts|
  {
    if ts == [] {
      assert Placed(env, Flat(lss)) == {};
    } else {
      ChainStrings(env, ts[1..], lss[1..], g);
      LinkedNodes(ts[0], Chain(ts[1..], g));
      PlacedJoin(env, lss[0], Flat(lss[1..]));
    }
  }

  lemma LineStringsStep(env: Env, vars: seq<Variable>, ss: seq<Stmt>, u: nat)
    requires ss != []
    requires var vars', u' := VarsAfter(vars, ss[0]), u + StmtSize(ss[0]);
      StringNodes(BuildLine(env, vars', ss[1..], u')) == Placed(env, KeptLiterals(ss[1..], u'))
    ensures StringNodes(BuildLine(env, vars, ss, u)) == Placed(env, KeptLiterals(ss, u))
  {
    hide BuildStmt, StmtLiterals, VarsAfter, StmtSize, Chain, Flat, StringNodes, Placed, BuildLine, KeptLiterals,
         StringsAre, Kept, LineVars, LineNodes, LineNew, LineLiterals;
    RoundTrip.LineCons(env, vars, ss, u);
    LiteralsCons(ss, u);
    var vars', u', last := VarsAfter(vars, ss[0]), u + StmtSize(ss[0]), ss[1..] == [];
    var ts, lss := BuildStmt(env, vars, ss[0], u), StmtLiterals(ss[0], u);
    StmtStrings(env, vars, ss[0], u);
    KeptStrings(env, ts, lss, last);
    NothingBuilt(env, vars', u');
    ChainStrings(env, Kept(ts, last), Kept(lss, last), BuildLine(env, vars', ss[1..], u'));
    PlacedJoin(env, Flat(Kept(lss, last)), KeptLiterals(ss[1..], u'));
  }

  lemma KeptStrings(env: Env, ts: seq<Forest>, lss: seq<seq<Literal>>, last: bool)
    requires StringsAre(env, ts, lss)
    ensures StringsAre(env, Kept(ts, last), Kept(lss, last))
  {
    hide StringNodes, Placed;
  }

  lemma NothingBuilt(env: Env, vars: seq<Variable>, u: nat)
    ensures BuildLine(env, vars, [], u) == Nil && StringNodes(Nil) == {} && Placed(env, KeptLiterals([], u)) == {}
  {
  }

  lemma {:induction false} LineStrings(env: Env, vars: seq<Variable>, ss: seq<Stmt>, u: nat)
    ensures StringNodes(BuildLine(env, vars, ss, u)) == Placed(env, KeptLiterals(ss, u))
    decreases |ss|
  {
    hide StringNodes, Placed, KeptLiterals, BuildLine;
    if ss == [] {
      NothingBuilt(env, vars, u);
    } else {
      LineStrings(env, VarsAfter(vars, ss[0]), ss[1..], u + StmtSize(ss[0]));
      LineStringsStep(env, vars, ss, u);
    }
  }

  // ----- reading a line -----

  /** The word a string node gets: the address of its copy, the heap lying at `base`, or null. */
  function DataAddress(base: Word, p: Option<nat>): Word {
    match p case None => 0 case Some(a) => Offset(base, HeapSpec.HEAP_ALIGNMENT * a)
  }

  /** The copies are taken from the heap in the order in which the literals are read. */
  ghost predicate TakesCopies(env: Env, ls: seq<Literal>, bs: seq<HeapSpec.Block>, held: set<int>, base: Word) {
    var ps := CopyAddresses(bs, Texts(ls), held);
    forall k :: 0 <= k < |ls| ==> env.stringAt(ls[k].at, ls[k].text) == DataAddress(base, ps[k])
  }

  /** Reading a line gives its string nodes the addresses of its copies: one is taken for each literal, in the
      order of the nodes, and the nodes of the literals in the trees that are kept hold theirs. */
  lemma LiteralsPlaced(env: Env, vars: seq<Variable>, ss: seq<Stmt>, line: string, bs: seq<HeapSpec.Block>,
      held: set<int>, base: Word)
    requires Reads(line, ss) && LineFits(env, vars, ss) && LineNew(vars, ss) && LineNodes(ss) <= NODE_MAX
    requires TakesCopies(env, LineLiterals(ss, 0), bs, held, base)
    ensures var (f, end) := ParsedLine(env, vars, line);
      var ls, kept := LineLiterals(ss, 0), KeptLiterals(ss, 0);
      var ps := CopyAddresses(bs, Texts(ls), held);
      && end.err == ERROR_OK && Ordered(ls, 0, LineNodes(ss))
      && StringNodes(f) == (set k | 0 <= k < |ls| && ls[k] in kept :: (ls[k].at, DataAddress(base, ps[k])))
      && (SeveralOnlyLast(ss) ==> kept == ls)
  {
    hide BuildLine, ParserRun, Tokens, LineToks, LineLiterals, LineFits, LineNodes, DataAddress, StringNodes,
         Ordered, KeptLiterals, SeveralOnlyLast, LineNew;
    LineRead(env, vars, ss, line);
    LineStrings(env, vars, ss, 0);
    LineOrdered(ss, 0);
    AllLiteralsKept(ss, 0);
    PlacedAmong(env, LineLiterals(ss, 0), KeptLiterals(ss, 0), bs, held, base);
  }

  lemma PlacedAmong(env: Env, ls: seq<Literal>, kept: seq<Literal>, bs: seq<HeapSpec.Block>, held: set<int>, base: Word)
    requires TakesCopies(env, ls, bs, held, base) && forall x :: x in kept ==> x in ls
    ensures var ps := CopyAddresses(bs, Texts(ls), held);
      Placed(env, kept) == set k | 0 <= k < |ls| && ls[k] in kept :: (ls[k].at, DataAddress(base, ps[k]))
  {
    hide DataAddress;
    var ps := CopyAddresses(bs, Texts(ls), held);
    var nodes := set k | 0 <= k < |ls| && ls[k] in kept :: (ls[k].at, DataAddress(base, ps[k]));
    forall x | x in Placed(env, kept) ensures x in nodes {
      var i :| 0 <= i < |kept| && x == (kept[i].at, env.stringAt(kept[i].at, kept[i].text));
      assert kept[i] in kept;
      var k :| 0 <= k < |ls| && ls[k] == kept[i];
    }
    forall x | x in nodes ensures x in Placed(env, kept) {
      var k :| 0 <= k < |ls| && ls[k] in kept && x == (ls[k].at, DataAddress(base, ps[k]));
      var i :| 0 <= i < |kept| && kept[i] == ls[k];
    }
  }

  /** They are all intact when the line has been read, each in a live block of its own, if and only if all are
      granted and each collection on the way finds the earlier ones held by variables. */
  lemma LiteralsIntact(ss: seq<Stmt>, bs: seq<HeapSpec.Block>, held: set<int>)
    requires HeapSpec.Inv(bs, HeapSpec.HEAP_UNITS)
    ensures var ts := Texts(LineLiterals(ss, 0));
      && (AllKept(bs, {}, ts, held) <==> Careful(bs, {}, ts, held))
      && (AllKept(bs, {}, ts, held) ==> Apart(bs, ts, held))
  {
    hide HeapSpec.Inv, AllKept, Careful, LineLiterals, Apart;
    var ts := Texts(LineLiterals(ss, 0));
    AddressesGrow({}, HeapSpec.Block(0, 0, false));
    KeptExactly(bs, HeapSpec.HEAP_UNITS, {}, ts, held);
    if AllKept(bs, {}, ts, held) {
      KeptApart(bs, HeapSpec.HEAP_UNITS, ts, held);
    }
  }

  /** Each string node points at the text of its literal. */
  ghost predicate Spelled(m: Mem, nodes: set<(nat, Word)>, ls: seq<Literal>) {
    forall x :: x in nodes ==> exists k :: 0 <= k < |ls| && x.0 == ls[k].at && Spells(m, x.1, ls[k].text)
  }

  /** Altogether: when no copy is lost, each string node of the parsed line points at the text of its literal,
      in every memory that shows the heap as reading the line has left it. */
  lemma LiteralsReadable(env: Env, vars: seq<Variable>, ss: seq<Stmt>, line: string, hs: seq<seq<int>>,
                         bs: seq<HeapSpec.Block>, held: set<int>, base: Word, m: Mem)
    requires Reads(line, ss) && LineFits(env, vars, ss) && LineNew(vars, ss) && LineNodes(ss) <= NODE_MAX
    requires HeapSpec.Inv(bs, HeapSpec.HEAP_UNITS) && TakesCopies(env, LineLiterals(ss, 0), bs, held, base)
    requires var ts := Texts(LineLiterals(ss, 0));
      Trace(hs, bs, ts, held) && AllKept(bs, {}, ts, held) && InMemory(m, base, hs[|ts|])
    ensures Spelled(m, StringNodes(ParsedLine(env, vars, line).0), LineLiterals(ss, 0))
  {
    hide HeapSpec.Inv, LineToks, LineLiterals, LineFits, LineNodes, StringNodes, Ordered, ParsedLine, AllKept,
         InMemory, Holds, CopyAddresses, TakesCopies, Spells, KeptLiterals, LineNew, SeveralOnlyLast, Tokens;
    LiteralsPlaced(env, vars, ss, line, bs, held, base);
    var ls := LineLiterals(ss, 0);
    var ts := Texts(ls);
    var h, ps := hs[|ts|], CopyAddresses(bs, ts, held);
    var none: map<HeapSpec.Block, string> := map[];
    NothingRead(hs[0], none);
    TextsReadable(hs, bs, none, ts, held);
    var nodes := StringNodes(ParsedLine(env, vars, line).0);
    forall x | x in nodes ensures exists k :: 0 <= k < |ls| && x.0 == ls[k].at && Spells(m, x.1, ls[k].text) {
      var k :| 0 <= k < |ls| && x == (ls[k].at, DataAddress(base, ps[k]));
      assert ts[k] == ls[k].text && ps[k].Some? && Holds(h, ps[k].value, ts[k]);
      HeldSpells(m, base, h, ps[k].value, ls[k].text);
      assert x.1 == DataAddress(base, ps[k]);
      assert x.1 == Offset(base, HeapSpec.HEAP_ALIGNMENT * ps[k].value);
    }
  }

  lemma NothingRead(h: seq<int>, made: map<HeapSpec.Block, string>)
    requires made == map[]
    ensures Readable(h, made) && made.Keys == {}
  {
  }

  // ----- such an environment exists -----

  function CopyOf(ls: seq<Literal>, ps: seq<Option<nat>>, base: Word, at: nat): Word
    requires |ps| == |ls|
  {
    if ls == [] then 0 else if ls[0].at == at then DataAddress(base, ps[0]) else CopyOf(ls[1..], ps[1..], base, at)
  }

  lemma {:induction false} CopyFound(ls: seq<Literal>, ps: seq<Option<nat>>, base: Word, k: nat)
    requires |ps| == |ls| && k < |ls| && forall i, j :: 0 <= i < j < |ls| ==> ls[i].at < ls[j].at
    ensures CopyOf(ls, ps, base, ls[k].at) == DataAddress(base, ps[k])
    decreases k
  {
    if k > 0 {
      CopyFound(ls[1..], ps[1..], base, k - 1);
    }
  }

  /** Any environment can be given the copies of a line. */
  lemma CopiesCanBeTaken(env: Env, ss: seq<Stmt>, bs: seq<HeapSpec.Block>, held: set<int>, base: Word)
    ensures var ls := LineLiterals(ss, 0);
      var ps := CopyAddresses(bs, Texts(ls), held);
      TakesCopies(env.(stringAt := (at, _) => CopyOf(ls, ps, base, at)), ls, bs, held, base)
  {
    hide LineLiterals, CopyAddresses, CopyOf, DataAddress;
    LineOrdered(ss, 0);
    var ls := LineLiterals(ss, 0);
    var ps := CopyAddresses(bs, Texts(ls), held);
    forall k | 0 <= k < |ls| ensures CopyOf(ls, ps, base, ls[k].at) == DataAddress(base, ps[k]) {
      CopyFound(ls, ps, base, k);
    }
  }
}
