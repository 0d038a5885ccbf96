/** Command lines as a user means them: parenthesis-free terms stratified by precedence, how they are
    written as tokens, and the trees they stand for. */
module Syntax {
  import opened Machine
  import opened Limits
  import opened Ast
  import opened Lexer
  import opened Printer
  import opened Grammar

  datatype BaseName = VoidName | CharName | ShortName | IntName | LongName

  /** A type as it is written: `unsigned`, one of the five words, `*`. */
  datatype TypeName = TypeName(unsigned: bool, base: BaseName, star: bool)

  datatype Unary = Plus | Minus | PreUp | PreDown | Complement | Contents | AddressOf

  datatype Term =
    | CharTerm(c: Byte)
    | IntTerm(v: Word)
    | LongTerm(v: Word)
    | StringTerm(s: string)
    | NullTerm(small: bool)
    | NameTerm(name: string)
    | BinTerm(op: BinOp, l: Term, r: Term)
    | UnaryTerm(u: Unary, e: Term)
    | CastTerm(ty: TypeName, e: Term)
    | AssignTerm(l: Term, r: Term)
    | PostTerm(down: bool, e: Term)
    | CallTerm(f: Term, args: Terms)

  datatype Terms = NoTerms | MoreTerms(e: Term, rest: Terms)

  /** A declared name, with an initialiser or without. */
  datatype Item = Item(name: string, init: Option<Term>)

  /** An empty statement comes with the tokens it swallows. */
  datatype Stmt = ExprStmt(e: Term) | DeclStmt(ty: TypeName, items: seq<Item>) | EmptyStmt(skipped: seq<Tok>)

  // ----- types -----

  /** `unsigned void` is no type. */
  predicate IsTypeName(n: TypeName) {
    n.unsigned ==> !n.base.VoidName?
  }

  /** The type that is meant: `unsigned` makes no difference in front of a `*`. */
  function TypeOf(n: TypeName): FinshType {
    if n.star then
      match n.base
      case VoidName => TVoidP
      case CharName => TCharP
      case ShortName => TShortP
      case IntName => TIntP
      case LongName => TLongP
    else
      match n.base
      case VoidName => TVoid
      case CharName => if n.unsigned then TUChar else TChar
      case ShortName => if n.unsigned then TUShort else TShort
      case IntName => if n.unsigned then TUInt else TInt
      case LongName => if n.unsigned then TULong else TLong
  }

  // ----- precedence -----

  function OpLevel(op: BinOp): (k: nat)
    ensures 1 <= k < CAST_LEVEL
  {
    match op
    case Or => 1
    case Xor => 2
    case And => 3
    case Shl | Shr => 4
    case Add | Sub => 5
    case Mul | Div | Mod => 6
  }

  const POST_LEVEL: nat := 8

  function Level(t: Term): (k: nat)
    ensures k <= POST_LEVEL
  {
    match t
    case AssignTerm(_, _) => 0
    case BinTerm(op, _, _) => OpLevel(op)
    case UnaryTerm(_, _) | CastTerm(_, _) => CAST_LEVEL
    case _ => POST_LEVEL
  }

  /** What the parser takes of a name: its first characters. */
  function Id(name: string): string {
    CName(name, NAME_MAX)
  }

  /** Terms that need no parentheses: binary operators group to the left, assignment to the right. */
  predicate Stratified(t: Term) {
    match t
    case BinTerm(op, l, r) => Stratified(l) && Stratified(r) && Level(l) >= OpLevel(op) && Level(r) > OpLevel(op)
    case UnaryTerm(_, e) => Stratified(e) && Level(e) >= CAST_LEVEL
    case CastTerm(ty, e) => IsTypeName(ty) && Stratified(e) && Level(e) >= CAST_LEVEL
    case AssignTerm(l, r) => Stratified(l) && Stratified(r) && Level(l) >= 1
    case PostTerm(_, e) => Stratified(e) && Level(e) == POST_LEVEL
    case CallTerm(f, args) => Stratified(f) && Level(f) == POST_LEVEL && AllStratified(args)
    case _ => true
  }

  predicate AllStratified(a: Terms) {
    a.MoreTerms? ==> Stratified(a.e) && AllStratified(a.rest)
  }

  // ----- tokens -----

  function WordTok(k: TokenKind, w: string): Tok {
    Tok(k, w, 0, 0)
  }

  function Sign(k: TokenKind): Tok {
    Tok(k, "", 0, 0)
  }

  function OpToken(op: BinOp): TokenKind {
    match op
    case Or => TokOr
    case Xor => TokXor
    case And => TokAnd
    case Shl => TokShl
    case Shr => TokShr
    case Add => TokAdd
    case Sub => TokSub
    case Mul => TokMul
    case Div => TokDiv
    case Mod => TokMod
  }

  function UnaryToken(u: Unary): TokenKind {
    match u
    case Plus => TokAdd
    case Minus => TokSub
    case PreUp => TokInc
    case PreDown => TokDec
    case Complement => TokBitwise
    case Contents => TokMul
    case AddressOf => TokAnd
  }

  function BaseTok(b: BaseName): Tok {
    match b
    case VoidName => WordTok(TokVoid, "void")
    case CharName => WordTok(TokChar, "char")
    case ShortName => WordTok(TokShort, "short")
    case IntName => WordTok(TokInt, "int")
    case LongName => WordTok(TokLong, "long")
  }

  function TypeToks(n: TypeName): seq<Tok> {
    (if n.unsigned then [WordTok(TokUnsigned, "unsigned")] else []) + [BaseTok(n.base)]
    + if n.star then [Sign(TokMul)] else []
  }

  function Toks(t: Term): seq<Tok> {
    match t
    case CharTerm(c) => [Tok(TokValueChar, "", c, 0)]
    case IntTerm(v) => [Tok(TokValueInt, "", v, 0)]
    case LongTerm(v) => [Tok(TokValueLong, "", v, 0)]
    case StringTerm(s) => [WordTok(TokValueString, s)]
    case NullTerm(small) => [WordTok(TokValueNull, if small then "null" else "NULL")]
    case NameTerm(name) => [WordTok(TokIdentifier, name)]
    case BinTerm(op, l, r) => Toks(l) + [Sign(OpToken(op))] + Toks(r)
    case UnaryTerm(u, e) => [Sign(UnaryToken(u))] + Toks(e)
    case CastTerm(ty, e) => [Sign(TokLeftParen)] + TypeToks(ty) + [Sign(TokRightParen)] + Toks(e)
    case AssignTerm(l, r) => Toks(l) + [Sign(TokAssign)] + Toks(r)
    case PostTerm(down, e) => Toks(e) + [Sign(if down then TokDec else TokInc)]
    case CallTerm(f, args) => Toks(f) + [Sign(TokLeftParen)] + ArgToks(args) + [Sign(TokRightParen)]
  }

  function ArgToks(a: Terms): seq<Tok> {
    if a.NoTerms? then [] else Toks(a.e) + MoreToks(a.rest)
  }

  function MoreToks(a: Terms): seq<Tok> {
    if a.NoTerms? then [] else [Sign(TokComma)] + Toks(a.e) + MoreToks(a.rest)
  }

  function ItemToks(d: Item): seq<Tok> {
    [WordTok(TokIdentifier, d.name)] + if d.init.Some? then [Sign(TokAssign)] + Toks(d.init.value) else []
  }

  /** The items behind the first one. */
  function MoreItems(ds: seq<Item>): seq<Tok> {
    if ds == [] then [] else [Sign(TokComma)] + ItemToks(ds[0]) + MoreItems(ds[1..])
  }

  function StmtToks(s: Stmt): seq<Tok> {
    match s
    case ExprStmt(e) => Toks(e) + [Sign(TokSemicolon)]
    case DeclStmt(ty, ds) =>
      TypeToks(ty) + (if ds == [] then [] else ItemToks(ds[0]) + MoreItems(ds[1..])) + [Sign(TokSemicolon)]
    case EmptyStmt(skipped) => [Sign(TokSemicolon)] + skipped
  }

  function LineToks(ss: seq<Stmt>): seq<Tok> {
    if ss == [] then [] else StmtToks(ss[0]) + LineToks(ss[1..])
  }

  // ----- trees -----

  /** Nodes a term takes from the pool. */
  function Size(t: Term): (n: nat)
    ensures n > 0
  {
    match t
    case BinTerm(_, l, r) => Size(l) + Size(r) + 1
    case UnaryTerm(u, e) => Size(e) + (if u.Plus? then 0 else if u.Minus? then 2 else 1)
    case CastTerm(_, e) => Size(e)
    case AssignTerm(l, r) => Size(l) + Size(r) + 1
    case PostTerm(_, e) => Size(e) + 1
    case CallTerm(f, args) => Size(f) + SizeAll(args) + 1
    case _ => 1
  }

  function SizeAll(a: Terms): nat {
    if a.NoTerms? then 0 else Size(a.e) + SizeAll(a.rest)
  }

  function UnaryNode(u: Unary): Kind {
    match u
    case PreUp => KPreInc
    case PreDown => KPreDec
    case Complement => KInvert
    case Contents => KGetValue
    case AddressOf => KGetAddr
    case Plus | Minus => KUnknown
  }

  /** The tree of a term, its nodes numbered from `u` on in the order they are allocated: operands
      before operators, a unary minus being a subtraction from a zero allocated behind its operand. */
  function Build(env: Env, vars: seq<Variable>, t: Term, u: nat): (f: Forest)
    ensures f.Node? && f.next.Nil?
  {
    match t
    case CharTerm(c) => NewNode(u, KChar, c, NoSymbol, Nil)
    case IntTerm(v) => NewNode(u, KInt, v, NoSymbol, Nil)
    case LongTerm(v) => NewNode(u, KLong, v, NoSymbol, Nil)
    case StringTerm(s) => NewNode(u, KString, env.stringAt(u, CString(s)), NoSymbol, Nil)
    case NullTerm(_) => NewNode(u, KNull, 0, NoSymbol, Nil)
    case NameTerm(name) => NewNode(u, KId, 0, Resolve(env, vars, Id(name)), Nil)
    case BinTerm(op, l, r) =>
      NewNode(u + Size(l) + Size(r), KBin(op), 0, NoSymbol,
              Linked(Build(env, vars, l, u), Build(env, vars, r, u + Size(l))))
    case UnaryTerm(Plus, e) => Build(env, vars, e, u)
    case UnaryTerm(Minus, e) =>
      NewNode(u + Size(e) + 1, KBin(Sub), 0, NoSymbol,
              Linked(NewNode(u + Size(e), KLong, 0, NoSymbol, Nil), Build(env, vars, e, u)))
    case UnaryTerm(op, e) =>
      NewNode(u + Size(e), UnaryNode(op), 0, NoSymbol, Build(env, vars, e, u))
    case CastTerm(ty, e) => Build(env, vars, e, u).(dt := TypeNumber(TypeOf(ty)))
    case AssignTerm(l, r) =>
      NewNode(u + Size(l) + Size(r), KAssign, 0, NoSymbol,
              Linked(Build(env, vars, l, u), Build(env, vars, r, u + Size(l))))
    case PostTerm(down, e) =>
      NewNode(u + Size(e), if down then KDec else KInc, 0, NoSymbol, Build(env, vars, e, u))
    case CallTerm(f, args) =>
      NewNode(u + Size(f) + SizeAll(args), KFunc, 0, NoSymbol,
              Linked(Build(env, vars, f, u), BuildAll(env, vars, args, u + Size(f))))
  }

  function BuildAll(env: Env, vars: seq<Variable>, a: Terms, u: nat): Forest {
    if a.NoTerms? then Nil
    else Linked(Build(env, vars, a.e, u), BuildAll(env, vars, a.rest, u + Size(a.e)))
  }

  // ----- names and statements -----

  predicate Known(env: Env, vars: seq<Variable>, t: Term) {
    match t
    case NameTerm(name) => Resolve(env, vars, Id(name)) != NoSymbol
    case BinTerm(_, l, r) => Known(env, vars, l) && Known(env, vars, r)
    case UnaryTerm(_, e) => Known(env, vars, e)
    case CastTerm(_, e) => Known(env, vars, e)
    case AssignTerm(l, r) => Known(env, vars, l) && Known(env, vars, r)
    case PostTerm(_, e) => Known(env, vars, e)
    case CallTerm(f, args) => Known(env, vars, f) && AllKnown(env, vars, args)
    case _ => true
  }

  predicate AllKnown(env: Env, vars: seq<Variable>, a: Terms) {
    a.MoreTerms? ==> Known(env, vars, a.e) && AllKnown(env, vars, a.rest)
  }

  /** The variable table with a name declared; it stays as it is when the name is taken or no entry is free. */
  function Entered(vars: seq<Variable>, ty: FinshType, name: string): seq<Variable> {
    match VarInsert(vars, name, ty) { case Some(v) => v case None => vars }
  }

  /** The table behind a list of items. */
  function ItemVars(vars: seq<Variable>, ty: FinshType, ds: seq<Item>): seq<Variable>
    decreases |ds|
  {
    if ds == [] then vars else ItemVars(Entered(vars, ty, Id(ds[0].name)), ty, ds[1..])
  }

  function VarsAfter(vars: seq<Variable>, s: Stmt): seq<Variable> {
    if s.DeclStmt? then ItemVars(vars, TypeOf(s.ty), s.items) else vars
  }

  function LineVars(vars: seq<Variable>, ss: seq<Stmt>): seq<Variable>
    decreases |ss|
  {
    if ss == [] then vars else LineVars(VarsAfter(vars, ss[0]), ss[1..])
  }

  /** Each name is still free, and an entry is left for it, when it is declared. */
  predicate ItemsNew(vars: seq<Variable>, ty: FinshType, ds: seq<Item>)
    decreases |ds|
  {
    ds != [] ==>
      VarInsert(vars, Id(ds[0].name), ty).Some? && ItemsNew(Entered(vars, ty, Id(ds[0].name)), ty, ds[1..])
  }

  predicate LineNew(vars: seq<Variable>, ss: seq<Stmt>)
    decreases |ss|
  {
    && (ss != [] && ss[0].DeclStmt? ==> ItemsNew(vars, TypeOf(ss[0].ty), ss[0].items))
    && (ss != [] ==> LineNew(VarsAfter(vars, ss[0]), ss[1..]))
  }

  /** Nodes an item takes: those of its initialiser, the name and the assignment. */
  function ItemSize(d: Item): nat {
    if d.init.Some? then Size(d.init.value) + 2 else 0
  }

  function ItemsSize(ds: seq<Item>): nat {
    if ds == [] then 0 else ItemSize(ds[0]) + ItemsSize(ds[1..])
  }

  function StmtSize(s: Stmt): nat {
    match s
    case ExprStmt(e) => Size(e)
    case DeclStmt(_, ds) => ItemsSize(ds)
    case EmptyStmt(_) => 0
  }

  function LineNodes(ss: seq<Stmt>): nat {
    if ss == [] then 0 else StmtSize(ss[0]) + LineNodes(ss[1..])
  }

  /** An initialiser may use the name it initialises. */
  predicate ItemFits(env: Env, vars: seq<Variable>, d: Item) {
    d.init.Some? ==>
      Stratified(d.init.value) && Known(env, vars, d.init.value) && Resolve(env, vars, Id(d.name)) != NoSymbol
  }

  predicate ItemsFit(env: Env, vars: seq<Variable>, ty: FinshType, ds: seq<Item>)
    decreases |ds|
  {
    ds != [] ==>
      var vars' := Entered(vars, ty, Id(ds[0].name));
      ItemFits(env, vars', ds[0]) && ItemsFit(env, vars', ty, ds[1..])
  }

  /** A statement whose names are known. */
  predicate StmtFits(env: Env, vars: seq<Variable>, s: Stmt) {
    match s
    case ExprStmt(e) => Stratified(e) && Known(env, vars, e)
    case DeclStmt(ty, ds) => IsTypeName(ty) && ds != [] && ItemsFit(env, vars, TypeOf(ty), ds)
    case EmptyStmt(_) => true
  }

  predicate LineFits(env: Env, vars: seq<Variable>, ss: seq<Stmt>)
    decreases |ss|
  {
    ss != [] ==> StmtFits(env, vars, ss[0]) && LineFits(env, VarsAfter(vars, ss[0]), ss[1..])
  }

  /** The assignment of an initialiser to its own name, if there is one. */
  function BuildItem(env: Env, vars: seq<Variable>, d: Item, u: nat): (ts: seq<Forest>)
    ensures |ts| <= 1 && forall f :: f in ts ==> f.Node? && f.next.Nil?
  {
    match d.init
    case None => []
    case Some(e) =>
      [NewNode(u + Size(e) + 1, KAssign, 0, NoSymbol,
               Linked(NewNode(u + Size(e), KId, 0, Resolve(env, vars, Id(d.name)), Nil), Build(env, vars, e, u)))]
  }

  /** The assignments of a list of items, in order, each under the table behind its own name. */
  function BuildItems(env: Env, vars: seq<Variable>, ty: FinshType, ds: seq<Item>, u: nat): (ts: seq<Forest>)
    ensures forall f :: f in ts ==> f.Node? && f.next.Nil?
    decreases |ds|
  {
    if ds == [] then []
    else
      var vars' := Entered(vars, ty, Id(ds[0].name));
      BuildItem(env, vars', ds[0], u) + BuildItems(env, vars', ty, ds[1..], u + ItemSize(ds[0]))
  }

  function Inits(ds: seq<Item>): nat {
    if ds == [] then 0 else (if ds[0].init.Some? then 1 else 0) + Inits(ds[1..])
  }

  /** How many trees a statement leaves. */
  function StmtTrees(s: Stmt): nat {
    match s case ExprStmt(_) => 1 case DeclStmt(_, ds) => Inits(ds) case EmptyStmt(_) => 0
  }

  /** Once a statement has left a tree, every empty statement swallows the token behind it, whatever that is;
      before, and at the end of the line, it swallows nothing. */
  predicate Swallows(ss: seq<Stmt>, started: bool, atEnd: bool)
    decreases |ss|
  {
    ss != [] ==>
      && (ss[0].EmptyStmt? ==>
        if started && (ss[1..] != [] || !atEnd || ss[0].skipped != []) then
          |ss[0].skipped| == 1 && ss[0].skipped[0].err == 0
        else ss[0].skipped == [])
      && Swallows(ss[1..], started || StmtTrees(ss[0]) > 0, atEnd)
  }

  /** The trees of a statement: none for a bare declaration. */
  function BuildStmt(env: Env, vars: seq<Variable>, s: Stmt, u: nat): (ts: seq<Forest>)
    ensures forall f :: f in ts ==> f.Node? && f.next.Nil?
  {
    match s
    case ExprStmt(e) => [Build(env, vars, e, u)]
    case DeclStmt(ty, ds) => BuildItems(env, vars, TypeOf(ty), ds, u)
    case EmptyStmt(_) => []
  }

  /** What stays of a statement in a line. Only the last statement keeps all it has: the next one is
      linked to the first tree of a declaration, in the place of the others. */
  function Kept<T>(ts: seq<T>, last: bool): (r: seq<T>) {
    if last || ts == [] then ts else ts[..1]
  }

  /** The chain of statement trees. */
  function BuildLine(env: Env, vars: seq<Variable>, ss: seq<Stmt>, u: nat): Forest
    decreases |ss|
  {
    if ss == [] then Nil
    else
      Chain(Kept(BuildStmt(env, vars, ss[0], u), |ss| == 1),
            BuildLine(env, VarsAfter(vars, ss[0]), ss[1..], u + StmtSize(ss[0])))
  }

  // ----- the tokens can be written out -----

  lemma TypeWords()
    ensures Printable(WordTok(TokVoid, "void")) && Printable(WordTok(TokChar, "char"))
    ensures Printable(WordTok(TokShort, "short")) && Printable(WordTok(TokInt, "int"))
    ensures Printable(WordTok(TokLong, "long")) && Printable(WordTok(TokUnsigned, "unsigned"))
  {
    hide AllPlain, Keyword, IsWord;
    TypeKeywords();
    TypeWordsAreWords();
    MoreTypeWordsAreWords();
  }

  lemma TypeWordsAreWords()
    ensures IsWord("void") && IsWord("char") && IsWord("short")
  {
  }

  lemma MoreTypeWordsAreWords()
    ensures IsWord("int") && IsWord("long") && IsWord("unsigned")
  {
  }

  lemma TypeKeywords()
    ensures Keyword("void") == Some(TokVoid) && Keyword("char") == Some(TokChar) && Keyword("short") == Some(TokShort)
    ensures Keyword("int") == Some(TokInt) && Keyword("long") == Some(TokLong)
    ensures Keyword("unsigned") == Some(TokUnsigned)
  {
    assert "char"[0] == 'c' && "short"[0] == 's' && "int"[0] == 'i' && "long"[0] == 'l' && "unsigned"[0] == 'u';
    assert "void"[0] == 'v';
  }

  lemma TypePrintable(ty: TypeName)
    ensures AllPrintable(TypeToks(ty))
  {
    TypeWords();
    assert Printable(Sign(TokMul));
    hide Printable;
  }

  predicate IsName(name: string) {
    IsWord(name) && Keyword(name).None?
  }

  /** Terms that can be written out as they are: the names are words, and the string literals short and without
      escapes. */
  predicate PlainTerm(t: Term) {
    match t
    case NameTerm(name) => IsName(name)
    case StringTerm(s) => |s| < STRING_MAX && AllPlain(s)
    case BinTerm(_, l, r) => PlainTerm(l) && PlainTerm(r)
    case UnaryTerm(_, e) => PlainTerm(e)
    case CastTerm(_, e) => PlainTerm(e)
    case AssignTerm(l, r) => PlainTerm(l) && PlainTerm(r)
    case PostTerm(_, e) => PlainTerm(e)
    case CallTerm(f, args) => PlainTerm(f) && PlainArgs(args)
    case _ => true
  }

  predicate PlainArgs(a: Terms) {
    a.MoreTerms? ==> PlainTerm(a.e) && PlainArgs(a.rest)
  }

  predicate ItemsPlain(ds: seq<Item>) {
    forall d :: d in ds ==> IsName(d.name) && (d.init.Some? ==> PlainTerm(d.init.value))
  }

  predicate LinePlain(ss: seq<Stmt>) {
    forall s :: s in ss ==>
      match s case ExprStmt(e) => PlainTerm(e) case DeclStmt(_, ds) => ItemsPlain(ds) case EmptyStmt(k) => k == []
  }

  lemma {:induction false} TermPrintable(t: Term)
    requires Stratified(t) && PlainTerm(t)
    ensures AllPrintable(Toks(t))
  {
    hide IsWord, Keyword, AllPlain;
    match t
    case NullTerm(_) => NullPrintable();
    case BinTerm(_, l, r) => TermPrintable(l); TermPrintable(r);
    case UnaryTerm(_, e) => TermPrintable(e);
    case CastTerm(ty, e) => TermPrintable(e); TypePrintable(ty);
    case AssignTerm(l, r) => TermPrintable(l); TermPrintable(r);
    case PostTerm(_, e) => TermPrintable(e);
    case CallTerm(f, args) => TermPrintable(f); ArgsPrintable(args);
    case _ =>
  }

  lemma NullPrintable()
    ensures Printable(WordTok(TokValueNull, "NULL")) && Printable(WordTok(TokValueNull, "null"))
  {
    assert Keyword("NULL") == Some(TokValueNull) && Keyword("null") == Some(TokValueNull);
    assert IsWord("NULL") && IsWord("null");
  }

  lemma {:induction false} ArgsPrintable(a: Terms)
    requires AllStratified(a) && PlainArgs(a)
    ensures AllPrintable(ArgToks(a)) && AllPrintable(MoreToks(a))
  {
    if a.MoreTerms? {
      TermPrintable(a.e);
      ArgsPrintable(a.rest);
    }
  }

  lemma ItemPrintable(env: Env, vars: seq<Variable>, d: Item)
    requires ItemFits(env, vars, d) && IsName(d.name) && (d.init.Some? ==> PlainTerm(d.init.value))
    ensures AllPrintable(ItemToks(d))
  {
    hide IsWord, Keyword, Known, Resolve;
    assert Printable(WordTok(TokIdentifier, d.name));
    if d.init.Some? {
      TermPrintable(d.init.value);
    }
  }

  lemma {:induction false} ItemsPrintable(env: Env, vars: seq<Variable>, ty: FinshType, ds: seq<Item>)
    requires ItemsFit(env, vars, ty, ds) && ItemsPlain(ds)
    ensures AllPrintable(MoreItems(ds))
    decreases |ds|
  {
    hide ItemToks, ItemFits, Entered;
    if ds != [] {
      var vars' := Entered(vars, ty, Id(ds[0].name));
      ItemPrintable(env, vars', ds[0]);
      ItemsPrintable(env, vars', ty, ds[1..]);
    }
  }

  lemma StmtPrintable(env: Env, vars: seq<Variable>, s: Stmt)
    requires StmtFits(env, vars, s) && LinePlain([s])
    ensures IsLineText(StmtToks(s))
  {
    hide IsWord, Keyword, Known, ItemToks, ItemFits, Entered, MoreItems;
    assert s in [s];
    match s
    case ExprStmt(e) => TermPrintable(e);
    case DeclStmt(ty, ds) =>
      TypePrintable(ty);
      var vars' := Entered(vars, TypeOf(ty), Id(ds[0].name));
      ItemPrintable(env, vars', ds[0]);
      ItemsPrintable(env, vars', TypeOf(ty), ds[1..]);
    case EmptyStmt(_) =>
  }

  lemma LineTextEnds(a: seq<Tok>, b: seq<Tok>)
    requires IsLineText(a)
    ensures AllPrintable(a) && (b == [] ==> IsLineText(a + b))
    ensures AllPrintable(b) ==> AllPrintable(a + b)
    ensures IsLineText(b) ==> IsLineText(a + b)
  {
    hide Printable;
    if b == [] {
      assert a + b == a;
    }
  }

  lemma {:induction false} LinePrintable(env: Env, vars: seq<Variable>, ss: seq<Stmt>)
    requires LineFits(env, vars, ss) && LinePlain(ss)
    ensures ss != [] ==> IsLineText(LineToks(ss))
    ensures AllPrintable(LineToks(ss))
    decreases |ss|
  {
    hide IsLineText, StmtFits, StmtToks, ItemsPlain, PlainTerm, Printable;
    if ss != [] {
      assert ss[0] in ss && forall s :: s in ss[1..] ==> s in ss;
      StmtPrintable(env, vars, ss[0]);
      LineTextEnds(StmtToks(ss[0]), LineToks(ss[1..]));
      LinePrintable(env, VarsAfter(vars, ss[0]), ss[1..]);
    }
  }
}
