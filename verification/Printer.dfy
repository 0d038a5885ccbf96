/** Tokens written out as text, one space between them, and read back by the lexer. */
module Printer {
  import opened Machine
  import opened Limits
  import opened Numbers
  import opened Lexer

  /** A word the lexer takes as a whole. */
  predicate IsWord(w: string) {
    |w| > 0 && !IsDigit(w[0]) && forall ch :: ch in w ==> !IsSeparator(ch)
  }

  /** A character that a string literal can contain as it is. */
  predicate IsPlain(ch: char) {
    ch != '"' && ch != '\\' && ch != '\n' && ch != '\0'
  }

  predicate AllPlain(w: string) {
    forall ch :: ch in w ==> IsPlain(ch)
  }

  predicate IsTypeWord(k: TokenKind) {
    k in {TokVoid, TokChar, TokShort, TokInt, TokLong, TokUnsigned}
  }

  function WordKind(w: string): TokenKind {
    if Keyword(w).Some? then Keyword(w).value else TokIdentifier
  }

  function Mark(k: TokenKind): string {
    match k
    case TokLeftParen => "("
    case TokRightParen => ")"
    case TokComma => ","
    case TokSemicolon => ";"
    case TokMul => "*"
    case TokAdd => "+"
    case TokInc => "++"
    case TokSub => "-"
    case TokDec => "--"
    case TokDiv => "/"
    case TokMod => "%"
    case TokAssign => "="
    case TokAnd => "&"
    case TokOr => "|"
    case TokXor => "^"
    case TokBitwise => "~"
    case TokShl => "<<"
    case TokShr => ">>"
    case _ => ""
  }

  function DigitChar(d: nat): char
    requires d < 10
  {
    ('0' as int + d) as char
  }

  function NumText(v: nat): (r: string)
    ensures |r| > 0
  {
    if v < 10 then [DigitChar(v)] else NumText(v / 10) + [DigitChar(v % 10)]
  }

  function CharText(c: Byte): string {
    if c == 0 then "'\\0'" else if c == 10 then "'\\n'" else if c == 92 then "'\\\\'"
    else ['\'', c as char, '\'']
  }

  /** The tokens that can be written out. */
  predicate Printable(t: Tok) {
    && t.err == 0
    && match t.kind {
      case TokBad | TokEof => false
      case TokIdentifier | TokValueNull | TokVoid | TokChar | TokShort | TokInt | TokLong | TokUnsigned =>
        t.value == 0 && IsWord(t.str) && t.kind == WordKind(t.str)
      case TokValueInt | TokValueLong => t.str == ""
      case TokValueChar => t.str == "" && t.value < 0x100
      case TokValueString => t.value == 0 && |t.str| < STRING_MAX && AllPlain(t.str)
      case _ => t.str == "" && t.value == 0
    }
  }

  function TokText(t: Tok): string
    requires Printable(t)
  {
    match t.kind
    case TokIdentifier | TokValueNull | TokVoid | TokChar | TokShort | TokInt | TokLong | TokUnsigned => t.str
    case TokValueInt => NumText(t.value)
    case TokValueLong => NumText(t.value) + "l"
    case TokValueChar => CharText(t.value)
    case TokValueString => "\"" + t.str + "\""
    case _ => Mark(t.kind)
  }

  ghost predicate AllPrintable(ts: seq<Tok>) {
    forall t :: t in ts ==> Printable(t)
  }

  function Text(ts: seq<Tok>): string
    requires AllPrintable(ts)
  {
    if ts == [] then ""
    else if |ts| == 1 then TokText(ts[0])
    else TokText(ts[0]) + " " + Text(ts[1..])
  }

  // ----- reading at a position -----

  predicate IsBlank(c: char) {
    c == ' ' || c == '\t'
  }

  /** The character `c` cannot belong to the word `w` before it: behind a name or a number it is a separator,
      and it does not double a sign. */
  predicate Ends(w: string, c: char) {
    IsBlank(c)
    || (w != "" && if IsSeparator(w[|w| - 1]) then !(w in {"+", "-"} && c == w[0]) else IsSeparator(c))
  }

  /** `w` stands at position `p`, and behind it the end of the line or a character that ends it. */
  ghost predicate Stands(line: string, p: nat, w: string) {
    && p + |w| <= |line|
    && line[p..p + |w|] == w
    && (p + |w| < |line| ==> Ends(w, line[p + |w|]))
  }

  function At(line: string, p: nat): Lex {
    Lex(line, p, false)
  }

  lemma NextAt(line: string, p: nat)
    requires p < |line| && line[p] != '\n'
    ensures NextChar(At(line, p)) == (line[p], At(line, p + 1))
    ensures PrevChar(At(line, p + 1)) == At(line, p)
  {
  }

  lemma StandsAt(line: string, p: nat, w: string, i: nat)
    requires Stands(line, p, w) && i < |w|
    ensures p + i < |line| && line[p + i] == w[i]
  {
    assert line[p..p + |w|][i] == w[i];
  }

  lemma Within(line: string, p: nat, w: string, i: nat, j: nat)
    requires p + |w| <= |line| && line[p..p + |w|] == w && i <= j <= |w|
    ensures line[p + i..p + j] == w[i..j]
  {
    forall k | 0 <= k < j - i ensures line[p + i..p + j][k] == w[i..j][k] {
      assert line[p..p + |w|][i + k] == w[i + k];
    }
  }

  lemma {:induction false} ReadWordBack(line: string, p: nat, w: string, i: nat)
    requires Stands(line, p, w) && p + |w| < |line| && IsSeparator(line[p + |w|]) && line[p + |w|] != '\n'
    requires forall ch :: ch in w ==> !IsSeparator(ch)
    requires i < |w|
    ensures ReadWord(At(line, p + i + 1), w[i], w[..i]) == (w, At(line, p + |w|))
    decreases |w| - i
  {
    assert w[i] in w;
    assert w[..i] + [w[i]] == w[..i + 1];
    if i + 1 < |w| {
      StandsAt(line, p, w, i + 1);
      assert w[i + 1] in w;
      NextAt(line, p + i + 1);
      ReadWordBack(line, p, w, i + 1);
    } else {
      assert w[..i + 1] == w;
      NextAt(line, p + |w|);
      assert ReadWord(At(line, p + |w| + 1), line[p + |w|], w) == (w, At(line, p + |w|));
    }
  }

  lemma WordBack(line: string, p: nat, w: string)
    requires Stands(line, p, w) && p + |w| < |line| && IsWord(w) && line[p + |w|] != '\n'
    ensures TokenRun(At(line, p)) == (Tok(WordKind(w), w, 0, 0), At(line, p + |w|))
  {
    StandsAt(line, p, w, 0);
    assert w[0] in w && w[|w| - 1] in w;
    NextAt(line, p);
    ReadWordBack(line, p, w, 0);
    assert w[..0] == "";
    hide Keyword, ReadWord;
    assert TrimSpace(At(line, p)) == At(line, p);
  }

  /** At a character that cannot begin a word the operator scanner is entered. */
  lemma OperatorEntered(line: string, p: nat)
    requires p < |line| && line[p] !in {'\n', ' ', '\t'}
    requires IsSeparator(line[p]) || IsDigit(line[p])
    ensures TokenRun(At(line, p)) == Operator(At(line, p))
  {
    NextAt(line, p);
    hide Keyword, Operator;
    assert TrimSpace(At(line, p)) == At(line, p);
    if !IsDigit(line[p]) {
      assert ReadWord(At(line, p + 1), line[p], "") == ("", At(line, p));
    }
  }

  /** The scanner's tables and the way operators are written agree. */
  lemma MarkKinds(k: TokenKind)
    requires Mark(k) != ""
    ensures var w, c := Mark(k), Mark(k)[0];
      && IsSeparator(c) && c !in {' ', '\t'}
      && (c in "+-<>" <==> SingleKind(c).None?)
      && (SingleKind(c).Some? ==> w == [c] && SingleKind(c).value == k)
      && (SingleKind(c).None? ==> |w| in {1, 2} && (|w| == 2 ==> w[1] == c) && DoubledKind(c, |w| == 2) == k)
      && (SingleKind(c).None? && |w| == 1 ==> w in {"+", "-"})
    ensures k == TokSemicolon ==> SingleKind(Mark(k)[0]).Some?
  {
  }

  lemma MarkBack(line: string, p: nat, k: TokenKind)
    requires Mark(k) != "" && Stands(line, p, Mark(k)) && '\n' !in line
    requires p + |Mark(k)| < |line| || k == TokSemicolon
    ensures TokenRun(At(line, p)) == (Symbol(k), At(line, p + |Mark(k)|))
  {
    hide TokenRun, Mark, SingleKind, DoubledKind, Literal, NextChar, PrevChar, IsSeparator;
    MarkKinds(k);
    var w := Mark(k);
    StandsAt(line, p, w, 0);
    NextAt(line, p);
    OperatorEntered(line, p);
    if SingleKind(w[0]).None? {
      if |w| == 2 {
        StandsAt(line, p, w, 1);
      }
      NextAt(line, p + 1);
    }
  }

  lemma NumberEntered(line: string, p: nat)
    requires p < |line| && IsDigit(line[p])
    ensures TokenRun(At(line, p)) == var (k, v, s) := ProcNumber(At(line, p)); (Tok(k, "", v, 0), s)
  {
    hide TokenRun, ProcNumber, ProcChar, ProcString;
    NextAt(line, p);
    OperatorEntered(line, p);
  }

  lemma CharEntered(line: string, p: nat)
    requires p < |line| && line[p] == '\''
    ensures TokenRun(At(line, p)) ==
      var (c, unclosed, s) := ProcChar(At(line, p + 1));
      (Tok(TokValueChar, "", c, if unclosed then ERROR_EXPECT_CHAR else 0), s)
  {
    hide TokenRun, ProcNumber, ProcChar, ProcString;
    NextAt(line, p);
    OperatorEntered(line, p);
  }

  lemma StringEntered(line: string, p: nat)
    requires p < |line| && line[p] == '"'
    ensures TokenRun(At(line, p)) ==
      var (w, ended, s) := ProcString(At(line, p + 1), "");
      (Tok(TokValueString, w, 0, if ended then ERROR_UNEXPECT_END else 0), s)
  {
    hide TokenRun, ProcNumber, ProcChar, ProcString;
    NextAt(line, p);
    OperatorEntered(line, p);
  }

  // ----- numbers -----

  predicate AllDigits(w: string) {
    forall ch :: ch in w ==> IsDigit(ch)
  }

  lemma {:induction false} NumTextDigits(v: nat)
    ensures AllDigits(NumText(v)) && (v > 0 ==> NumText(v)[0] != '0') && (v == 0 ==> NumText(v) == "0")
  {
    if v >= 10 {
      NumTextDigits(v / 10);
    }
  }

  lemma {:induction false} DecimalBack(v: nat)
    requires v < 0x1_0000_0000
    ensures Decimal(NumText(v)) == v
  {
    var w := NumText(v);
    if v < 10 {
      assert Decimal(w[..0]) == 0;
    } else {
      DecimalBack(v / 10);
      assert w[..|w| - 1] == NumText(v / 10);
    }
  }

  lemma {:induction false} ReadDigitsBack(line: string, p: nat, w: string, i: nat)
    requires p + |w| < |line| && line[p..p + |w|] == w && '\n' !in line
    requires AllDigits(w) && !IsDigit(line[p + |w|])
    requires i < |w|
    ensures ReadWhile(IsDigit, At(line, p + i + 1), w[i], w[..i]) == (w, line[p + |w|], At(line, p + |w| + 1))
    decreases |w| - i
  {
    assert w[i] in w && w[..i] + [w[i]] == w[..i + 1];
    NextAt(line, p + i + 1);
    if i + 1 < |w| {
      assert line[p + i + 1] == line[p..p + |w|][i + 1] == w[i + 1] && w[i + 1] in w;
      ReadDigitsBack(line, p, w, i + 1);
    } else {
      assert w[..i + 1] == w;
    }
  }

  predicate EndsNumber(c: char) {
    IsSeparator(c) || c == 'l'
  }

  lemma ZeroBack(line: string, p: nat)
    requires p + 1 < |line| && '\n' !in line && line[p] == '0' && EndsNumber(line[p + 1])
    ensures ProcNumber(At(line, p)) == Suffix(0, line[p + 1], At(line, p + 2))
  {
    NextAt(line, p);
    NextAt(line, p + 1);
    assert ReadWhile(IsDigit, At(line, p + 2), line[p + 1], "") == ("", line[p + 1], At(line, p + 2));
    assert SpecNumber("", 8) == 0;
  }

  lemma NonZeroBack(line: string, p: nat, w: string)
    requires p + |w| < |line| && line[p..p + |w|] == w && '\n' !in line
    requires w != "" && AllDigits(w) && !IsDigit(line[p + |w|]) && w[0] != '0' && line[p] == w[0]
    ensures ProcNumber(At(line, p)) == Suffix(Decimal(w), line[p + |w|], At(line, p + |w| + 1))
  {
    hide Decimal, Suffix, Prefixed;
    NextAt(line, p);
    ReadDigitsBack(line, p, w, 0);
    assert w[..0] == "";
  }

  lemma DigitsBack(line: string, p: nat, w: string, v: Word)
    requires w == NumText(v) && p + |w| < |line| && line[p..p + |w|] == w && EndsNumber(line[p + |w|])
    requires '\n' !in line
    ensures IsDigit(line[p])
    ensures ProcNumber(At(line, p)) == Suffix(v, line[p + |w|], At(line, p + |w| + 1))
  {
    NumTextDigits(v);
    DecimalBack(v);
    assert line[p..p + |w|][0] == line[p] == w[0] && w[0] in w;
    hide NumText, Suffix, Decimal, ProcNumber;
    if v == 0 {
      ZeroBack(line, p);
    } else {
      NonZeroBack(line, p, w);
    }
  }

  lemma DigitsEntered(line: string, p: nat, w: string, v: Word)
    requires w == NumText(v) && p + |w| < |line| && line[p..p + |w|] == w && EndsNumber(line[p + |w|])
    requires '\n' !in line
    ensures TokenRun(At(line, p)) ==
      var (k, n, s) := Suffix(v, line[p + |w|], At(line, p + |w| + 1));
      (Tok(k, "", n, 0), s)
  {
    hide NumText, TokenRun, ProcNumber, Suffix;
    DigitsBack(line, p, w, v);
    NumberEntered(line, p);
  }

  lemma IntBack(line: string, p: nat, w: string, v: Word)
    requires w == NumText(v) && Stands(line, p, w) && p + |w| < |line| && '\n' !in line
    ensures TokenRun(At(line, p)) == (Tok(TokValueInt, "", v, 0), At(line, p + |w|))
  {
    NumTextDigits(v);
    assert w[|w| - 1] in w;
    hide NumText, TokenRun;
    DigitsEntered(line, p, w, v);
    NextAt(line, p + |w|);
  }

  lemma LongBack(line: string, p: nat, w: string, v: Word)
    requires w == NumText(v) && Stands(line, p, w + "l") && '\n' !in line
    ensures TokenRun(At(line, p)) == (Tok(TokValueLong, "", v, 0), At(line, p + |w| + 1))
  {
    hide NumText, TokenRun;
    var x := w + "l";
    Within(line, p, x, 0, |w|);
    StandsAt(line, p, x, |w|);
    assert x[0..|w|] == w && x[|w|] == 'l';
    hide Stands;
    DigitsEntered(line, p, w, v);
  }

  // ----- characters and strings -----

  lemma SkipZero(line: string, q: nat)
    requires q < |line| && line[q] == '\''
    ensures SkipDigits(At(line, q), '0') == At(line, q + 1)
  {
    NextAt(line, q);
    assert SkipDigits(At(line, q + 1), '\'') == At(line, q + 1);
  }

  lemma CharBack(line: string, p: nat, c: Byte)
    requires Stands(line, p, CharText(c)) && '\n' !in line
    ensures TokenRun(At(line, p)) == (Tok(TokValueChar, "", c, 0), At(line, p + |CharText(c)|))
  {
    hide TokenRun, NextChar, PrevChar, SkipDigits;
    var w := CharText(c);
    StandsAt(line, p, w, 0);
    StandsAt(line, p, w, 1);
    StandsAt(line, p, w, 2);
    CharEntered(line, p);
    if |w| == 4 {
      StandsAt(line, p, w, 3);
    }
    hide Stands;
    NextAt(line, p + 1);
    NextAt(line, p + 2);
    if |w| == 4 {
      NextAt(line, p + 3);
    }
    if c == 0 {
      SkipZero(line, p + 3);
    }
    assert ProcChar(At(line, p + 1)) == (c, false, At(line, p + |w|));
  }

  lemma {:induction false} ReadStringBack(line: string, p: nat, w: string, i: nat)
    requires p + |w| < |line| && line[p..p + |w|] == w && line[p + |w|] == '"'
    requires |w| < STRING_MAX && AllPlain(w)
    requires i <= |w|
    ensures ProcString(At(line, p + i), w[..i]) == (w, false, At(line, p + |w| + 1))
    decreases |w| - i
  {
    hide ProcEscape;
    if i < |w| {
      assert line[p + i] == line[p..p + |w|][i] == w[i] && w[i] in w;
      assert w[..i] + [w[i]] == w[..i + 1];
      NextAt(line, p + i);
      ReadStringBack(line, p, w, i + 1);
    } else {
      assert w[..i] == w;
      NextAt(line, p + i);
    }
  }

  lemma Quoted(w: string)
    ensures var x := "\"" + w + "\"";
      |x| == |w| + 2 && x[0] == '"' && x[|w| + 1] == '"' && x[1..1 + |w|] == w
  {
  }

  lemma StringBack(line: string, p: nat, w: string)
    requires Stands(line, p, "\"" + w + "\"")
    requires |w| < STRING_MAX && AllPlain(w)
    ensures TokenRun(At(line, p)) == (Tok(TokValueString, w, 0, 0), At(line, p + |w| + 2))
  {
    hide TokenRun, ProcString, AllPlain;
    var x := "\"" + w + "\"";
    Quoted(w);
    StandsAt(line, p, x, 0);
    StandsAt(line, p, x, |w| + 1);
    Within(line, p, x, 1, 1 + |w|);
    hide Stands;
    StringEntered(line, p);
    assert w[..0] == "";
    ReadStringBack(line, p + 1, w, 0);
  }

  // ----- whole lines -----

  /** What a token is written as neither begins with a blank nor contains a line end. */
  lemma TokTextShape(t: Tok)
    requires Printable(t)
    ensures var w := TokText(t);
      |w| > 0 && w[0] !in {' ', '\t'} && '\n' !in w && '\0' !in w && (t == Symbol(TokSemicolon) ==> w == ";")
  {
    hide NumText, CharText, Mark;
    match t.kind
    case TokValueInt => NumTextShape(t.value);
    case TokValueLong => NumTextShape(t.value);
    case TokIdentifier | TokValueNull | TokVoid | TokChar | TokShort | TokInt | TokLong | TokUnsigned =>
      WordShape(t.str);
    case TokValueChar => CharTextShape(t.value);
    case TokValueString =>
    case _ => MarkShape(t.kind);
  }

  lemma NumTextShape(v: nat)
    ensures NumText(v)[0] !in {' ', '\t'} && '\n' !in NumText(v) && '\0' !in NumText(v)
  {
    NumTextDigits(v);
    hide NumText;
    assert NumText(v)[0] in NumText(v);
  }

  lemma WordShape(w: string)
    requires IsWord(w)
    ensures w[0] !in {' ', '\t'} && '\n' !in w && '\0' !in w
  {
    assert w[0] in w;
  }

  lemma CharTextShape(c: Byte)
    ensures var w := CharText(c); |w| > 0 && w[0] !in {' ', '\t'} && '\n' !in w && '\0' !in w
  {
  }

  lemma MarkShape(k: TokenKind)
    ensures var w := Mark(k); '\n' !in w && '\0' !in w && (|w| > 0 ==> w[0] !in {' ', '\t'})
    ensures Mark(TokSemicolon) == ";"
    ensures IsTypeWord(k) || |Mark(k)| > 0
         || k in {TokValueChar, TokValueInt, TokValueLong, TokValueString, TokValueNull, TokIdentifier, TokBad, TokEof}
  {
  }

  /** One token, read back from where it stands. */
  lemma TokenBack(line: string, p: nat, t: Tok)
    requires Printable(t) && Stands(line, p, TokText(t)) && '\n' !in line
    requires p + |TokText(t)| < |line| || t == Symbol(TokSemicolon)
    ensures TokenRun(At(line, p)) == (t, At(line, p + |TokText(t)|))
  {
    hide TokenRun, IsWord, IsPlain, NumText, CharText, AllPlain, WordKind;
    match t.kind
    case TokIdentifier | TokValueNull | TokVoid | TokChar | TokShort | TokInt | TokLong | TokUnsigned =>
      WordBack(line, p, t.str);
    case TokValueInt =>
      IntBack(line, p, NumText(t.value), t.value);
    case TokValueLong => LongBack(line, p, NumText(t.value), t.value);
    case TokValueChar => CharBack(line, p, t.value);
    case TokValueString => StringBack(line, p, t.str);
    case _ => MarkBack(line, p, t.kind);
  }

  lemma {:induction false} BlanksSkipped(line: string, p: nat, q: nat)
    requires p <= q < |line| && !IsBlank(line[q]) && line[q] != '\n' && forall i :: p <= i < q ==> IsBlank(line[i])
    ensures TrimSpace(At(line, p)) == TrimSpace(At(line, q))
    decreases q - p
  {
    NextAt(line, p);
    if p < q {
      BlanksSkipped(line, p + 1, q);
    }
  }

  // ----- whatever each token is written as -----

  /** A place for the token `t`, written as `w`; only a semicolon can end a line. */
  ghost predicate IsAt(line: string, p: nat, t: Tok, w: string) {
    Stands(line, p, w) && '\n' !in line && (p + |w| < |line| || t == Symbol(TokSemicolon))
  }

  /** Written as `w`, the token is read back wherever that stands. */
  ghost predicate ReadAs(t: Tok, w: string) {
    && |w| > 0 && w[0] !in {' ', '\t'} && '\n' !in w && '\0' !in w && t.kind != TokEof
    && (t == Symbol(TokSemicolon) ==> w == ";")
    && forall line: string, p: nat :: IsAt(line, p, t, w) ==> TokenRun(At(line, p)) == (t, At(line, p + |w|))
  }

  /** The texts of the tokens, one space between them. */
  function Joined(ws: seq<string>): string {
    if ws == [] then "" else if |ws| == 1 then ws[0] else ws[0] + " " + Joined(ws[1..])
  }

  ghost predicate IsLineOf(ts: seq<Tok>, ws: seq<string>) {
    && 0 < |ts| == |ws| && ts[|ts| - 1] == Symbol(TokSemicolon)
    && forall i :: 0 <= i < |ts| ==> ReadAs(ts[i], ws[i])
  }

  /** Words with blanks before each of them. */
  function Spaced(gs: seq<string>, ws: seq<string>): string
    requires |gs| == |ws|
  {
    if ws == [] then "" else gs[0] + ws[0] + Spaced(gs[1..], ws[1..])
  }

  /** The words `v` and `w` do not run together with `g` between them. */
  predicate Separate(v: string, g: string, w: string) {
    g != "" || (w != "" && Ends(v, w[0]))
  }

  /** There are any number of blanks before a word, and none are needed where it ends the word before. */
  ghost predicate AreGaps(gs: seq<string>, ws: seq<string>) {
    && |gs| == |ws|
    && (forall i, ch :: 0 <= i < |gs| && ch in gs[i] ==> IsBlank(ch))
    && (forall i :: 0 < i < |ws| ==> Separate(ws[i - 1], gs[i], ws[i]))
  }

  lemma LineCons(ts: seq<Tok>, ws: seq<string>, gs: seq<string>)
    requires IsLineOf(ts, ws) && AreGaps(gs, ws) && |ts| > 1
    ensures IsLineOf(ts[1..], ws[1..]) && AreGaps(gs[1..], ws[1..]) && ts == [ts[0]] + ts[1..]
  {
    hide ReadAs, Separate;
    forall i, ch | 0 <= i < |gs[1..]| && ch in gs[1..][i] ensures IsBlank(ch) {
      assert ch in gs[i + 1];
    }
    forall i | 0 < i < |ws[1..]| ensures Separate(ws[1..][i - 1], gs[1..][i], ws[1..][i]) {
      var k := i + 1;
      assert Separate(ws[k - 1], gs[k], ws[k]);
    }
  }

  lemma LineFirst(ts: seq<Tok>, ws: seq<string>, gs: seq<string>)
    requires IsLineOf(ts, ws) && AreGaps(gs, ws)
    ensures |ts| == |ws| == |gs| > 0
    ensures ReadAs(ts[0], ws[0]) && (forall ch :: ch in gs[0] ==> IsBlank(ch))
    ensures |ts| == 1 ==> ts[0] == Symbol(TokSemicolon) && ws[0] == ";" && gs[1..] == [] && ws[1..] == []
  {
    hide TokenRun;
  }

  /** What stands behind the first word ends it. */
  lemma RestEnds(ts: seq<Tok>, ws: seq<string>, gs: seq<string>)
    requires IsLineOf(ts, ws) && AreGaps(gs, ws) && |ts| > 1
    ensures var rest := Spaced(gs[1..], ws[1..]); rest != "" && Ends(ws[0], rest[0])
  {
    hide TokenRun;
    assert ReadAs(ts[1], ws[1]) && Separate(ws[0], gs[1], ws[1]);
    if gs[1] != "" {
      assert gs[1][0] in gs[1];
    }
  }

  lemma {:induction false} SpacedIsGood(ts: seq<Tok>, ws: seq<string>, gs: seq<string>)
    requires IsLineOf(ts, ws) && AreGaps(gs, ws)
    ensures Good(Spaced(gs, ws))
    decreases |ts|
  {
    hide TokenRun, Stands, Ends;
    LineFirst(ts, ws, gs);
    if |ts| > 1 {
      LineCons(ts, ws, gs);
      SpacedIsGood(ts[1..], ws[1..], gs[1..]);
    }
  }

  lemma SplitAt(line: string, p: nat, g: string, w: string, rest: string)
    requires p <= |line| && line[p..] == g + w + rest
    ensures var q := p + |g|;
      && q + |w| <= |line| && line[q..q + |w|] == w && line[q + |w|..] == rest
      && (forall i :: p <= i < q ==> line[i] == g[i - p]) && (w != "" ==> line[q] == w[0])
      && (rest != "" ==> q + |w| < |line| && line[q + |w|] == rest[0]) && (rest == "" ==> q + |w| == |line|)
  {
    var x := g + w + rest;
    assert |x| == |line| - p;
    assert forall i :: p <= i < |line| ==> line[i] == line[p..][i - p] == x[i - p];
  }

  lemma {:induction false} TokensFrom(line: string, p: nat, ts: seq<Tok>, ws: seq<string>, gs: seq<string>)
    requires Good(line) && p <= |line|
    requires IsLineOf(ts, ws) && AreGaps(gs, ws) && line[p..] == Spaced(gs, ws)
    ensures Tokens(At(line, p)) == ts
    decreases |ts|
  {
    hide Tokens, Good, ReadAs, IsLineOf, AreGaps, Ends, Stands, Spaced;
    LineFirst(ts, ws, gs);
    SpacedCons(gs, ws);
    var g, w, rest := gs[0], ws[0], Spaced(gs[1..], ws[1..]);
    SplitAt(line, p, g, w, rest);
    var q := p + |g| + |w|;
    if |ts| == 1 {
      TokenThen(line, p, g, ts[0], w, rest);
      NoneAtEnd(line);
      assert ts == [ts[0]];
    } else {
      RestEnds(ts, ws, gs);
      TokenThen(line, p, g, ts[0], w, rest);
      LineCons(ts, ws, gs);
      TokensFrom(line, q, ts[1..], ws[1..], gs[1..]);
    }
  }

  lemma SpacedCons(gs: seq<string>, ws: seq<string>)
    requires |gs| == |ws| > 0
    ensures Spaced(gs, ws) == gs[0] + ws[0] + Spaced(gs[1..], ws[1..])
    ensures |ws| == 1 ==> Spaced(gs[1..], ws[1..]) == ""
  {
  }

  lemma TokenThen(line: string, p: nat, g: string, t: Tok, w: string, rest: string)
    requires Good(line) && p <= |line| && ReadAs(t, w) && line[p..] == g + w + rest
    requires forall ch :: ch in g ==> IsBlank(ch)
    requires if rest == "" then t == Symbol(TokSemicolon) else Ends(w, rest[0])
    ensures p + |g| + |w| <= |line| && Tokens(At(line, p)) == [t] + Tokens(At(line, p + |g| + |w|))
  {
    hide TokenRun, Tokens, Ends;
    var q := p + |g|;
    SplitAt(line, p, g, w, rest);
    assert '\n' !in line && w[0] in w;
    assert IsAt(line, q, t, w);
    forall i | p <= i < q ensures IsBlank(line[i]) {
      assert g[i - p] in g;
    }
    BlanksSkipped(line, p, q);
    SameToken(line, p, q);
    hide Good, ReadAs;
    TokensCons(line, p, q + |w|, t);
  }

  lemma SameToken(line: string, p: nat, q: nat)
    requires p <= |line| && q <= |line| && TrimSpace(At(line, p)) == TrimSpace(At(line, q))
    ensures TokenRun(At(line, p)) == TokenRun(At(line, q))
  {
    hide TrimSpace, GetString, Operator;
  }

  lemma TokensCons(line: string, p: nat, q: nat, t: Tok)
    requires Good(line) && p <= |line| && q <= |line|
    requires TokenRun(At(line, p)) == (t, At(line, q)) && t.kind != TokEof
    ensures Tokens(At(line, p)) == [t] + Tokens(At(line, q))
  {
    hide TokenRun, Good;
  }

  lemma NoneAtEnd(line: string)
    requires Good(line)
    ensures Tokens(At(line, |line|)) == []
  {
    assert NextChar(At(line, |line|)) == ('\0', Lex(line, 0, true));
    assert TrimSpace(At(line, |line|)) == Lex(line, 0, true);
  }

  /** Writing tokens out, each in any way in which it is read back, with blanks between them where and as many
      as one likes, so long as the words do not run together: lexing the text gives the tokens. */
  lemma TokensOfSpaced(ts: seq<Tok>, ws: seq<string>, gs: seq<string>)
    requires IsLineOf(ts, ws) && AreGaps(gs, ws)
    ensures Good(Spaced(gs, ws)) && Tokens(Lex(Spaced(gs, ws), 0, false)) == ts
  {
    LineFirst(ts, ws, gs);
    hide IsLineOf, AreGaps;
    SpacedIsGood(ts, ws, gs);
    TokensFrom(Spaced(gs, ws), 0, ts, ws, gs);
  }

  /** No blank before the first word and one before each other. */
  function OneEach(n: nat): (gs: seq<string>)
    ensures |gs| == n
  {
    seq(n, i => if i == 0 then "" else " ")
  }

  lemma {:induction false} JoinedBehind(ws: seq<string>, gs: seq<string>)
    requires |gs| == |ws| > 0 && forall i :: 0 <= i < |gs| ==> gs[i] == " "
    ensures Spaced(gs, ws) == " " + Joined(ws)
    decreases |ws|
  {
    if |ws| == 1 {
      assert Spaced(gs[1..], ws[1..]) == "";
    } else {
      JoinedBehind(ws[1..], gs[1..]);
    }
  }

  lemma JoinedIsSpaced(ts: seq<Tok>, ws: seq<string>)
    requires IsLineOf(ts, ws)
    ensures Joined(ws) == Spaced(OneEach(|ws|), ws) && AreGaps(OneEach(|ws|), ws)
  {
    hide ReadAs, Ends;
    var gs := OneEach(|ws|);
    if |ws| > 1 {
      JoinedBehind(ws[1..], gs[1..]);
    } else {
      assert Spaced(gs[1..], ws[1..]) == "";
    }
  }

  /** One space between them will do. */
  lemma TokensOfWords(ts: seq<Tok>, ws: seq<string>)
    requires IsLineOf(ts, ws)
    ensures Good(Joined(ws)) && Tokens(Lex(Joined(ws), 0, false)) == ts
  {
    hide IsLineOf, AreGaps, Tokens, Good;
    JoinedIsSpaced(ts, ws);
    TokensOfSpaced(ts, ws, OneEach(|ws|));
  }

  // ----- the texts of the printer -----

  ghost predicate IsLineText(ts: seq<Tok>) {
    ts != [] && AllPrintable(ts) && ts[|ts| - 1] == Symbol(TokSemicolon)
  }

  lemma PrintedReadAs(t: Tok)
    requires Printable(t)
    ensures ReadAs(t, TokText(t))
  {
    hide TokenRun, TokText;
    TokTextShape(t);
    forall line: string, p: nat | IsAt(line, p, t, TokText(t))
      ensures TokenRun(At(line, p)) == (t, At(line, p + |TokText(t)|))
    {
      TokenBack(line, p, t);
    }
  }

  function TextsOf(ts: seq<Tok>): (ws: seq<string>)
    requires AllPrintable(ts)
    ensures |ws| == |ts| && forall i :: 0 <= i < |ts| ==> ws[i] == TokText(ts[i])
  {
    seq(|ts|, i requires 0 <= i < |ts| => TokText(ts[i]))
  }

  lemma {:induction false} TextIsJoined(ts: seq<Tok>)
    requires AllPrintable(ts)
    ensures Text(ts) == Joined(TextsOf(ts))
  {
    hide TokText, Printable;
    if |ts| > 1 {
      TextIsJoined(ts[1..]);
      assert TextsOf(ts)[1..] == TextsOf(ts[1..]);
    }
  }

  /** Writing tokens out and lexing the text gives the tokens back. */
  lemma TokensOfText(ts: seq<Tok>)
    requires IsLineText(ts)
    ensures Good(Text(ts)) && Tokens(Lex(Text(ts), 0, false)) == ts
  {
    hide TokText, Printable, ReadAs, Text, Joined, Tokens, Good;
    TextIsJoined(ts);
    var ws := TextsOf(ts);
    forall i | 0 <= i < |ts| ensures ReadAs(ts[i], ws[i]) {
      PrintedReadAs(ts[i]);
    }
    TokensOfWords(ts, ws);
  }
}
