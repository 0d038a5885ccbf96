/** The lexer (finsh_token.c) as functions from a position in the line to the next token. */
module Lexer {
  import opened Machine
  import opened Limits
  import opened Numbers

  datatype TokenKind =
    | TokLeftParen | TokRightParen | TokComma | TokSemicolon
    | TokMul | TokAdd | TokInc | TokSub | TokDec | TokDiv | TokMod | TokAssign
    | TokAnd | TokOr | TokXor | TokBitwise | TokShl | TokShr
    | TokVoid | TokChar | TokShort | TokInt | TokLong | TokUnsigned
    | TokValueChar | TokValueInt | TokValueLong | TokValueString | TokValueNull
    | TokIdentifier | TokBad | TokEof

  /** A token with the contents of the string buffer, its value, and the error it raised (0 for none). */
  datatype Tok = Tok(kind: TokenKind, str: string, value: Word, err: nat)

  /** Where the lexer stands: `eof` is latched once the end has been reached. */
  datatype Lex = Lex(line: string, pos: nat, eof: bool)

  ghost predicate InLine(s: Lex) {
    s.pos <= |s.line|
  }

  // ----- characters -----

  predicate IsDigit(ch: char) {
    '0' <= ch <= '9'
  }

  predicate IsAlpha(ch: char) {
    'a' <= ch <= 'z' || 'A' <= ch <= 'Z'
  }

  predicate IsSeparator(ch: char) {
    !(IsAlpha(ch) || IsDigit(ch) || ch == '_')
  }

  /** Characters left before the end. */
  function Left(s: Lex): nat
    requires InLine(s)
  {
    if s.eof then 0 else |s.line| - s.pos
  }

  function NextChar(s: Lex): (r: (char, Lex))
    requires InLine(s)
    ensures InLine(r.1) && r.1.line == s.line
    ensures Left(r.1) <= Left(s) && (!r.1.eof ==> Left(r.1) == Left(s) - 1)
  {
    if s.eof then ('\0', s)
    else if s.pos == |s.line| || s.line[s.pos] == '\n' then ('\0', s.(eof := true, pos := 0))
    else (s.line[s.pos], s.(pos := s.pos + 1))
  }

  function PrevChar(s: Lex): (r: Lex)
    requires InLine(s)
    ensures InLine(r) && r.line == s.line && r.eof == s.eof
    ensures Left(r) <= if s.eof then 0 else Left(s) + 1
  {
    if s.eof || s.pos == 0 then s else s.(pos := s.pos - 1)
  }

  function TrimSpace(s: Lex): (r: Lex)
    requires InLine(s)
    ensures InLine(r) && r.line == s.line && Left(r) <= Left(s)
    decreases Left(s)
  {
    var (ch, s1) := NextChar(s);
    if ch == ' ' || ch == '\t' then (if s1.eof then s1 else TrimSpace(s1)) else PrevChar(s1)
  }

  /** The loop of `token_get_string`; reaching the end inside a word forgets that it was reached. */
  function ReadWord(s: Lex, ch: char, acc: string): (r: (string, Lex))
    requires InLine(s)
    ensures InLine(r.1) && r.1.line == s.line
    decreases Left(s), if s.eof then 0 else 1
  {
    if !IsSeparator(ch) && !s.eof then
      var (ch', s1) := NextChar(s);
      ReadWord(s1, ch', acc + [ch])
    else (acc, PrevChar(s.(eof := false)))
  }

  /** `token_get_string`: a word, or the empty string; `None` when the end is reached first. */
  function GetString(s: Lex): (r: (Option<string>, Lex))
    requires InLine(s)
    ensures InLine(r.1) && r.1.line == s.line
  {
    var (ch, s1) := NextChar(s);
    if s1.eof then (None, s1)
    else if IsDigit(ch) then (Some(""), PrevChar(s1))
    else
      var (w, s2) := ReadWord(s1, ch, "");
      (Some(w), s2)
  }

  function Keyword(w: string): (r: Option<TokenKind>)
    ensures r.Some? ==> r.value in {TokVoid, TokChar, TokShort, TokInt, TokLong, TokUnsigned, TokValueNull}
  {
    if w == "void" then Some(TokVoid)
    else if w == "char" then Some(TokChar)
    else if w == "short" then Some(TokShort)
    else if w == "int" then Some(TokInt)
    else if w == "long" then Some(TokLong)
    else if w == "unsigned" then Some(TokUnsigned)
    else if w == "NULL" then Some(TokValueNull)
    else if w == "null" then Some(TokValueNull)
    else None
  }

  // ----- character and string literals -----

  function SkipDigits(s: Lex, ch: char): (r: Lex)
    requires InLine(s)
    ensures InLine(r) && r.line == s.line && Left(r) <= Left(s)
    decreases Left(s), if s.eof then 0 else 1
  {
    if IsDigit(ch) && !s.eof then
      var (ch', s1) := NextChar(s);
      SkipDigits(s1, ch')
    else s
  }

  function CharCode(ch: char): Byte {
    ch as int % 0x100
  }

  /** `token_proc_char`: the character, whether its closing quote is missing, and the rest. A numeric
      escape always yields 0: its digits are stored but converted from behind their end. */
  function ProcChar(s: Lex): (r: (Byte, bool, Lex))
    requires InLine(s)
    ensures InLine(r.2) && r.2.line == s.line && Left(r.2) <= Left(s)
  {
    var (ch, s1) := NextChar(s);
    var (c: Byte, s2) :=
      if ch == '\\' then
        var (ch', s2) := NextChar(s1);
        match ch'
        case 'n' => (10, s2)
        case 't' => (9, s2)
        case 'v' => (11, s2)
        case 'b' => (8, s2)
        case 'r' => (13, s2)
        case '\\' => (92, s2)
        case '\'' => (39, s2)
        case _ => (0, PrevChar(SkipDigits(s2, ch')))
      else (CharCode(ch), s1);
    var (q, s3) := NextChar(s2);
    if q == '\'' then (c, false, s3) else (c, true, PrevChar(s3))
  }

  /** The digits of a `\x` or octal escape: any character within `base` of `'0'` counts. */
  function EscapeDigits(s: Lex, ch: char, base: nat, acc: int): (r: (int, Lex))
    requires InLine(s) && base > 0
    ensures InLine(r.1) && r.1.line == s.line && Left(r.1) <= if s.eof then 0 else Left(s) + 1
    decreases Left(s), if s.eof then 0 else 1
  {
    if 0 <= ch as int - '0' as int < base && !s.eof then
      var (ch', s1) := NextChar(s);
      EscapeDigits(s1, ch', base, acc * base + ch as int - '0' as int)
    else (acc, PrevChar(s))
  }

  function ProcEscape(s: Lex): (r: (Byte, Lex))
    requires InLine(s)
    ensures InLine(r.1) && r.1.line == s.line && Left(r.1) <= Left(s)
  {
    var (ch, s1) := NextChar(s);
    match ch
    case 'n' => (10, s1)
    case 't' => (9, s1)
    case 'v' => (11, s1)
    case 'b' => (8, s1)
    case 'r' => (13, s1)
    case 'f' => (12, s1)
    case 'a' => (7, s1)
    case 'x' =>
      var (ch', s2) := NextChar(s1);
      var (v, s3) := EscapeDigits(s2, ch', 16, 0);
      (v % 0x100, s3)
    case _ =>
      if 0 <= ch as int - '0' as int < 8 then
        var (v, s2) := EscapeDigits(s1, ch, 8, 0);
        (v % 0x100, s2)
      else (0, s1)
  }

  /** `token_proc_string`: the contents, and whether the end of the line came first. */
  function ProcString(s: Lex, acc: string): (r: (string, bool, Lex))
    requires InLine(s)
    ensures InLine(r.2) && r.2.line == s.line && Left(r.2) <= Left(s)
    decreases STRING_MAX - |acc|
  {
    if |acc| >= STRING_MAX then (acc, false, s)
    else
      var (ch, s1) := NextChar(s);
      if s1.eof then (acc, true, s1)
      else if ch == '\\' then
        var (c, s2) := ProcEscape(s1);
        ProcString(s2, acc + [c as char])
      else if ch == '"' then (acc, false, s1)
      else ProcString(s1, acc + [ch])
  }

  // ----- numbers -----

  /** The longest run of characters with property `p`, the first of them already read; the character
      behind it comes last. */
  function ReadWhile(p: char -> bool, s: Lex, ch: char, acc: string): (r: (string, char, Lex))
    requires InLine(s)
    ensures InLine(r.2) && r.2.line == s.line && Left(r.2) <= Left(s)
    ensures p(ch) && !s.eof ==> r.2.eof || Left(r.2) < Left(s)
    decreases Left(s), if s.eof then 0 else 1
  {
    if p(ch) && !s.eof then
      var (ch', s1) := NextChar(s);
      ReadWhile(p, s1, ch', acc + [ch])
    else (acc, ch, s)
  }

  function DecimalStep(v: Word, ch: char): Word {
    (v * 10 + ch as int - '0' as int) % 0x1_0000_0000
  }

  function Decimal(ds: string): Word {
    if ds == [] then 0 else DecimalStep(Decimal(ds[..|ds| - 1]), ds[|ds| - 1])
  }

  predicate IsBinary(ch: char) {
    ch == '0' || ch == '1'
  }

  predicate IsAlnum(ch: char) {
    IsDigit(ch) || IsAlpha(ch)
  }

  /** A literal behind its leading zero: value, the character behind it, rest. */
  function Prefixed(s: Lex): (r: (Word, char, Lex))
    requires InLine(s)
    ensures InLine(r.2) && r.2.line == s.line
    ensures r.2.eof || Left(r.2) < Left(s)
  {
    var (ch, s1) := NextChar(s);
    if ch == 'x' || ch == 'X' then
      var (c2, s2) := NextChar(s1);
      var (ds, c3, s3) := ReadWhile(IsAlnum, s2, c2, "");
      (SpecNumber(ds, 16), c3, s3)
    else if ch == 'b' || ch == 'B' then
      var (c2, s2) := NextChar(s1);
      var (ds, c3, s3) := ReadWhile(IsBinary, s2, c2, "");
      (SpecNumber(ds, 2), c3, s3)
    else
      var (ds, c2, s2) := ReadWhile(IsDigit, s1, ch, "");
      (SpecNumber(ds, 8), c2, s2)
  }

  /** `token_proc_number`: kind, value and rest. A trailing `l` makes the literal long, except that a
      hexadecimal literal takes every letter as one of its digits. */
  function ProcNumber(s: Lex): (r: (TokenKind, Word, Lex))
    requires InLine(s)
    ensures InLine(r.2) && r.2.line == s.line
    ensures !NextChar(s).1.eof && IsDigit(NextChar(s).0) ==> Left(r.2) < Left(s)
  {
    var (ch, s1) := NextChar(s);
    if ch == '0' then
      var (v, c2, s2) := Prefixed(s1);
      Suffix(v, c2, s2)
    else
      var (ds, c2, s2) := ReadWhile(IsDigit, s1, ch, "");
      Suffix(Decimal(ds), c2, s2)
  }

  function Suffix(v: Word, ch: char, s: Lex): (r: (TokenKind, Word, Lex))
    requires InLine(s)
    ensures InLine(r.2) && r.2.line == s.line
    ensures Left(r.2) <= if s.eof then 0 else Left(s) + 1
  {
    if ch == 'l' || ch == 'L' then (TokValueLong, v, s) else (TokValueInt, v, PrevChar(s))
  }

  // ----- token_run -----

  /** Whether the next character is `second`; it is taken if so. */
  function Double(s: Lex, second: char): (r: (bool, Lex))
    requires InLine(s)
    ensures InLine(r.1) && r.1.line == s.line && Left(r.1) <= Left(s)
  {
    var (ch, s1) := NextChar(s);
    if ch == second then (true, s1) else (false, PrevChar(s1))
  }

  /** What an operator character means alone and doubled. */
  function DoubledKind(ch: char, twice: bool): (k: TokenKind)
    ensures k in {TokInc, TokAdd, TokDec, TokSub, TokShl, TokShr, TokBad}
  {
    match ch
    case '+' => if twice then TokInc else TokAdd
    case '-' => if twice then TokDec else TokSub
    case '<' => if twice then TokShl else TokBad
    case '>' => if twice then TokShr else TokBad
    case _ => TokBad
  }

  function Symbol(k: TokenKind): Tok {
    Tok(k, "", 0, 0)
  }

  /** A literal, its first character already read. */
  function Literal(ch: char, s1: Lex): (r: (Tok, Lex))
    requires InLine(s1) && (IsDigit(ch) ==> !s1.eof && s1.pos > 0 && s1.line[s1.pos - 1] == ch && ch != '\n')
    ensures InLine(r.1) && r.1.line == s1.line
    ensures r.0.kind != TokEof
    ensures Left(r.1) <= Left(s1)
  {
    match ch
    case '\'' =>
      var (c, unclosed, s2) := ProcChar(s1);
      (Tok(TokValueChar, "", c, if unclosed then ERROR_EXPECT_CHAR else 0), s2)
    case '"' =>
      var (w, ended, s2) := ProcString(s1, "");
      (Tok(TokValueString, w, 0, if ended then ERROR_UNEXPECT_END else 0), s2)
    case _ =>
      if IsDigit(ch) then
        var (k, v, s2) := ProcNumber(PrevChar(s1));
        (Tok(k, "", v, 0), s2)
      else (Tok(TokBad, "", 0, ERROR_UNKNOWN_TOKEN), s1)
  }

  /** The operators of one character. */
  function SingleKind(ch: char): (k: Option<TokenKind>)
    ensures k.Some? ==> k.value !in {TokValueChar, TokValueInt, TokValueLong, TokValueString, TokEof}
  {
    match ch
    case '(' => Some(TokLeftParen)
    case ')' => Some(TokRightParen)
    case ',' => Some(TokComma)
    case ';' => Some(TokSemicolon)
    case '&' => Some(TokAnd)
    case '*' => Some(TokMul)
    case '/' => Some(TokDiv)
    case '|' => Some(TokOr)
    case '%' => Some(TokMod)
    case '~' => Some(TokBitwise)
    case '^' => Some(TokXor)
    case '=' => Some(TokAssign)
    case _ => None
  }

  /** A token that does not begin with a letter. */
  function Operator(s: Lex): (r: (Tok, Lex))
    requires InLine(s)
    ensures InLine(r.1) && r.1.line == s.line
    ensures r.0.kind != TokEof
    ensures Left(s) > 0 ==> Left(r.1) < Left(s)
  {
    var (ch, s1) := NextChar(s);
    if SingleKind(ch).Some? then (Symbol(SingleKind(ch).value), s1)
    else if ch in "+-<>" then
      var (twice, s2) := Double(s1, ch);
      (Symbol(DoubledKind(ch, twice)), s2)
    else Literal(ch, s1)
  }

  function TokenRun(s: Lex): (r: (Tok, Lex))
    requires InLine(s)
    ensures InLine(r.1) && r.1.line == s.line
  {
    var s1 := TrimSpace(s);
    var (w, s2) := GetString(s1);
    if s2.eof || w.None? then (Symbol(TokEof), s2)
    else if w.value != "" then
      (Tok(if Keyword(w.value).Some? then Keyword(w.value).value else TokIdentifier, w.value, 0, 0), s2)
    else Operator(s2)
  }

  // ----- progress -----

  /** What the shell hands over: a line that ends in a semicolon, without newlines or NULs inside. */
  ghost predicate Good(line: string) {
    && |line| > 0 && line[|line| - 1] == ';'
    && '\n' !in line && '\0' !in line
  }

  lemma {:induction false} TrimStops(s: Lex)
    requires InLine(s) && Good(s.line)
    ensures var r := TrimSpace(s); !r.eof ==> r.pos < |s.line|
    decreases Left(s)
  {
    var (ch, s1) := NextChar(s);
    if (ch == ' ' || ch == '\t') && !s1.eof {
      TrimStops(s1);
    }
  }

  /** A word in a good line ends before the line does. */
  lemma {:induction false} WordStops(s: Lex, ch: char, acc: string)
    requires InLine(s) && Good(s.line) && !s.eof && s.pos > 0 && ch == s.line[s.pos - 1]
    ensures var (w, r) := ReadWord(s, ch, acc);
      && !r.eof && Left(r) <= Left(s) + 1
      && (IsSeparator(ch) ==> w == acc && r == PrevChar(s))
      && (!IsSeparator(ch) ==> |w| > |acc| && Left(r) <= Left(s))
    decreases Left(s)
  {
    if !IsSeparator(ch) {
      var (ch', s1) := NextChar(s);
      assert s.line[|s.line| - 1] == ';';
      assert s.line[s.pos] in s.line;
      WordStops(s1, ch', acc + [ch]);
    }
  }

  /** Every token of a good line takes at least one character; at the end the lexer stays there. */
  lemma Progress(s: Lex)
    requires InLine(s) && Good(s.line)
    ensures var (t, r) := TokenRun(s); if t.kind == TokEof then r.eof else Left(r) < Left(s)
  {
    TrimStops(s);
    var s1 := TrimSpace(s);
    if !s1.eof {
      var (ch, s2) := NextChar(s1);
      assert s.line[s1.pos] in s.line;
      if !IsDigit(ch) {
        WordStops(s2, ch, "");
      }
    }
  }

  /** All tokens from a position on, up to the end of the line. */
  function Tokens(s: Lex): seq<Tok>
    requires InLine(s) && Good(s.line)
    decreases Left(s)
  {
    Progress(s);
    var (t, r) := TokenRun(s);
    if t.kind == TokEof then [] else [t] + Tokens(r)
  }

  /** Once at the end, every further token is the end again. */
  lemma EndIsLatched(s: Lex)
    requires InLine(s) && s.eof
    ensures TokenRun(s) == (Symbol(TokEof), s)
  {
  }

  // ----- exactly when a token makes progress -----

  ghost predicate Plain(line: string) {
    '\n' !in line && '\0' !in line
  }

  ghost predicate WordFrom(line: string, p: nat) {
    forall i :: p <= i < |line| ==> !IsSeparator(line[i])
  }

  /** The next token is a word that ends with the line. */
  ghost predicate EndsInWord(s: Lex)
    requires InLine(s)
  {
    var r := TrimSpace(s);
    !r.eof && r.pos < |r.line| && !IsDigit(r.line[r.pos]) && WordFrom(r.line, r.pos)
  }

  /** Reading a word that ends with the line forgets the end and starts the line anew. */
  lemma {:induction false} WordRestarts(s: Lex, ch: char, acc: string)
    requires InLine(s) && Plain(s.line) && !s.eof && s.pos > 0 && ch == s.line[s.pos - 1] && !IsSeparator(ch)
    ensures var (w, r) := ReadWord(s, ch, acc);
      if WordFrom(s.line, s.pos - 1) then w == acc + s.line[s.pos - 1..] && r == Lex(s.line, 0, false)
      else !r.eof && Left(r) <= Left(s)
    decreases Left(s)
  {
    var (ch', s1) := NextChar(s);
    if s.pos == |s.line| {
      assert s.line[s.pos - 1..] == [ch];
      assert ReadWord(s1, ch', acc + [ch]) == (acc + [ch], Lex(s.line, 0, false));
    } else {
      assert s.line[s.pos] in s.line;
      assert WordFrom(s.line, s.pos - 1) <==> WordFrom(s.line, s.pos) && !IsSeparator(s.line[s.pos - 1]);
      if !IsSeparator(ch') {
        WordRestarts(s1, ch', acc + [ch]);
        assert s.line[s.pos - 1..] == [ch] + s.line[s.pos..];
      } else {
        assert !WordFrom(s.line, s.pos);
      }
    }
  }

  lemma {:induction false} TrimShrinks(s: Lex)
    requires InLine(s) && !s.eof
    ensures var r := TrimSpace(s); r.eof || s.pos <= r.pos <= |s.line|
    ensures var r := TrimSpace(s); Plain(s.line) ==> r.eof || r.pos < |s.line|
    decreases Left(s)
  {
    var (ch, s1) := NextChar(s);
    if (ch == ' ' || ch == '\t') && !s1.eof {
      TrimShrinks(s1);
    }
  }

  /** What stands at a place: nothing to be taken as a word, a word in the line, or a word that ends it. */
  lemma StringAt(s: Lex)
    requires InLine(s) && Plain(s.line) && !s.eof && s.pos < |s.line|
    ensures var (w, r), ch := GetString(s), s.line[s.pos];
      && w.Some?
      && (w.value == "" <==> IsDigit(ch) || IsSeparator(ch))
      && (w.value == "" ==> r == s)
      && (w.value != "" && WordFrom(s.line, s.pos) ==> w.value == s.line[s.pos..] && r == Lex(s.line, 0, false))
      && (w.value != "" && !WordFrom(s.line, s.pos) ==> !r.eof && Left(r) < Left(s))
  {
    hide ReadWord;
    var ch, s1 := s.line[s.pos], s.(pos := s.pos + 1);
    assert ch in s.line;
    assert NextChar(s) == (ch, s1) && PrevChar(s1) == s;
    if !IsDigit(ch) {
      if IsSeparator(ch) {
        SeparatorStops(s1, ch);
      } else {
        WordRestarts(s1, ch, "");
        assert "" + s.line[s.pos..] == s.line[s.pos..];
        WordGrows(s1, ch);
      }
    }
  }

  /** The same for the token at a place without blanks in front. */
  lemma ProgressAt(s: Lex, s1: Lex)
    requires InLine(s) && Plain(s.line) && !s.eof
    requires s1 == TrimSpace(s) && !s1.eof && s.pos <= s1.pos < |s.line|
    ensures var (t, r) := TokenRun(s);
      && (r.eof || Left(r) < Left(s) <==> !EndsInWord(s))
      && (EndsInWord(s) ==> t.str == s.line[s1.pos..] && r == Lex(s.line, 0, false))
  {
    hide Keyword, Operator, GetString, TrimSpace, IsSeparator, IsDigit, Plain;
    StringAt(s1);
    WordFromHead(s1.line, s1.pos);
  }

  lemma WordFromHead(line: string, p: nat)
    requires p < |line|
    ensures WordFrom(line, p) ==> !IsSeparator(line[p])
  {
  }

  /** For every line: a token makes progress, or reaches the end, if and only if it is not a word that ends
      with the line; such a word is delivered with the lexer back at the start of the line, so that the line
      is lexed over and over. */
  lemma ProgressExactly(s: Lex)
    requires InLine(s) && Plain(s.line)
    ensures var (t, r) := TokenRun(s);
      && (r.eof || Left(r) < Left(s) <==> !EndsInWord(s))
      && (EndsInWord(s) ==> t.str == s.line[TrimSpace(s).pos..] && r == Lex(s.line, 0, false))
  {
    hide Keyword, Operator, ReadWord, TrimSpace, Plain;
    if s.eof {
      assert TrimSpace(s) == s by { TrimAtEnd(s); }
    } else {
      TrimShrinks(s);
      if !TrimSpace(s).eof {
        ProgressAt(s, TrimSpace(s));
      }
    }
  }

  lemma TrimAtEnd(s: Lex)
    requires InLine(s) && s.eof
    ensures TrimSpace(s) == s
  {
  }

  lemma SeparatorStops(s: Lex, ch: char)
    requires InLine(s) && !s.eof && IsSeparator(ch)
    ensures ReadWord(s, ch, "") == ("", PrevChar(s))
  {
    assert s.(eof := false) == s;
  }

  lemma {:induction false} WordKeeps(s: Lex, ch: char, acc: string)
    requires InLine(s)
    ensures |ReadWord(s, ch, acc).0| >= |acc|
    decreases Left(s), if s.eof then 0 else 1
  {
    if !IsSeparator(ch) && !s.eof {
      var (ch', s1) := NextChar(s);
      WordKeeps(s1, ch', acc + [ch]);
    }
  }

  lemma WordGrows(s: Lex, ch: char)
    requires InLine(s) && !s.eof && !IsSeparator(ch)
    ensures ReadWord(s, ch, "").0 != ""
  {
    var (ch', s1) := NextChar(s);
    WordKeeps(s1, ch', "" + [ch]);
  }

  // ----- numeric escapes -----

  predicate IsOctal(ds: string) {
    forall i :: 0 <= i < |ds| ==> '0' <= ds[i] <= '7'
  }

  predicate AllZeros(ds: string) {
    forall i :: 0 <= i < |ds| ==> ds[i] == '0'
  }

  /** The value of octal digits. */
  function OctalValue(ds: string): nat
    requires IsOctal(ds)
  {
    if ds == "" then 0 else 8 * OctalValue(ds[..|ds| - 1]) + (ds[|ds| - 1] as int - '0' as int)
  }

  lemma {:induction false} OctalZero(ds: string)
    requires IsOctal(ds)
    ensures OctalValue(ds) == 0 <==> AllZeros(ds)
  {
    if ds != "" {
      var front := ds[..|ds| - 1];
      OctalZero(front);
      assert AllZeros(ds) <==> AllZeros(front) && ds[|ds| - 1] == '0';
    }
  }

  /** The character an escape of the digits `ds` stands for in C, which takes at most three of them. */
  function CEscape(ds: string): Option<nat>
    requires IsOctal(ds)
  {
    if |ds| <= 3 then Some(OctalValue(ds)) else None
  }

  /** A numeric escape in a character literal is 0 whatever its digits, so it means what it means in C if and
      only if it is of at most three zeros. */
  lemma NumericEscape(s: Lex, ds: string)
    requires InLine(s) && NextChar(s).0 == '\\' && ds != "" && IsOctal(ds) && NextChar(NextChar(s).1).0 == ds[0]
    ensures ProcChar(s).0 == 0
    ensures Some(ProcChar(s).0) == CEscape(ds) <==> |ds| <= 3 && AllZeros(ds)
  {
    OctalZero(ds);
  }

  /** Without the final semicolon the lexer can deliver the same word for ever. */
  lemma BareWordRepeats()
    ensures TokenRun(Lex("a", 0, false)) == (Tok(TokIdentifier, "a", 0, 0), Lex("a", 0, false))
  {
    var s := Lex("a", 0, false);
    assert NextChar(s) == ('a', Lex("a", 1, false));
    assert TrimSpace(s) == s;
    assert NextChar(Lex("a", 1, false)) == ('\0', Lex("a", 0, true));
    assert ReadWord(Lex("a", 0, true), '\0', "a") == ("a", s);
    assert ReadWord(Lex("a", 1, false), 'a', "") == ReadWord(Lex("a", 0, true), '\0', "" + ['a']);
    assert "" + ['a'] == "a";
    assert GetString(s) == (Some("a"), s);
    assert Keyword("a") == None by {
      assert |"a"| == 1 && |"void"| == 4 && |"char"| == 4 && |"short"| == 5 && |"int"| == 3
          && |"long"| == 4 && |"unsigned"| == 8 && |"NULL"| == 4 && |"null"| == 4;
    }
  }
}
