/** The other ways in which literals can be written: numbers in every base, with a suffix, and the escapes of
    characters and strings. */
module Spelling {
  import Machine
  import opened Limits
  import opened Numbers
  import opened Lexer
  import opened Printer

  // ----- numbers -----

  /** How a number of digits `ds` in base `b` is written. */
  predicate IsNumber(w: string, ds: string, b: nat) {
    match b
    case 16 => w == "0x" + ds || w == "0X" + ds
    case 2 => w == "0b" + ds || w == "0B" + ds
    case 8 => w == "0" + ds
    case 10 => w == ds && ds != "" && ds[0] != '0'
    case _ => false
  }

  /** The characters that `token_proc_number` takes for digits of a base. */
  function Taken(b: nat): char -> bool {
    if b == 16 then IsAlnum else if b == 2 then IsBinary else IsDigit
  }

  lemma DigitsTaken(ds: string, ns: seq<nat>, b: nat)
    requires b in {2, 8, 10, 16} && Writes(ds, ns, b)
    ensures forall ch :: ch in ds ==> Taken(b)(ch) && ch != '\n' && ch != '\0' && ch != ' ' && ch != '\t'
    ensures b != 16 ==> forall ch :: ch in ds ==> IsDigit(ch)
  {
    hide WritesDigit;
    forall ch | ch in ds
      ensures Taken(b)(ch) && ch != '\n' && ch != '\0' && ch != ' ' && ch != '\t' && (b != 16 ==> IsDigit(ch))
    {
      var i :| 0 <= i < |ds| && ds[i] == ch;
      DigitShape(ch, ns[i], b);
    }
  }

  lemma DigitShape(ch: char, d: nat, b: nat)
    requires b in {2, 8, 10, 16} && d < b && WritesDigit(ch, d)
    ensures Taken(b)(ch) && ch != '\n' && ch != '\0' && ch != ' ' && ch != '\t' && (b != 16 ==> IsDigit(ch))
  {
    if d < 10 {
      assert LOWER_DIGITS[d] as int == '0' as int + d && UPPER_DIGITS[d] as int == '0' as int + d;
    } else {
      assert LOWER_DIGITS[d] as int == 'a' as int + d - 10 && UPPER_DIGITS[d] as int == 'A' as int + d - 10;
    }
  }

  /** The digits standing at `p` are read up to the first character that is none. */
  lemma {:induction false} ReadTaken(take: char -> bool, line: string, p: nat, ds: string, i: nat)
    requires p + |ds| < |line| && line[p..p + |ds|] == ds && '\n' !in line
    requires (forall ch :: ch in ds ==> take(ch)) && !take(line[p + |ds|])
    requires i <= |ds|
    ensures ReadWhile(take, At(line, p + i + 1), line[p + i], ds[..i]) == (ds, line[p + |ds|], At(line, p + |ds| + 1))
    decreases |ds| - i
  {
    if i < |ds| {
      assert line[p + i] == line[p..p + |ds|][i] == ds[i] && ds[i] in ds;
      assert ds[..i] + [ds[i]] == ds[..i + 1];
      NextAt(line, p + i + 1);
      ReadTaken(take, line, p, ds, i + 1);
    } else {
      assert ds[..i] == ds;
    }
  }

  lemma {:induction false} DecimalExact(ds: string, ns: seq<nat>)
    requires Writes(ds, ns, 10)
    ensures Decimal(ds) == Value(ns, 10) % WORDS
    decreases |ds|
  {
    hide WritesDigit;
    if ds != "" {
      var n := |ds| - 1;
      DecimalExact(ds[..n], ns[..n]);
      DecimalDigit(ds[n], ns[n]);
      DecimalModulo(Value(ns[..n], 10), ns[n]);
    }
  }

  lemma DecimalModulo(x: nat, d: nat)
    ensures (x % WORDS * 10 + d) % WORDS == (x * 10 + d) % WORDS
  {
    var q, r := x / WORDS, x % WORDS;
    var q2, r2 := (r * 10 + d) / WORDS, (r * 10 + d) % WORDS;
    ModIs(x * 10 + d, WORDS, q * 10 + q2, r2);
  }

  lemma DecimalDigit(ch: char, d: nat)
    requires d < 10 && WritesDigit(ch, d)
    ensures ch as int - '0' as int == d
  {
    assert LOWER_DIGITS[d] as int == '0' as int + d;
  }

  /** The value a number is converted to. */
  function Converted(ds: string, b: nat): Machine.Word {
    if b == 10 then Decimal(ds) else SpecNumber(ds, b)
  }

  lemma ConvertedExact(ds: string, ns: seq<nat>, b: nat)
    requires b in {2, 8, 10, 16} && Writes(ds, ns, b)
    ensures Converted(ds, b) == Value(ns, b) % WORDS
  {
    if b == 10 {
      DecimalExact(ds, ns);
    } else {
      SpecNumberExact(ds, ns, b);
    }
  }

  /** The digits behind a prefix. */
  lemma DigitsBehind(line: string, p: nat, w: string, k: nat)
    requires k <= |w| && p + |w| < |line| && line[p..p + |w|] == w
    ensures line[p + k..p + |w|] == w[k..]
  {
    Within(line, p, w, k, |w|);
  }

  /** Reading at the leading zero, or at the first digit. */
  lemma NumberRead(line: string, p: nat, w: string, ds: string, ns: seq<nat>, b: nat)
    requires b in {2, 8, 10, 16} && IsNumber(w, ds, b) && Writes(ds, ns, b)
    requires p + |w| < |line| && line[p..p + |w|] == w && '\n' !in line && !Taken(b)(line[p + |w|])
    requires b == 8 && ds == "" ==> line[p + |w|] !in "xXbB"
    ensures p < |line| && IsDigit(line[p])
    ensures ProcNumber(At(line, p)) == Suffix(Converted(ds, b), line[p + |w|], At(line, p + |w| + 1))
  {
    hide WritesDigit, SpecNumber, Decimal, Suffix;
    DigitsTaken(ds, ns, b);
    assert line[p] == line[p..p + |w|][0] == w[0];
    NextAt(line, p);
    if b == 10 {
      assert ds[0] in ds;
      ReadTaken(IsDigit, line, p, ds, 0);
      assert ds[..0] == "";
    } else {
      PrefixRead(line, p, w, ds, b);
    }
  }

  lemma PrefixRead(line: string, p: nat, w: string, ds: string, b: nat)
    requires b in {2, 8, 16} && IsNumber(w, ds, b)
    requires p + |w| < |line| && line[p..p + |w|] == w && '\n' !in line && !Taken(b)(line[p + |w|])
    requires forall ch :: ch in ds ==> Taken(b)(ch)
    requires b == 8 && ds == "" ==> line[p + |w|] !in "xXbB"
    ensures Prefixed(At(line, p + 1)) == (SpecNumber(ds, b), line[p + |w|], At(line, p + |w| + 1))
  {
    hide SpecNumber;
    var k := if b == 8 then 1 else 2;
    assert w[k..] == ds;
    DigitsBehind(line, p, w, k);
    ReadTaken(Taken(b), line, p + k, ds, 0);
    assert ds[..0] == "";
    NextAt(line, p + 1);
    if b == 8 {
      OctalMark(line, p, w, ds);
    } else {
      assert line[p + 1] == line[p..p + |w|][1] == w[1];
      NextAt(line, p + 2);
    }
  }

  lemma OctalMark(line: string, p: nat, w: string, ds: string)
    requires w == "0" + ds && p + |w| < |line| && line[p..p + |w|] == w
    requires (forall ch :: ch in ds ==> IsDigit(ch)) && (ds == "" ==> line[p + |w|] !in "xXbB")
    ensures line[p + 1] !in "xXbB"
  {
    if ds != "" {
      assert line[p + 1] == line[p..p + |w|][1] == w[1] == ds[0] && ds[0] in ds;
    }
  }

  /** A number with a suffix, if it has one; a hexadecimal number would take that for a digit. */
  predicate SpellsNumber(t: Tok, w: string, x: string, ds: string, ns: seq<nat>, b: nat) {
    && b in {2, 8, 10, 16} && IsNumber(x, ds, b) && Writes(ds, ns, b)
    && t.str == "" && t.err == 0 && t.value == Value(ns, b) % WORDS
    && ((t.kind == TokValueInt && w == x) || (t.kind == TokValueLong && b != 16 && (w == x + "l" || w == x + "L")))
  }

  /** A number is read back from every way of writing it. */
  lemma NumberReadAs(t: Tok, w: string, x: string, ds: string, ns: seq<nat>, b: nat)
    requires SpellsNumber(t, w, x, ds, ns, b)
    ensures ReadAs(t, w)
  {
    hide WritesDigit, TokenRun, SpecNumber, Decimal, Converted;
    DigitsTaken(ds, ns, b);
    NumberShape(t, w, x, ds, b);
    forall line: string, p: nat | IsAt(line, p, t, w)
      ensures TokenRun(At(line, p)) == (t, At(line, p + |w|))
    {
      NumberAt(line, p, t, w, x, ds, ns, b);
    }
  }

  lemma NumberShape(t: Tok, w: string, x: string, ds: string, b: nat)
    requires IsNumber(x, ds, b) && (w == x || w == x + "l" || w == x + "L")
    requires forall ch :: ch in ds ==> ch != '\n' && ch != '\0' && ch != ' ' && ch != '\t'
    ensures |w| > 0 && w[0] !in {' ', '\t'} && '\n' !in w && '\0' !in w
  {
    if b == 10 {
      assert ds[0] in ds;
    }
  }

  lemma NumberEnds(x: string, ds: string, b: nat)
    requires IsNumber(x, ds, b) && b in {2, 8, 10, 16} && forall ch :: ch in ds ==> Taken(b)(ch)
    ensures x != "" && !IsSeparator(x[|x| - 1])
  {
    if ds != "" {
      assert x[|x| - 1] == ds[|ds| - 1] && ds[|ds| - 1] in ds;
    }
  }

  /** What stands behind the digits ends them. */
  lemma NumberStands(line: string, p: nat, w: string, x: string, ds: string, b: nat)
    requires IsNumber(x, ds, b) && b in {2, 8, 10, 16} && forall ch :: ch in ds ==> Taken(b)(ch)
    requires w == x || (b != 16 && (w == x + "l" || w == x + "L"))
    requires Stands(line, p, w) && (w == x ==> p + |w| < |line|)
    ensures p + |x| < |line| && line[p..p + |x|] == x
    ensures var c := line[p + |x|];
      && !Taken(b)(c) && c !in "xXbB"
      && (w == x ==> IsSeparator(c)) && (w != x ==> |w| == |x| + 1 && (c == 'l' || c == 'L'))
  {
    NumberEnds(x, ds, b);
    Within(line, p, w, 0, |x|);
    assert w[0..|x|] == x;
    if w != x {
      StandsAt(line, p, w, |x|);
    }
  }

  lemma NumberAt(line: string, p: nat, t: Tok, w: string, x: string, ds: string, ns: seq<nat>, b: nat)
    requires SpellsNumber(t, w, x, ds, ns, b) && IsAt(line, p, t, w)
    ensures TokenRun(At(line, p)) == (t, At(line, p + |w|))
  {
    hide WritesDigit, TokenRun, SpecNumber, Decimal, Converted, ProcNumber, Writes, Stands, Taken, IsNumber,
         IsSeparator;
    DigitsTaken(ds, ns, b);
    NumberStands(line, p, w, x, ds, b);
    NumberRead(line, p, x, ds, ns, b);
    NumberEntered(line, p);
    ConvertedExact(ds, ns, b);
    NextAt(line, p + |x|);
    NoSuffix(line[p + |x|]);
  }

  lemma NoSuffix(c: char)
    ensures IsSeparator(c) ==> c != 'l' && c != 'L'
  {
  }

  /** Every word is written in each base, in letters of either case, and read back from there. */
  lemma NumberBack(v: Machine.Word, b: nat, upper: bool)
    requires b in {2, 8, 16}
    ensures var ds := Written(DigitsOf(v, b), upper);
      && ReadAs(Tok(TokValueInt, "", v, 0), (if b == 16 then "0x" else if b == 2 then "0b" else "0") + ds)
      && ReadAs(Tok(TokValueInt, "", v, 0), (if b == 16 then "0X" else if b == 2 then "0B" else "0") + ds)
      && (b != 16 ==> ReadAs(Tok(TokValueLong, "", v, 0), (if b == 2 then "0b" else "0") + ds + "l"))
  {
    hide ReadAs, DigitsOf, Written, Value, WritesDigit;
    var ns := DigitsOf(v, b);
    var ds := Written(ns, upper);
    ValueOfDigits(v, b);
    var x := (if b == 16 then "0x" else if b == 2 then "0b" else "0") + ds;
    var y := (if b == 16 then "0X" else if b == 2 then "0B" else "0") + ds;
    NumberReadAs(Tok(TokValueInt, "", v, 0), x, x, ds, ns, b);
    NumberReadAs(Tok(TokValueInt, "", v, 0), y, y, ds, ns, b);
    if b != 16 {
      NumberReadAs(Tok(TokValueLong, "", v, 0), x + "l", x, ds, ns, b);
    }
  }

  // ----- characters -----

  /** The letters of the escapes in a character literal, and the codes they stand for. */
  const CHAR_ESCAPES := "ntvbr\\'"
  const CHAR_CODES: seq<Machine.Byte> := [10, 9, 11, 8, 13, 92, 39]

  /** A character literal with an escape. */
  function EscapedChar(k: nat): string
    requires k < |CHAR_ESCAPES|
  {
    ['\'', '\\', CHAR_ESCAPES[k], '\'']
  }

  lemma FourStand(line: string, p: nat, w: string)
    requires Stands(line, p, w) && |w| == 4 && '\n' !in line
    ensures p + 4 <= |line| && line[p] == w[0] && line[p + 1] == w[1] && line[p + 2] == w[2] && line[p + 3] == w[3]
    ensures NextChar(At(line, p + 1)) == (w[1], At(line, p + 2)) && NextChar(At(line, p + 2)) == (w[2], At(line, p + 3))
    ensures NextChar(At(line, p + 3)) == (w[3], At(line, p + 4))
  {
    StandsAt(line, p, w, 0);
    StandsAt(line, p, w, 1);
    StandsAt(line, p, w, 2);
    StandsAt(line, p, w, 3);
    hide Stands;
    NextAt(line, p + 1);
    NextAt(line, p + 2);
    NextAt(line, p + 3);
  }

  /** Each escape in a character literal is read as its code. */
  lemma CharEscapeReadAs(k: nat)
    requires k < |CHAR_ESCAPES|
    ensures ReadAs(Tok(TokValueChar, "", CHAR_CODES[k], 0), EscapedChar(k))
  {
    hide TokenRun;
    var t, w := Tok(TokValueChar, "", CHAR_CODES[k], 0), EscapedChar(k);
    forall line: string, p: nat | IsAt(line, p, t, w)
      ensures TokenRun(At(line, p)) == (t, At(line, p + |w|))
    {
      FourStand(line, p, w);
      CharEntered(line, p);
      EscapeCode(At(line, p + 1), k);
    }
  }

  lemma EscapeCode(s: Lex, k: nat)
    requires InLine(s) && k < |CHAR_ESCAPES| && NextChar(s).0 == '\\' && NextChar(NextChar(s).1).0 == CHAR_ESCAPES[k]
    requires NextChar(NextChar(NextChar(s).1).1).0 == '\''
    ensures ProcChar(s) == (CHAR_CODES[k], false, NextChar(NextChar(NextChar(s).1).1).1)
  {
    hide NextChar, PrevChar, SkipDigits;
    if k == 0 {
    } else if k == 1 {
    } else if k == 2 {
    } else if k == 3 {
    } else if k == 4 {
    } else if k == 5 {
    } else {
      assert k == 6;
    }
  }

  // ----- strings -----

  const STRING_ESCAPES := "ntvbrfa"
  const STRING_CODES: seq<Machine.Byte> := [10, 9, 11, 8, 13, 12, 7]

  /** A piece of a string literal: a character as it is, an escape letter, octal or hexadecimal digits, or a
      backslash before any other character. */
  datatype Piece = Raw(ch: char) | Letter(k: nat) | Octal(ds: string, ns: seq<nat>) | Hex(ds: string, ns: seq<nat>)
    | Other(ch: char)

  /** The digits that `\x` goes on to take: the sixteen characters from '0' on, not the letters. */
  predicate IsNear(ch: char, base: nat) {
    0 <= ch as int - '0' as int < base
  }

  predicate NearDigits(ds: string, ns: seq<nat>, base: nat) {
    |ds| == |ns| && forall i :: 0 <= i < |ns| ==> ns[i] < base && ds[i] as int == '0' as int + ns[i]
  }

  lemma OctalIsNear(ds: string, ns: seq<nat>)
    requires Writes(ds, ns, 8)
    ensures NearDigits(ds, ns, 8)
  {
    hide WritesDigit;
    forall i | 0 <= i < |ns| ensures ds[i] as int == '0' as int + ns[i] {
      DecimalDigit(ds[i], ns[i]);
    }
  }

  predicate IsPiece(x: Piece) {
    match x
    case Raw(ch) => IsPlain(ch)
    case Letter(k) => k < |STRING_ESCAPES|
    case Octal(ds, ns) => ds != "" && Writes(ds, ns, 8)
    case Hex(ds, ns) => NearDigits(ds, ns, 16)
    case Other(ch) => ch !in STRING_ESCAPES && ch != 'x' && !IsNear(ch, 8) && ch != '\n' && ch != '\0'
  }

  function PieceText(x: Piece): string
    requires IsPiece(x)
  {
    match x
    case Raw(ch) => [ch]
    case Letter(k) => ['\\', STRING_ESCAPES[k]]
    case Octal(ds, _) => "\\" + ds
    case Hex(ds, _) => "\\x" + ds
    case Other(ch) => ['\\', ch]
  }

  /** What it stands for: any number of octal digits count, `\x` counts the sixteen characters from '0' to '?' and
      no letters, and a backslash before a character without a meaning of its own makes a zero of it. */
  function PieceChar(x: Piece): char
    requires IsPiece(x)
  {
    match x
    case Raw(ch) => ch
    case Letter(k) => STRING_CODES[k] as char
    case Octal(_, ns) => (Value(ns, 8) % 0x100) as char
    case Hex(_, ns) => (Value(ns, 16) % 0x100) as char
    case Other(_) => '\0'
  }

  predicate AllPieces(xs: seq<Piece>) {
    forall i :: 0 <= i < |xs| ==> IsPiece(xs[i])
  }

  function PiecesText(xs: seq<Piece>): string
    requires AllPieces(xs)
  {
    if xs == [] then "" else PieceText(xs[0]) + PiecesText(xs[1..])
  }

  function PiecesChars(xs: seq<Piece>): (w: string)
    requires AllPieces(xs)
    ensures |w| == |xs|
  {
    if xs == [] then "" else [PieceChar(xs[0])] + PiecesChars(xs[1..])
  }

  /** No piece is followed by a character that its digits would take in. */
  predicate Parted(xs: seq<Piece>)
    requires AllPieces(xs)
  {
    xs != [] ==>
      && (xs[0].Octal? && xs[1..] != [] ==> !IsNear(PieceText(xs[1])[0], 8))
      && (xs[0].Hex? && xs[1..] != [] ==> !IsNear(PieceText(xs[1])[0], 16))
      && Parted(xs[1..])
  }

  /** The digits of an escape at `p + i`, their value so far being that of the first `i`. */
  lemma {:induction false} DigitsEscape(line: string, p: nat, ds: string, ns: seq<nat>, base: nat, i: nat)
    requires base > 0 && NearDigits(ds, ns, base)
    requires p + |ds| < |line| && line[p..p + |ds|] == ds && '\n' !in line && !IsNear(line[p + |ds|], base)
    requires i <= |ds|
    ensures EscapeDigits(At(line, p + i + 1), line[p + i], base, Value(ns[..i], base))
         == (Value(ns, base), At(line, p + |ds|))
    decreases |ds| - i
  {
    if i < |ds| {
      assert line[p + i] == line[p..p + |ds|][i] == ds[i];
      assert ns[..i + 1] == ns[..i] + [ns[i]];
      Snoc(ns[..i], ns[i], base);
      NextAt(line, p + i + 1);
      DigitsEscape(line, p, ds, ns, base, i + 1);
    } else {
      assert ns[..i] == ns;
    }
  }

  /** One escape behind its backslash. */
  lemma EscapeAt(line: string, p: nat, x: Piece, w: string)
    requires IsPiece(x) && !x.Raw? && '\n' !in line && w == PieceText(x)[1..]
    requires p + |w| < |line| && line[p..p + |w|] == w
    requires (x.Octal? ==> !IsNear(line[p + |w|], 8)) && (x.Hex? ==> !IsNear(line[p + |w|], 16))
    ensures ProcEscape(At(line, p)).1 == At(line, p + |w|)
    ensures ProcEscape(At(line, p)).0 as char == PieceChar(x)
  {
    hide ProcEscape, Writes, NearDigits, Value, IsNear;
    match x
    case Letter(k) =>
      assert line[p] == line[p..p + |w|][0] == w[0];
      assert line[p] in line;
      NextAt(line, p);
      LetterCode(At(line, p), k);
    case Octal(ds, ns) => OctalEscape(line, p, ds, ns);
    case Hex(ds, ns) => HexEscape(line, p, ds, ns, w);
    case Other(ch) =>
      assert line[p] == line[p..p + |w|][0] == w[0];
      assert line[p] in line;
      NextAt(line, p);
      OtherCode(At(line, p), ch);
  }

  lemma LetterCode(s: Lex, k: nat)
    requires InLine(s) && k < |STRING_ESCAPES| && NextChar(s).0 == STRING_ESCAPES[k]
    ensures ProcEscape(s) == (STRING_CODES[k], NextChar(s).1)
  {
    hide NextChar, EscapeDigits;
    if k == 0 {
    } else if k == 1 {
    } else if k == 2 {
    } else if k == 3 {
    } else if k == 4 {
    } else if k == 5 {
    } else {
      assert k == 6;
    }
  }

  lemma OtherCode(s: Lex, ch: char)
    requires InLine(s) && IsPiece(Other(ch)) && NextChar(s).0 == ch
    ensures ProcEscape(s) == (0, NextChar(s).1)
  {
    hide NextChar, EscapeDigits;
    assert STRING_ESCAPES == ['n', 't', 'v', 'b', 'r', 'f', 'a'];
  }

  lemma OctalEscape(line: string, p: nat, ds: string, ns: seq<nat>)
    requires ds != "" && Writes(ds, ns, 8) && p + |ds| < |line| && line[p..p + |ds|] == ds && '\n' !in line
    requires !IsNear(line[p + |ds|], 8)
    ensures ProcEscape(At(line, p)) == (Value(ns, 8) % 0x100, At(line, p + |ds|))
  {
    hide EscapeDigits, Value, Writes;
    OctalIsNear(ds, ns);
    assert line[p] == line[p..p + |ds|][0] == ds[0];
    assert line[p] in line;
    NextAt(line, p);
    DigitsEscape(line, p, ds, ns, 8, 0);
    EmptyValue(8);
    assert ns[..0] == [];
  }

  lemma EmptyValue(b: nat)
    ensures Value([], b) == 0
  {
  }

  lemma HexEscape(line: string, p: nat, ds: string, ns: seq<nat>, w: string)
    requires NearDigits(ds, ns, 16) && w == "x" + ds && p + |w| < |line| && line[p..p + |w|] == w && '\n' !in line
    requires !IsNear(line[p + |w|], 16)
    ensures ProcEscape(At(line, p)) == (Value(ns, 16) % 0x100, At(line, p + |w|))
  {
    hide EscapeDigits, Value, NearDigits;
    assert line[p] == line[p..p + |w|][0] == 'x';
    NextAt(line, p);
    assert line[p + 1] in line;
    NextAt(line, p + 1);
    Within(line, p, w, 1, |w|);
    assert w[1..|w|] == ds;
    DigitsEscape(line, p + 1, ds, ns, 16, 0);
    EmptyValue(16);
    assert ns[..0] == [];
  }

  /** `w` stands at `p`, with something behind it. */
  ghost predicate Occurs(line: string, p: nat, w: string) {
    p + |w| < |line| && line[p..p + |w|] == w && '\n' !in line
  }

  lemma OccursAt(line: string, p: nat, w: string)
    requires Occurs(line, p, w)
    ensures p + |w| < |line| && line[p + |w|] != '\n'
    ensures w != "" ==> line[p] == w[0] && line[p] != '\n'
  {
    assert line[p + |w|] in line;
    if w != "" {
      assert line[p] == line[p..p + |w|][0];
    }
  }

  /** The pieces at `p`, a closing quote behind them. */
  lemma {:induction false} PiecesRead(line: string, p: nat, xs: seq<Piece>, acc: string)
    requires AllPieces(xs) && Parted(xs) && |acc| + |xs| < STRING_MAX
    requires Occurs(line, p, PiecesText(xs)) && line[p + |PiecesText(xs)|] == '"'
    ensures ProcString(At(line, p), acc)
         == (acc + PiecesChars(xs), false, At(line, p + |PiecesText(xs)| + 1))
    decreases |xs|
  {
    hide ProcEscape, PieceText, PieceChar, IsPiece, IsNear, Occurs, Parted, PiecesText, ProcString, AllPieces,
         PiecesChars, NextChar;
    if xs == [] {
      ClosingQuote(line, p, acc);
    } else {
      OnePiece(xs);
      var n := |PieceText(xs[0])|;
      PiecesSplit(line, p, xs);
      FollowedBy(line, p, xs);
      PieceRead(line, p, xs[0], acc);
      PiecesRead(line, p + n, xs[1..], acc + [PieceChar(xs[0])]);
      CharsCons(xs, acc);
    }
  }

  lemma ClosingQuote(line: string, p: nat, acc: string)
    requires Occurs(line, p, PiecesText([])) && line[p + |PiecesText([])|] == '"' && |acc| < STRING_MAX
    ensures |PiecesText([])| == 0 && ProcString(At(line, p), acc) == (acc + PiecesChars([]), false, At(line, p + 1))
  {
    hide ProcEscape;
    OccursAt(line, p, "");
    NextAt(line, p);
    assert acc + "" == acc;
  }

  lemma OnePiece(xs: seq<Piece>)
    requires xs != [] && AllPieces(xs)
    ensures IsPiece(xs[0]) && AllPieces(xs[1..])
  {
    hide IsPiece;
  }

  lemma CharsCons(xs: seq<Piece>, acc: string)
    requires xs != [] && AllPieces(xs)
    ensures acc + [PieceChar(xs[0])] + PiecesChars(xs[1..]) == acc + PiecesChars(xs)
  {
    hide IsPiece, PieceChar;
  }

  /** What stands behind the first piece is no digit of it. */
  lemma FollowedBy(line: string, p: nat, xs: seq<Piece>)
    requires xs != [] && AllPieces(xs) && Parted(xs)
    requires Occurs(line, p, PiecesText(xs)) && line[p + |PiecesText(xs)|] == '"'
    ensures AllPieces(xs[1..]) && Parted(xs[1..])
    ensures var q := p + |PieceText(xs[0])|;
      q < |line| && (xs[0].Octal? ==> !IsNear(line[q], 8)) && (xs[0].Hex? ==> !IsNear(line[q], 16))
  {
    hide PieceText, IsPiece;
    NextPiece(line, p, xs);
  }

  lemma PiecesSplit(line: string, p: nat, xs: seq<Piece>)
    requires xs != [] && AllPieces(xs)
    requires Occurs(line, p, PiecesText(xs))
    ensures var n := |PieceText(xs[0])|;
      && |PiecesText(xs)| == n + |PiecesText(xs[1..])|
      && Occurs(line, p, PieceText(xs[0])) && Occurs(line, p + n, PiecesText(xs[1..]))
  {
    hide PieceText, IsPiece;
    var w, u := PiecesText(xs), PieceText(xs[0]);
    var v := PiecesText(xs[1..]);
    assert w == u + v;
    assert w[0..|u|] == u && w[|u|..|w|] == v;
    Within(line, p, w, 0, |u|);
    Within(line, p, w, |u|, |w|);
  }

  /** What stands behind the first piece. */
  lemma NextPiece(line: string, p: nat, xs: seq<Piece>)
    requires xs != [] && AllPieces(xs)
    requires Occurs(line, p, PiecesText(xs)) && line[p + |PiecesText(xs)|] == '"'
    ensures |PieceText(xs[0])| > 0 && p + |PieceText(xs[0])| < |line|
    ensures xs[1..] == [] ==> line[p + |PieceText(xs[0])|] == '"'
    ensures xs[1..] != [] ==> |PieceText(xs[1])| > 0 && line[p + |PieceText(xs[0])|] == PieceText(xs[1])[0]
  {
    hide PieceText, IsPiece;
    var w, u, v := PiecesText(xs), PieceText(xs[0]), PiecesText(xs[1..]);
    PieceBegins(xs[0]);
    assert w == u + v;
    if xs[1..] != [] {
      PieceBegins(xs[1]);
      assert xs[1..][0] == xs[1] && v == PieceText(xs[1]) + PiecesText(xs[1..][1..]);
      assert w[|u|] == v[0] == PieceText(xs[1])[0];
      assert line[p..p + |w|][|u|] == line[p + |u|];
    }
  }

  /** One piece at `p`. */
  lemma PieceRead(line: string, p: nat, x: Piece, acc: string)
    requires IsPiece(x) && |acc| < STRING_MAX && Occurs(line, p, PieceText(x))
    requires var next := line[p + |PieceText(x)|];
      (x.Octal? ==> !IsNear(next, 8)) && (x.Hex? ==> !IsNear(next, 16))
    ensures ProcString(At(line, p), acc) == ProcString(At(line, p + |PieceText(x)|), acc + [PieceChar(x)])
  {
    hide ProcEscape, ProcString, PieceChar, PieceText, IsPiece, IsNear, Occurs;
    hide NextChar, PrevChar, Parted, PiecesText, AllPieces, Stands;
    PieceBegins(x);
    OccursAt(line, p, PieceText(x));
    if x.Raw? {
      RawChar(x);
      RawStep(line, p, acc, x.ch);
    } else {
      EscapeRead(line, p, x);
      EscapeStep(line, p, acc);
    }
  }

  lemma RawStep(line: string, p: nat, acc: string, ch: char)
    requires p < |line| && line[p] == ch && ch != '\n' && ch != '"' && ch != '\\' && |acc| < STRING_MAX
    ensures ProcString(At(line, p), acc) == ProcString(At(line, p + 1), acc + [ch])
  {
    hide ProcString;
    NextAt(line, p);
    StringStep(At(line, p), acc);
  }

  lemma EscapeStep(line: string, p: nat, acc: string)
    requires p < |line| && line[p] == '\\' && |acc| < STRING_MAX
    ensures var (c, s) := ProcEscape(At(line, p + 1));
      ProcString(At(line, p), acc) == ProcString(s, acc + [c as char])
  {
    hide ProcString, ProcEscape;
    NextAt(line, p);
    StringStep(At(line, p), acc);
  }

  lemma EscapeRead(line: string, p: nat, x: Piece)
    requires IsPiece(x) && !x.Raw? && Occurs(line, p, PieceText(x))
    requires var next := line[p + |PieceText(x)|];
      (x.Octal? ==> !IsNear(next, 8)) && (x.Hex? ==> !IsNear(next, 16))
    ensures ProcEscape(At(line, p + 1)).1 == At(line, p + |PieceText(x)|)
    ensures ProcEscape(At(line, p + 1)).0 as char == PieceChar(x)
  {
    hide ProcEscape, PieceChar, PieceText, IsPiece, IsNear;
    PieceBegins(x);
    var u := PieceText(x);
    Within(line, p, u, 1, |u|);
    assert u[1..|u|] == u[1..];
    EscapeAt(line, p + 1, x, u[1..]);
  }

  /** One turn of the loop over a string literal. */
  lemma StringStep(s: Lex, acc: string)
    requires InLine(s) && |acc| < STRING_MAX && !NextChar(s).1.eof
    ensures var (ch, s1) := NextChar(s);
      && (ch == '\\' ==>
            ProcString(s, acc) == ProcString(ProcEscape(s1).1, acc + [ProcEscape(s1).0 as char]))
      && (ch != '\\' && ch != '"' ==> ProcString(s, acc) == ProcString(s1, acc + [ch]))
  {
    hide ProcEscape, NextChar;
  }

  lemma PieceBegins(x: Piece)
    requires IsPiece(x)
    ensures |PieceText(x)| > 0
    ensures x.Raw? ==> |PieceText(x)| == 1 && PieceText(x)[0] == x.ch && x.ch != '"' && x.ch != '\\'
    ensures !x.Raw? ==> PieceText(x)[0] == '\\'
  {
  }

  lemma RawChar(x: Piece)
    requires x.Raw? && IsPiece(x)
    ensures PieceChar(x) == x.ch
  {
  }

  lemma {:induction false} PiecesShape(xs: seq<Piece>)
    requires AllPieces(xs)
    ensures '\n' !in PiecesText(xs) && '\0' !in PiecesText(xs)
    decreases |xs|
  {
    hide PieceText, IsPiece;
    if xs != [] {
      PieceShape(xs[0]);
      PiecesShape(xs[1..]);
    }
  }

  lemma PieceShape(x: Piece)
    requires IsPiece(x)
    ensures '\n' !in PieceText(x) && '\0' !in PieceText(x)
  {
    hide Writes;
    match x
    case Octal(ds, ns) => OctalIsNear(ds, ns);
    case _ =>
  }

  /** A string literal of any pieces is read as the characters they stand for. */
  lemma StringReadAs(xs: seq<Piece>)
    requires AllPieces(xs) && Parted(xs) && |xs| < STRING_MAX
    ensures ReadAs(Tok(TokValueString, PiecesChars(xs), 0, 0), "\"" + PiecesText(xs) + "\"")
  {
    hide TokenRun, PiecesText, PiecesChars, AllPieces, Parted, ProcString, NextChar, PrevChar;
    var t := Tok(TokValueString, PiecesChars(xs), 0, 0);
    var v := PiecesText(xs);
    var w := "\"" + v + "\"";
    Quoted(v);
    PiecesShape(xs);
    forall line: string, p: nat | IsAt(line, p, t, w)
      ensures TokenRun(At(line, p)) == (t, At(line, p + |w|))
    {
      StringStands(line, p, xs, w);
    }
  }

  lemma StringStands(line: string, p: nat, xs: seq<Piece>, w: string)
    requires AllPieces(xs) && Parted(xs) && |xs| < STRING_MAX && w == "\"" + PiecesText(xs) + "\""
    requires Stands(line, p, w) && '\n' !in line
    ensures TokenRun(At(line, p)) == (Tok(TokValueString, PiecesChars(xs), 0, 0), At(line, p + |w|))
  {
    hide TokenRun, PiecesText, PiecesChars, AllPieces, Parted, ProcString, NextChar, PrevChar;
    var v := PiecesText(xs);
    Quoted(v);
    StandsAt(line, p, w, 0);
    StandsAt(line, p, w, |v| + 1);
    Within(line, p, w, 1, 1 + |v|);
    hide Stands;
    StringEntered(line, p);
    PiecesRead(line, p + 1, xs, "");
    assert "" + PiecesChars(xs) == PiecesChars(xs);
  }

  /** A string literal that fills the buffer is cut there, without an error; what is behind is lexed on. */
  lemma StringCut(line: string, p: nat, w: string)
    requires |w| == STRING_MAX && AllPlain(w) && p + 1 + |w| <= |line|
    requires line[p] == '"' && line[p + 1..p + 1 + |w|] == w
    ensures TokenRun(At(line, p)) == (Tok(TokValueString, w, 0, 0), At(line, p + 1 + |w|))
  {
    hide TokenRun, ProcString, AllPlain;
    StringEntered(line, p);
    assert w[..0] == "";
    CutFrom(line, p + 1, w, 0);
  }

  lemma {:induction false} CutFrom(line: string, p: nat, w: string, i: nat)
    requires p + |w| <= |line| && line[p..p + |w|] == w && |w| == STRING_MAX && AllPlain(w) && i <= |w|
    ensures ProcString(At(line, p + i), w[..i]) == (w, false, At(line, p + |w|))
    decreases |w| - i
  {
    hide ProcEscape;
    if i < |w| {
      assert line[p + i] == line[p..p + |w|][i] == w[i] && w[i] in w;
      assert w[..i] + [w[i]] == w[..i + 1];
      NextAt(line, p + i);
      CutFrom(line, p, w, i + 1);
    } else {
      assert w[..i] == w;
    }
  }

  // ----- words -----

  const LOWER_LETTERS := "abcdefghijklmnopqrstuvwxyz"
  const UPPER_LETTERS := "ABCDEFGHIJKLMNOPQRSTUVWXYZ"

  /** Words consist of letters, digits and underscores, and do not begin with a digit. */
  lemma WordChars(w: string)
    ensures IsWord(w) <==>
      w != "" && w[0] !in "0123456789"
      && forall c :: c in w ==> c in LOWER_LETTERS || c in UPPER_LETTERS || c in "0123456789" || c == '_'
  {
    forall c | c in w
      ensures !IsSeparator(c) <==> c in LOWER_LETTERS || c in UPPER_LETTERS || c in "0123456789" || c == '_'
    {
      WordChar(c);
    }
    if w != "" {
      DigitChars(w[0]);
    }
    hide IsSeparator, IsDigit;
  }

  lemma DigitChars(c: char)
    ensures IsDigit(c) <==> c in "0123456789"
  {
  }

  lemma WordChar(c: char)
    ensures !IsSeparator(c) <==> c in LOWER_LETTERS || c in UPPER_LETTERS || c in "0123456789" || c == '_'
  {
    DigitChars(c);
    LowerChars(c);
    UpperChars(c);
    hide IsDigit;
  }

  lemma LowerChars(c: char)
    ensures 'a' <= c <= 'z' <==> c in LOWER_LETTERS
  {
  }

  lemma UpperChars(c: char)
    ensures 'A' <= c <= 'Z' <==> c in UPPER_LETTERS
  {
  }
}
