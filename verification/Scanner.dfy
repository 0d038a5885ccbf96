/** The lexer (finsh_token.c) as it runs: a position in the line that moves, a latched end, and a
    token buffer that is overwritten in place. */
module Scanner {
  import opened Machine
  import opened Limits
  import opened Numbers
  import opened Lexer

  class Token {
    const line: string
    var eof: bool
    var replay: bool
    var position: nat
    var current_token: TokenKind
    var value: Word
    var str: string
    /** `global_errno`. */
    var errno: nat

    constructor (line: string)
      ensures this.line == line && Place() == Lex(line, 0, false)
      ensures !replay && errno == 0 && str == "" && value == 0 && current_token == TokEof
    {
      this.line := line;
      eof, replay, position, current_token, value, str, errno := false, false, 0, TokEof, 0, "", 0;
    }

    ghost predicate Valid()
      reads this
    {
      position <= |line|
    }

    ghost function Place(): Lex
      reads this
    {
      Lex(line, position, eof)
    }

    // ----- characters -----

    /** `token_next_char`. */
    method NextChar() returns (ch: char)
      requires Valid()
      modifies this`eof, this`position
      ensures Valid() && (ch, Place()) == Lexer.NextChar(old(Place()))
    {
      if eof {
        return '\0';
      }
      if position == |line| || line[position] == '\n' {
        eof, position := true, 0;
        return '\0';
      }
      ch := line[position];
      position := position + 1;
    }

    /** `token_prev_char`. */
    method PrevChar()
      requires Valid()
      modifies this`position
      ensures Valid() && Place() == Lexer.PrevChar(old(Place()))
    {
      if eof || position == 0 {
        return;
      }
      position := position - 1;
    }

    /** `token_trim_space`. */
    method TrimSpace()
      requires Valid()
      modifies this`eof, this`position
      ensures Valid() && Place() == Lexer.TrimSpace(old(Place()))
    {
      ghost var goal := Lexer.TrimSpace(Place());
      var ch := NextChar();
      while ch == ' ' || ch == '\t'
        invariant Valid() && Place().line == line
        invariant ch == ' ' || ch == '\t' ==> !eof && Lexer.TrimSpace(Place()) == goal
        invariant !(ch == ' ' || ch == '\t') ==> Lexer.PrevChar(Place()) == goal
        decreases Left(Place()), if ch == ' ' || ch == '\t' then 1 else 0
      {
        ch := NextChar();
      }
      PrevChar();
    }

    /** `token_get_string`: 0 when the token buffer was written. */
    method GetString() returns (failed: bool)
      requires Valid()
      modifies this`eof, this`position, this`str
      ensures Valid()
      ensures var (w, s) := Lexer.GetString(old(Place()));
        && Place() == s
        && str == (if w.Some? then w.value else old(str))
    {
      ghost var s0 := Place();
      var ch := NextChar();
      if eof {
        return true;
      }
      str := "";
      if IsDigit(ch) {
        PrevChar();
        return true;
      }
      ghost var goal := ReadWord(Place(), ch, "");
      while !IsSeparator(ch) && !eof
        invariant Valid() && ReadWord(Place(), ch, str) == goal
        decreases Left(Place()), if eof then 0 else 1
      {
        str := str + [ch];
        ch := NextChar();
      }
      eof := false;
      PrevChar();
      failed := false;
    }

    /** `token_match_name`: the keyword table is searched from its first entry on. */
    method MatchName() returns (found: bool)
      modifies this`current_token
      ensures found == Keyword(str).Some?
      ensures current_token == if found then Keyword(str).value else old(current_token)
    {
      var names := ["void", "char", "short", "int", "long", "unsigned", "NULL", "null"];
      var types := [TokVoid, TokChar, TokShort, TokInt, TokLong, TokUnsigned, TokValueNull, TokValueNull];
      assert Keyword(str) == KeywordFrom(names, types, str, 0) by { KeywordTable(str); }
      hide Keyword;
      for i := 0 to |names|
        invariant current_token == old(current_token)
        invariant KeywordFrom(names, types, str, 0) == KeywordFrom(names, types, str, i)
      {
        if names[i] == str {
          current_token := types[i];
          return true;
        }
      }
      return false;
    }

    // ----- literals -----

    /** `token_proc_char`. */
    method ProcChar() returns (c: Byte)
      requires Valid()
      modifies this`eof, this`position, this`errno
      ensures Valid()
      ensures var (v, unclosed, s) := Lexer.ProcChar(old(Place()));
        c == v && Place() == s && errno == if unclosed then ERROR_EXPECT_CHAR else old(errno)
    {
      var ch := NextChar();
      if ch == '\\' {
        ch := NextChar();
        match ch
        case 'n' => c := 10;
        case 't' => c := 9;
        case 'v' => c := 11;
        case 'b' => c := 8;
        case 'r' => c := 13;
        case '\\' => c := 92;
        case '\'' => c := 39;
        case _ =>
          SkipDigits(ch);
          c := 0;
      } else {
        c := CharCode(ch);
      }
      ch := NextChar();
      if ch != '\'' {
        PrevChar();
        errno := ERROR_EXPECT_CHAR;
      }
    }

    method SkipDigits(first: char)
      requires Valid() && (IsDigit(first) ==> !eof)
      modifies this`eof, this`position
      ensures Valid() && Place() == Lexer.PrevChar(Lexer.SkipDigits(old(Place()), first))
    {
      ghost var goal := Lexer.SkipDigits(Place(), first);
      var ch := first;
      while IsDigit(ch)
        invariant Valid() && Lexer.SkipDigits(Place(), ch) == goal
        invariant IsDigit(ch) ==> !eof
        decreases Left(Place()), if IsDigit(ch) then 1 else 0
      {
        ch := NextChar();
      }
      PrevChar();
    }

    /** The digits of a `\x` or octal escape. */
    method EscapeDigits(first: char, base: nat) returns (result: int)
      requires Valid() && base > 0 && (0 <= first as int - '0' as int < base ==> !eof)
      modifies this`eof, this`position
      ensures Valid() && (result, Place()) == Lexer.EscapeDigits(old(Place()), first, base, 0)
    {
      ghost var goal := Lexer.EscapeDigits(Place(), first, base, 0);
      var ch := first;
      result := 0;
      while 0 <= ch as int - '0' as int < base
        invariant Valid() && Lexer.EscapeDigits(Place(), ch, base, result) == goal
        invariant 0 <= ch as int - '0' as int < base ==> !eof
        decreases Left(Place()), if 0 <= ch as int - '0' as int < base then 1 else 0
      {
        result := result * base + ch as int - '0' as int;
        ch := NextChar();
      }
      PrevChar();
    }

    /** `token_proc_escape`. */
    method ProcEscape() returns (c: Byte)
      requires Valid()
      modifies this`eof, this`position
      ensures Valid() && (c, Place()) == Lexer.ProcEscape(old(Place()))
    {
      var ch := NextChar();
      match ch
      case 'n' => c := 10;
      case 't' => c := 9;
      case 'v' => c := 11;
      case 'b' => c := 8;
      case 'r' => c := 13;
      case 'f' => c := 12;
      case 'a' => c := 7;
      case 'x' =>
        ch := NextChar();
        var result := EscapeDigits(ch, 16);
        c := result % 0x100;
      case _ =>
        c := 0;
        if 0 <= ch as int - '0' as int < 8 {
          var result := EscapeDigits(ch, 8);
          c := result % 0x100;
        }
    }

    /** `token_proc_string`, into the token buffer. */
    method ProcString()
      requires Valid()
      modifies this`eof, this`position, this`str, this`errno
      ensures Valid()
      ensures var (w, ended, s) := Lexer.ProcString(old(Place()), "");
        str == w && Place() == s && errno == if ended then ERROR_UNEXPECT_END else old(errno)
    {
      ghost var goal := Lexer.ProcString(Place(), "");
      str := "";
      while |str| < STRING_MAX
        invariant Valid() && Lexer.ProcString(Place(), str) == goal && errno == old(errno)
        decreases STRING_MAX - |str|
      {
        var ch := NextChar();
        if eof {
          errno := ERROR_UNEXPECT_END;
          return;
        }
        if ch == '\\' {
          var c := ProcEscape();
          ch := c as char;
        } else if ch == '"' {
          return;
        }
        str := str + [ch];
      }
    }

    /** The characters of a prefixed literal, up to the first that does not belong to it. */
    method ReadWhile(p: char -> bool, first: char) returns (digits: string, ch: char)
      requires Valid() && !p('\0') && (p(first) ==> !eof)
      modifies this`eof, this`position
      ensures Valid() && (digits, ch, Place()) == Lexer.ReadWhile(p, old(Place()), first, "")
    {
      ghost var goal := Lexer.ReadWhile(p, Place(), first, "");
      digits, ch := "", first;
      while p(ch)
        invariant Valid() && Lexer.ReadWhile(p, Place(), ch, digits) == goal
        invariant p(ch) ==> !eof
        decreases Left(Place()), if p(ch) then 1 else 0
      {
        digits := digits + [ch];
        ch := NextChar();
      }
    }

    /** A literal behind its leading zero; the character behind it is returned. */
    method PrefixedNumber() returns (ch: char)
      requires Valid()
      modifies this`eof, this`position, this`value
      ensures Valid() && (value, ch, Place()) == Lexer.Prefixed(old(Place()))
    {
      hide SpecNumber;
      ch := NextChar();
      var digits, b := "", 8;
      if ch == 'x' || ch == 'X' {
        b := 16;
        ch := NextChar();
        digits, ch := ReadWhile(IsAlnum, ch);
      } else if ch == 'b' || ch == 'B' {
        b := 2;
        ch := NextChar();
        digits, ch := ReadWhile(IsBinary, ch);
      } else {
        digits, ch := ReadWhile(IsDigit, ch);
      }
      value := TokenSpecNumber(digits, b);
    }

    /** A decimal literal, its first digit already read. */
    method DecimalNumber(first: char) returns (ch: char)
      requires Valid() && (IsDigit(first) ==> !eof)
      modifies this`eof, this`position, this`value
      ensures Valid()
      ensures var (digits, c, s) := Lexer.ReadWhile(IsDigit, old(Place()), first, "");
        value == Decimal(digits) && ch == c && Place() == s
    {
      ghost var goal := Lexer.ReadWhile(IsDigit, Place(), first, "");
      ghost var digits := "";
      ch := first;
      value := 0;
      while IsDigit(ch)
        invariant Valid() && Lexer.ReadWhile(IsDigit, Place(), ch, digits) == goal
        invariant value == Decimal(digits)
        invariant IsDigit(ch) ==> !eof
        decreases Left(Place()), if IsDigit(ch) then 1 else 0
      {
        value := DecimalStep(value, ch);
        assert (digits + [ch])[..|digits|] == digits;
        digits := digits + [ch];
        ch := NextChar();
      }
    }

    /** `token_proc_number`. */
    method ProcNumber()
      requires Valid()
      modifies this`eof, this`position, this`value, this`current_token
      ensures Valid() && (current_token, value, Place()) == Lexer.ProcNumber(old(Place()))
    {
      hide Prefixed, Decimal;
      var ch := NextChar();
      if ch == '0' {
        ch := PrefixedNumber();
      } else {
        ch := DecimalNumber(ch);
      }
      current_token := TokValueInt;
      if ch == 'l' || ch == 'L' {
        current_token := TokValueLong;
      } else {
        PrevChar();
      }
    }

    // ----- token_run -----

    /** Whether the next character is `second`; it is taken if so. */
    method DoubleChar(second: char) returns (twice: bool)
      requires Valid()
      modifies this`eof, this`position
      ensures Valid() && (twice, Place()) == Lexer.Double(old(Place()), second)
    {
      var ch := NextChar();
      twice := ch == second;
      if !twice {
        PrevChar();
      }
    }

    /** What the lexer now holds is the token `t`. */
    ghost predicate Holds(t: Tok, before: string, err: nat)
      reads this
    {
      && current_token == t.kind
      && str == (if t.kind == TokEof then before else t.str)
      && (t.kind in {TokValueChar, TokValueInt, TokValueLong} ==> value == t.value)
      && errno == if t.err != 0 then t.err else err
    }

    /** A literal, its first character already read. */
    method Literal(ch: char)
      requires Valid() && str == "" && (IsDigit(ch) ==> !eof && position > 0 && line[position - 1] == ch)
      modifies this`eof, this`position, this`current_token, this`value, this`str, this`errno
      ensures Valid()
      ensures Place() == Lexer.Literal(ch, old(Place())).1
      ensures Holds(Lexer.Literal(ch, old(Place())).0, "", old(errno))
    {
      hide Lexer.ProcNumber, Lexer.ProcChar, Lexer.ProcString;
      match ch
      case '\'' =>
        value := ProcChar();
        current_token := TokValueChar;
      case '"' =>
        ProcString();
        current_token := TokValueString;
      case _ =>
        if IsDigit(ch) {
          PrevChar();
          ProcNumber();
        } else {
          errno := ERROR_UNKNOWN_TOKEN;
          current_token := TokBad;
        }
    }

    /** The operators that mean something else when doubled. */
    method DoubledOperator(ch: char) returns (k: TokenKind)
      requires Valid() && ch in "+-<>"
      modifies this`eof, this`position
      ensures Valid() && Place() == Lexer.Double(old(Place()), ch).1
      ensures k == DoubledKind(ch, Lexer.Double(old(Place()), ch).0)
    {
      var twice := DoubleChar(ch);
      k := DoubledKind(ch, twice);
    }

    /** The switch over operator characters. */
    method Operator()
      requires Valid() && str == ""
      modifies this`eof, this`position, this`current_token, this`value, this`str, this`errno
      ensures Valid()
      ensures Place() == Lexer.Operator(old(Place())).1
      ensures Holds(Lexer.Operator(old(Place())).0, "", old(errno))
    {
      hide Lexer.Literal, Lexer.Double, DoubledKind, SingleKind;
      var ch := NextChar();
      var single := SingleKind(ch);
      if single.Some? {
        current_token := single.value;
      } else if ch in "+-<>" {
        current_token := DoubledOperator(ch);
      } else {
        Literal(ch);
      }
    }

    /** A keyword or an identifier. */
    method Name()
      modifies this`current_token
      ensures current_token == if Keyword(str).Some? then Keyword(str).value else TokIdentifier
    {
      hide Keyword;
      var found := MatchName();
      if !found {
        current_token := TokIdentifier;
      }
    }

    /** `token_run`. */
    method TokenRun()
      requires Valid()
      modifies this`eof, this`position, this`current_token, this`value, this`str, this`errno
      ensures Valid()
      ensures Place() == Lexer.TokenRun(old(Place())).1
      ensures Holds(Lexer.TokenRun(old(Place())).0, old(str), old(errno))
    {
      hide Lexer.Operator, Lexer.GetString, Lexer.TrimSpace, Keyword;
      ghost var s1 := Lexer.TrimSpace(Place());
      TrimSpace();
      var _ := GetString();
      WordOrEnd(s1);
      if eof {
        current_token := TokEof;
      } else if str != "" {
        Name();
      } else {
        Operator();
      }
    }
  }

  /** Only the end of the line leaves the token buffer alone. */
  lemma WordOrEnd(s: Lex)
    requires InLine(s)
    ensures var (w, r) := Lexer.GetString(s); (w.None? ==> r.eof) && (r.eof ==> w.None?)
  {
    var (ch, s1) := Lexer.NextChar(s);
    if !s1.eof && !IsDigit(ch) {
      ReadWordEnds(s1, ch, "");
    }
  }

  lemma {:induction false} ReadWordEnds(s: Lex, ch: char, acc: string)
    requires InLine(s)
    ensures !ReadWord(s, ch, acc).1.eof
    decreases Left(s), if s.eof then 0 else 1
  {
    if !IsSeparator(ch) && !s.eof {
      var (ch', s1) := Lexer.NextChar(s);
      ReadWordEnds(s1, ch', acc + [ch]);
    }
  }

  /** Search in the keyword table from an entry on. */
  ghost function KeywordFrom(names: seq<string>, types: seq<TokenKind>, w: string, i: nat): Option<TokenKind>
    requires |names| == |types|
    decreases |names| - i
  {
    if i >= |names| then None
    else if names[i] == w then Some(types[i])
    else KeywordFrom(names, types, w, i + 1)
  }

  lemma KeywordTable(w: string)
    ensures Keyword(w) ==
      KeywordFrom(["void", "char", "short", "int", "long", "unsigned", "NULL", "null"],
                  [TokVoid, TokChar, TokShort, TokInt, TokLong, TokUnsigned, TokValueNull, TokValueNull], w, 0)
  {
  }
}
