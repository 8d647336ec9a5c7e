/** obfuscate/sql_tokenizer.go, obfuscate/sql.go: what a scan depends on, and so what a quoted string can change.

    A scan looks no further than one character past its token. Inputs that agree up to an opening quote are
    therefore cut into the same tokens up to there, and the filters erase what the quotes hold. */
module SqlErasure {
  import opened SqlTokenizer
  import F = SqlFilters

  /** The two cursors stand at the same place, before `x` in one input and before `y` in the other. */
  ghost predicate Near(c: Cursor, d: Cursor, x: string, y: string) {
    c.last == d.last && exists a :: Before(c.rest, a, x) && Before(d.rest, a, y)
  }

  predicate Before(rest: string, a: string, x: string) {
    rest == a + x
  }

  /** The cursor has not moved into `x`. */
  predicate Clear(c: Cursor, x: string) {
    |c.rest| >= |x|
  }

  lemma NearNext(c: Cursor, d: Cursor, x: string, y: string)
    requires Near(c, d, x, y) && Clear(Next(c), x) && x != ""
    ensures Near(Next(c), Next(d), x, y)
  {
    var a :| Before(c.rest, a, x) && Before(d.rest, a, y);
    assert |a| > 0;
    assert c.rest[1..] == a[1..] + x && d.rest[1..] == a[1..] + y;
    assert Before(Next(c).rest, a[1..], x) && Before(Next(d).rest, a[1..], y);
  }

  lemma NearLast(c: Cursor, d: Cursor, x: string, y: string)
    requires Near(c, d, x, y)
    ensures c.last == d.last
  {
  }

  lemma NextRest(c: Cursor)
    ensures |Next(c).rest| <= |c.rest|
  {
  }

  /** The same token, and the cursors behind it at the same place. */
  ghost predicate SameScan(s: Scanned, t: Scanned, x: string, y: string) {
    s.kind == t.kind && s.text == t.text && Near(s.next, t.next, x, y)
  }

  lemma {:induction false} TakeRest(k: Class, c: Cursor)
    ensures |Take(k, c).1.rest| <= |c.rest|
    decreases Size(c)
  {
    EndsEveryClass(k);
    if In(k, c.last) {
      TakeRest(k, Next(c));
    }
  }

  lemma {:induction false} TakeLocal(k: Class, c: Cursor, d: Cursor, x: string, y: string)
    requires Near(c, d, x, y) && x != "" && Clear(Take(k, c).1, x)
    ensures Take(k, c).0 == Take(k, d).0 && Near(Take(k, c).1, Take(k, d).1, x, y)
    decreases Size(c)
  {
    EndsEveryClass(k);
    NearLast(c, d, x, y);
    hide Near;
    if In(k, c.last) {
      TakeRest(k, Next(c));
      NearNext(c, d, x, y);
      TakeLocal(k, Next(c), Next(d), x, y);
    }
  }

  lemma IdentifierLocal(c: Cursor, d: Cursor, x: string, y: string)
    requires Near(c, d, x, y) && x != "" && Clear(ScanIdentifier(c).next, x)
    ensures SameScan(ScanIdentifier(c), ScanIdentifier(d), x, y)
  {
    NearLast(c, d, x, y);
    hide Near, Take, Upper, Keyword;
    TakeRest(Identifier, Next(c));
    NearNext(c, d, x, y);
    TakeLocal(Identifier, Next(c), Next(d), x, y);
  }

  lemma LiteralIdentifierLocal(c: Cursor, d: Cursor, quote: char, x: string, y: string)
    requires Near(c, d, x, y) && x != "" && Clear(ScanLiteralIdentifier(c, quote).next, x)
    ensures SameScan(ScanLiteralIdentifier(c, quote), ScanLiteralIdentifier(d, quote), x, y)
  {
    NearLast(c, d, x, y);
    hide Near, Take, In;
    if IsLetter(c.last) {
      var c1 := Take(Class.Literal, Next(c)).1;
      TakeRest(Class.Literal, Next(c));
      NextRest(c1);
      NearNext(c, d, x, y);
      TakeLocal(Class.Literal, Next(c), Next(d), x, y);
      NearLast(c1, Take(Class.Literal, Next(d)).1, x, y);
      if c1.last == quote {
        NearNext(c1, Take(Class.Literal, Next(d)).1, x, y);
      }
    }
  }

  lemma VariableIdentifierLocal(c: Cursor, d: Cursor, prefix: char, x: string, y: string)
    requires Near(c, d, x, y) && x != "" && Clear(ScanVariableIdentifier(c, prefix).next, x)
    ensures SameScan(ScanVariableIdentifier(c, prefix), ScanVariableIdentifier(d, prefix), x, y)
  {
    NearLast(c, d, x, y);
    hide Near, Take, In;
    var k := UpTo(')');
    var c1, d1 := Take(k, Next(c)).1, Take(k, Next(d)).1;
    TakeRest(k, Next(c));
    NextRest(c1);
    NextRest(Next(c1));
    NearNext(c, d, x, y);
    TakeLocal(k, Next(c), Next(d), x, y);
    NearLast(c1, d1, x, y);
    NearNext(c1, d1, x, y);
    NearLast(Next(c1), Next(d1), x, y);
    if IsLetter(Next(c1).last) {
      NearNext(Next(c1), Next(d1), x, y);
    }
  }

  lemma FormatParameterLocal(c: Cursor, d: Cursor, prefix: char, x: string, y: string)
    requires Near(c, d, x, y) && x != "" && Clear(ScanFormatParameter(c, prefix).next, x)
    ensures SameScan(ScanFormatParameter(c, prefix), ScanFormatParameter(d, prefix), x, y)
  {
    NearLast(c, d, x, y);
    hide Near;
    if IsLetter(c.last) {
      NearNext(c, d, x, y);
    }
  }

  lemma ExponentLocal(c: Cursor, d: Cursor, text: string, x: string, y: string)
    requires Near(c, d, x, y) && x != "" && Clear(ScanExponent(c, text).next, x)
    ensures SameScan(ScanExponent(c, text), ScanExponent(d, text), x, y)
  {
    NearLast(c, d, x, y);
    hide Near, Take, In;
    if c.last == 'e' || c.last == 'E' {
      var c1, d1 := Next(c), Next(d);
      TakeRest(Digits(10), Next(c1));
      TakeRest(Digits(10), c1);
      NextRest(c1);
      NearNext(c, d, x, y);
      NearLast(c1, d1, x, y);
      if c1.last == '+' || c1.last == '-' {
        NearNext(c1, d1, x, y);
        TakeLocal(Digits(10), Next(c1), Next(d1), x, y);
      } else {
        TakeLocal(Digits(10), c1, d1, x, y);
      }
    }
  }

  lemma ExponentRest(c: Cursor, text: string)
    ensures |ScanExponent(c, text).next.rest| <= |c.rest|
  {
    hide Take;
    TakeRest(Digits(10), Next(Next(c)));
    TakeRest(Digits(10), Next(c));
  }

  lemma FractionLocal(c: Cursor, d: Cursor, text: string, x: string, y: string)
    requires Near(c, d, x, y) && x != "" && Clear(ScanFraction(c, text).next, x)
    ensures SameScan(ScanFraction(c, text), ScanFraction(d, text), x, y)
  {
    NearLast(c, d, x, y);
    hide Near, Take, In, ScanExponent, SameScan;
    if c.last == '.' {
      var (s, c1) := Take(Digits(10), Next(c));
      ExponentRest(c1, text + [c.last] + s);
      TakeRest(Digits(10), Next(c));
      NearNext(c, d, x, y);
      TakeLocal(Digits(10), Next(c), Next(d), x, y);
      ExponentLocal(c1, Take(Digits(10), Next(d)).1, text + [c.last] + s, x, y);
    } else {
      ExponentLocal(c, d, text, x, y);
    }
  }

  lemma FractionRest(c: Cursor, text: string)
    ensures |ScanFraction(c, text).next.rest| <= |c.rest|
  {
    hide Take, ScanExponent;
    var (s, c1) := Take(Digits(10), Next(c));
    TakeRest(Digits(10), Next(c));
    ExponentRest(c1, text + [c.last] + s);
    ExponentRest(c, text);
  }

  lemma PointLocal(c: Cursor, d: Cursor, x: string, y: string)
    requires Near(c, d, x, y) && x != "" && Clear(ScanPointNumber(c).next, x)
    ensures SameScan(ScanPointNumber(c), ScanPointNumber(d), x, y)
  {
    hide Near, Take, ScanExponent, SameScan;
    var (s, c1) := Take(Digits(10), c);
    ExponentRest(c1, "." + s);
    TakeLocal(Digits(10), c, d, x, y);
    ExponentLocal(c1, Take(Digits(10), d).1, "." + s, x, y);
  }

  lemma ZeroLocal(c: Cursor, d: Cursor, zero: string, x: string, y: string)
    requires Near(c, d, x, y) && x != "" && Clear(ScanZero(c, zero).next, x)
    ensures SameScan(ScanZero(c, zero), ScanZero(d, zero), x, y)
  {
    NearLast(c, d, x, y);
    hide Near, Take, In, ScanFraction;
    if c.last == 'x' || c.last == 'X' {
      TakeRest(Digits(16), Next(c));
      NearNext(c, d, x, y);
      TakeLocal(Digits(16), Next(c), Next(d), x, y);
    } else {
      var (s, c1) := Take(Digits(8), c);
      var d1 := Take(Digits(8), d).1;
      var nine := c1.last == '8' || c1.last == '9';
      var c2 := if nine then Take(Digits(10), c1).1 else c1;
      var text := if nine then zero + s + Take(Digits(10), c1).0 else zero + s;
      FractionRest(c2, text);
      TakeRest(Digits(10), c1);
      TakeLocal(Digits(8), c, d, x, y);
      NearLast(c1, d1, x, y);
      if nine {
        TakeLocal(Digits(10), c1, d1, x, y);
      }
      var d2 := if nine then Take(Digits(10), d1).1 else d1;
      NearLast(c2, d2, x, y);
      if c2.last == '.' || c2.last == 'e' || c2.last == 'E' {
        FractionLocal(c2, d2, text, x, y);
      }
    }
  }

  lemma ZeroRest(c: Cursor, zero: string)
    ensures |ScanZero(c, zero).next.rest| <= |c.rest|
  {
    hide Take, ScanFraction;
    TakeRest(Digits(16), Next(c));
    var (s, c1) := Take(Digits(8), c);
    TakeRest(Digits(8), c);
    TakeRest(Digits(10), c1);
    FractionRest(c1, zero + s);
    FractionRest(Take(Digits(10), c1).1, zero + s + Take(Digits(10), c1).0);
  }

  lemma NumberLocal(c: Cursor, d: Cursor, x: string, y: string)
    requires Near(c, d, x, y) && x != "" && Clear(ScanNumber(c).next, x)
    ensures SameScan(ScanNumber(c), ScanNumber(d), x, y)
  {
    NearLast(c, d, x, y);
    hide Near, Take, In, ScanFraction, ScanZero, SameScan;
    if c.last == '0' {
      ZeroRest(Next(c), "" + [c.last]);
      NearNext(c, d, x, y);
      ZeroLocal(Next(c), Next(d), "" + [c.last], x, y);
    } else {
      var (s, c1) := Take(Digits(10), c);
      FractionRest(c1, "" + s);
      TakeLocal(Digits(10), c, d, x, y);
      FractionLocal(c1, Take(Digits(10), d).1, "" + s, x, y);
    }
  }

  lemma PreparedLocal(c: Cursor, d: Cursor, prefix: char, x: string, y: string)
    requires Near(c, d, x, y) && x != "" && Clear(ScanPreparedStatement(c, prefix).next, x)
    ensures SameScan(ScanPreparedStatement(c, prefix), ScanPreparedStatement(d, prefix), x, y)
  {
    NearLast(c, d, x, y);
    hide Near, ScanNumber;
    if IsDigit(c.last) {
      NumberLocal(c, d, x, y);
    }
  }

  lemma EscapeLocal(c: Cursor, d: Cursor, brace: char, x: string, y: string)
    requires Near(c, d, x, y) && x != "" && Clear(ScanEscapeSequence(c, brace).next, x)
    ensures SameScan(ScanEscapeSequence(c, brace), ScanEscapeSequence(d, brace), x, y)
  {
    hide Near, Take, In;
    var k := UpTo('}');
    var c1, d1 := Take(k, c).1, Take(k, d).1;
    NextRest(c1);
    TakeLocal(k, c, d, x, y);
    NearLast(c1, d1, x, y);
    if c1.last != EOF_CHAR {
      NearNext(c1, d1, x, y);
    }
  }

  lemma BindVarLocal(c: Cursor, d: Cursor, x: string, y: string)
    requires Near(c, d, x, y) && x != "" && Clear(ScanBindVar(c).next, x)
    ensures SameScan(ScanBindVar(c), ScanBindVar(d), x, y)
  {
    NearLast(c, d, x, y);
    hide Near, Take, In;
    TakeRest(BindName, c);
    TakeRest(BindName, Next(c));
    if c.last == ':' {
      NearNext(c, d, x, y);
      NearLast(Next(c), Next(d), x, y);
      if IsLetter(Next(c).last) {
        TakeLocal(BindName, Next(c), Next(d), x, y);
      }
    } else if IsLetter(c.last) {
      TakeLocal(BindName, c, d, x, y);
    }
  }

  lemma {:induction false} StringRest(c: Cursor, delim: char, text: string)
    requires delim != EOF_CHAR
    ensures |ScanString(c, delim, text).next.rest| <= |Next(c).rest|
    decreases Size(c)
  {
    var c1 := Next(c);
    if c.last == delim {
      if c1.last == delim { StringRest(Next(c1), delim, text + [c.last]); }
    } else if c.last == '\\' {
      if c1.last != EOF_CHAR { StringRest(Next(c1), delim, text + [c1.last]); }
    } else if c.last != EOF_CHAR {
      StringRest(c1, delim, text + [c.last]);
    }
  }

  lemma {:induction false} StringLocal(c: Cursor, d: Cursor, delim: char, text: string, x: string, y: string)
    requires delim != EOF_CHAR && Near(c, d, x, y) && x != "" && Clear(ScanString(c, delim, text).next, x)
    ensures SameScan(ScanString(c, delim, text), ScanString(d, delim, text), x, y)
    decreases Size(c)
  {
    var c1, d1 := Next(c), Next(d);
    NearLast(c, d, x, y);
    StringRest(c, delim, text);
    NearNext(c, d, x, y);
    NearLast(c1, d1, x, y);
    hide Near;
    if c.last == delim {
      if c1.last == delim {
        StringRest(Next(c1), delim, text + [c.last]);
        NearNext(c1, d1, x, y);
        StringLocal(Next(c1), Next(d1), delim, text + [c.last], x, y);
      }
    } else if c.last == '\\' {
      if c1.last != EOF_CHAR {
        StringRest(Next(c1), delim, text + [c1.last]);
        NearNext(c1, d1, x, y);
        StringLocal(Next(c1), Next(d1), delim, text + [c1.last], x, y);
      }
    } else if c.last != EOF_CHAR {
      StringLocal(c1, d1, delim, text + [c.last], x, y);
    }
  }

  lemma CommentType1Local(c: Cursor, d: Cursor, prefix: string, x: string, y: string)
    requires Near(c, d, x, y) && x != "" && Clear(ScanCommentType1(c, prefix).next, x)
    ensures SameScan(ScanCommentType1(c, prefix), ScanCommentType1(d, prefix), x, y)
  {
    hide Near, Take, In;
    var k := UpTo('\n');
    var c1, d1 := Take(k, c).1, Take(k, d).1;
    NextRest(c1);
    TakeLocal(k, c, d, x, y);
    NearLast(c1, d1, x, y);
    if c1.last != EOF_CHAR {
      NearNext(c1, d1, x, y);
    }
  }

  lemma {:induction false} CommentType2Rest(c: Cursor, text: string)
    ensures |ScanCommentType2(c, text).next.rest| <= |c.rest|
    decreases Size(c)
  {
    var c1 := Next(c);
    if c.last == '*' {
      if c1.last != '/' { CommentType2Rest(c1, text + [c.last]); }
    } else if c.last != EOF_CHAR {
      CommentType2Rest(c1, text + [c.last]);
    }
  }

  lemma {:induction false} CommentType2Local(c: Cursor, d: Cursor, text: string, x: string, y: string)
    requires Near(c, d, x, y) && x != "" && Clear(ScanCommentType2(c, text).next, x)
    ensures SameScan(ScanCommentType2(c, text), ScanCommentType2(d, text), x, y)
    decreases Size(c)
  {
    var c1, d1 := Next(c), Next(d);
    NearLast(c, d, x, y);
    NextRest(c1);
    hide Near;
    if c.last == '*' {
      CommentType2Rest(c1, text + [c.last]);
      NearNext(c, d, x, y);
      NearLast(c1, d1, x, y);
      if c1.last == '/' {
        NearNext(c1, d1, x, y);
      } else {
        CommentType2Local(c1, d1, text + [c.last], x, y);
      }
    } else if c.last != EOF_CHAR {
      CommentType2Rest(c1, text + [c.last]);
      NearNext(c, d, x, y);
      CommentType2Local(c1, d1, text + [c.last], x, y);
    }
  }

  // ---------------------------------------------------------------- a whole scan

  lemma NumberRest(c: Cursor)
    ensures |ScanNumber(c).next.rest| <= |c.rest|
  {
    hide Take, ScanFraction, ScanZero;
    ZeroRest(Next(c), "" + [c.last]);
    var (s, c1) := Take(Digits(10), c);
    TakeRest(Digits(10), c);
    FractionRest(c1, "" + s);
  }

  lemma PointRest(c: Cursor)
    ensures |ScanPointNumber(c).next.rest| <= |c.rest|
  {
    hide Take, ScanExponent;
    var (s, c1) := Take(Digits(10), c);
    TakeRest(Digits(10), c);
    ExponentRest(c1, "." + s);
  }

  lemma IdentifiersRest(c: Cursor, quote: char, prefix: char)
    ensures |ScanIdentifier(c).next.rest| <= |c.rest|
    ensures |ScanLiteralIdentifier(c, quote).next.rest| <= |c.rest|
    ensures |ScanVariableIdentifier(c, prefix).next.rest| <= |c.rest|
    ensures |ScanFormatParameter(c, prefix).next.rest| <= |c.rest|
  {
    hide Take;
    TakeRest(Identifier, Next(c));
    TakeRest(Class.Literal, Next(c));
    TakeRest(UpTo(')'), Next(c));
  }

  lemma VariablesRest(c: Cursor, prefix: char)
    ensures |ScanPreparedStatement(c, prefix).next.rest| <= |c.rest|
    ensures |ScanEscapeSequence(c, prefix).next.rest| <= |c.rest|
    ensures |ScanBindVar(c).next.rest| <= |c.rest|
    ensures |ScanCommentType1(c, [prefix]).next.rest| <= |c.rest|
  {
    hide Take, ScanNumber;
    NumberRest(c);
    TakeRest(UpTo('}'), c);
    TakeRest(BindName, c);
    TakeRest(BindName, Next(c));
    TakeRest(UpTo('\n'), c);
  }

  lemma CommentType1Rest(c: Cursor, prefix: string)
    ensures |ScanCommentType1(c, prefix).next.rest| <= |c.rest|
  {
    hide Take;
    TakeRest(UpTo('\n'), c);
  }

  lemma SymbolRest(ch: char, c: Cursor)
    ensures |ScanSymbol(ch, c).next.rest| <= |c.rest|
  {
    hide ScanString, ScanLiteralIdentifier, ScanVariableIdentifier, ScanFormatParameter, ScanPreparedStatement,
      ScanEscapeSequence, ScanBindVar, ScanPointNumber, ScanCommentType1, ScanCommentType2, ScanIdentifier;
    if ch == '\'' {
      StringRest(c, ch, "");
    }
    NextRest(c);
    NextRest(Next(c));
    IdentifiersRest(c, ch, ch);
    VariablesRest(c, ch);
    PointRest(c);
    CommentType1Rest(Next(c), "//");
    CommentType1Rest(Next(c), "--");
    CommentType1Rest(Next(c), "#");
    CommentType2Rest(Next(c), "/*");
  }

  /** The symbols that have a scan of their own. */
  lemma SymbolScans(ch: char, c: Cursor)
    ensures ch == '\'' ==> ScanSymbol(ch, c) == ScanString(c, ch, "")
    ensures ch == '`' || ch == '"' ==> ScanSymbol(ch, c) == ScanLiteralIdentifier(c, ch)
    ensures ch == '%' && c.last == '(' ==> ScanSymbol(ch, c) == ScanVariableIdentifier(c, ch)
    ensures ch == '%' && c.last != '(' ==> ScanSymbol(ch, c) == ScanFormatParameter(c, ch)
    ensures ch == '$' ==> ScanSymbol(ch, c) == ScanPreparedStatement(c, ch)
    ensures ch == '{' ==> ScanSymbol(ch, c) == ScanEscapeSequence(c, ch)
    ensures ch == ':' && c.last != '=' ==> ScanSymbol(ch, c) == ScanBindVar(c)
    ensures ch == '.' && IsDigit(c.last) ==> ScanSymbol(ch, c) == ScanPointNumber(c)
    ensures ch == '#' ==> ScanSymbol(ch, c) == ScanCommentType1(Next(c), "#")
  {
    hide ScanString, ScanLiteralIdentifier, ScanVariableIdentifier, ScanFormatParameter, ScanPreparedStatement,
      ScanEscapeSequence, ScanBindVar, ScanPointNumber, ScanCommentType1, ScanCommentType2;
  }

  lemma SymbolLocal(ch: char, c: Cursor, d: Cursor, x: string, y: string)
    requires Near(c, d, x, y) && x != "" && Clear(ScanSymbol(ch, c).next, x)
    ensures SameScan(ScanSymbol(ch, c), ScanSymbol(ch, d), x, y)
  {
    NearLast(c, d, x, y);
    SymbolScans(ch, c);
    SymbolScans(ch, d);
    hide Near, SameScan, ScanSymbol, ScanString, ScanLiteralIdentifier, ScanVariableIdentifier, ScanFormatParameter,
      ScanPreparedStatement, ScanEscapeSequence, ScanBindVar, ScanPointNumber, ScanCommentType1;
    if ch == '\'' {
      StringLocal(c, d, ch, "", x, y);
    } else if ch == '`' || ch == '"' {
      LiteralIdentifierLocal(c, d, ch, x, y);
    } else if ch == '%' {
      if c.last == '(' {
        VariableIdentifierLocal(c, d, ch, x, y);
      } else {
        FormatParameterLocal(c, d, ch, x, y);
      }
    } else if ch == '$' {
      PreparedLocal(c, d, ch, x, y);
    } else if ch == '{' {
      EscapeLocal(c, d, ch, x, y);
    } else if ch == ':' && c.last != '=' {
      BindVarLocal(c, d, x, y);
    } else if ch == '.' && IsDigit(c.last) {
      PointLocal(c, d, x, y);
    } else if ch == '#' {
      CommentType1Rest(Next(c), "#");
      NearNext(c, d, x, y);
      CommentType1Local(Next(c), Next(d), "#", x, y);
    } else {
      SymbolIsOperator(ch, c);
      SymbolIsOperator(ch, d);
      OperatorLocal(ch, c, d, x, y);
    }
  }

  /** The other symbols: comments, operators of two or three characters, and single characters. */
  function Operator(ch: char, c: Cursor): Scanned {
    if ch == '/' && c.last == '/' then ScanCommentType1(Next(c), "//")
    else if ch == '/' && c.last == '*' then ScanCommentType2(Next(c), "/*")
    else if ch == '-' && c.last == '-' then ScanCommentType1(Next(c), "--")
    else if ch == '<' && c.last == '>' then Scanned(NE, "<>", Next(c))
    else if ch == '<' && c.last == '=' then
      if Next(c).last == '>' then Scanned(NullSafeEqual, "<=>", Next(Next(c))) else Scanned(LE, "<=", Next(c))
    else if ch == '>' && c.last == '=' then Scanned(GE, ">=", Next(c))
    else if ch == '!' && c.last == '=' then Scanned(NE, "!=", Next(c))
    else Scanned(if ch == EOF_CHAR then EOF else if SingleChar(ch) || ch in [':', '.', '/', '-', '<', '>'] then Char(ch) else LexError,
                 if ch == EOF_CHAR then "" else [ch], c)
  }

  predicate HasOwnScan(ch: char, c: Cursor) {
    ch in ['\'', '`', '"', '%', '$', '{', '#'] || (ch == ':' && c.last != '=') || (ch == '.' && IsDigit(c.last))
  }

  lemma SymbolIsOperator(ch: char, c: Cursor)
    requires !HasOwnScan(ch, c)
    ensures ScanSymbol(ch, c) == Operator(ch, c)
  {
    hide ScanCommentType1, ScanCommentType2;
  }

  lemma OperatorLocal(ch: char, c: Cursor, d: Cursor, x: string, y: string)
    requires Near(c, d, x, y) && x != "" && Clear(Operator(ch, c).next, x)
    ensures SameScan(Operator(ch, c), Operator(ch, d), x, y)
  {
    NearLast(c, d, x, y);
    hide Near, ScanCommentType1, ScanCommentType2, SingleChar;
    CommentType1Rest(Next(c), "//");
    CommentType1Rest(Next(c), "--");
    CommentType2Rest(Next(c), "/*");
    NextRest(Next(c));
    if Clear(Next(c), x) {
      NearNext(c, d, x, y);
      NearLast(Next(c), Next(d), x, y);
    }
    if ch == '/' && c.last == '/' {
      CommentType1Local(Next(c), Next(d), "//", x, y);
    } else if ch == '/' && c.last == '*' {
      CommentType2Local(Next(c), Next(d), "/*", x, y);
    } else if ch == '-' && c.last == '-' {
      CommentType1Local(Next(c), Next(d), "--", x, y);
    } else if ch == '<' && c.last == '=' && Next(c).last == '>' {
      NearNext(Next(c), Next(d), x, y);
    }
  }

  lemma StartLocal(c: Cursor, d: Cursor, x: string, y: string)
    requires Near(c, d, x, y) && x != "" && Clear(Start(c), x)
    ensures Near(Start(c), Start(d), x, y)
  {
    NearLast(c, d, x, y);
    hide Near, Take;
    if c.last == NUL {
      TakeRest(Blank, Next(c));
      NearNext(c, d, x, y);
      TakeLocal(Blank, Next(c), Next(d), x, y);
    } else {
      TakeLocal(Blank, c, d, x, y);
    }
  }

  lemma ScanRest(c: Cursor)
    ensures |Start(c).rest| <= |c.rest| && |Scan(c).next.rest| <= |Start(c).rest|
  {
    hide ScanIdentifier, ScanNumber, ScanSymbol, Take;
    TakeRest(Blank, c);
    TakeRest(Blank, Next(c));
    var c0 := Start(c);
    IdentifiersRest(c0, '`', '%');
    NumberRest(c0);
    SymbolRest(c0.last, Next(c0));
  }

  /** A scan looks no further than one character past its token: it does not depend on what comes then. */
  lemma ScanLocal(c: Cursor, d: Cursor, x: string, y: string)
    requires Near(c, d, x, y) && x != "" && Clear(Scan(c).next, x)
    ensures SameScan(Scan(c), Scan(d), x, y)
  {
    ScanRest(c);
    StartLocal(c, d, x, y);
    var c0, d0 := Start(c), Start(d);
    NearLast(c0, d0, x, y);
    hide Near, ScanIdentifier, ScanNumber, ScanSymbol, Start, SameScan;
    if IsLeadingLetter(c0.last) {
      IdentifierLocal(c0, d0, x, y);
    } else if IsDigit(c0.last) {
      NumberLocal(c0, d0, x, y);
    } else {
      SymbolRest(c0.last, Next(c0));
      NearNext(c0, d0, x, y);
      SymbolLocal(c0.last, Next(c0), Next(d0), x, y);
    }
  }

  // ---------------------------------------------------------------- up to an opening quote

  /** Scanning token by token from `c`, without an error, comes to `e`. */
  ghost predicate Reaches(c: Cursor, e: Cursor)
    decreases Size(c)
  {
    ScanConsumes(c);
    Start(c) == e || (Scan(c).kind != EOF && Scan(c).kind != LexError && Reaches(Scan(c).next, e))
  }

  lemma {:induction false} ReachesRest(c: Cursor, e: Cursor)
    requires Reaches(c, e)
    ensures |e.rest| <= |c.rest|
    decreases Size(c)
  {
    hide Scan, Start;
    ScanConsumes(c);
    ScanRest(c);
    if Start(c) != e {
      ReachesRest(Scan(c).next, e);
    }
  }

  lemma AtTheQuote(c: Cursor, d: Cursor, x: string, y: string)
    requires Near(c, d, x, y) && x != "" && Start(c) == Cursor('\'', x)
    ensures Start(d) == Cursor('\'', y)
  {
    StartLocal(c, d, x, y);
    hide Start;
    var c0, d0 := Start(c), Start(d);
    var a :| Before(c0.rest, a, x) && Before(d0.rest, a, y);
    assert |a| == 0;
    assert d0.rest == y;
  }

  /** Whether the scans come to the quote depends on the input before it only. */
  lemma {:induction false} ReachesSame(c: Cursor, d: Cursor, x: string, y: string)
    requires Near(c, d, x, y) && x != "" && Reaches(c, Cursor('\'', x))
    ensures Reaches(d, Cursor('\'', y))
    decreases Size(c)
  {
    hide Scan, Start, Near;
    ScanConsumes(c);
    if Start(c) == Cursor('\'', x) {
      AtTheQuote(c, d, x, y);
    } else {
      ReachesRest(Scan(c).next, Cursor('\'', x));
      ScanLocal(c, d, x, y);
      ReachesSame(Scan(c).next, Scan(d).next, x, y);
      ScanConsumes(d);
    }
  }

  lemma ScanAtQuote(c: Cursor, x: string)
    requires Start(c) == Cursor('\'', x)
    ensures Scan(c) == Scan(Cursor('\'', x))
  {
  }

  lemma TokensAtQuote(c: Cursor, x: string)
    requires Start(c) == Cursor('\'', x)
    ensures F.Tokens(c) == F.Tokens(Cursor('\'', x))
  {
    ScanAtQuote(c, x);
    hide Scan, Start;
  }

  /** A quoted string behind the opening quote, and the rest of the input. */
  function Body(s: string, post: string): string {
    F.Quoted(s) + "'" + post
  }

  lemma {:induction false} QuoteErased(st: F.State, c: Cursor, d: Cursor, s: string, s': string, post: string)
    requires F.Bytes(s) && F.Bytes(s') && (post == [] || post[0] != '\'')
    requires Near(c, d, Body(s, post), Body(s', post)) && Reaches(c, Cursor('\'', Body(s, post)))
    ensures F.Consume(st, F.Tokens(c)) == F.Consume(st, F.Tokens(d))
    decreases Size(c)
  {
    var x, y := Body(s, post), Body(s', post);
    hide Scan, Start, Near, F.Tokens, F.Consume, F.Step;
    ScanConsumes(c);
    if Start(c) == Cursor('\'', x) {
      AtTheQuote(c, d, x, y);
      TokensAtQuote(c, x);
      TokensAtQuote(d, y);
      F.StringIsErased(st, s, s', post);
    } else {
      ReachesRest(Scan(c).next, Cursor('\'', x));
      ScanLocal(c, d, x, y);
      F.ConsumeNext(st, c);
      F.ConsumeNext(st, d);
      QuoteErased(F.Step(st, F.Lexeme(Scan(c).kind, Scan(c).text)), Scan(c).next, Scan(d).next, s, s', post);
    }
  }

  /** Whatever stands before it, what a quoted string holds changes nothing: neither whether the scans come to its
      quote, nor the result. */
  lemma QuotedTextIsErased(last: char, before: string, s: string, s': string, post: string, lastToken: Kind, groups: F.Groups)
    requires F.Bytes(s) && F.Bytes(s') && (post == [] || post[0] != '\'')
    ensures var c, d := Cursor(last, before + "'" + Body(s, post)), Cursor(last, before + "'" + Body(s', post));
            var x, y := Cursor('\'', Body(s, post)), Cursor('\'', Body(s', post));
            && (Reaches(c, x) <==> Reaches(d, y))
            && (Reaches(c, x) ==> F.Quantize(c, lastToken, groups) == F.Quantize(d, lastToken, groups))
  {
    var x, y := Body(s, post), Body(s', post);
    var c, d := Cursor(last, before + "'" + x), Cursor(last, before + "'" + y);
    assert Before(c.rest, before + "'", x) && Before(d.rest, before + "'", y);
    assert Near(c, d, x, y) && Near(d, c, y, x);
    if Reaches(c, Cursor('\'', x)) {
      ReachesSame(c, d, x, y);
      QuoteErased(F.State("", lastToken, groups), c, d, s, s', post);
    }
    if Reaches(d, Cursor('\'', y)) {
      ReachesSame(d, c, y, x);
    }
  }
}
