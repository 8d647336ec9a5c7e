/** obfuscate/sql_tokenizer.go: the tokenizer for SQL and CQL.

    Bytes are characters below `EOF_CHAR`. A `Cursor` is what the tokenizer reads from: its one character of
    lookahead and the bytes still unread. The functions say which token each scan finds and where it leaves
    the cursor; the class makes the scans by advancing its fields. */
module SqlTokenizer {

  const EOF_CHAR: char := '\U{0100}'

  const NUL: char := '\0'

  datatype Kind =
    | EOF | LexError | ID | Limit | Null | String | Number | BooleanLiteral | ValueArg | ListArg | Comment
    | Variable | Savepoint | PreparedStatement | EscapeSequence | NullSafeEqual | LE | GE | NE | As
    | Filtered | FilteredComma
    | Char(c: char)

  datatype Cursor = Cursor(last: char, rest: string)

  datatype Scanned = Scanned(kind: Kind, text: string, next: Cursor)

  /** The number of characters not yet consumed, the lookahead included. */
  function Size(c: Cursor): nat {
    |c.rest| + if c.last == EOF_CHAR then 0 else 1
  }

  function Next(c: Cursor): (n: Cursor)
    ensures c.last != EOF_CHAR ==> Size(n) < Size(c)
    ensures Size(n) <= Size(c)
  {
    if c.rest == [] then Cursor(EOF_CHAR, []) else Cursor(c.rest[0], c.rest[1..])
  }

  // ---------------------------------------------------------------- character classes

  predicate IsLeadingLetter(c: char) {
    'a' <= c <= 'z' || 'A' <= c <= 'Z' || c == '_' || c == '@'
  }

  predicate IsLetter(c: char) {
    IsLeadingLetter(c) || c == '#'
  }

  predicate IsDigit(c: char) {
    '0' <= c <= '9'
  }

  function DigitVal(c: char): int {
    if '0' <= c <= '9' then c as int - '0' as int
    else if 'a' <= c <= 'f' then c as int - 'a' as int + 10
    else if 'A' <= c <= 'F' then c as int - 'A' as int + 10
    else 16
  }

  /** The classes of characters the scanning loops run over; none contains the end of the input. */
  datatype Class = Blank | Identifier | Literal | BindName | Digits(base: int) | UpTo(stop: char)

  predicate In(k: Class, c: char) {
    match k
    case Blank => c == ' ' || c == '\n' || c == '\r' || c == '\t'
    case Identifier => IsLetter(c) || IsDigit(c) || c == '.' || c == '*'
    case Literal => IsLetter(c) || IsDigit(c) || c == '.' || c == '-'
    case BindName => IsLetter(c) || IsDigit(c) || c == '.'
    case Digits(base) => base <= 16 && DigitVal(c) < base
    case UpTo(stop) => c != stop && c != EOF_CHAR
  }

  lemma EndsEveryClass(k: Class)
    ensures !In(k, EOF_CHAR)
  {
  }

  function Upper(s: string): string {
    if s == "" then "" else Upper(s[..|s| - 1]) + [UpperChar(s[|s| - 1])]
  }

  function UpperChar(c: char): char {
    if 'a' <= c <= 'z' then (c as int - 'a' as int + 'A' as int) as char else c
  }

  function Keyword(upper: string): Kind {
    if upper == "NULL" then Null
    else if upper == "TRUE" || upper == "FALSE" then BooleanLiteral
    else if upper == "SAVEPOINT" then Savepoint
    else if upper == "LIMIT" then Limit
    else if upper == "AS" then As
    else ID
  }

  function ByteOf(c: char): char {
    if c == EOF_CHAR then NUL else c
  }

  // ---------------------------------------------------------------- the tokens

  /** The characters of a class at the cursor. */
  function Take(k: Class, c: Cursor): (r: (string, Cursor))
    ensures Size(r.1) <= Size(c) && !In(k, r.1.last)
    decreases Size(c)
  {
    if In(k, c.last) then
      EndsEveryClass(k);
      var (s, c') := Take(k, Next(c));
      ([c.last] + s, c')
    else ("", c)
  }

  function ScanIdentifier(c: Cursor): Scanned {
    var (s, c') := Take(Identifier, Next(c));
    var text := [c.last] + s;
    var kind := Keyword(Upper(text));
    Scanned(kind, if kind == ID then text else Upper(text), c')
  }

  function ScanLiteralIdentifier(c: Cursor, quote: char): Scanned {
    if !IsLetter(c.last) then Scanned(LexError, [ByteOf(c.last)], c)
    else
      var (s, c') := Take(Literal, Next(c));
      if c'.last != quote then Scanned(LexError, [c.last] + s, c')
      else Scanned(ID, [c.last] + s, Next(c'))
  }

  /** With the lookahead on the opening parenthesis. */
  function ScanVariableIdentifier(c: Cursor, prefix: char): Scanned {
    var (s, c1) := Take(UpTo(')'), Next(c));
    var c2 := Next(c1);
    var text := [prefix, c.last] + s + [ByteOf(c1.last), ByteOf(c2.last)];
    if !IsLetter(c2.last) then Scanned(LexError, text, c2) else Scanned(Variable, text, Next(c2))
  }

  function ScanFormatParameter(c: Cursor, prefix: char): Scanned {
    var text := [prefix, ByteOf(c.last)];
    if !IsLetter(c.last) then Scanned(LexError, text, c) else Scanned(Variable, text, Next(c))
  }

  function ScanPreparedStatement(c: Cursor, prefix: char): Scanned {
    if !IsDigit(c.last) then Scanned(LexError, "", c)
    else
      var n := ScanNumber(c);
      if n.kind == LexError then Scanned(LexError, "", n.next)
      else Scanned(PreparedStatement, [prefix] + n.text, n.next)
  }

  function ScanEscapeSequence(c: Cursor, brace: char): Scanned {
    var (s, c') := Take(UpTo('}'), c);
    if c'.last == EOF_CHAR then Scanned(LexError, [brace] + s, c')
    else Scanned(EscapeSequence, [brace] + s + [c'.last], Next(c'))
  }

  function ScanBindVar(c: Cursor): Scanned {
    var list := c.last == ':';
    var start, c1 := if list then "::" else ":", if list then Next(c) else c;
    if !IsLetter(c1.last) then Scanned(LexError, start, c1)
    else
      var (s, c2) := Take(BindName, c1);
      Scanned(if list then ListArg else ValueArg, start + s, c2)
  }

  /** A number that does not start with a decimal point. */
  function ScanNumber(c: Cursor): Scanned {
    if c.last == '0' then ScanZero(Next(c), "" + [c.last])
    else
      var (s, c1) := Take(Digits(10), c);
      ScanFraction(c1, "" + s)
  }

  /** What follows a leading zero: hexadecimal or octal digits, or the rest of a decimal number. */
  function ScanZero(c: Cursor, zero: string): Scanned {
    if c.last == 'x' || c.last == 'X' then
      var (s, c1) := Take(Digits(16), Next(c));
      Scanned(Number, zero + [c.last] + s, c1)
    else
      var (s, c1) := Take(Digits(8), c);
      var nine := c1.last == '8' || c1.last == '9';
      var c2 := if nine then Take(Digits(10), c1).1 else c1;
      var text := if nine then zero + s + Take(Digits(10), c1).0 else zero + s;
      if c2.last == '.' || c2.last == 'e' || c2.last == 'E' then ScanFraction(c2, text)
      else Scanned(if nine then LexError else Number, text, c2)
  }

  function ScanFraction(c: Cursor, text: string): Scanned {
    if c.last == '.' then
      var (s, c') := Take(Digits(10), Next(c));
      ScanExponent(c', text + [c.last] + s)
    else ScanExponent(c, text)
  }

  function ScanExponent(c: Cursor, text: string): Scanned {
    if c.last == 'e' || c.last == 'E' then
      var c1 := Next(c);
      var sign := c1.last == '+' || c1.last == '-';
      var (s, c2) := Take(Digits(10), if sign then Next(c1) else c1);
      Scanned(Number, text + [c.last] + (if sign then [c1.last] else []) + s, c2)
    else Scanned(Number, text, c)
  }

  /** A number whose decimal point has been consumed. */
  function ScanPointNumber(c: Cursor): Scanned {
    var (s, c') := Take(Digits(10), c);
    ScanExponent(c', "." + s)
  }

  /** The rest of a string after `text`: a doubled delimiter stands for itself, a backslash for what follows. */
  function ScanString(c: Cursor, delim: char, text: string): Scanned
    requires delim != EOF_CHAR
    decreases Size(c)
  {
    var c1 := Next(c);
    if c.last == delim then
      if c1.last == delim then ScanString(Next(c1), delim, text + [c.last]) else Scanned(String, text, c1)
    else if c.last == '\\' then
      if c1.last == EOF_CHAR then Scanned(LexError, text, c1) else ScanString(Next(c1), delim, text + [c1.last])
    else if c.last == EOF_CHAR then Scanned(LexError, text, c1)
    else ScanString(c1, delim, text + [c.last])
  }

  /** A comment to the end of the line. */
  function ScanCommentType1(c: Cursor, prefix: string): Scanned {
    var (s, c') := Take(UpTo('\n'), c);
    if c'.last == EOF_CHAR then Scanned(Comment, prefix + s, c') else Scanned(Comment, prefix + s + [c'.last], Next(c'))
  }

  /** The rest of a comment between slash-star and star-slash, after `text`. */
  function ScanCommentType2(c: Cursor, text: string): Scanned
    decreases Size(c)
  {
    if c.last == '*' then
      var c1 := Next(c);
      if c1.last == '/' then Scanned(Comment, text + [c.last, c1.last], Next(c1))
      else ScanCommentType2(c1, text + [c.last])
    else if c.last == EOF_CHAR then Scanned(LexError, text, c)
    else ScanCommentType2(Next(c), text + [c.last])
  }

  predicate SingleChar(c: char) {
    c in "=,;()+*&|^~[]?"
  }

  /** The token that starts with `ch`, neither a letter nor a digit; the cursor is past `ch`. */
  function ScanSymbol(ch: char, c: Cursor): Scanned {
    var self := Scanned(Char(ch), [ch], c);
    if ch == EOF_CHAR then Scanned(EOF, "", c)
    else if ch == ':' && c.last != '=' then ScanBindVar(c)
    else if ch == ':' || SingleChar(ch) then self
    else if ch == '.' then (if IsDigit(c.last) then ScanPointNumber(c) else self)
    else if ch == '/' then
      if c.last == '/' then ScanCommentType1(Next(c), "//")
      else if c.last == '*' then ScanCommentType2(Next(c), "/*")
      else self
    else if ch == '-' then (if c.last == '-' then ScanCommentType1(Next(c), "--") else self)
    else if ch == '#' then ScanCommentType1(Next(c), "#")
    else if ch == '<' then
      if c.last == '>' then Scanned(NE, "<>", Next(c))
      else if c.last == '=' then
        if Next(c).last == '>' then Scanned(NullSafeEqual, "<=>", Next(Next(c))) else Scanned(LE, "<=", Next(c))
      else self
    else if ch == '>' then (if c.last == '=' then Scanned(GE, ">=", Next(c)) else self)
    else if ch == '!' then (if c.last == '=' then Scanned(NE, "!=", Next(c)) else Scanned(LexError, "!", c))
    else if ch == '\'' then ScanString(c, ch, "")
    else if ch == '`' || ch == '"' then ScanLiteralIdentifier(c, ch)
    else if ch == '%' then (if c.last == '(' then ScanVariableIdentifier(c, ch) else ScanFormatParameter(c, ch))
    else if ch == '$' then ScanPreparedStatement(c, ch)
    else if ch == '{' then ScanEscapeSequence(c, ch)
    else Scanned(LexError, [ch], c)
  }

  function Start(c: Cursor): Cursor {
    Take(Blank, if c.last == NUL then Next(c) else c).1
  }

  function Scan(c: Cursor): Scanned {
    var c0 := Start(c);
    if IsLeadingLetter(c0.last) then ScanIdentifier(c0)
    else if IsDigit(c0.last) then ScanNumber(c0)
    else ScanSymbol(c0.last, Next(c0))
  }

  // ---------------------------------------------------------------- progress

  lemma {:induction false} StringConsumes(c: Cursor, delim: char, text: string)
    requires delim != EOF_CHAR
    ensures Size(ScanString(c, delim, text).next) <= Size(c)
    decreases Size(c)
  {
    var c1 := Next(c);
    if c.last == delim {
      if c1.last == delim { StringConsumes(Next(c1), delim, text + [c.last]); }
    } else if c.last == '\\' {
      if c1.last != EOF_CHAR { StringConsumes(Next(c1), delim, text + [c1.last]); }
    } else if c.last != EOF_CHAR {
      StringConsumes(c1, delim, text + [c.last]);
    }
  }

  lemma {:induction false} CommentConsumes(c: Cursor, text: string)
    ensures Size(ScanCommentType2(c, text).next) <= Size(c)
    decreases Size(c)
  {
    if c.last == '*' {
      if Next(c).last != '/' { CommentConsumes(Next(c), text + [c.last]); }
    } else if c.last != EOF_CHAR {
      CommentConsumes(Next(c), text + [c.last]);
    }
  }

  lemma NumberConsumes(c: Cursor)
    ensures Size(ScanNumber(c).next) <= Size(c)
    ensures IsDigit(c.last) ==> Size(ScanNumber(c).next) < Size(c)
  {
    hide Size;
    if c.last != '0' {
      assert IsDigit(c.last) ==> In(Digits(10), c.last);
    }
  }

  lemma SymbolConsumes(ch: char, c: Cursor)
    ensures Size(ScanSymbol(ch, c).next) <= Size(c)
  {
    hide Size, Take;
    if ch == '\'' { StringConsumes(c, ch, ""); }
    CommentConsumes(Next(c), "/*");
    NumberConsumes(c);
  }

  lemma {:induction false} NeverEnds(c: Cursor, delim: char, text: string)
    requires delim != EOF_CHAR
    ensures ScanString(c, delim, text).kind == String || ScanString(c, delim, text).kind == LexError
    decreases Size(c)
  {
    var c1 := Next(c);
    if c.last == delim {
      if c1.last == delim { NeverEnds(Next(c1), delim, text + [c.last]); }
    } else if c.last == '\\' {
      if c1.last != EOF_CHAR { NeverEnds(Next(c1), delim, text + [c1.last]); }
    } else if c.last != EOF_CHAR {
      NeverEnds(c1, delim, text + [c.last]);
    }
  }

  lemma {:induction false} CommentNeverEnds(c: Cursor, text: string)
    ensures ScanCommentType2(c, text).kind == Comment || ScanCommentType2(c, text).kind == LexError
    decreases Size(c)
  {
    if c.last == '*' {
      if Next(c).last != '/' { CommentNeverEnds(Next(c), text + [c.last]); }
    } else if c.last != EOF_CHAR {
      CommentNeverEnds(Next(c), text + [c.last]);
    }
  }

  lemma OnlyTheEndEnds(ch: char, c: Cursor)
    ensures ScanSymbol(ch, c).kind == EOF <==> ch == EOF_CHAR
  {
    hide Size, Take;
    if ch == '\'' { NeverEnds(c, ch, ""); }
    CommentNeverEnds(Next(c), "/*");
  }

  /** A scan reports the end exactly when nothing but blanks is left before it, and any other token, errors
      included, consumes input. */
  lemma ScanConsumes(c: Cursor)
    ensures Scan(c).kind == EOF <==> Start(c).last == EOF_CHAR
    ensures Scan(c).kind != EOF ==> Size(Scan(c).next) < Size(c)
  {
    hide Take, ScanSymbol;
    var c0 := Start(c);
    assert Size(c0) <= Size(c);
    if !IsLeadingLetter(c0.last) && !IsDigit(c0.last) {
      SymbolConsumes(c0.last, Next(c0));
      OnlyTheEndEnds(c0.last, Next(c0));
    } else if !IsLeadingLetter(c0.last) {
      NumberConsumes(c0);
    }
  }

  // ---------------------------------------------------------------- tokens are verbatim

  /** What is left to read. */
  function Left(c: Cursor): string {
    if c.last == EOF_CHAR then [] else [c.last] + c.rest
  }

  /** A cursor over bytes: the end comes last. */
  predicate OverBytes(c: Cursor) {
    EOF_CHAR !in c.rest && (c.last == EOF_CHAR ==> c.rest == [])
  }

  lemma NextLeft(c: Cursor)
    requires OverBytes(c)
    ensures OverBytes(Next(c)) && (c.last != EOF_CHAR ==> Left(c) == [c.last] + Left(Next(c)))
  {
    if c.rest != [] {
      assert c.rest[0] in c.rest && c.rest == [c.rest[0]] + c.rest[1..];
    }
  }

  /** The token's text is what has been consumed. */
  predicate Verbatim(text: string, c: Cursor, next: Cursor) {
    OverBytes(next) && Left(c) == text + Left(next)
  }

  lemma VerbatimSteps(s: string, t: string, c: Cursor, mid: Cursor, next: Cursor)
    requires Verbatim(s, c, mid) && Verbatim(t, mid, next)
    ensures Verbatim(s + t, c, next)
  {
    assert s + t + Left(next) == s + (t + Left(next));
  }

  lemma VerbatimNext(c: Cursor)
    requires OverBytes(c)
    ensures c.last != EOF_CHAR ==> Verbatim([c.last], c, Next(c))
  {
    NextLeft(c);
  }

  lemma {:induction false} TakeVerbatim(k: Class, c: Cursor)
    requires OverBytes(c)
    ensures Verbatim(Take(k, c).0, c, Take(k, c).1)
    decreases Size(c)
  {
    EndsEveryClass(k);
    if In(k, c.last) {
      NextLeft(c);
      TakeVerbatim(k, Next(c));
      VerbatimNext(c);
      VerbatimSteps([c.last], Take(k, Next(c)).0, c, Next(c), Take(k, Next(c)).1);
    }
  }

  /** One character and then a run of a class. */
  lemma HeadVerbatim(k: Class, c: Cursor)
    requires OverBytes(c) && c.last != EOF_CHAR
    ensures Verbatim([c.last] + Take(k, Next(c)).0, c, Take(k, Next(c)).1)
  {
    NextLeft(c);
    VerbatimNext(c);
    TakeVerbatim(k, Next(c));
    VerbatimSteps([c.last], Take(k, Next(c)).0, c, Next(c), Take(k, Next(c)).1);
  }

  lemma ExponentVerbatim(c0: Cursor, text: string, c: Cursor)
    requires OverBytes(c) && Verbatim(text, c0, c)
    ensures Verbatim(ScanExponent(c, text).text, c0, ScanExponent(c, text).next)
  {
    hide Verbatim, Take;
    if c.last == 'e' || c.last == 'E' {
      var c1 := Next(c);
      NextLeft(c);
      VerbatimNext(c);
      VerbatimSteps(text, [c.last], c0, c, c1);
      if c1.last == '+' || c1.last == '-' {
        HeadVerbatim(Digits(10), c1);
        var s := Take(Digits(10), Next(c1)).0;
        VerbatimSteps(text + [c.last], [c1.last] + s, c0, c1, Take(Digits(10), Next(c1)).1);
        assert text + [c.last] + ([c1.last] + s) == text + [c.last] + [c1.last] + s;
      } else {
        TakeVerbatim(Digits(10), c1);
        VerbatimSteps(text + [c.last], Take(Digits(10), c1).0, c0, c1, Take(Digits(10), c1).1);
        assert text + [c.last] + [] == text + [c.last];
      }
    }
  }

  lemma FractionVerbatim(c0: Cursor, text: string, c: Cursor)
    requires OverBytes(c) && Verbatim(text, c0, c)
    ensures Verbatim(ScanFraction(c, text).text, c0, ScanFraction(c, text).next)
  {
    hide Verbatim, Take, ScanExponent;
    if c.last == '.' {
      HeadVerbatim(Digits(10), c);
      var s, c' := Take(Digits(10), Next(c)).0, Take(Digits(10), Next(c)).1;
      VerbatimSteps(text, [c.last] + s, c0, c, c');
      assert text + ([c.last] + s) == text + [c.last] + s;
      VerbatimOver(text + [c.last] + s, c0, c');
      ExponentVerbatim(c0, text + [c.last] + s, c');
    } else {
      ExponentVerbatim(c0, text, c);
    }
  }

  lemma VerbatimOver(text: string, c: Cursor, next: Cursor)
    requires Verbatim(text, c, next)
    ensures OverBytes(next)
  {
  }

  lemma ZeroVerbatim(c0: Cursor, zero: string, c: Cursor)
    requires OverBytes(c) && Verbatim(zero, c0, c)
    ensures Verbatim(ScanZero(c, zero).text, c0, ScanZero(c, zero).next)
  {
    hide Verbatim, Take, ScanFraction;
    if c.last == 'x' || c.last == 'X' {
      HeadVerbatim(Digits(16), c);
      var s, c1 := Take(Digits(16), Next(c)).0, Take(Digits(16), Next(c)).1;
      VerbatimSteps(zero, [c.last] + s, c0, c, c1);
      assert zero + ([c.last] + s) == zero + [c.last] + s;
    } else {
      TakeVerbatim(Digits(8), c);
      var s, c1 := Take(Digits(8), c).0, Take(Digits(8), c).1;
      VerbatimSteps(zero, s, c0, c, c1);
      VerbatimOver(zero + s, c0, c1);
      TakeVerbatim(Digits(10), c1);
      VerbatimSteps(zero + s, Take(Digits(10), c1).0, c0, c1, Take(Digits(10), c1).1);
      VerbatimOver(zero + s + Take(Digits(10), c1).0, c0, Take(Digits(10), c1).1);
      var nine := c1.last == '8' || c1.last == '9';
      if nine {
        FractionVerbatim(c0, zero + s + Take(Digits(10), c1).0, Take(Digits(10), c1).1);
      } else {
        FractionVerbatim(c0, zero + s, c1);
      }
    }
  }

  /** A number's text is exactly the input consumed, in whatever form the number is. */
  lemma NumberVerbatim(c: Cursor)
    requires OverBytes(c)
    ensures Verbatim(ScanNumber(c).text, c, ScanNumber(c).next)
  {
    hide Verbatim, Take, ScanZero, ScanFraction;
    if c.last == '0' {
      NextLeft(c);
      VerbatimNext(c);
      assert "" + [c.last] == [c.last];
      ZeroVerbatim(c, "" + [c.last], Next(c));
    } else {
      TakeVerbatim(Digits(10), c);
      var s, c1 := Take(Digits(10), c).0, Take(Digits(10), c).1;
      assert "" + s == s;
      VerbatimOver(s, c, c1);
      FractionVerbatim(c, "" + s, c1);
    }
  }

  lemma {:induction false} BlockCommentVerbatim(c0: Cursor, text: string, c: Cursor)
    requires OverBytes(c) && Verbatim(text, c0, c)
    ensures Verbatim(ScanCommentType2(c, text).text, c0, ScanCommentType2(c, text).next)
    decreases Size(c)
  {
    hide Verbatim;
    if c.last != EOF_CHAR {
      var c1 := Next(c);
      NextLeft(c);
      VerbatimNext(c);
      VerbatimSteps(text, [c.last], c0, c, c1);
      if c.last == '*' && c1.last == '/' {
        NextLeft(c1);
        VerbatimNext(c1);
        VerbatimSteps(text + [c.last], [c1.last], c0, c1, Next(c1));
        assert text + [c.last] + [c1.last] == text + [c.last, c1.last];
      } else {
        BlockCommentVerbatim(c0, text + [c.last], c1);
      }
    }
  }

  lemma LineCommentVerbatim(c0: Cursor, prefix: string, c: Cursor)
    requires OverBytes(c) && Verbatim(prefix, c0, c)
    ensures Verbatim(ScanCommentType1(c, prefix).text, c0, ScanCommentType1(c, prefix).next)
  {
    hide Verbatim, Take;
    TakeVerbatim(UpTo('\n'), c);
    var s, c' := Take(UpTo('\n'), c).0, Take(UpTo('\n'), c).1;
    VerbatimSteps(prefix, s, c0, c, c');
    VerbatimOver(s, c, c');
    if c'.last != EOF_CHAR {
      VerbatimNext(c');
      VerbatimSteps(prefix + s, [c'.last], c0, c', Next(c'));
    }
  }

  lemma BindVarVerbatim(c0: Cursor, c: Cursor)
    requires OverBytes(c) && Verbatim(":", c0, c)
    ensures Verbatim(ScanBindVar(c).text, c0, ScanBindVar(c).next)
  {
    hide Verbatim, Take;
    var list := c.last == ':';
    var start, c1 := if list then "::" else ":", if list then Next(c) else c;
    if list {
      NextLeft(c);
      VerbatimNext(c);
      VerbatimSteps(":", [c.last], c0, c, c1);
      assert ":" + [c.last] == "::";
    }
    TakeVerbatim(BindName, c1);
    VerbatimSteps(start, Take(BindName, c1).0, c0, c1, Take(BindName, c1).1);
  }

  lemma EscapeVerbatim(c0: Cursor, c: Cursor)
    requires OverBytes(c) && Verbatim("{", c0, c) && ScanEscapeSequence(c, '{').kind != LexError
    ensures Verbatim(ScanEscapeSequence(c, '{').text, c0, ScanEscapeSequence(c, '{').next)
  {
    hide Verbatim, Take;
    TakeVerbatim(UpTo('}'), c);
    var s, c' := Take(UpTo('}'), c).0, Take(UpTo('}'), c).1;
    VerbatimSteps("{", s, c0, c, c');
    VerbatimOver(s, c, c');
    VerbatimNext(c');
    VerbatimSteps("{" + s, [c'.last], c0, c', Next(c'));
    assert ['{'] + s == "{" + s;
  }

  lemma VariableVerbatim(c0: Cursor, c: Cursor)
    requires OverBytes(c) && Verbatim("%", c0, c)
    ensures c.last == '(' && ScanVariableIdentifier(c, '%').kind != LexError ==>
              Verbatim(ScanVariableIdentifier(c, '%').text, c0, ScanVariableIdentifier(c, '%').next)
    ensures ScanFormatParameter(c, '%').kind != LexError ==>
              Verbatim(ScanFormatParameter(c, '%').text, c0, ScanFormatParameter(c, '%').next)
  {
    hide Verbatim, Take;
    if c.last != EOF_CHAR {
      NextLeft(c);
      VerbatimNext(c);
      VerbatimSteps("%", [c.last], c0, c, Next(c));
      assert "%" + [c.last] == ['%', c.last];
    }
    if c.last == '(' {
      HeadVerbatim(UpTo(')'), c);
      var s, c1 := Take(UpTo(')'), Next(c)).0, Take(UpTo(')'), Next(c)).1;
      VerbatimSteps("%", [c.last] + s, c0, c, c1);
      VerbatimOver([c.last] + s, c, c1);
      NextLeft(c1);
      var c2 := Next(c1);
      if IsLetter(c2.last) {
        assert c1.last != EOF_CHAR;
        VerbatimNext(c1);
        VerbatimSteps("%" + ([c.last] + s), [c1.last], c0, c1, c2);
        VerbatimNext(c2);
        VerbatimSteps("%" + ([c.last] + s) + [c1.last], [c2.last], c0, c2, Next(c2));
        assert "%" + ([c.last] + s) + [c1.last] + [c2.last] == ['%', c.last] + s + [c1.last, c2.last];
      }
    }
  }

  lemma PreparedVerbatim(c0: Cursor, c: Cursor)
    requires OverBytes(c) && Verbatim("$", c0, c) && ScanPreparedStatement(c, '$').kind != LexError
    ensures Verbatim(ScanPreparedStatement(c, '$').text, c0, ScanPreparedStatement(c, '$').next)
  {
    hide Verbatim, ScanNumber;
    NumberVerbatim(c);
    VerbatimSteps("$", ScanNumber(c).text, c0, c, ScanNumber(c).next);
    assert "$" + ScanNumber(c).text == ['$'] + ScanNumber(c).text;
  }

  /** The first two or three characters. */
  lemma FirstVerbatim(c0: Cursor)
    requires OverBytes(c0) && c0.last != EOF_CHAR
    ensures var c := Next(c0);
            && Verbatim([c0.last], c0, c) && OverBytes(c) && OverBytes(Next(c))
            && (c.last != EOF_CHAR ==> Verbatim([c0.last, c.last], c0, Next(c)))
            && (c.last != EOF_CHAR && Next(c).last != EOF_CHAR ==> Verbatim([c0.last, c.last, Next(c).last], c0, Next(Next(c))))
  {
    hide Verbatim;
    var ch, c := c0.last, Next(c0);
    NextLeft(c0);
    VerbatimNext(c0);
    NextLeft(c);
    if c.last != EOF_CHAR {
      VerbatimNext(c);
      VerbatimSteps([ch], [c.last], c0, c, Next(c));
      assert [ch] + [c.last] == [ch, c.last];
      if Next(c).last != EOF_CHAR {
        VerbatimNext(Next(c));
        VerbatimSteps([ch, c.last], [Next(c).last], c0, Next(c), Next(Next(c)));
        assert [ch, c.last] + [Next(c).last] == [ch, c.last, Next(c).last];
      }
    }
  }

  /** Tokens that are neither quoted nor a hash comment. */
  lemma SymbolVerbatim(c0: Cursor)
    requires OverBytes(c0) && c0.last != EOF_CHAR && c0.last !in "'`\"#"
    requires ScanSymbol(c0.last, Next(c0)).kind != LexError
    ensures Verbatim(ScanSymbol(c0.last, Next(c0)).text, c0, ScanSymbol(c0.last, Next(c0)).next)
  {
    hide Verbatim, Take, ScanCommentType1, ScanCommentType2, ScanBindVar, ScanPointNumber, ScanVariableIdentifier,
      ScanFormatParameter, ScanPreparedStatement, ScanEscapeSequence, ScanString, ScanLiteralIdentifier, Left, Size,
      OverBytes, IsDigit;
    var ch, c := c0.last, Next(c0);
    FirstVerbatim(c0);
    if ch == ':' && c.last != '=' {
      BindVarVerbatim(c0, c);
    } else if ch == '.' && IsDigit(c.last) {
      PointVerbatim(c0, c);
    } else if ch == '/' && c.last == '/' {
      LineCommentVerbatim(c0, "//", Next(c));
    } else if ch == '/' && c.last == '*' {
      BlockCommentVerbatim(c0, "/*", Next(c));
    } else if ch == '-' && c.last == '-' {
      LineCommentVerbatim(c0, "--", Next(c));
    } else if ch == '%' {
      VariableVerbatim(c0, c);
    } else if ch == '$' {
      PreparedVerbatim(c0, c);
    } else if ch == '{' {
      EscapeVerbatim(c0, c);
    }
  }

  lemma PointVerbatim(c0: Cursor, c: Cursor)
    requires OverBytes(c) && Verbatim(".", c0, c)
    ensures Verbatim(ScanPointNumber(c).text, c0, ScanPointNumber(c).next)
  {
    hide Verbatim, Take, ScanExponent;
    TakeVerbatim(Digits(10), c);
    var s, c' := Take(Digits(10), c).0, Take(Digits(10), c).1;
    VerbatimSteps(".", s, c0, c, c');
    VerbatimOver(s, c, c');
    ExponentVerbatim(c0, "." + s, c');
  }

  /** Every token that is not quoted, not a hash comment and not an error is exactly the input consumed for it,
      except that keywords are put in upper case. */
  lemma ScanVerbatim(c: Cursor) returns (consumed: string)
    requires OverBytes(c) && Start(c).last !in "'`\"#" && Scan(c).kind != LexError && Scan(c).kind != EOF
    ensures Verbatim(consumed, Start(c), Scan(c).next)
    ensures Scan(c).text == consumed || (IsLeadingLetter(Start(c).last) && Scan(c).text == Upper(consumed))
  {
    hide Verbatim, Take, ScanSymbol, ScanNumber, Upper;
    var c0 := Start(c);
    NextLeft(c);
    TakeVerbatim(Blank, if c.last == NUL then Next(c) else c);
    VerbatimOver(Take(Blank, if c.last == NUL then Next(c) else c).0, if c.last == NUL then Next(c) else c, c0);
    consumed := Scan(c).text;
    if IsLeadingLetter(c0.last) {
      HeadVerbatim(Identifier, c0);
      consumed := [c0.last] + Take(Identifier, Next(c0)).0;
    } else if IsDigit(c0.last) {
      NumberVerbatim(c0);
    } else {
      OnlyTheEndEnds(c0.last, Next(c0));
      SymbolVerbatim(c0);
    }
  }

  /** A hash comment swallows one more character: the one after the hash is in no token. */
  lemma HashCommentSkipsOne(c0: Cursor) returns (rest: string)
    requires OverBytes(c0) && c0.last == '#' && Next(c0).last != EOF_CHAR
    ensures Left(c0) == ['#', Next(c0).last] + Left(Next(Next(c0)))
    ensures ScanSymbol('#', Next(c0)).text == "#" + rest
    ensures Verbatim(rest, Next(Next(c0)), ScanSymbol('#', Next(c0)).next)
  {
    hide Take, ScanCommentType1, Verbatim;
    var c2 := Next(Next(c0));
    NextLeft(c0);
    NextLeft(Next(c0));
    VerbatimNothing(c2);
    LineCommentVerbatim(c2, "", c2);
    PrefixOnly(c2);
    rest := ScanCommentType1(c2, "").text;
    assert ['#'] + ([Next(c0).last] + Left(c2)) == ['#', Next(c0).last] + Left(c2);
  }

  lemma VerbatimNothing(c: Cursor)
    requires OverBytes(c)
    ensures Verbatim("", c, c)
  {
  }

  lemma PrefixOnly(c: Cursor)
    ensures ScanCommentType1(c, "#").next == ScanCommentType1(c, "").next
    ensures ScanCommentType1(c, "#").text == "#" + ScanCommentType1(c, "").text
  {
    hide Take;
    var s, c' := Take(UpTo('\n'), c).0, Take(UpTo('\n'), c).1;
    assert "" + s == s && "#" + s + [c'.last] == "#" + (s + [c'.last]);
  }

  // ---------------------------------------------------------------- the tokenizer

  lemma TakeStep(k: Class, c: Cursor, buffer: string)
    ensures !In(k, c.last) ==> Take(k, c) == ("", c)
    ensures In(k, c.last) ==> c.last != EOF_CHAR && Take(k, c).1 == Take(k, Next(c)).1
    ensures In(k, c.last) ==> buffer + Take(k, c).0 == buffer + [c.last] + Take(k, Next(c)).0
  {
    EndsEveryClass(k);
    if In(k, c.last) {
      assert buffer + ([c.last] + Take(k, Next(c)).0) == buffer + [c.last] + Take(k, Next(c)).0;
    }
  }

  /** The position has moved by the characters taken from the stream; at the end of the input, where advancing takes
      nothing more, by at least those. */
  ghost predicate Tracks(before: int, c0: Cursor, position: int, c: Cursor) {
    && |c.rest| <= |c0.rest|
    && (if AtEnd(c) then position - before >= |c0.rest| else position - before == |c0.rest| - |c.rest|)
    && (AtEnd(c0) ==> AtEnd(c))
  }

  predicate AtEnd(c: Cursor) {
    c.last == EOF_CHAR && c.rest == []
  }

  class Tokenizer {
    var inStream: string
    var position: int
    var lastChar: char

    constructor (sql: string)
      ensures View() == Cursor(NUL, sql) && position == 0
    {
      inStream, position, lastChar := sql, 0, NUL;
    }

    ghost function View(): Cursor
      reads this
    {
      Cursor(lastChar, inStream)
    }

    method Reset()
      modifies this
      ensures View() == Cursor(NUL, []) && position == 0
    {
      inStream, position, lastChar := [], 0, NUL;
    }

    method Advance()
      modifies this
      ensures Tracks(old(position), old(View()), position, View())
      ensures View() == Next(old(View())) && position == old(position) + 1
    {
      if |inStream| == 0 {
        lastChar := EOF_CHAR;
      } else {
        lastChar, inStream := inStream[0], inStream[1..];
      }
      position := position + 1;
    }

    /** Its panic at the end of the input is unreachable: no caller meets it there. */
    method ConsumeNext(buffer: string) returns (buffer': string)
      requires lastChar != EOF_CHAR
      modifies this
      ensures Tracks(old(position), old(View()), position, View())
      ensures buffer' == buffer + [old(lastChar)] && View() == Next(old(View()))
    {
      buffer' := buffer + [lastChar];
      Advance();
    }

    /** The loop `while the next character is in the class, consume it`. */
    method Consume(k: Class, buffer: string) returns (buffer': string)
      modifies this
      ensures Tracks(old(position), old(View()), position, View())
      ensures buffer' == buffer + Take(k, old(View())).0 && View() == Take(k, old(View())).1
    {
      hide Take, In;
      buffer' := buffer;
      TakeStep(k, View(), buffer');
      while In(k, lastChar)
        invariant Tracks(old(position), old(View()), position, View())
        invariant buffer' + Take(k, View()).0 == buffer + Take(k, old(View())).0
        invariant Take(k, View()).1 == Take(k, old(View())).1
        decreases Size(View())
      {
        TakeStep(k, View(), buffer');
        buffer' := ConsumeNext(buffer');
      }
      TakeStep(k, View(), buffer');
    }

    method ScanIdentifierToken() returns (kind: Kind, text: string)
      requires IsLeadingLetter(lastChar)
      modifies this
      ensures Tracks(old(position), old(View()), position, View())
      ensures Scanned(kind, text, View()) == ScanIdentifier(old(View()))
    {
      hide Take, Upper;
      text := [lastChar];
      Advance();
      text := Consume(Identifier, text);
      kind := Keyword(Upper(text));
      if kind != ID {
        text := Upper(text);
      }
    }

    method ScanLiteralIdentifierToken(quote: char) returns (kind: Kind, text: string)
      modifies this
      ensures Tracks(old(position), old(View()), position, View())
      ensures Scanned(kind, text, View()) == ScanLiteralIdentifier(old(View()), quote)
    {
      hide Take;
      text := [ByteOf(lastChar)];
      if !IsLetter(lastChar) {
        return LexError, text;
      }
      Advance();
      text := Consume(Literal, text);
      if lastChar != quote {
        return LexError, text;
      }
      Advance();
      return ID, text;
    }

    method ScanVariableIdentifierToken(prefix: char) returns (kind: Kind, text: string)
      requires lastChar == '('
      modifies this
      ensures Tracks(old(position), old(View()), position, View())
      ensures Scanned(kind, text, View()) == ScanVariableIdentifier(old(View()), prefix)
    {
      hide Take;
      ghost var c := View();
      text := [prefix] + [ByteOf(lastChar)];
      Advance();
      text := Consume(UpTo(')'), text);
      text := text + [ByteOf(lastChar)];
      Advance();
      text := text + [ByteOf(lastChar)];
      var ok := IsLetter(lastChar);
      if ok {
        Advance();
      }
      kind := if ok then Variable else LexError;
    }

    method ScanFormatParameterToken(prefix: char) returns (kind: Kind, text: string)
      modifies this
      ensures Tracks(old(position), old(View()), position, View())
      ensures Scanned(kind, text, View()) == ScanFormatParameter(old(View()), prefix)
    {
      text := [prefix] + [ByteOf(lastChar)];
      if !IsLetter(lastChar) {
        return LexError, text;
      }
      Advance();
      return Variable, text;
    }

    method ScanPreparedStatementToken(prefix: char) returns (kind: Kind, text: string)
      modifies this
      ensures Tracks(old(position), old(View()), position, View())
      ensures Scanned(kind, text, View()) == ScanPreparedStatement(old(View()), prefix)
    {
      if !IsDigit(lastChar) {
        return LexError, "";
      }
      kind, text := ScanNumberToken(false);
      if kind == LexError {
        return LexError, "";
      }
      return PreparedStatement, [prefix] + text;
    }

    method ScanEscapeSequenceToken(brace: char) returns (kind: Kind, text: string)
      modifies this
      ensures Tracks(old(position), old(View()), position, View())
      ensures Scanned(kind, text, View()) == ScanEscapeSequence(old(View()), brace)
    {
      hide Take;
      text := Consume(UpTo('}'), [brace]);
      if lastChar == EOF_CHAR {
        return LexError, text;
      }
      text := ConsumeNext(text);
      return EscapeSequence, text;
    }

    method ScanBindVarToken() returns (kind: Kind, text: string)
      modifies this
      ensures Tracks(old(position), old(View()), position, View())
      ensures Scanned(kind, text, View()) == ScanBindVar(old(View()))
    {
      hide Take;
      text := ":";
      kind := ValueArg;
      if lastChar == ':' {
        kind := ListArg;
        text := ConsumeNext(text);
      }
      if !IsLetter(lastChar) {
        return LexError, text;
      }
      text := Consume(BindName, text);
    }

    method ScanMantissa(base: int, buffer: string) returns (buffer': string)
      requires base <= 16
      modifies this
      ensures Tracks(old(position), old(View()), position, View())
      ensures buffer' == buffer + Take(Digits(base), old(View())).0 && View() == Take(Digits(base), old(View())).1
    {
      hide Take;
      buffer' := buffer;
      TakeStep(Digits(base), View(), buffer');
      while DigitVal(lastChar) < base
        invariant Tracks(old(position), old(View()), position, View())
        invariant buffer' + Take(Digits(base), View()).0 == buffer + Take(Digits(base), old(View())).0
        invariant Take(Digits(base), View()).1 == Take(Digits(base), old(View())).1
        decreases Size(View())
      {
        TakeStep(Digits(base), View(), buffer');
        buffer' := ConsumeNext(buffer');
      }
      TakeStep(Digits(base), View(), buffer');
    }

    method ScanNumberToken(seenDecimalPoint: bool) returns (kind: Kind, text: string)
      requires seenDecimalPoint || IsDigit(lastChar)
      modifies this
      ensures Tracks(old(position), old(View()), position, View())
      ensures Scanned(kind, text, View()) ==
              if seenDecimalPoint then ScanPointNumber(old(View())) else ScanNumber(old(View()))
    {
      hide Take, ScanExponent, ScanFraction, ScanZero;
      text := "";
      kind := Number;
      if seenDecimalPoint {
        text := ScanMantissa(10, ".");
        text := ScanExponentPart(text);
      } else if lastChar == '0' {
        text := ConsumeNext(text);
        kind, text := ScanZeroPart(text);
      } else {
        text := ScanMantissa(10, text);
        text := ScanFractionPart(text);
      }
    }

    method ScanZeroPart(buffer: string) returns (kind: Kind, text: string)
      modifies this
      ensures Tracks(old(position), old(View()), position, View())
      ensures Scanned(kind, text, View()) == ScanZero(old(View()), buffer)
    {
      hide Take, ScanFraction;
      text := buffer;
      kind := Number;
      if lastChar == 'x' || lastChar == 'X' {
        text := ConsumeNext(text);
        text := ScanMantissa(16, text);
        return;
      }
      var seenDecimalDigit := false;
      text := ScanMantissa(8, text);
      if lastChar == '8' || lastChar == '9' {
        seenDecimalDigit := true;
        text := ScanMantissa(10, text);
      }
      if lastChar == '.' || lastChar == 'e' || lastChar == 'E' {
        text := ScanFractionPart(text);
        return;
      }
      if seenDecimalDigit {
        return LexError, text;
      }
    }

    method ScanFractionPart(buffer: string) returns (text: string)
      modifies this
      ensures Tracks(old(position), old(View()), position, View())
      ensures Scanned(Number, text, View()) == ScanFraction(old(View()), buffer)
    {
      hide Take;
      text := buffer;
      if lastChar == '.' {
        text := ConsumeNext(text);
        text := ScanMantissa(10, text);
      }
      text := ScanExponentPart(text);
    }

    method ScanExponentPart(buffer: string) returns (text: string)
      modifies this
      ensures Tracks(old(position), old(View()), position, View())
      ensures Scanned(Number, text, View()) == ScanExponent(old(View()), buffer)
    {
      hide Take;
      text := buffer;
      if lastChar == 'e' || lastChar == 'E' {
        text := ConsumeNext(text);
        if lastChar == '+' || lastChar == '-' {
          text := ConsumeNext(text);
        }
        text := ScanMantissa(10, text);
      }
    }

    method ScanStringToken(delim: char) returns (kind: Kind, text: string)
      requires delim != EOF_CHAR
      modifies this
      ensures Tracks(old(position), old(View()), position, View())
      ensures Scanned(kind, text, View()) == ScanString(old(View()), delim, "")
    {
      text := "";
      while true
        invariant Tracks(old(position), old(View()), position, View())
        invariant ScanString(View(), delim, text) == ScanString(old(View()), delim, "")
        decreases Size(View())
      {
        var ch := lastChar;
        Advance();
        if ch == delim {
          if lastChar == delim {
            Advance();
          } else {
            break;
          }
        } else if ch == '\\' {
          if lastChar == EOF_CHAR {
            return LexError, text;
          }
          ch := lastChar;
          Advance();
        }
        if ch == EOF_CHAR {
          return LexError, text;
        }
        text := text + [ch];
      }
      kind := String;
    }

    method ScanCommentType1Token(prefix: string) returns (kind: Kind, text: string)
      modifies this
      ensures Tracks(old(position), old(View()), position, View())
      ensures Scanned(kind, text, View()) == ScanCommentType1(old(View()), prefix)
    {
      hide Take;
      text := Consume(UpTo('\n'), prefix);
      if lastChar != EOF_CHAR {
        text := ConsumeNext(text);
      }
      kind := Comment;
    }

    method ScanCommentType2Token() returns (kind: Kind, text: string)
      modifies this
      ensures Tracks(old(position), old(View()), position, View())
      ensures Scanned(kind, text, View()) == ScanCommentType2(old(View()), "/*")
    {
      text := "/*";
      while true
        invariant Tracks(old(position), old(View()), position, View())
        invariant ScanCommentType2(View(), text) == ScanCommentType2(old(View()), "/*")
        decreases Size(View())
      {
        if lastChar == '*' {
          text := ConsumeNext(text);
          if lastChar == '/' {
            text := ConsumeNext(text);
            break;
          }
          continue;
        }
        if lastChar == EOF_CHAR {
          return LexError, text;
        }
        text := ConsumeNext(text);
      }
      kind := Comment;
    }

    method SkipBlank()
      modifies this
      ensures Tracks(old(position), old(View()), position, View())
      ensures View() == Take(Blank, old(View())).1
    {
      var blanks := Consume(Blank, "");
    }

    method ScanToken() returns (kind: Kind, text: string)
      modifies this
      ensures Tracks(old(position), old(View()), position, View())
      ensures Scanned(kind, text, View()) == Scan(old(View()))
    {
      hide Take, ScanSymbol, ScanIdentifier, ScanNumber;
      if lastChar == NUL {
        Advance();
      }
      SkipBlank();
      if IsLeadingLetter(lastChar) {
        kind, text := ScanIdentifierToken();
      } else if IsDigit(lastChar) {
        kind, text := ScanNumberToken(false);
      } else {
        var ch := lastChar;
        Advance();
        kind, text := ScanSymbolToken(ch);
      }
    }

    /** The switch on a character that starts neither an identifier nor a number, once past it. */
    method ScanSymbolToken(ch: char) returns (kind: Kind, text: string)
      modifies this
      ensures Tracks(old(position), old(View()), position, View())
      ensures Scanned(kind, text, View()) == ScanSymbol(ch, old(View()))
    {
      hide Take, ScanString, ScanCommentType1, ScanCommentType2, ScanBindVar, ScanPointNumber, ScanLiteralIdentifier,
        ScanVariableIdentifier, ScanFormatParameter, ScanPreparedStatement, ScanEscapeSequence;
      kind, text := Char(ch), [ch];
      if ch == EOF_CHAR {
        return EOF, "";
      } else if ch == ':' && lastChar != '=' {
        kind, text := ScanBindVarToken();
      } else if ch == ':' || SingleChar(ch) {
      } else if ch == '.' {
        if IsDigit(lastChar) {
          kind, text := ScanNumberToken(true);
        }
      } else if ch == '/' {
        if lastChar == '/' {
          Advance();
          kind, text := ScanCommentType1Token("//");
        } else if lastChar == '*' {
          Advance();
          kind, text := ScanCommentType2Token();
        }
      } else if ch == '-' {
        if lastChar == '-' {
          Advance();
          kind, text := ScanCommentType1Token("--");
        }
      } else if ch == '#' {
        Advance();
        kind, text := ScanCommentType1Token("#");
      } else if ch == '<' {
        if lastChar == '>' {
          Advance();
          return NE, "<>";
        } else if lastChar == '=' {
          Advance();
          if lastChar == '>' {
            Advance();
            return NullSafeEqual, "<=>";
          }
          return LE, "<=";
        }
      } else if ch == '>' {
        if lastChar == '=' {
          Advance();
          return GE, ">=";
        }
      } else if ch == '!' {
        if lastChar == '=' {
          Advance();
          return NE, "!=";
        }
        return LexError, "!";
      } else if ch == '\'' {
        kind, text := ScanStringToken(ch);
      } else if ch == '`' || ch == '"' {
        kind, text := ScanLiteralIdentifierToken(ch);
      } else if ch == '%' {
        if lastChar == '(' {
          kind, text := ScanVariableIdentifierToken(ch);
        } else {
          kind, text := ScanFormatParameterToken(ch);
        }
      } else if ch == '$' {
        kind, text := ScanPreparedStatementToken(ch);
      } else if ch == '{' {
        kind, text := ScanEscapeSequenceToken(ch);
      } else {
        return LexError, [ch];
      }
    }
  }
}
