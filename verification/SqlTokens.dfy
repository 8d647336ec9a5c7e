/** obfuscate/sql_tokenizer.go: what each spelling is scanned to. The character classes are spelt out here once more, so
    that the tables say what is read off the input and not what the scanning functions take it for. */
module SqlTokens {
  import opened SqlTokenizer

  /** The cursor at the beginning of a text. */
  function At(t: string): Cursor {
    if t == "" then Cursor(EOF_CHAR, []) else Cursor(t[0], t[1..])
  }

  // ---------------------------------------------------------------- characters

  predicate Letter(c: char) {
    'a' <= c <= 'z' || 'A' <= c <= 'Z' || c == '_' || c == '@'
  }

  predicate Digit(c: char) {
    '0' <= c <= '9'
  }

  predicate HexDigit(c: char) {
    '0' <= c <= '9' || 'a' <= c <= 'f' || 'A' <= c <= 'F'
  }

  predicate OctalDigit(c: char) {
    '0' <= c <= '7'
  }

  predicate NameChar(c: char) {
    Letter(c) || c == '#' || Digit(c) || c == '.'
  }

  predicate WordChar(c: char) {
    NameChar(c) || c == '*'
  }

  predicate QuotedChar(c: char) {
    Letter(c) || c == '#' || Digit(c) || c == '.' || c == '-'
  }

  // ---------------------------------------------------------------- runs of characters

  lemma {:induction false} TakeRun(k: Class, s: string, post: string)
    requires (forall i :: 0 <= i < |s| ==> In(k, s[i])) && (post == "" || !In(k, post[0]))
    ensures Take(k, At(s + post)) == (s, At(post))
    decreases |s|
  {
    EndsEveryClass(k);
    if s == "" {
      assert s + post == post;
    } else {
      assert (s + post)[1..] == s[1..] + post;
      AtNext(s[0], s[1..] + post);
      assert s + post == [s[0]] + (s[1..] + post);
      TakeRun(k, s[1..], post);
      assert [s[0]] + s[1..] == s;
    }
  }

  lemma AtNext(c: char, t: string)
    ensures At([c] + t) == Cursor(c, t) && Next(Cursor(c, t)) == At(t)
  {
  }

  lemma HeadOf(s: string, t: string)
    requires s != ""
    ensures s + t == [s[0]] + (s[1..] + t) && s == [s[0]] + s[1..]
  {
  }

  lemma Split(a: string, b: string, c: string)
    ensures a + b + c == a + (b + c)
  {
  }

  lemma StartsHere(c: char, t: string)
    requires c != NUL && c != ' ' && c != '\n' && c != '\r' && c != '\t'
    ensures Start(Cursor(c, t)) == Cursor(c, t)
  {
  }

  /** Blanks in front of a token are skipped. */
  lemma BlanksSkipped(blanks: string, t: string)
    requires forall i :: 0 <= i < |blanks| ==> blanks[i] in [' ', '\t', '\r', '\n']
    requires t == "" || t[0] !in [' ', '\t', '\r', '\n', NUL]
    ensures Scan(At(blanks + t)) == Scan(At(t))
  {
    hide ScanIdentifier, ScanNumber, ScanSymbol, Take;
    TakeRun(Blank, blanks, t);
    TakeRun(Blank, "", t);
    assert "" + t == t;
  }

  // ---------------------------------------------------------------- words

  predicate IsWord(s: string) {
    s != "" && Letter(s[0]) && forall i :: 0 <= i < |s| ==> WordChar(s[i])
  }

  /** The word in upper or lower case, or both mixed. */
  predicate Spells(s: string, word: string) {
    |s| == |word| && forall i :: 0 <= i < |s| ==> s[i] == word[i] || s[i] as int == word[i] as int + 32
  }

  predicate Capitals(word: string) {
    forall i :: 0 <= i < |word| ==> 'A' <= word[i] <= 'Z'
  }

  lemma {:induction false} UpperSpells(s: string, word: string)
    requires Capitals(word)
    ensures Upper(s) == word <==> Spells(s, word)
    decreases |s|
  {
    UpperLength(s);
    if |s| == |word| && s != "" {
      var n := |s| - 1;
      UpperSpells(s[..n], word[..n]);
      assert word == word[..n] + [word[n]];
      assert Spells(s, word) <==> Spells(s[..n], word[..n]) && (s[n] == word[n] || s[n] as int == word[n] as int + 32);
      UpperOne(s[n], word[n]);
      assert Upper(s) == Upper(s[..n]) + [UpperChar(s[n])];
      assert Upper(s)[..n] == Upper(s[..n]) && Upper(s)[n] == UpperChar(s[n]) by {
        UpperLength(s[..n]);
      }
    }
  }

  lemma UpperOne(c: char, d: char)
    requires 'A' <= d <= 'Z'
    ensures UpperChar(c) == d <==> c == d || c as int == d as int + 32
  {
  }

  lemma {:induction false} UpperLength(s: string)
    ensures |Upper(s)| == |s|
  {
    if s != "" {
      UpperLength(s[..|s| - 1]);
    }
  }

  const KEYWORDS := ["NULL", "TRUE", "FALSE", "SAVEPOINT", "LIMIT", "AS"]

  /** The six keywords, in any case, and all other words. */
  lemma WordTable(s: string, post: string)
    requires IsWord(s) && (post == "" || !WordChar(post[0]))
    ensures Spells(s, "NULL") ==> Scan(At(s + post)) == Scanned(Null, "NULL", At(post))
    ensures Spells(s, "TRUE") ==> Scan(At(s + post)) == Scanned(BooleanLiteral, "TRUE", At(post))
    ensures Spells(s, "FALSE") ==> Scan(At(s + post)) == Scanned(BooleanLiteral, "FALSE", At(post))
    ensures Spells(s, "SAVEPOINT") ==> Scan(At(s + post)) == Scanned(Savepoint, "SAVEPOINT", At(post))
    ensures Spells(s, "LIMIT") ==> Scan(At(s + post)) == Scanned(Limit, "LIMIT", At(post))
    ensures Spells(s, "AS") ==> Scan(At(s + post)) == Scanned(As, "AS", At(post))
    ensures (forall k :: k in KEYWORDS ==> !Spells(s, k)) ==> Scan(At(s + post)) == Scanned(ID, s, At(post))
  {
    hide Spells, Scan, Keyword, Capitals;
    KeywordTable();
    if Spells(s, "NULL") {
      OneWord(s, "NULL", post);
    }
    if Spells(s, "TRUE") {
      OneWord(s, "TRUE", post);
    }
    if Spells(s, "FALSE") {
      OneWord(s, "FALSE", post);
    }
    if Spells(s, "SAVEPOINT") {
      OneWord(s, "SAVEPOINT", post);
    }
    if Spells(s, "LIMIT") {
      OneWord(s, "LIMIT", post);
    }
    if Spells(s, "AS") {
      OneWord(s, "AS", post);
    }
    if forall k :: k in KEYWORDS ==> !Spells(s, k) {
      OtherWord(s, post);
    }
  }

  lemma KeywordTable()
    ensures Keyword("NULL") == Null && Keyword("TRUE") == Keyword("FALSE") == BooleanLiteral
    ensures Keyword("SAVEPOINT") == Savepoint && Keyword("LIMIT") == Limit && Keyword("AS") == As
    ensures Capitals("NULL") && Capitals("TRUE") && Capitals("FALSE")
    ensures Capitals("SAVEPOINT") && Capitals("LIMIT") && Capitals("AS")
  {
    assert "SAVEPOINT"[0] == 'S' && "LIMIT"[0] == 'L' && "AS"[0] == 'A';
    assert "NULL"[0] == 'N' && "TRUE"[0] == 'T' && "FALSE"[0] == 'F';
  }

  lemma OneWord(s: string, word: string, post: string)
    requires IsWord(s) && (post == "" || !WordChar(post[0])) && Capitals(word) && Spells(s, word) && Keyword(word) != ID
    ensures Scan(At(s + post)) == Scanned(Keyword(word), word, At(post))
  {
    hide Keyword, Spells;
    ScanWord(s, post);
    UpperSpells(s, word);
  }

  lemma OtherWord(s: string, post: string)
    requires IsWord(s) && (post == "" || !WordChar(post[0])) && forall k :: k in KEYWORDS ==> !Spells(s, k)
    ensures Scan(At(s + post)) == Scanned(ID, s, At(post))
  {
    hide Spells, Scan, Upper;
    ScanWord(s, post);
    KeywordTable();
    KeywordsCapital();
    forall k | k in KEYWORDS
      ensures Upper(s) != k
    {
      UpperSpells(s, k);
    }
    NoKeyword(Upper(s));
  }

  lemma KeywordsCapital()
    ensures forall k :: k in KEYWORDS ==> Capitals(k)
  {
    KeywordTable();
  }

  lemma NoKeyword(u: string)
    requires u !in KEYWORDS
    ensures Keyword(u) == ID
  {
    assert KEYWORDS[0] == "NULL" && KEYWORDS[1] == "TRUE" && KEYWORDS[2] == "FALSE" && KEYWORDS[3] == "SAVEPOINT";
    assert KEYWORDS[4] == "LIMIT" && KEYWORDS[5] == "AS";
  }

  lemma ScanWord(s: string, post: string)
    requires IsWord(s) && (post == "" || !WordChar(post[0]))
    ensures var kind := Keyword(Upper(s));
            Scan(At(s + post)) == Scanned(kind, if kind == ID then s else Upper(s), At(post))
  {
    hide Keyword, Upper, Take;
    StartsHere(s[0], s[1..] + post);
    assert s + post == [s[0]] + (s[1..] + post) && s == [s[0]] + s[1..];
    AtNext(s[0], s[1..] + post);
    assert forall i :: 0 <= i < |s| ==> In(Identifier, s[i]);
    TakeRun(Identifier, s[1..], post);
  }

  // ---------------------------------------------------------------- operators and comments

  /** A symbol whose first character is neither a letter nor a digit. */
  lemma ScanSymbolAt(ch: char, t: string)
    requires !Letter(ch) && !Digit(ch) && ch !in [' ', '\t', '\r', '\n', NUL]
    ensures Scan(At([ch] + t)) == ScanSymbol(ch, At(t))
  {
    StartsHere(ch, t);
    AtNext(ch, t);
    hide ScanSymbol;
  }

  lemma LessTable(post: string)
    ensures Scan(At("<=>" + post)) == Scanned(NullSafeEqual, "<=>", At(post))
    ensures (post == "" || post[0] != '>') ==> Scan(At("<=" + post)) == Scanned(LE, "<=", At(post))
    ensures Scan(At("<>" + post)) == Scanned(NE, "<>", At(post))
    ensures (post == "" || post[0] !in ['>', '=']) ==> Scan(At("<" + post)) == Scanned(Char('<'), "<", At(post))
  {
    hide Scan, At;
    Three('<', '=', '>', post);
    Two('<', '=', post);
    Two('<', '>', post);
    AtBegins(post);
    ScanSymbolAt('<', ['='] + (['>'] + post));
    ScanSymbolAt('<', ['='] + post);
    ScanSymbolAt('<', ['>'] + post);
    ScanSymbolAt('<', post);
    assert ['<', '=', '>'] == "<=>" && ['<', '='] == "<=" && ['<', '>'] == "<>" && ['<'] == "<";
  }

  lemma MoreTable(post: string)
    ensures Scan(At(">=" + post)) == Scanned(GE, ">=", At(post))
    ensures (post == "" || post[0] != '=') ==> Scan(At(">" + post)) == Scanned(Char('>'), ">", At(post))
    ensures Scan(At("!=" + post)) == Scanned(NE, "!=", At(post))
    ensures Scan(At(":=" + post)) == Scanned(Char(':'), ":", At("=" + post))
  {
    hide Scan, At, ScanBindVar;
    Two('>', '=', post);
    Two('!', '=', post);
    Two(':', '=', post);
    AtBegins(post);
    ScanSymbolAt('>', ['='] + post);
    ScanSymbolAt('>', post);
    ScanSymbolAt('!', ['='] + post);
    ScanSymbolAt(':', ['='] + post);
    assert ['>', '='] == ">=" && ['!', '='] == "!=" && [':', '='] == ":=" && ['>'] == ">" && ['='] == "=";
  }

  lemma PlainTable(post: string)
    ensures (post == "" || !Digit(post[0])) ==> Scan(At("." + post)) == Scanned(Char('.'), ".", At(post))
    ensures (post == "" || post[0] !in ['/', '*']) ==> Scan(At("/" + post)) == Scanned(Char('/'), "/", At(post))
    ensures (post == "" || post[0] != '-') ==> Scan(At("-" + post)) == Scanned(Char('-'), "-", At(post))
  {
    hide Scan, At, ScanPointNumber, ScanCommentType1, ScanCommentType2;
    AtBegins(post);
    ScanSymbolAt('.', post);
    ScanSymbolAt('/', post);
    ScanSymbolAt('-', post);
    assert ['.'] == "." && ['/'] == "/" && ['-'] == "-";
  }

  lemma AtBegins(post: string)
    ensures At(post).last == if post == "" then EOF_CHAR else post[0]
  {
  }

  lemma Two(a: char, b: char, post: string)
    ensures [a, b] + post == [a] + ([b] + post)
    ensures At([b] + post).last == b && Next(At([b] + post)) == At(post)
  {
    AtNext(b, post);
  }

  lemma Three(a: char, b: char, c: char, post: string)
    ensures [a, b, c] + post == [a] + ([b] + ([c] + post))
    ensures At([b] + ([c] + post)).last == b
    ensures Next(At([b] + ([c] + post))).last == c && Next(Next(At([b] + ([c] + post)))) == At(post)
  {
    AtNext(b, [c] + post);
    AtNext(c, post);
  }

  /** The characters that are tokens by themselves, whatever follows. */
  lemma SingleTable(c: char, post: string)
    requires c in ['=', ',', ';', '(', ')', '+', '*', '&', '|', '^', '~', '[', ']', '?']
    ensures Scan(At([c] + post)) == Scanned(Char(c), [c], At(post))
  {
    hide Scan, At;
    ScanSymbolAt(c, post);
    assert SingleChar(c);
  }

  /** A comment to the end of the line, or of the input. */
  lemma LineCommentTable(line: string, post: string)
    requires EOF_CHAR !in line && '\n' !in line
    ensures Scan(At("--" + line + "\n" + post)) == Scanned(Comment, "--" + line + "\n", At(post))
    ensures Scan(At("//" + line + "\n" + post)) == Scanned(Comment, "//" + line + "\n", At(post))
    ensures Scan(At("--" + line)) == Scanned(Comment, "--" + line, At(""))
    ensures Scan(At("//" + line)) == Scanned(Comment, "//" + line, At(""))
  {
    hide Scan, ScanCommentType1, At;
    CommentRun("--", line, post);
    CommentRun("//", line, post);
    CommentStart('-', line);
    CommentStart('/', line);
    CommentStart('-', line + "\n" + post);
    CommentStart('/', line + "\n" + post);
    assert "--" + line + "\n" + post == "--" + (line + "\n" + post);
    assert "//" + line + "\n" + post == "//" + (line + "\n" + post);
  }

  lemma CommentStart(c: char, t: string)
    requires c == '-' || c == '/'
    ensures Scan(At([c, c] + t)) == ScanCommentType1(At(t), [c, c])
    ensures [c, c] + t == (if c == '-' then "--" else "//") + t && [c, c] == if c == '-' then "--" else "//"
  {
    hide Scan, At, ScanCommentType1;
    Two(c, c, t);
    ScanSymbolAt(c, [c] + t);
  }

  lemma CommentRun(prefix: string, line: string, post: string)
    requires EOF_CHAR !in line && '\n' !in line
    ensures ScanCommentType1(At(line + "\n" + post), prefix) == Scanned(Comment, prefix + line + "\n", At(post))
    ensures ScanCommentType1(At(line), prefix) == Scanned(Comment, prefix + line, At(""))
  {
    hide Take;
    assert line + "\n" + post == line + ("\n" + post) && line + "" == line;
    TakeRun(UpTo('\n'), line, "\n" + post);
    TakeRun(UpTo('\n'), line, "");
    AtNext('\n', post);
    assert ['\n'] + post == "\n" + post && ['\n'] == "\n";
  }

  /** No star and slash before the end. */
  predicate NotClosed(body: string) {
    EOF_CHAR !in body && forall i :: 0 <= i < |body| - 1 ==> !(body[i] == '*' && body[i + 1] == '/')
  }

  /** A comment up to the first star and slash. */
  lemma BlockCommentTable(body: string, post: string)
    requires NotClosed(body + "*")
    ensures Scan(At("/*" + body + "*/" + post)) == Scanned(Comment, "/*" + body + "*/", At(post))
  {
    hide Scan, At, ScanCommentType2;
    BlockRun("/*", body, post);
    Two('/', '*', body + "*/" + post);
    ScanSymbolAt('/', ['*'] + (body + "*/" + post));
    assert ['/', '*'] == "/*" && "/*" + (body + "*/" + post) == "/*" + body + "*/" + post;
  }

  lemma {:induction false} BlockRun(text: string, body: string, post: string)
    requires NotClosed(body + "*")
    ensures ScanCommentType2(At(body + "*/" + post), text) == Scanned(Comment, text + body + "*/", At(post))
    decreases |body|
  {
    if body == "" {
      Two('*', '/', post);
      AtNext('*', ['/'] + post);
      assert body + "*/" + post == ['*'] + (['/'] + post) && text + body + "*/" == text + ['*', '/'];
      assert At(['/'] + post).last == '/';
    } else {
      var c, rest := body[0], body[1..];
      AtNext(c, rest + "*/" + post);
      assert body + "*/" + post == [c] + (rest + "*/" + post);
      NotClosedRest(body);
      assert (body + "*")[0] == c && c in body + "*";
      BlockRun(text + [c], rest, post);
      assert text + [c] + rest + "*/" == text + body + "*/";
      if c == '*' {
        AfterStar(body);
        assert (rest + "*/" + post)[0] == (rest + "*")[0];
      }
    }
  }

  lemma NotClosedRest(body: string)
    requires body != "" && NotClosed(body + "*")
    ensures NotClosed(body[1..] + "*")
  {
    assert (body + "*")[1..] == body[1..] + "*";
    assert forall i :: 0 <= i < |body| ==> (body[1..] + "*")[i] == (body + "*")[i + 1];
  }

  lemma AfterStar(body: string)
    requires body != "" && NotClosed(body + "*") && body[0] == '*'
    ensures (body[1..] + "*")[0] != '/'
  {
    assert (body + "*")[0] == '*' && (body + "*")[1] == (body[1..] + "*")[0];
  }

  // ---------------------------------------------------------------- numbers

  predicate AllDigits(s: string) {
    forall i :: 0 <= i < |s| ==> Digit(s[i])
  }

  lemma DigitRun(s: string, post: string)
    requires AllDigits(s) && (post == "" || !Digit(post[0]))
    ensures Take(Digits(10), At(s + post)) == (s, At(post))
  {
    TakeRun(Digits(10), s, post);
  }

  predicate IsExponent(e: string) {
    || (|e| >= 1 && (e[0] == 'e' || e[0] == 'E') && AllDigits(e[1..]))
    || (|e| >= 2 && (e[0] == 'e' || e[0] == 'E') && (e[1] == '+' || e[1] == '-') && AllDigits(e[2..]))
  }

  predicate IsFraction(f: string) {
    f != "" && f[0] == '.' && AllDigits(f[1..])
  }

  /** What may not follow a number with this fraction and this exponent, as it would belong to it. */
  predicate NumberEnds(f: string, e: string, post: string) {
    post == "" ||
    (&& !Digit(post[0])
     && (e == "" ==> post[0] != 'e' && post[0] != 'E')
     && (f == "" && e == "" ==> post[0] != '.')
     && (|e| == 1 ==> post[0] != '+' && post[0] != '-'))
  }

  lemma ExponentRun(text: string, e: string, post: string)
    requires (e == "" || IsExponent(e)) && NumberEnds(".", e, post)
    ensures ScanExponent(At(e + post), text) == Scanned(Number, text + e, At(post))
  {
    hide Take;
    if e == "" {
      assert e + post == post && text + e == text;
    } else if |e| >= 2 && (e[1] == '+' || e[1] == '-') {
      SignedExponent(text, e, post);
    } else {
      AtNext(e[0], e[1..] + post);
      HeadOf(e, post);
      DigitRun(e[1..], post);
      Split(text, [e[0]], e[1..]);
      NoSign(e, post);
      assert text + [e[0]] + [] == text + [e[0]];
    }
  }

  lemma NoSign(e: string, post: string)
    requires |e| >= 1 && AllDigits(e[1..]) && NumberEnds(".", e, post)
    ensures var c := At(e[1..] + post).last; c != '+' && c != '-'
  {
    if |e| >= 2 {
      assert (e[1..] + post)[0] == e[1..][0];
    } else {
      assert e[1..] + post == post;
    }
  }

  lemma SignedExponent(text: string, e: string, post: string)
    requires |e| >= 2 && (e[0] == 'e' || e[0] == 'E') && (e[1] == '+' || e[1] == '-') && AllDigits(e[2..])
    requires post == "" || !Digit(post[0])
    ensures ScanExponent(At(e + post), text) == Scanned(Number, text + e, At(post))
  {
    hide Take;
    AtNext(e[0], e[1..] + post);
    HeadOf(e, post);
    AtNext(e[1], e[2..] + post);
    HeadOf(e[1..], post);
    assert e[1..][1..] == e[2..];
    DigitRun(e[2..], post);
    assert text + [e[0]] + [e[1]] + e[2..] == text + e;
  }

  lemma FractionRun(text: string, f: string, e: string, post: string)
    requires (f == "" || IsFraction(f)) && (e == "" || IsExponent(e)) && NumberEnds(f, e, post)
    ensures ScanFraction(At(f + e + post), text) == Scanned(Number, text + f + e, At(post))
  {
    hide Take, ScanExponent;
    if f == "" {
      ExponentRun(text, e, post);
      assert f + e + post == e + post && text + f + e == text + e;
      NoPoint(e, post);
    } else {
      AtNext('.', f[1..] + e + post);
      assert f + e + post == ['.'] + (f[1..] + e + post) && f[1..] + e + post == f[1..] + (e + post);
      NoDigit(e, post);
      DigitRun(f[1..], e + post);
      ExponentRun(text + ['.'] + f[1..], e, post);
      assert text + ['.'] + f[1..] + e == text + f + e;
    }
  }

  lemma NoPoint(e: string, post: string)
    requires (e == "" || IsExponent(e)) && NumberEnds("", e, post)
    ensures At(e + post).last != '.'
  {
    if e == "" {
      assert e + post == post;
    }
  }

  lemma NoDigit(e: string, post: string)
    requires (e == "" || IsExponent(e)) && (post == "" || !Digit(post[0]))
    ensures e + post == "" || !Digit((e + post)[0])
  {
    if e == "" {
      assert e + post == post;
    }
  }

  /** A decimal number: digits, the first of them not zero, and perhaps a fraction and an exponent. */
  lemma DecimalTable(d: string, f: string, e: string, post: string)
    requires d != "" && d[0] != '0' && AllDigits(d)
    requires (f == "" || IsFraction(f)) && (e == "" || IsExponent(e)) && NumberEnds(f, e, post)
    ensures Scan(At(d + f + e + post)) == Scanned(Number, d + f + e, At(post))
  {
    hide ScanFraction, Take, IsExponent, IsFraction, NumberEnds, Scan, At;
    var rest := f + e + post;
    DecimalRun(d, f, e, post);
    FractionRun(d, f, e, post);
    StartsNumber(d[0], d[1..] + rest);
    HeadOf(d, rest);
    Split(d, f, e);
    Split(d, f + e, post);
    assert "" + d == d;
  }

  lemma StartsNumber(c: char, t: string)
    requires Digit(c)
    ensures Scan(At([c] + t)) == ScanNumber(At([c] + t)) && At([c] + t).last == c
  {
    hide ScanNumber, Take;
    StartsHere(c, t);
    AtNext(c, t);
  }

  lemma DecimalRun(d: string, f: string, e: string, post: string)
    requires d != "" && AllDigits(d)
    requires (f == "" || IsFraction(f)) && (e == "" || IsExponent(e)) && NumberEnds(f, e, post)
    ensures Take(Digits(10), At(d + (f + e + post))) == (d, At(f + e + post))
  {
    hide Take, IsExponent, IsFraction, AllDigits;
    NoDigit(e, post);
    NoDigitFraction(f, e, post);
    DigitRun(d, f + e + post);
  }

  lemma NoDigitFraction(f: string, e: string, post: string)
    requires (f == "" || IsFraction(f)) && (e + post == "" || !Digit((e + post)[0]))
    ensures f + e + post == "" || !Digit((f + e + post)[0])
  {
    if f == "" {
      assert f + e + post == e + post;
    } else {
      assert (f + e + post)[0] == f[0];
    }
  }

  /** A fraction without anything in front of its point. */
  lemma PointTable(f: string, e: string, post: string)
    requires IsFraction(f) && |f| > 1 && (e == "" || IsExponent(e)) && NumberEnds(f, e, post)
    ensures Scan(At(f + e + post)) == Scanned(Number, f + e, At(post))
  {
    hide ScanExponent, Take, Scan, At, IsExponent, NumberEnds;
    PointRun(f, e, post);
    ScanSymbolAt('.', f[1..] + (e + post));
    HeadOf(f, e + post);
    Split(f, e, post);
  }

  lemma PointRun(f: string, e: string, post: string)
    requires IsFraction(f) && |f| > 1 && (e == "" || IsExponent(e)) && NumberEnds(f, e, post)
    ensures ScanPointNumber(At(f[1..] + (e + post))) == Scanned(Number, f + e, At(post))
    ensures Digit(At(f[1..] + (e + post)).last)
  {
    hide ScanExponent, Take, IsExponent;
    NoDigit(e, post);
    DigitRun(f[1..], e + post);
    ExponentRun("." + f[1..], e, post);
    assert "." + f[1..] == f;
    AtBegins(f[1..] + (e + post));
    assert (f[1..] + (e + post))[0] == f[1..][0];
  }

  /** Hexadecimal, with either x. */
  lemma HexTable(x: char, h: string, post: string)
    requires (x == 'x' || x == 'X') && (forall i :: 0 <= i < |h| ==> HexDigit(h[i])) && (post == "" || !HexDigit(post[0]))
    ensures Scan(At("0" + [x] + h + post)) == Scanned(Number, "0" + [x] + h, At(post))
  {
    hide Take, Scan, ScanFraction;
    HexRun(h, post);
    ZeroStart([x] + (h + post));
    HexZero(x, h, post);
    Split("0" + [x], h, post);
    Split("0", [x], h + post);
    assert "0" == ['0'];
  }

  lemma HexZero(x: char, h: string, post: string)
    requires (x == 'x' || x == 'X') && Take(Digits(16), At(h + post)) == (h, At(post))
    ensures ScanZero(At([x] + (h + post)), ['0']) == Scanned(Number, ['0'] + [x] + h, At(post))
  {
    hide Take;
    AtNext(x, h + post);
  }

  lemma HexRun(h: string, post: string)
    requires (forall i :: 0 <= i < |h| ==> HexDigit(h[i])) && (post == "" || !HexDigit(post[0]))
    ensures Take(Digits(16), At(h + post)) == (h, At(post))
  {
    hide Take;
    TakeRun(Digits(16), h, post);
  }

  lemma ZeroStart(t: string)
    ensures Scan(At(['0'] + t)) == ScanZero(At(t), ['0'])
  {
    hide ScanZero, Take;
    StartsHere('0', t);
    AtNext('0', t);
    assert "" + ['0'] == ['0'];
  }

  /** A leading zero: octal digits; then a decimal number if a fraction or an exponent follows, an octal one if not, and
      an error if there were other digits. */
  lemma ZeroTable(o: string, n: string, f: string, e: string, post: string)
    requires (forall i :: 0 <= i < |o| ==> OctalDigit(o[i])) && AllDigits(n) && (n != "" ==> n[0] == '8' || n[0] == '9')
    requires (f == "" || IsFraction(f)) && (e == "" || IsExponent(e)) && NumberEnds(f, e, post)
    requires o == "" && n == "" && f == "" && e == "" && post != "" ==> post[0] != 'x' && post[0] != 'X'
    ensures f != "" || e != "" ==> Scan(At("0" + o + n + f + e + post)) == Scanned(Number, "0" + o + n + f + e, At(post))
    ensures f == "" && e == "" ==>
              Scan(At("0" + o + n + post)) == Scanned(if n == "" then Number else LexError, "0" + o + n, At(post))
  {
    hide Take, ScanFraction, Scan, IsExponent, IsFraction, NumberEnds, ScanZero;
    var rest := f + e + post;
    assert "0" + o + n + f + e + post == ['0'] + (o + (n + rest));
    assert f == "" && e == "" ==> f + e + post == post && "0" + o + n + post == ['0'] + (o + (n + rest));
    ZeroStart(o + (n + rest));
    ZeroScan(o, n, f, e, post);
    FractionRun(['0'] + o + n, f, e, post);
    assert "0" + o + n == ['0'] + o + n;
    assert f == "" && e == "" ==> rest == post;
  }

  lemma ZeroScan(o: string, n: string, f: string, e: string, post: string)
    requires (forall i :: 0 <= i < |o| ==> OctalDigit(o[i])) && AllDigits(n) && (n != "" ==> n[0] == '8' || n[0] == '9')
    requires (f == "" || IsFraction(f)) && (e == "" || IsExponent(e)) && NumberEnds(f, e, post)
    requires o == "" && n == "" && f == "" && e == "" && post != "" ==> post[0] != 'x' && post[0] != 'X'
    ensures ScanZero(At(o + (n + (f + e + post))), ['0']) ==
            if f == "" && e == "" then Scanned(if n == "" then Number else LexError, ['0'] + o + n, At(f + e + post))
            else ScanFraction(At(f + e + post), ['0'] + o + n)
  {
    hide Take, ScanFraction, Scan, IsExponent, IsFraction;
    var rest := f + e + post;
    NoDigit(e, post);
    NoDigitFraction(f, e, post);
    OctalRun(o, n, rest);
    assert n == "" ==> n + rest == rest;
    DigitRun(n, rest);
    NotHex(o, n, f, e, post);
    assert ['0'] + o + "" == ['0'] + o;
    ZeroRest(f, e, post);
  }

  lemma OctalRun(o: string, n: string, rest: string)
    requires (forall i :: 0 <= i < |o| ==> OctalDigit(o[i])) && (n != "" ==> n[0] == '8' || n[0] == '9')
    requires rest == "" || !Digit(rest[0])
    ensures Take(Digits(8), At(o + (n + rest))) == (o, At(n + rest))
    ensures (At(n + rest).last == '8' || At(n + rest).last == '9') <==> n != ""
  {
    if n == "" {
      assert n + rest == rest;
      assert rest != "" && rest[0] !in "01234567" ==> !In(Digits(8), rest[0]);
    }
    TakeRun(Digits(8), o, n + rest);
  }

  lemma NotHex(o: string, n: string, f: string, e: string, post: string)
    requires (forall i :: 0 <= i < |o| ==> OctalDigit(o[i])) && AllDigits(n)
    requires (f == "" || IsFraction(f)) && (e == "" || IsExponent(e))
    requires o == "" && n == "" && f == "" && e == "" && post != "" ==> post[0] != 'x' && post[0] != 'X'
    ensures var c := At(o + (n + (f + e + post))).last; c != 'x' && c != 'X'
  {
    var t := o + (n + (f + e + post));
    if o != "" {
      assert t[0] == o[0];
    } else if n != "" {
      assert t[0] == n[0];
    } else if f != "" {
      assert t[0] == f[0];
    } else if e != "" {
      assert t[0] == e[0];
    } else {
      assert t == post;
    }
  }

  lemma ZeroRest(f: string, e: string, post: string)
    requires (f == "" || IsFraction(f)) && (e == "" || IsExponent(e)) && NumberEnds(f, e, post)
    ensures var c := At(f + e + post).last; (c == '.' || c == 'e' || c == 'E') <==> f != "" || e != ""
  {
    if f == "" && e == "" {
      assert f + e + post == post;
    } else if f == "" {
      assert (f + e + post)[0] == e[0];
    } else {
      assert (f + e + post)[0] == f[0];
    }
  }

  // ---------------------------------------------------------------- names and parameters

  /** A name between backquotes or double quotes is an identifier without them. */
  lemma QuotedNameTable(q: char, c: char, name: string, post: string)
    requires (q == '`' || q == '\"') && (Letter(c) || c == '#') && forall i :: 0 <= i < |name| ==> QuotedChar(name[i])
    ensures Scan(At([q, c] + name + [q] + post)) == Scanned(ID, [c] + name, At(post))
  {
    hide Take, Scan, ScanLiteralIdentifier, At;
    var rest := [q] + post;
    QuotedName(q, c, name, post);
    ScanSymbolAt(q, [c] + (name + rest));
    Split([q, c] + name, [q], post);
    Split([q, c], name, rest);
    assert [q, c] + (name + rest) == [q] + ([c] + (name + rest));
  }

  lemma QuotedName(q: char, c: char, name: string, post: string)
    requires (q == '`' || q == '\"') && (Letter(c) || c == '#') && forall i :: 0 <= i < |name| ==> QuotedChar(name[i])
    ensures ScanLiteralIdentifier(At([c] + (name + ([q] + post))), q) == Scanned(ID, [c] + name, At(post))
  {
    hide Take;
    AtNext(c, name + ([q] + post));
    AtNext(q, post);
    TakeRun(Literal, name, [q] + post);
  }

  /** A named parameter, and one for a list; the name begins with a letter. */
  lemma BindTable(name: string, post: string)
    requires name != "" && (Letter(name[0]) || name[0] == '#') && (forall i :: 0 <= i < |name| ==> NameChar(name[i]))
    requires post == "" || !NameChar(post[0])
    ensures Scan(At(":" + name + post)) == Scanned(ValueArg, ":" + name, At(post))
    ensures Scan(At("::" + name + post)) == Scanned(ListArg, "::" + name, At(post))
  {
    hide Take, Scan;
    ScanSymbolAt(':', name + post);
    ScanSymbolAt(':', [':'] + (name + post));
    assert ":" + name + post == [':'] + (name + post) && "::" + name + post == [':'] + ([':'] + (name + post));
    AtNext(':', name + post);
    AtNext(name[0], name[1..] + post);
    assert name + post == [name[0]] + (name[1..] + post);
    TakeRun(BindName, name, post);
  }

  /** A numbered parameter. */
  lemma PreparedTable(d: string, post: string)
    requires d != "" && d[0] != '0' && AllDigits(d) && NumberEnds("", "", post)
    ensures Scan(At("$" + d + post)) == Scanned(PreparedStatement, "$" + d, At(post))
  {
    hide Take, Scan, ScanNumber, NumberEnds;
    ScanSymbolAt('$', d + post);
    assert "$" + d + post == ['$'] + (d + post);
    PlainNumber(d, post);
    AtBegins(d + post);
    assert ['$'] + d == "$" + d;
  }

  lemma PlainNumber(d: string, post: string)
    requires d != "" && d[0] != '0' && AllDigits(d) && NumberEnds("", "", post)
    ensures ScanNumber(At(d + post)) == Scanned(Number, d, At(post))
  {
    hide Take, ScanFraction;
    DigitRun(d, post);
    FractionRun(d, "", "", post);
    assert "" + d == d && "" + "" + post == post && d + "" + "" == d;
  }

  /** A format parameter of one letter, or of a name in parentheses and a letter. */
  lemma FormatTable(c: char, name: string, post: string)
    requires (Letter(c) || c == '#') && EOF_CHAR !in name && ')' !in name
    ensures Scan(At(['%', c] + post)) == Scanned(Variable, ['%', c], At(post))
    ensures Scan(At("%(" + name + [')', c] + post)) == Scanned(Variable, "%(" + name + [')', c], At(post))
  {
    hide Take, Scan, ScanVariableIdentifier, At;
    Two('%', c, post);
    ScanSymbolAt('%', [c] + post);
    var rest := [')', c] + post;
    Two('%', '(', name + rest);
    ScanSymbolAt('%', ['('] + (name + rest));
    VariableRun(c, name, post);
    Split("%(" + name, [')', c], post);
    Split("%(", name, rest);
    assert "%(" == ['%', '('];
  }

  lemma VariableRun(c: char, name: string, post: string)
    requires (Letter(c) || c == '#') && EOF_CHAR !in name && ')' !in name
    ensures ScanVariableIdentifier(At(['('] + (name + ([')', c] + post))), '%') ==
            Scanned(Variable, ['%', '('] + name + [')', c], At(post))
  {
    hide Take;
    Two(')', c, post);
    AtNext('(', name + ([')', c] + post));
    AtNext(')', [c] + post);
    AtNext(c, post);
    TakeRun(UpTo(')'), name, [')', c] + post);
  }

  /** An escape sequence between braces. */
  lemma EscapeTable(body: string, post: string)
    requires EOF_CHAR !in body && '}' !in body
    ensures Scan(At("{" + body + "}" + post)) == Scanned(EscapeSequence, "{" + body + "}", At(post))
  {
    hide Take, Scan;
    ScanSymbolAt('{', body + (['}'] + post));
    assert "{" + body + "}" + post == ['{'] + (body + (['}'] + post));
    AtNext('}', post);
    TakeRun(UpTo('}'), body, ['}'] + post);
    assert ['{'] + body + ['}'] == "{" + body + "}";
  }

  /** The characters that no token begins with. */
  lemma ErrorTable(c: char, post: string)
    requires c != EOF_CHAR && !Letter(c) && !Digit(c) && c !in [' ', '\t', '\r', '\n', NUL]
    requires c !in "=,;()+*&|^~[]?:./-#<>!'`\"%${"
    ensures Scan(At([c] + post)).kind == LexError
  {
    hide Scan;
    ScanSymbolAt(c, post);
    NotSymbol(c);
  }

  lemma NotSymbol(c: char)
    requires c !in "=,;()+*&|^~[]?:./-#<>!'`\"%${"
    ensures !SingleChar(c) && c !in [':', '.', '/', '-', '#', '<', '>', '!', '\'', '`', '\"', '%', '$', '{']
  {
    var all := "=,;()+*&|^~[]?:./-#<>!'`\"%${";
    assert all[0] == '=' && all[1] == ',' && all[2] == ';' && all[3] == '(' && all[4] == ')' && all[5] == '+';
    assert all[6] == '*' && all[7] == '&' && all[8] == '|' && all[9] == '^' && all[10] == '~' && all[11] == '[';
    assert all[12] == ']' && all[13] == '?' && all[14] == ':' && all[15] == '.' && all[16] == '/' && all[17] == '-';
    assert all[18] == '#' && all[19] == '<' && all[20] == '>' && all[21] == '!' && all[22] == '\'' && all[23] == '`';
    assert all[24] == '\"' && all[25] == '%' && all[26] == '$' && all[27] == '{';
  }

  /** Comments and escape sequences that are not closed are errors. */
  lemma UnclosedTable(body: string)
    requires EOF_CHAR !in body
    ensures NotClosed(body) ==> Scan(At("/*" + body)).kind == LexError
    ensures '}' !in body ==> Scan(At("{" + body)).kind == LexError
  {
    hide Scan, NotClosed;
    if NotClosed(body) {
      UnclosedComment(body);
    }
    if '}' !in body {
      UnclosedEscape(body);
    }
  }

  lemma UnclosedComment(body: string)
    requires NotClosed(body)
    ensures Scan(At("/*" + body)).kind == LexError
  {
    hide Take, Scan, ScanCommentType2, At;
    Two('/', '*', body);
    ScanSymbolAt('/', ['*'] + body);
    assert ['/', '*'] == "/*";
    Unclosed("/*", body);
  }

  lemma UnclosedEscape(body: string)
    requires EOF_CHAR !in body && '}' !in body
    ensures Scan(At("{" + body)).kind == LexError
  {
    hide Take, Scan;
    ScanSymbolAt('{', body);
    assert "{" + body == ['{'] + body && body + "" == body;
    TakeRun(UpTo('}'), body, "");
  }

  lemma {:induction false} Unclosed(text: string, body: string)
    requires NotClosed(body)
    ensures ScanCommentType2(At(body), text).kind == LexError
    decreases |body|
  {
    if body != "" {
      var c, rest := body[0], body[1..];
      assert body == [c] + rest;
      AtNext(c, rest);
      assert forall i :: 0 <= i < |rest| ==> rest[i] == body[i + 1];
      Unclosed(text + [c], rest);
    }
  }
}
