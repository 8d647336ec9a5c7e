/** obfuscate/sql.go: whole texts, written as words with a space in front of each. */
module SqlTexts {
  import opened SqlTokenizer
  import opened SqlTokens
  import F = SqlFilters

  /** The word is scanned to this token, whatever stands behind the space after it. */
  ghost predicate ScansTo(s: string, t: F.Lexeme) {
    && s != "" && s[0] !in [' ', '\t', '\r', '\n', NUL] && t.kind !in {EOF, LexError}
    && forall post :: post == "" || post[0] == ' ' ==> Scan(At(s + post)) == Scanned(t.kind, t.text, At(post))
  }

  function Line(words: seq<string>): string {
    if words == [] then "" else " " + words[0] + Line(words[1..])
  }

  lemma LineBegins(words: seq<string>)
    ensures Line(words) == "" || Line(words)[0] == ' '
  {
  }

  lemma NothingLeft()
    ensures F.Tokens(At("")) == []
  {
    var c := At("");
    assert Start(c) == c;
    assert Scan(c).kind == EOF;
    hide Scan;
  }

  /** Every word of a line becomes its token, in order, up to the end. */
  lemma {:induction false} LineTokens(words: seq<string>, ts: seq<F.Lexeme>)
    requires |words| == |ts| && forall i :: 0 <= i < |ts| ==> ScansTo(words[i], ts[i])
    ensures F.Tokens(At(Line(words))) == ts
    decreases |words|
  {
    hide Scan, F.Tokens, ScansTo, At;
    if words == [] {
      NothingLeft();
    } else {
      var rest := Line(words[1..]);
      LineTokens(words[1..], ts[1..]);
      LineBegins(words[1..]);
      NextToken(words[0], ts[0], rest);
      Split(" ", words[0], rest);
      assert ts == [ts[0]] + ts[1..];
    }
  }

  lemma NextToken(word: string, t: F.Lexeme, rest: string)
    requires ScansTo(word, t) && (rest == "" || rest[0] == ' ')
    ensures F.Tokens(At(" " + (word + rest))) == [t] + F.Tokens(At(rest))
  {
    hide Scan, At;
    assert (word + rest)[0] == word[0];
    BlanksSkipped(" ", word + rest);
    ScanConsumes(At(" " + (word + rest)));
  }

  /** A consumer that has been reset reads its input from the beginning. */
  lemma FreshTokens(text: string)
    requires text == "" || text[0] != NUL
    ensures F.Tokens(Cursor(NUL, text)) == F.Tokens(At(text))
  {
    hide ScanIdentifier, ScanNumber, ScanSymbol, Take;
    assert Next(Cursor(NUL, text)) == At(text);
    assert Start(Cursor(NUL, text)) == Start(At(text));
    assert Scan(Cursor(NUL, text)) == Scan(At(text));
    ScanConsumes(At(text));
    ScanConsumes(Cursor(NUL, text));
    hide Scan;
  }

  /** So what a line is quantized to is what the filters write for the tokens of its words. */
  lemma LineQuantized(words: seq<string>, ts: seq<F.Lexeme>, lastToken: Kind, groups: F.Groups)
    requires |words| == |ts| && forall i :: 0 <= i < |ts| ==> ScansTo(words[i], ts[i])
    ensures F.Quantize(Cursor(NUL, Line(words)), lastToken, groups) == F.Consume(F.State("", lastToken, groups), ts)
  {
    hide Scan, F.Tokens, F.Consume;
    LineBegins(words);
    LineTokens(words, ts);
    FreshTokens(Line(words));
  }

  // ---------------------------------------------------------------- an example

  lemma ExampleWords()
    ensures ScansTo("id", F.Lexeme(ID, "id"))
    ensures ScansTo("=", F.Lexeme(Char('='), "="))
    ensures ScansTo("42", F.Lexeme(Number, "42"))
  {
    hide Scan, At;
    forall post | post == "" || post[0] == ' '
      ensures Scan(At("id" + post)) == Scanned(ID, "id", At(post))
      ensures Scan(At("=" + post)) == Scanned(Char('='), "=", At(post))
      ensures Scan(At("42" + post)) == Scanned(Number, "42", At(post))
    {
      ExampleName(post);
      ExampleEquals(post);
      ExampleNumber(post);
    }
  }

  lemma ExampleName(post: string)
    requires post == "" || post[0] == ' '
    ensures Scan(At("id" + post)) == Scanned(ID, "id", At(post))
  {
    hide Scan, At;
    NotKeyword();
    WordTable("id", post);
  }

  lemma ExampleEquals(post: string)
    requires post == "" || post[0] == ' '
    ensures Scan(At("=" + post)) == Scanned(Char('='), "=", At(post))
  {
    hide Scan, At;
    SingleTable('=', post);
    assert ['='] == "=";
  }

  lemma ExampleNumber(post: string)
    requires post == "" || post[0] == ' '
    ensures Scan(At("42" + post)) == Scanned(Number, "42", At(post))
  {
    hide Scan, At;
    DecimalTable("42", "", "", post);
    assert "42" + "" + "" + post == "42" + post && "42" + "" + "" == "42";
  }

  lemma NotKeyword()
    ensures forall k :: k in KEYWORDS ==> !Spells("id", k)
  {
    assert "AS"[0] == 'A' && "id"[0] == 'i';
  }

  /** A number in a condition comes out as a question mark. */
  lemma NumberIsHidden(lastToken: Kind)
    requires lastToken != As && lastToken != Savepoint
    ensures F.Quantize(Cursor(NUL, " id = 42"), lastToken, F.Groups(0, 0)).out == F.Some("id = ?")
  {
    hide F.Quantize, F.Consume;
    var words, ts := ["id", "=", "42"], [F.Lexeme(ID, "id"), F.Lexeme(Char('='), "="), F.Lexeme(Number, "42")];
    ExampleWords();
    LineQuantized(words, ts, lastToken, F.Groups(0, 0));
    ExampleLine();
    ExampleConsumed(lastToken);
  }

  lemma ExampleLine()
    ensures Line(["id", "=", "42"]) == " id = 42"
  {
    var words := ["id", "=", "42"];
    assert words[1..] == ["=", "42"] && ["=", "42"][1..] == ["42"] && ["42"][1..] == [];
    assert Line(["42"]) == " 42";
    assert Line(["=", "42"]) == " = 42";
  }

  lemma ExampleConsumed(lastToken: Kind)
    requires lastToken != As && lastToken != Savepoint
    ensures var ts := [F.Lexeme(ID, "id"), F.Lexeme(Char('='), "="), F.Lexeme(Number, "42")];
            F.Consume(F.State("", lastToken, F.Groups(0, 0)), ts).out == F.Some("id = ?")
  {
    hide F.Step, F.Consume;
    var a, b, c := F.Lexeme(ID, "id"), F.Lexeme(Char('='), "="), F.Lexeme(Number, "42");
    NameStep(lastToken);
    EqualsStep();
    NumberStep();
    assert [a, b, c] == [a] + [b, c] && [b, c] == [b] + [c] && [c] == [c] + [];
    ConsumedFirst(F.State("", lastToken, F.Groups(0, 0)), a, [b, c]);
    ConsumedFirst(F.State("id", ID, F.Groups(0, 0)), b, [c]);
    ConsumedFirst(F.State("id =", Char('='), F.Groups(0, 0)), c, []);
    ConsumedAll(F.Step(F.State("id =", Char('='), F.Groups(0, 0)), c));
  }

  lemma ConsumedFirst(s: F.State, t: F.Lexeme, rest: seq<F.Lexeme>)
    requires t.kind != LexError
    ensures F.Consume(s, [t] + rest) == F.Consume(F.Step(s, t), rest)
  {
    hide F.Step;
    assert ([t] + rest)[1..] == rest;
  }

  lemma ConsumedAll(s: F.State)
    ensures F.Consume(s, []).out == F.Some(s.out)
  {
  }

  lemma NameStep(lastToken: Kind)
    requires lastToken != As && lastToken != Savepoint
    ensures F.Step(F.State("", lastToken, F.Groups(0, 0)), F.Lexeme(ID, "id")) == F.State("id", ID, F.Groups(0, 0))
  {
    assert "" + "" + "id" == "id";
  }

  lemma EqualsStep()
    ensures F.Step(F.State("id", ID, F.Groups(0, 0)), F.Lexeme(Char('='), "=")) ==
            F.State("id =", Char('='), F.Groups(0, 0))
  {
    assert "id" + " " + "=" == "id =";
  }

  lemma NumberStep()
    ensures F.Step(F.State("id =", Char('='), F.Groups(0, 0)), F.Lexeme(Number, "42")).out == "id = ?"
  {
    assert "id =" + " " + "?" == "id = ?";
  }
}
