/** obfuscate/sql.go: the filters that erase literals and comments from SQL, and the consumer that applies them. */
module SqlFilters {
  import opened SqlTokenizer

  /** A token's bytes; `None` is the nil slice of a dropped token. */
  datatype Buffer = None | Some(text: string)

  datatype Lexeme = Lexeme(kind: Kind, text: string)

  // ---------------------------------------------------------------- the filters

  function Discard(token: Kind, lastToken: Kind, buffer: Buffer): (Kind, Buffer) {
    if lastToken == As then (FilteredComma, None)
    else if token == As then (As, None)
    else if token == Comment || token == Char(';') then (Filtered, None)
    else (token, buffer)
  }

  predicate Literal(token: Kind) {
    token in {String, Number, Null, Variable, PreparedStatement, BooleanLiteral, EscapeSequence}
  }

  function Replace(token: Kind, lastToken: Kind, buffer: Buffer): (Kind, Buffer) {
    if lastToken == Savepoint then (Filtered, Some("?"))
    else if Literal(token) then (Filtered, Some("?"))
    else (token, buffer)
  }

  /** The counters of the grouping filter. */
  datatype Groups = Groups(filter: nat, multi: nat)

  function Group(g: Groups, token: Kind, lastToken: Kind, buffer: Buffer): (Groups, Kind, Buffer) {
    var opens := (lastToken == Char('(') && token == Filtered) || (token == Char('(') && g.multi > 0);
    var g1 := if opens then g.(multi := g.multi + 1) else g;
    if token == Filtered then
      (g1.(filter := g1.filter + 1), Filtered, if g1.filter > 0 then None else buffer)
    else if g1.filter > 0 && (token == Char(',') || token == Char('?')) then (g1, Filtered, None)
    else if g1.multi > 1 then (g1, Filtered, None)
    else if token != Char(',') && token != Char('(') && token != Char(')') then (Groups(0, 0), token, buffer)
    else (g1, token, buffer)
  }

  // ---------------------------------------------------------------- the consumer

  /** The consumer in the middle of a string. */
  datatype State = State(out: string, lastToken: Kind, groups: Groups)

  function Chain(s: State, t: Lexeme): (Groups, Kind, Buffer) {
    var (token1, buffer1) := Discard(t.kind, s.lastToken, Some(t.text));
    var (token2, buffer2) := Replace(token1, s.lastToken, buffer1);
    Group(s.groups, token2, s.lastToken, buffer2)
  }

  function Separator(out: string, token: Kind, lastToken: Kind): string {
    if out == "" || token == Char(',') || (token == Char('=') && lastToken == Char(':')) then "" else " "
  }

  /** One token: filtered, written if it was not dropped, and remembered. */
  function Step(s: State, t: Lexeme): State {
    var (groups, token, buffer) := Chain(s, t);
    State(if buffer.None? then s.out else s.out + Separator(s.out, token, s.lastToken) + buffer.text, token, groups)
  }

  /** The result, nothing after a lexical error, and the last token, which outlives the call. */
  datatype Result = Result(out: Buffer, lastToken: Kind)

  /** The tokens up to the end of the input or the first lexical error. */
  function Tokens(c: Cursor): seq<Lexeme>
    decreases Size(c)
  {
    ScanConsumes(c);
    var t := Scan(c);
    if t.kind == EOF then []
    else [Lexeme(t.kind, t.text)] + if t.kind == LexError then [] else Tokens(t.next)
  }

  function Consume(s: State, tokens: seq<Lexeme>): Result
    decreases |tokens|
  {
    if tokens == [] then Result(Some(s.out), s.lastToken)
    else if tokens[0].kind == LexError then Result(None, s.lastToken)
    else Consume(Step(s, tokens[0]), tokens[1..])
  }

  /** What a consumer whose last token was `lastToken` makes of an input. */
  function Quantize(c: Cursor, lastToken: Kind, groups: Groups): Result {
    Consume(State("", lastToken, groups), Tokens(c))
  }

  class GroupingFilter {
    var groupFilter: nat
    var groupMulti: nat

    ghost function View(): Groups
      reads this
    {
      Groups(groupFilter, groupMulti)
    }

    constructor ()
      ensures View() == Groups(0, 0)
    {
      groupFilter, groupMulti := 0, 0;
    }

    method Filter(token: Kind, lastToken: Kind, buffer: Buffer) returns (token': Kind, buffer': Buffer)
      modifies this
      ensures View() == Group(old(View()), token, lastToken, buffer).0
      ensures token' == Group(old(View()), token, lastToken, buffer).1
      ensures buffer' == Group(old(View()), token, lastToken, buffer).2
    {
      if (lastToken == Char('(') && token == Filtered) || (token == Char('(') && groupMulti > 0) {
        groupMulti := groupMulti + 1;
      }
      if token == Filtered {
        groupFilter := groupFilter + 1;
        if groupFilter > 1 {
          return Filtered, None;
        }
      } else if groupFilter > 0 && (token == Char(',') || token == Char('?')) {
        return Filtered, None;
      } else if groupMulti > 1 {
        return Filtered, None;
      } else if token != Char(',') && token != Char('(') && token != Char(')') {
        Reset();
      }
      return token, buffer;
    }

    method Reset()
      modifies this
      ensures View() == Groups(0, 0)
    {
      groupFilter, groupMulti := 0, 0;
    }
  }

  class TokenConsumer {
    const tokenizer: Tokenizer
    const grouping: GroupingFilter
    var lastToken: Kind

    constructor ()
      ensures fresh(tokenizer) && fresh(grouping) && lastToken == Char(NUL)
      ensures tokenizer.View() == Cursor(NUL, []) && grouping.View() == Groups(0, 0)
    {
      tokenizer := new Tokenizer([]);
      grouping := new GroupingFilter();
      lastToken := Char(NUL);
    }

    /** Filters `input` into `out`. Only the last token survives the call; everything else is reset. */
    method Process(input: string) returns (out: Buffer)
      modifies this, tokenizer, grouping
      ensures Result(out, lastToken) ==
              Quantize(Cursor(old(tokenizer.lastChar), input), old(lastToken), old(grouping.View()))
      ensures tokenizer.View() == Cursor(NUL, []) && grouping.View() == Groups(0, 0)
    {
      hide Scan, Group;
      var written := "";
      tokenizer.inStream := input;
      ghost var start := tokenizer.View();
      ScanConsumes(tokenizer.View());
      ghost var before := tokenizer.View();
      var token, text := tokenizer.ScanToken();
      while token != EOF
        invariant Scanned(token, text, tokenizer.View()) == Scan(before)
        invariant Consume(State(written, lastToken, grouping.View()), Tokens(before)) ==
                  Quantize(start, old(lastToken), old(grouping.View()))
        decreases Size(before)
      {
        ScanConsumes(before);
        if token == LexError {
          ResetAll();
          return None;
        }
        ghost var s, t := State(written, lastToken, grouping.View()), Lexeme(token, text);
        ConsumeNext(s, before);
        var filtered, buffer := Discard(token, lastToken, Some(text)).0, Discard(token, lastToken, Some(text)).1;
        filtered, buffer := Replace(filtered, lastToken, buffer).0, Replace(filtered, lastToken, buffer).1;
        filtered, buffer := grouping.Filter(filtered, lastToken, buffer);
        if buffer.Some? {
          written := written + Separator(written, filtered, lastToken) + buffer.text;
        }
        lastToken := filtered;
        before := tokenizer.View();
        token, text := tokenizer.ScanToken();
      }
      ConsumeEnd(State(written, lastToken, grouping.View()), before);
      ResetAll();
      return Some(written);
    }

    method ResetAll()
      modifies tokenizer, grouping
      ensures tokenizer.View() == Cursor(NUL, []) && grouping.View() == Groups(0, 0)
    {
      tokenizer.Reset();
      grouping.Reset();
    }
  }

  lemma ConsumeNext(s: State, c: Cursor)
    requires Scan(c).kind != EOF && Scan(c).kind != LexError
    ensures Consume(s, Tokens(c)) == Consume(Step(s, Lexeme(Scan(c).kind, Scan(c).text)), Tokens(Scan(c).next))
    ensures Size(Scan(c).next) < Size(c)
  {
    ScanConsumes(c);
    hide Scan, Step;
    assert Tokens(c)[1..] == Tokens(Scan(c).next);
  }

  lemma ConsumeEnd(s: State, c: Cursor)
    requires Scan(c).kind == EOF
    ensures Consume(s, Tokens(c)) == Result(Some(s.out), s.lastToken)
  {
    hide Scan;
  }

  // ---------------------------------------------------------------- literals and comments are erased

  /** The tokens whose text must not reach the output. */
  predicate Hidden(token: Kind) {
    Literal(token) || token == Comment
  }

  /** A literal or a comment writes nothing or a question mark, whatever came before it. */
  lemma HiddenIsErased(s: State, t: Lexeme)
    requires Hidden(t.kind)
    ensures Step(s, t).out in {s.out, s.out + "?", s.out + " ?"}
    ensures t.kind == Comment && s.lastToken != Savepoint ==> Step(s, t).out == s.out
  {
    hide Group, Separator;
    var (token1, buffer1) := Discard(t.kind, s.lastToken, Some(t.text));
    var (token2, buffer2) := Replace(token1, s.lastToken, buffer1);
    GroupPasses(s.groups, token2, s.lastToken, buffer2);
    var sep := Separator(s.out, Chain(s, t).1, s.lastToken);
    SeparatorIs(s.out, Chain(s, t).1, s.lastToken);
    assert s.out + "" + "?" == s.out + "?" && s.out + " " + "?" == s.out + " ?";
  }

  lemma SeparatorIs(out: string, token: Kind, lastToken: Kind)
    ensures Separator(out, token, lastToken) == "" || Separator(out, token, lastToken) == " "
  {
  }

  lemma GroupPasses(g: Groups, token: Kind, lastToken: Kind, buffer: Buffer)
    ensures var r := Group(g, token, lastToken, buffer);
            (r.2 == None || (r.1 == token && r.2 == buffer)) && (token == Filtered ==> r.1 == Filtered)
  {
  }

  /** Two tokens that differ at most in the text of a literal or a comment. */
  predicate Alike(t: Lexeme, u: Lexeme) {
    t.kind == u.kind && (t.text == u.text || Hidden(t.kind))
  }

  lemma AlikeSteps(s: State, t: Lexeme, u: Lexeme)
    requires Alike(t, u)
    ensures Step(s, t) == Step(s, u)
  {
    hide Group;
  }

  ghost predicate AllAlike(ts: seq<Lexeme>, us: seq<Lexeme>) {
    |ts| == |us| && forall i :: 0 <= i < |ts| ==> Alike(ts[i], us[i])
  }

  /** The output does not depend on the text of literals and comments: inputs whose tokens differ only there
      give the same result, from any state of the filters. */
  lemma {:induction false} OutputIgnoresLiterals(s: State, ts: seq<Lexeme>, us: seq<Lexeme>)
    requires AllAlike(ts, us)
    ensures Consume(s, ts) == Consume(s, us)
    decreases |ts|
  {
    hide Step;
    if ts != [] {
      assert Alike(ts[0], us[0]);
      AlikeSteps(s, ts[0], us[0]);
      if ts[0].kind != LexError {
        OutputIgnoresLiterals(Step(s, ts[0]), ts[1..], us[1..]);
      }
    }
  }

  /** A string as it is written between quotes: quotes doubled, backslashes escaped. */
  function Quoted(s: string): string {
    if s == "" then ""
    else (if s[0] == '\'' || s[0] == '\\' then [s[0], s[0]] else [s[0]]) + Quoted(s[1..])
  }

  predicate Bytes(s: string) {
    EOF_CHAR !in s
  }

  lemma {:induction false} QuotedStringScans(s: string, post: string, text: string)
    requires Bytes(s) && (post == [] || post[0] != '\'')
    ensures ScanString(Next(Cursor('\'', Quoted(s) + "'" + post)), '\'', text) ==
            Scanned(String, text + s, Next(Cursor('\'', post)))
    decreases |s|
  {
    if s == "" {
      QuoteCloses(post, text);
    } else {
      hide Quoted, ScanString;
      QuotedStringScans(s[1..], post, text + [s[0]]);
      assert text + [s[0]] + s[1..] == text + s;
      QuotedStep(s, "'" + post, text);
      Grouping(Quoted(s), post);
      Grouping(Quoted(s[1..]), post);
    }
  }

  lemma Grouping(a: string, post: string)
    ensures a + ("'" + post) == a + "'" + post
  {
  }

  lemma QuoteCloses(post: string, text: string)
    requires post == [] || post[0] != '\''
    ensures ScanString(Next(Cursor('\'', Quoted("") + "'" + post)), '\'', text) ==
            Scanned(String, text + "", Next(Cursor('\'', post)))
  {
    var rest := "" + "'" + post;
    assert rest == "'" + post && rest[1..] == post && text + "" == text;
    assert Next(Cursor('\'', rest)) == Cursor('\'', post);
  }

  /** The first character of a quoted string is scanned to itself. */
  lemma QuotedStep(s: string, post: string, text: string)
    requires Bytes(s) && s != ""
    ensures ScanString(Next(Cursor('\'', Quoted(s) + post)), '\'', text) ==
            ScanString(Next(Cursor('\'', Quoted(s[1..]) + post)), '\'', text + [s[0]])
  {
    var tail, c := Quoted(s[1..]) + post, s[0];
    assert c in s;
    hide Quoted;
    QuotedHead(s);
    if c == '\'' || c == '\\' {
      assert Quoted(s) + post == [c] + ([c] + tail);
      FirstOf(c, [c] + tail);
      FirstOf(c, tail);
    } else {
      assert Quoted(s) + post == [c] + tail;
      FirstOf(c, tail);
    }
  }

  lemma QuotedHead(s: string)
    requires s != ""
    ensures Quoted(s) == (if s[0] == '\'' || s[0] == '\\' then [s[0], s[0]] else [s[0]]) + Quoted(s[1..])
  {
  }

  lemma FirstOf(c: char, tail: string)
    ensures forall last :: Next(Cursor(last, [c] + tail)) == Cursor(c, tail)
  {
    assert ([c] + tail)[1..] == tail;
  }

  /** Quoting and scanning a string gives the string back, whatever it holds. */
  lemma StringRoundTrip(s: string, post: string)
    requires Bytes(s) && (post == [] || post[0] != '\'')
    ensures Scan(Cursor('\'', Quoted(s) + "'" + post)) == Scanned(String, s, Next(Cursor('\'', post)))
  {
    hide ScanString, Quoted;
    QuotedStringScans(s, post, "");
    assert "" + s == s;
  }

  /** A string whose quote is never closed is an error. */
  lemma {:induction false} UnclosedString(s: string, text: string)
    requires Bytes(s)
    ensures ScanString(Next(Cursor('\'', Quoted(s))), '\'', text).kind == LexError
    decreases |s|
  {
    if s != "" {
      UnclosedString(s[1..], text + [s[0]]);
      hide Quoted, ScanString;
      QuotedStep(s, "", text);
      assert Quoted(s) + "" == Quoted(s) && Quoted(s[1..]) + "" == Quoted(s[1..]);
    }
  }

  /** Two inputs that come to a quoted string give the same result whatever the strings hold. */
  lemma StringIsErased(st: State, s: string, s': string, post: string)
    requires Bytes(s) && Bytes(s') && (post == [] || post[0] != '\'')
    ensures Consume(st, Tokens(Cursor('\'', Quoted(s) + "'" + post))) == Consume(st, Tokens(Cursor('\'', Quoted(s') + "'" + post)))
  {
    hide Scan, Step, Consume, Quoted;
    StringRoundTrip(s, post);
    StringRoundTrip(s', post);
    OutputIgnoresLiterals(st, Tokens(Cursor('\'', Quoted(s) + "'" + post)), Tokens(Cursor('\'', Quoted(s') + "'" + post)));
  }

  // ---------------------------------------------------------------- grouping

  ghost predicate AllLiterals(ts: seq<Lexeme>) {
    ts != [] && forall t :: t in ts ==> Literal(t.kind)
  }

  const OPEN := Lexeme(Char('('), "(")
  const CLOSE := Lexeme(Char(')'), ")")
  const COMMA := Lexeme(Char(','), ",")

  /** The tokens of `(x, y, ...)`. */
  function GroupTokens(literals: seq<Lexeme>): seq<Lexeme> {
    if literals == [] then [OPEN, CLOSE] else [OPEN, literals[0]] + Further(literals[1..]) + [CLOSE]
  }

  function Further(literals: seq<Lexeme>): seq<Lexeme> {
    if literals == [] then [] else [COMMA, literals[0]] + Further(literals[1..])
  }

  /** The tokens of further groups, each after a comma. */
  function MoreGroups(groups: seq<seq<Lexeme>>): seq<Lexeme> {
    if groups == [] then [] else [COMMA] + GroupTokens(groups[0]) + MoreGroups(groups[1..])
  }

  function Steps(s: State, ts: seq<Lexeme>): State
    decreases |ts|
  {
    if ts == [] then s else Steps(Step(s, ts[0]), ts[1..])
  }

  lemma {:induction false} StepsAppend(s: State, ts: seq<Lexeme>, us: seq<Lexeme>)
    ensures Steps(s, ts + us) == Steps(Steps(s, ts), us)
    decreases |ts|
  {
    hide Step;
    if ts == [] {
      assert ts + us == us;
    } else {
      StepsAppend(Step(s, ts[0]), ts[1..], us);
      assert (ts + us)[0] == ts[0] && (ts + us)[1..] == ts[1..] + us;
    }
  }

  ghost predicate NoError(ts: seq<Lexeme>) {
    forall t :: t in ts ==> t.kind != LexError
  }

  /** What a run over the tokens returns is what their steps write, or nothing if one of them is a lexical error. */
  lemma {:induction false} ConsumeIsSteps(s: State, ts: seq<Lexeme>)
    ensures Consume(s, ts).out == if NoError(ts) then Some(Steps(s, ts).out) else None
    decreases |ts|
  {
    hide Step;
    if ts != [] {
      assert ts == [ts[0]] + ts[1..];
      if ts[0].kind != LexError {
        ConsumeIsSteps(Step(s, ts[0]), ts[1..]);
      }
    }
  }

  lemma NoErrorConcat(ts: seq<Lexeme>, us: seq<Lexeme>)
    ensures NoError(ts + us) <==> NoError(ts) && NoError(us)
  {
    assert forall t :: t in ts ==> t in ts + us;
    assert forall t :: t in us ==> t in ts + us;
  }

  lemma {:induction false} FurtherNoError(literals: seq<Lexeme>)
    requires forall t :: t in literals ==> Literal(t.kind)
    ensures NoError(Further(literals))
    decreases |literals|
  {
    if literals != [] {
      assert Literal(literals[0].kind);
      FurtherNoError(literals[1..]);
      NoErrorConcat([COMMA, literals[0]], Further(literals[1..]));
    }
  }

  lemma GroupNoError(literals: seq<Lexeme>)
    requires AllLiterals(literals)
    ensures NoError(GroupTokens(literals))
  {
    assert Literal(literals[0].kind);
    var inside := [OPEN, literals[0]] + Further(literals[1..]);
    FurtherNoError(literals[1..]);
    NoErrorConcat([OPEN, literals[0]], Further(literals[1..]));
    NoErrorConcat(inside, [CLOSE]);
  }

  lemma {:induction false} MoreNoError(groups: seq<seq<Lexeme>>)
    requires forall g :: g in groups ==> AllLiterals(g)
    ensures NoError(MoreGroups(groups))
    decreases |groups|
  {
    if groups != [] {
      GroupNoError(groups[0]);
      MoreNoError(groups[1..]);
      NoErrorConcat([COMMA], GroupTokens(groups[0]));
      NoErrorConcat([COMMA] + GroupTokens(groups[0]), MoreGroups(groups[1..]));
    }
  }

  predicate Plainly(lastToken: Kind) {
    lastToken != As && lastToken != Savepoint
  }

  function Word(out: string, word: string): string {
    if out == "" then word else out + " " + word
  }

  lemma StepLiteral(s: State, t: Lexeme)
    requires Literal(t.kind) && Plainly(s.lastToken)
    ensures Step(s, t) == State(if s.groups.filter > 0 then s.out else Word(s.out, "?"), Filtered,
                                Groups(s.groups.filter + 1, s.groups.multi + if s.lastToken == Char('(') then 1 else 0))
  {
  }

  lemma StepComma(s: State)
    requires Plainly(s.lastToken) && s.groups.filter > 0
    ensures Step(s, COMMA) == State(s.out, Filtered, s.groups)
  {
  }

  lemma StepOpen(s: State)
    requires Plainly(s.lastToken)
    ensures s.groups == Groups(0, 0) ==> Step(s, OPEN) == State(Word(s.out, "("), Char('('), Groups(0, 0))
    ensures s.groups.multi > 0 ==> Step(s, OPEN) == State(s.out, Filtered, Groups(s.groups.filter, s.groups.multi + 1))
  {
  }

  lemma StepClose(s: State)
    requires Plainly(s.lastToken) && s.groups.filter > 0
    ensures s.groups.multi <= 1 ==> Step(s, CLOSE) == State(Word(s.out, ")"), Char(')'), s.groups)
    ensures s.groups.multi > 1 ==> Step(s, CLOSE) == State(s.out, Filtered, s.groups)
  {
  }

  /** Inside a group whose first literal has been written, or in a later group: nothing more is written. */
  ghost predicate InGroup(s: State) {
    s.lastToken == Filtered && s.groups.filter > 0 && s.groups.multi > 0
  }

  lemma {:induction false} FurtherLiterals(s: State, literals: seq<Lexeme>)
    requires InGroup(s) && forall t :: t in literals ==> Literal(t.kind)
    ensures var s' := Steps(s, Further(literals));
            InGroup(s') && s'.out == s.out && s'.groups.multi == s.groups.multi
    decreases |literals|
  {
    if literals != [] {
      hide Step;
      var t := literals[0];
      assert Literal(t.kind);
      StepComma(s);
      StepLiteral(Step(s, COMMA), t);
      FurtherLiterals(Step(Step(s, COMMA), t), literals[1..]);
      StepsTwo(s, COMMA, t, Further(literals[1..]));
    }
  }

  lemma StepsTwo(s: State, t: Lexeme, u: Lexeme, rest: seq<Lexeme>)
    ensures Steps(s, [t, u] + rest) == Steps(Step(Step(s, t), u), rest)
  {
    hide Step;
    assert ([t, u] + rest)[1..] == [u] + rest && ([u] + rest)[1..] == rest;
  }

  lemma StepsOne(s: State, t: Lexeme)
    ensures Steps(s, [t]) == Step(s, t)
  {
    hide Step;
    assert [t][1..] == [];
  }

  lemma GroupWord(out: string)
    ensures Word(Word(Word(out, "("), "?"), ")") == Word(out, "( ? )")
  {
    if out == "" {
      assert "(" + " " + "?" + " " + ")" == "( ? )";
    } else {
      assert " " + "(" + " " + "?" + " " + ")" == " " + "( ? )";
      assert out + " " + "(" + " " + "?" + " " + ")" == out + (" " + "(" + " " + "?" + " " + ")");
      assert out + (" " + "( ? )") == out + " " + "( ? )";
    }
  }

  /** The first group is written with one question mark, however many literals it holds. */
  lemma FirstGroup(s: State, literals: seq<Lexeme>)
    requires AllLiterals(literals) && s.groups == Groups(0, 0) && s.lastToken != As && s.lastToken != Savepoint
    ensures var s' := Steps(s, GroupTokens(literals));
            && s'.out == Word(s.out, "( ? )")
            && s'.lastToken == Char(')') && s'.groups.filter > 0 && s'.groups.multi == 1
    ensures Consume(s, GroupTokens(literals)).out == Some(Word(s.out, "( ? )"))
  {
    hide Step, Word;
    GroupNoError(literals);
    ConsumeIsSteps(s, GroupTokens(literals));
    var t, more := literals[0], Further(literals[1..]);
    assert Literal(t.kind);
    StepOpen(s);
    var s1 := Step(s, OPEN);
    StepLiteral(s1, t);
    var s2 := Step(s1, t);
    FurtherLiterals(s2, literals[1..]);
    var s3 := Steps(s2, more);
    StepClose(s3);
    StepsTwo(s, OPEN, t, more);
    StepsAppend(s, [OPEN, t] + more, [CLOSE]);
    StepsOne(s3, CLOSE);
    GroupWord(s.out);
  }

  /** After the first group. */
  ghost predicate Grouped(s: State) {
    s.groups.filter > 0 && s.groups.multi > 0 && s.lastToken in {Filtered, Char(')')}
  }

  lemma LaterGroup(s: State, literals: seq<Lexeme>)
    requires Grouped(s) && AllLiterals(literals)
    ensures var s' := Steps(s, [COMMA] + GroupTokens(literals));
            s'.out == s.out && Grouped(s') && s'.groups.multi > 1
  {
    hide Step;
    var t, more := literals[0], Further(literals[1..]);
    assert Literal(t.kind);
    StepComma(s);
    var s1 := Step(s, COMMA);
    StepOpen(s1);
    var s2 := Step(s1, OPEN);
    StepLiteral(s2, t);
    var s3 := Step(s2, t);
    FurtherLiterals(s3, literals[1..]);
    var s4 := Steps(s3, more);
    StepClose(s4);
    StepsTwo(s1, OPEN, t, more);
    StepsAppend(s1, [OPEN, t] + more, [CLOSE]);
    StepsOne(s4, CLOSE);
    assert ([COMMA] + GroupTokens(literals))[1..] == GroupTokens(literals);
  }

  lemma {:induction false} LaterGroups(s: State, groups: seq<seq<Lexeme>>)
    requires Grouped(s) && forall g :: g in groups ==> AllLiterals(g)
    ensures var s' := Steps(s, MoreGroups(groups));
            s'.out == s.out && Grouped(s') && (s.groups.multi > 1 || groups != [] ==> s'.groups.multi > 1)
    decreases |groups|
  {
    if groups != [] {
      hide Step;
      LaterGroup(s, groups[0]);
      var first, s1 := [COMMA] + GroupTokens(groups[0]), Steps(s, [COMMA] + GroupTokens(groups[0]));
      LaterGroups(s1, groups[1..]);
      StepsAppend(s, first, MoreGroups(groups[1..]));
    }
  }

  /** Any number of groups of any number of literals is written as one group of one question mark. */
  lemma GroupsCollapse(s: State, first: seq<Lexeme>, groups: seq<seq<Lexeme>>)
    requires s.groups == Groups(0, 0) && s.lastToken != As && s.lastToken != Savepoint
    requires AllLiterals(first) && forall g :: g in groups ==> AllLiterals(g)
    ensures Consume(s, GroupTokens(first) + MoreGroups(groups)).out == Some(Word(s.out, "( ? )"))
  {
    hide Step, Consume, GroupTokens, MoreGroups;
    GroupNoError(first);
    MoreNoError(groups);
    NoErrorConcat(GroupTokens(first), MoreGroups(groups));
    ConsumeIsSteps(s, GroupTokens(first) + MoreGroups(groups));
    FirstGroup(s, first);
    LaterGroups(Steps(s, GroupTokens(first)), groups);
    StepsAppend(s, GroupTokens(first), MoreGroups(groups));
  }

  /** Once two groups have been seen the filter never resets: whatever follows them is dropped. */
  lemma {:induction false} NothingAfterTwoGroups(s: State, ts: seq<Lexeme>)
    requires s.groups.filter > 0 && s.groups.multi > 1
    ensures Steps(s, ts).out == s.out
    ensures Consume(s, ts).out == if NoError(ts) then Some(s.out) else None
    decreases |ts|
  {
    ConsumeIsSteps(s, ts);
    if ts != [] {
      var s1 := Step(s, ts[0]);
      assert s1.out == s.out && s1.groups.filter > 0 && s1.groups.multi > 1;
      hide Step;
      NothingAfterTwoGroups(s1, ts[1..]);
    }
  }

  /** So what follows two or more groups is lost, whatever it is. */
  lemma TailAfterGroupsIsLost(s: State, first: seq<Lexeme>, groups: seq<seq<Lexeme>>, tail: seq<Lexeme>)
    requires s.groups == Groups(0, 0) && s.lastToken != As && s.lastToken != Savepoint
    requires AllLiterals(first) && groups != [] && forall g :: g in groups ==> AllLiterals(g)
    ensures Consume(s, GroupTokens(first) + MoreGroups(groups) + tail).out ==
            if NoError(tail) then Some(Word(s.out, "( ? )")) else None
  {
    hide Step, Consume, GroupTokens, MoreGroups, Word;
    var front := GroupTokens(first) + MoreGroups(groups);
    FirstGroup(s, first);
    LaterGroups(Steps(s, GroupTokens(first)), groups);
    StepsAppend(s, GroupTokens(first), MoreGroups(groups));
    NothingAfterTwoGroups(Steps(s, front), tail);
    StepsAppend(s, front, tail);
    GroupNoError(first);
    MoreNoError(groups);
    NoErrorConcat(GroupTokens(first), MoreGroups(groups));
    NoErrorConcat(front, tail);
    ConsumeIsSteps(s, front + tail);
  }

  /** An input of several groups, with anything behind them, is quantized to one group. */
  lemma GroupsQuantized(c: Cursor, lastToken: Kind, first: seq<Lexeme>, groups: seq<seq<Lexeme>>, tail: seq<Lexeme>)
    requires Tokens(c) == GroupTokens(first) + MoreGroups(groups) + tail && Plainly(lastToken)
    requires AllLiterals(first) && groups != [] && forall g :: g in groups ==> AllLiterals(g)
    ensures Quantize(c, lastToken, Groups(0, 0)).out == if NoError(tail) then Some("( ? )") else None
  {
    hide Consume, Tokens, GroupTokens, MoreGroups;
    TailAfterGroupsIsLost(State("", lastToken, Groups(0, 0)), first, groups, tail);
  }

  // ---------------------------------------------------------------- other tokens

  /** The tokens that no filter looks for. */
  predicate Ordinary(token: Kind) {
    token in {ID, Limit, ValueArg, ListArg, NullSafeEqual, LE, GE, NE} ||
    (token.Char? && token.c in "+*&|^~[]./-<>:")
  }

  lemma OneConsumed(s: State, t: Lexeme)
    requires t.kind != LexError
    ensures Consume(s, [t]) == Result(Some(Step(s, t).out), Step(s, t).lastToken)
  {
    hide Step;
    assert [t][1..] == [];
  }

  /** An ordinary token is written, and ends the grouping, exactly as long as fewer than two groups have been
      counted. */
  lemma OrdinaryIsWritten(s: State, t: Lexeme)
    requires Ordinary(t.kind) && Plainly(s.lastToken) && t.text != ""
    ensures Step(s, t).out == Word(s.out, t.text) <==> s.groups.multi <= 1
    ensures s.groups.multi <= 1 ==> Step(s, t).groups == Groups(0, 0) && Step(s, t).lastToken == t.kind
    ensures Consume(s, [t]).out == Some(if s.groups.multi <= 1 then Word(s.out, t.text) else s.out)
  {
    OneConsumed(s, t);
    OrdinaryStep(s, t);
    hide Step, Consume;
    assert |Word(s.out, t.text)| > |s.out|;
  }

  lemma OrdinaryStep(s: State, t: Lexeme)
    requires Ordinary(t.kind) && Plainly(s.lastToken)
    ensures Step(s, t) ==
            if s.groups.multi <= 1 then State(Word(s.out, t.text), t.kind, Groups(0, 0)) else State(s.out, Filtered, s.groups)
  {
    OrdinaryIsPlain(t.kind);
    hide Ordinary;
    assert s.out == "" ==> s.out + "" + t.text == t.text;
  }

  lemma OrdinaryIsPlain(token: Kind)
    requires Ordinary(token)
    ensures !Literal(token) && token !in {As, Comment, Filtered, Char(';'), Char(','), Char('('), Char(')'), Char('?'), Char('=')}
  {
  }

  /** What is written, with a space unless it is the first word, a comma, or an equals sign behind a colon. */
  function Spaced(out: string, t: Lexeme, lastToken: Kind): string {
    if out == "" then t.text
    else if t.kind == Char(',') || (t.kind == Char('=') && lastToken == Char(':')) then out + t.text
    else out + " " + t.text
  }

  /** What becomes of each kind of token outside of groups: literals become a question mark, comments, semicolons and AS
      are dropped, and everything else is written. */
  lemma FilterTable(s: State, t: Lexeme)
    requires s.groups == Groups(0, 0) && s.lastToken != As && s.lastToken != Savepoint
    requires t.kind !in {EOF, LexError, Filtered, FilteredComma}
    ensures t.kind in {String, Number, Null, Variable, PreparedStatement, BooleanLiteral, EscapeSequence} ==>
              Consume(s, [t]) == Result(Some(if s.out == "" then "?" else s.out + " " + "?"), Filtered)
    ensures t.kind in {Comment, Char(';')} ==> Consume(s, [t]) == Result(Some(s.out), Filtered)
    ensures t.kind == As ==> Consume(s, [t]) == Result(Some(s.out), As)
    ensures t.kind !in {String, Number, Null, Variable, PreparedStatement, BooleanLiteral, EscapeSequence,
                        Comment, Char(';'), As} ==>
              Consume(s, [t]) == Result(Some(Spaced(s.out, t, s.lastToken)), t.kind)
  {
    OneConsumed(s, t);
    hide Consume;
    NoSpace(s.out, "?");
    NoSpace(s.out, t.text);
  }

  lemma NoSpace(out: string, text: string)
    ensures out + "" + text == out + text && (out == "" ==> out + text == text)
  {
  }

  /** Inside a group: behind its first literal, further literals, commas and question marks are dropped, and the closing
      parenthesis is written; in a second group everything is dropped. */
  lemma GroupTable(s: State, t: Lexeme)
    requires s.groups.filter > 0 && s.lastToken !in {As, Savepoint, Char('(')} && t.kind !in {EOF, LexError, As}
    ensures t.kind in {String, Number, Null, Variable, PreparedStatement, BooleanLiteral, EscapeSequence,
                       Comment, Char(';'), Char(','), Char('?')} ==>
              Consume(s, [t]) == Result(Some(s.out), Filtered)
    ensures s.groups.multi <= 1 && t.kind == Char(')') ==>
              Consume(s, [t]) == Result(Some(if s.out == "" then t.text else s.out + " " + t.text), Char(')'))
    ensures s.groups.multi >= 2 ==> Consume(s, [t]) == Result(Some(s.out), Filtered)
    ensures s.groups.multi == 1 && t.kind == Char('(') ==> Consume(s, [t]) == Result(Some(s.out), Filtered)
  {
    OneConsumed(s, t);
    hide Consume;
    NoSpace(s.out, t.text);
  }

  /** Behind AS one token is dropped, whatever it is, and the alias is forgotten. */
  lemma AliasIsDropped(s: State, alias: Lexeme)
    requires s.groups == Groups(0, 0) && s.lastToken != As && s.lastToken != Savepoint
    requires alias.kind !in {EOF, LexError}
    ensures Consume(s, [Lexeme(As, "AS"), alias]) == Result(Some(s.out), FilteredComma)
  {
    var word := Lexeme(As, "AS");
    OneConsumed(Step(s, word), alias);
    assert [word, alias][1..] == [alias];
  }

  /** Behind SAVEPOINT one token is replaced, whatever it is. */
  lemma SavepointHides(s: State, t: Lexeme)
    requires s.groups == Groups(0, 0) && s.lastToken == Savepoint && t.kind !in {EOF, LexError}
    ensures Consume(s, [t]) == Result(Some(if s.out == "" then "?" else s.out + " " + "?"), Filtered)
  {
    OneConsumed(s, t);
    NoSpace(s.out, "?");
  }

  /** With the counters reset, a name is replaced if and only if the token before it is SAVEPOINT. */
  lemma NameIsReplaced(s: State, name: Lexeme)
    requires s.groups == Groups(0, 0) && s.lastToken != As
    requires name.kind == ID && name.text != "" && name.text != "?"
    ensures Step(s, name).out == s.out + Separator(s.out, Filtered, s.lastToken) + "?" <==> s.lastToken == Savepoint
    ensures s.lastToken != Savepoint ==> Step(s, name).out == s.out + Separator(s.out, ID, s.lastToken) + name.text
  {
    var sep := Separator(s.out, ID, s.lastToken);
    assert sep == Separator(s.out, Filtered, s.lastToken);
    if s.lastToken != Savepoint {
      assert name.text == (s.out + sep + name.text)[|s.out + sep|..] && "?" == (s.out + sep + "?")[|s.out + sep|..];
    }
  }

  /** Comments and semicolons. */
  predicate Skipped(ts: seq<Lexeme>) {
    forall t :: t in ts ==> t.kind == Comment || t.kind == Char(';')
  }

  /** Behind SAVEPOINT the first comment or semicolon is replaced, the others are dropped, and the filters forget
      that there was a SAVEPOINT. */
  lemma {:induction false} SkippedSteps(s: State, ts: seq<Lexeme>)
    requires Skipped(ts) && s.groups.multi == 0
    requires if s.lastToken == Savepoint then s.groups.filter == 0 else s.lastToken == Filtered && s.groups.filter > 0
    ensures var s' := Steps(s, ts);
            && s'.groups.multi == 0 && (s'.lastToken == Filtered ==> s'.groups.filter > 0)
            && (s'.lastToken == if s.lastToken == Savepoint && ts == [] then Savepoint else Filtered)
            && s'.out == (if s.lastToken == Savepoint && ts != [] then Word(s.out, "?") else s.out)
            && (ts == [] ==> s' == s)
    decreases |ts|
  {
    if ts != [] {
      SkippedStep(s, ts[0]);
      hide Step;
      SkippedSteps(Step(s, ts[0]), ts[1..]);
    }
  }

  lemma SkippedStep(s: State, t: Lexeme)
    requires Skipped([t]) && s.groups.multi == 0
    requires if s.lastToken == Savepoint then s.groups.filter == 0 else s.lastToken == Filtered && s.groups.filter > 0
    ensures Step(s, t).out == if s.lastToken == Savepoint then Word(s.out, "?") else s.out
    ensures Step(s, t).groups.multi == 0 && Step(s, t).lastToken == Filtered && Step(s, t).groups.filter > 0
  {
    assert t in [t];
  }

  /** The name of a savepoint is replaced exactly when no comment and no semicolon stands between it and SAVEPOINT;
      otherwise the first of those is replaced, and the name written. */
  lemma SavepointName(s: State, between: seq<Lexeme>, name: Lexeme)
    requires s.lastToken == Savepoint && s.groups == Groups(0, 0) && Skipped(between)
    requires name.kind == ID && name.text != "" && name.text != "?"
    ensures var before := Steps(s, between).out;
            && (Steps(s, between + [name]).out == Word(before, "?") <==> between == [])
            && (between != [] ==> Steps(s, between + [name]).out == Word(Word(s.out, "?"), name.text))
    ensures Consume(s, between + [name]).out ==
            Some(if between == [] then Word(s.out, "?") else Word(Word(s.out, "?"), name.text))
  {
    assert NoError(between + [name]);
    ConsumeIsSteps(s, between + [name]);
    SkippedSteps(s, between);
    var s1 := Steps(s, between);
    StepsAppend(s, between, [name]);
    StepsOne(s1, name);
    if between == [] {
      NameIsReplaced(s, name);
    } else {
      OrdinaryIsWritten(s1, name);
      WordsDiffer(s1.out, name.text);
    }
  }

  lemma WordsDiffer(out: string, text: string)
    requires text != "?"
    ensures Word(out, text) != Word(out, "?")
  {
    var n := |Word(out, "")|;
    assert Word(out, text)[n..] == text && Word(out, "?")[n..] == "?";
  }
}
