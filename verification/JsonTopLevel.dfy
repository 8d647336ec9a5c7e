/** obfuscate/json.go: scalars at the top level of a stream.

    A document is redacted from the state the earlier ones left, so the run of a stream is followed document by
    document: `WipeFrom` continues a run from any state of the scanner. */
module JsonTopLevel {
  import opened JsonScanner
  import opened JsonText
  import opened JsonReader
  import opened JsonStreams
  import opened JsonObfuscator

  // ---------------------------------------------------------------- continuing a run

  function WipeFrom(w: Wiper, s: Scan, input: string, keepers: set<string>): Wiper {
    if input == "" then w
    else
      var before, c := input[..|input| - 1], input[|input| - 1];
      Emit(WipeFrom(w, s, before, keepers), Next(Feed(s, before), c).1, c, keepers)
  }

  lemma {:induction false} WipeIsFrom(w: Wiper, input: string, keepers: set<string>)
    ensures Wipe(w, input, keepers) == WipeFrom(w, INITIAL, input, keepers)
  {
    if input != "" {
      WipeIsFrom(w, input[..|input| - 1], keepers);
    }
  }

  lemma WipeFromLast(w: Wiper, s: Scan, input: string, c: char, keepers: set<string>)
    ensures WipeFrom(w, s, input + [c], keepers) == Emit(WipeFrom(w, s, input, keepers), Next(Feed(s, input), c).1, c, keepers)
    ensures Feed(s, input + [c]) == Next(Feed(s, input), c).0
  {
    assert (input + [c])[..|input|] == input;
  }

  lemma WipeFromOne(w: Wiper, s: Scan, c: char, keepers: set<string>)
    ensures WipeFrom(w, s, [c], keepers) == Emit(w, Next(s, c).1, c, keepers)
    ensures Feed(s, [c]) == Next(s, c).0
  {
    WipeFromLast(w, s, "", c, keepers);
    assert "" + [c] == [c];
  }

  lemma {:induction false} WipeConcat(w: Wiper, s: Scan, a: string, b: string, keepers: set<string>)
    ensures Feed(s, a + b) == Feed(Feed(s, a), b)
    ensures WipeFrom(w, s, a + b, keepers) == WipeFrom(WipeFrom(w, s, a, keepers), Feed(s, a), b, keepers)
    decreases |b|
  {
    hide Emit, Next;
    if b == "" {
      assert a + b == a;
    } else {
      var b', c := b[..|b| - 1], b[|b| - 1];
      assert b == b' + [c] && a + b == (a + b') + [c];
      WipeConcat(w, s, a, b', keepers);
      WipeFromLast(w, s, a + b', c, keepers);
      WipeFromLast(WipeFrom(w, s, a, keepers), Feed(s, a), b', c, keepers);
    }
  }

  /** A first byte on which two scanners agree makes their runs the same. */
  lemma WipeSwitch(w: Wiper, s: Scan, s': Scan, input: string, keepers: set<string>)
    requires input != "" && Next(s, input[0]) == Next(s', input[0])
    ensures WipeFrom(w, s, input, keepers) == WipeFrom(w, s', input, keepers) && Feed(s, input) == Feed(s', input)
  {
    hide Next, Emit, WipeFrom, Feed;
    var c, rest := input[0], input[1..];
    assert input == [c] + rest;
    WipeFromOne(w, s, c, keepers);
    WipeFromOne(w, s', c, keepers);
    WipeConcat(w, s, [c], rest, keepers);
    WipeConcat(w, s', [c], rest, keepers);
  }

  /** What has been written before only stands in front of what is written. */
  function WithPrefix(w: Wiper, x: string): Wiper {
    w.(out := x + w.out)
  }

  lemma WriteBehind(w: Wiper, x: string, t: string)
    ensures Write(WithPrefix(w, x), t) == WithPrefix(Write(w, t), x) && w.out <= Write(w, t).out
  {
    assert x + (w.out + t) == (x + w.out) + t;
  }

  lemma LiteralBehind(w: Wiper, x: string, c: char)
    ensures Literal(WithPrefix(w, x), c) == WithPrefix(Literal(w, c), x) && w.out <= Literal(w, c).out
  {
    WriteBehind(w, x, MASK);
    WriteBehind(w, x, [c]);
    WriteBehind(w.(buf := w.buf + [c]), x, [c]);
  }

  lemma EndBehind(w: Wiper, x: string, depth: int)
    ensures ValueEnd(WithPrefix(w, x), depth) == WithPrefix(ValueEnd(w, depth), x) && ValueEnd(w, depth).out == w.out
    ensures PopClosure(WithPrefix(w, x)) == WithPrefix(PopClosure(w), x) && PopClosure(w).out == w.out
    ensures SetKey(WithPrefix(w, x)) == WithPrefix(SetKey(w), x) && SetKey(w).out == w.out
  {
  }

  function Keyed(w: Wiper, keepers: set<string>): Wiper {
    (if !w.keeping && Trim(w.buf) in keepers then w.(keeping := true, keepDepth := |w.closures| + 1) else w)
      .(buf := "", key := false)
  }

  function Opened(w: Wiper, b: bool): Wiper {
    SetKey(w.(closures := w.closures + [b]))
  }

  lemma EmitParts(w: Wiper, op: Op, c: char, keepers: set<string>)
    ensures Emit(w, op, c, keepers) ==
            match op
            case ScanBeginObject => Write(Opened(w, true), [c])
            case ScanBeginArray => Write(Opened(w, false), [c])
            case ScanEndArray => Write(ValueEnd(PopClosure(w), |w.closures|), [c])
            case ScanEndObject => Write(ValueEnd(PopClosure(w), |w.closures|), [c])
            case ScanObjectValue => Write(ValueEnd(w, |w.closures|), [c])
            case ScanArrayValue => Write(ValueEnd(w, |w.closures|), [c])
            case ScanBeginLiteral => Literal(w, c)
            case ScanContinue => Literal(w, c)
            case ScanObjectKey => Write(Keyed(w, keepers), [c])
            case ScanSkipSpace => w
            case ScanEnd => Write(w, [c])
            case ScanError => w
  {
    hide Trim;
  }

  lemma PartsBehind(w: Wiper, x: string, keepers: set<string>)
    ensures Keyed(WithPrefix(w, x), keepers) == WithPrefix(Keyed(w, keepers), x) && Keyed(w, keepers).out == w.out
    ensures forall b :: Opened(WithPrefix(w, x), b) == WithPrefix(Opened(w, b), x) && Opened(w, b).out == w.out
  {
    hide Trim;
  }

  lemma EmitBehind(w: Wiper, x: string, op: Op, c: char, keepers: set<string>)
    ensures Emit(WithPrefix(w, x), op, c, keepers) == WithPrefix(Emit(w, op, c, keepers), x)
    ensures w.out <= Emit(w, op, c, keepers).out
  {
    hide Emit, Write, ValueEnd, PopClosure, Keyed, Opened, Literal;
    EmitParts(w, op, c, keepers);
    EmitParts(WithPrefix(w, x), op, c, keepers);
    PartsBehind(w, x, keepers);
    LiteralBehind(w, x, c);
    EndBehind(w, x, |w.closures|);
    EndBehind(PopClosure(w), x, |w.closures|);
    WriteBehind(w, x, [c]);
    WriteBehind(Opened(w, true), x, [c]);
    WriteBehind(Opened(w, false), x, [c]);
    WriteBehind(Keyed(w, keepers), x, [c]);
    WriteBehind(ValueEnd(w, |w.closures|), x, [c]);
    WriteBehind(ValueEnd(PopClosure(w), |w.closures|), x, [c]);
  }

  lemma {:induction false} WipeBehind(w: Wiper, s: Scan, x: string, input: string, keepers: set<string>)
    ensures WipeFrom(WithPrefix(w, x), s, input, keepers) == WithPrefix(WipeFrom(w, s, input, keepers), x)
    ensures w.out <= WipeFrom(w, s, input, keepers).out
  {
    hide Emit, Next;
    if input != "" {
      var before, c := input[..|input| - 1], input[|input| - 1];
      WipeBehind(w, s, x, before, keepers);
      EmitBehind(WipeFrom(w, s, before, keepers), x, Next(Feed(s, before), c).1, c, keepers);
    }
  }

  // ---------------------------------------------------------------- one scalar

  /** The bytes of a literal, and the whitespace behind it. */
  function Literals(w: Wiper, t: string): Wiper {
    if w.key then w.(buf := w.buf + t, out := w.out + t)
    else if w.keeping then w.(out := w.out + t)
    else if t == "" || w.wiped then w
    else w.(out := w.out + MASK, wiped := true)
  }

  lemma LiteralsNext(w: Wiper, c: char, t: string)
    ensures Literals(Literal(w, c), t) == Literals(w, [c] + t)
  {
    assert w.out + [c] + t == w.out + ([c] + t) && w.buf + [c] + t == w.buf + ([c] + t);
  }

  /** A run inside a literal. */
  lemma {:induction false} LiteralRun(w: Wiper, s: Scan, u: string, keepers: set<string>)
    requires LitRun(s.step, u).Take?
    ensures WipeFrom(w, s, u, keepers) == Literals(w, u) && Feed(s, u) == s.(step := LitRun(s.step, u).step)
    decreases |u|
  {
    if u == "" {
      NoLiterals(w);
    } else {
      var c, rest := u[0], u[1..];
      var next := LiteralStep(s.step, c).step;
      assert Next(s, c) == (s.(step := next), ScanContinue);
      hide Next, LiteralStep, Literals, InLiteral, WipeFrom, Feed;
      LiteralRun(Literal(w, c), s.(step := next), rest, keepers);
      LiteralsNext(w, c, rest);
      assert u == [c] + rest;
      WipeFromOne(w, s, c, keepers);
      WipeConcat(w, s, [c], rest, keepers);
    }
  }

  lemma NoLiterals(w: Wiper)
    ensures Literals(w, "") == w
  {
    assert w.out + "" == w.out && w.buf + "" == w.buf;
  }

  /** The scanner's way through a whole scalar. */
  lemma ScalarSteps(t: string)
    requires IsScalar(t)
    ensures t != "" && LiteralStart(t[0]).Take?
    ensures var r := LitRun(LiteralStart(t[0]).step, t[1..]); r.Take? && (Final(r.step) || r.step == StateEndValue)
  {
    hide IsNumber, IsString, LitRun, LiteralStart, LiteralStep, InLiteral, Final;
    if IsNumber(t) {
      NumberRun(t);
    } else if IsString(t) {
      StringParts(t);
      hide Chars;
      var mid := t[1..|t| - 1];
      CharsRun(mid);
      QuoteOps();
      ClosingStep(StateInString, mid, '\"');
      assert t[1..] == mid + ['\"'];
    } else {
      WordRun(t);
      var mid, last := t[1..|t| - 1], t[|t| - 1];
      ClosingStep(LiteralStart(t[0]).step, mid, last);
      assert t[1..] == mid + [last];
    }
  }

  lemma ClosingStep(step: Step, mid: string, last: char)
    requires var r := LitRun(step, mid); r.Take? && InLiteral(r.step) && LiteralStep(r.step, last) == Take(StateEndValue)
    ensures LitRun(step, mid + [last]) == Take(StateEndValue)
  {
    var r := LitRun(step, mid);
    LitRunConcat(step, mid, [last]);
    RunCons(r.step, last, "");
    RunNone();
    assert [last] + "" == [last];
  }

  /** A scanner that whitespace sends to the top level. */
  ghost predicate AtTop(s: Scan) {
    && s.parseState == []
    && forall c :: IsSpace(c) ==> Next(s, c).1 == ScanEnd && Next(s, c).0 == Scan(StateEndTop, [], true, s.err)
  }

  lemma ScalarEndsAtTop(s: Scan)
    requires s.parseState == [] && (Final(s.step) || s.step == StateEndValue || (s.step == StateEndTop && s.endTop))
    ensures AtTop(s)
  {
    hide Next, Final;
    forall c | IsSpace(c)
      ensures Next(s, c).1 == ScanEnd && Next(s, c).0 == Scan(StateEndTop, [], true, s.err)
    {
      SpaceEnds(s, c);
    }
  }

  lemma SpaceEnds(s: Scan, c: char)
    requires s.parseState == [] && (Final(s.step) || s.step == StateEndValue || (s.step == StateEndTop && s.endTop))
    requires IsSpace(c)
    ensures Next(s, c).1 == ScanEnd && Next(s, c).0 == Scan(StateEndTop, [], true, s.err)
  {
    hide BeginValue;
    if Final(s.step) {
      NextOfLiteral(s, c);
      assert LiteralStep(s.step, c).Ended?;
      hide Next, LiteralStep;
    }
  }

  lemma {:induction false} SpaceRun(w: Wiper, s: Scan, post: string, keepers: set<string>)
    requires Blank(post) && AtTop(s)
    ensures WipeFrom(w, s, post, keepers) == w.(out := w.out + post)
    ensures AtTop(Feed(s, post))
  {
    hide Next, WipeFrom, Feed, AtTop, Blank;
    if post == "" {
      RunNothing(w, s, keepers);
    } else {
      var before, c := post[..|post| - 1], post[|post| - 1];
      assert post == before + [c];
      BlankLast(before, c);
      SpaceRun(w, s, before, keepers);
      WipeFromLast(w, s, before, c, keepers);
      TopStep(Feed(s, before), c);
      assert w.out + before + [c] == w.out + post;
    }
  }

  lemma RunNothing(w: Wiper, s: Scan, keepers: set<string>)
    ensures WipeFrom(w, s, "", keepers) == w && Feed(s, "") == s && w.out + "" == w.out
  {
  }

  lemma BlankLast(before: string, c: char)
    requires Blank(before + [c])
    ensures Blank(before) && IsSpace(c)
  {
    assert (before + [c])[|before|] == c;
    assert forall i :: 0 <= i < |before| ==> (before + [c])[i] == before[i];
  }

  lemma TopStep(s: Scan, c: char)
    requires AtTop(s) && IsSpace(c)
    ensures Next(s, c).1 == ScanEnd && AtTop(Next(s, c).0)
  {
    hide Next;
    ScalarEndsAtTop(Scan(StateEndTop, [], true, s.err));
  }

  /** A scalar at the top level and the whitespace behind it. */
  lemma ScalarRun(w: Wiper, t: string, post: string, keepers: set<string>)
    requires IsScalar(t) && Blank(post)
    ensures var w1 := Literals(w, t); WipeFrom(w, INITIAL, t + post, keepers) == w1.(out := w1.out + post)
  {
    hide IsScalar, LitRun, LiteralStart, Final, Literals, WipeFrom, Feed, Next, Blank, AtTop;
    ScalarSteps(t);
    var c, rest := t[0], t[1..];
    FirstStep(w, t, keepers);
    var s1 := INITIAL.(step := LiteralStart(c).step);
    LiteralRun(Literal(w, c), s1, rest, keepers);
    LiteralsNext(w, c, rest);
    assert t == [c] + rest;
    WipeConcat(w, INITIAL, [c], rest, keepers);
    ScalarEndsAtTop(Feed(INITIAL, t));
    SpaceRun(Literals(w, t), Feed(INITIAL, t), post, keepers);
    WipeConcat(w, INITIAL, t, post, keepers);
  }

  lemma FirstStep(w: Wiper, t: string, keepers: set<string>)
    requires t != "" && LiteralStart(t[0]).Take?
    ensures WipeFrom(w, INITIAL, [t[0]], keepers) == Literal(w, t[0])
    ensures Feed(INITIAL, [t[0]]) == INITIAL.(step := LiteralStart(t[0]).step)
  {
    hide LiteralStart, WipeFrom, Feed;
    WipeFromOne(w, INITIAL, t[0], keepers);
    LiteralStartPlain(t[0]);
    LiteralStartOp(INITIAL, t[0], []);
  }

  // ---------------------------------------------------------------- one container

  /** The last entry of a closure stack. */
  function LastOf(closures: seq<bool>): bool {
    closures != [] && closures[|closures| - 1]
  }

  /** The closure stack after a document. */
  function ClosuresAfter(closures: seq<bool>, v: Value): seq<bool> {
    if v.Scalar? || closures != [] then closures else [IsObject(v)]
  }

  /** An object or array and the whitespace behind it, from a state that is not keeping. */
  lemma ContainerRun(w: Wiper, v: Value, post: string, keepers: set<string>)
    requires w.buf == "" && !w.keeping && WellFormed(v) && !v.Scalar? && Blank(post)
    ensures var w' := WipeFrom(w, INITIAL, Text(v) + post, keepers);
            && w'.out == w.out + (Text(Redact(v, false, keepers)) + post)
            && w'.buf == "" && !w'.keeping && !w'.wiped
            && w'.closures == ClosuresAfter(w.closures, v) && w'.key == LastOf(w'.closures)
  {
    var docs := MoreDocs(NoDocs, v, post);
    var input := Text(v) + post;
    var w0 := w.(out := "");
    hide DocsOk, WellFormed, Blank, DocsText, Text, Redact, Wipe, WipeFrom;
    OneDocument(v, post, keepers);
    WipeIsRedaction(w0, "", docs, keepers);
    StreamInStep(w0, "", docs, keepers);
    WipeIsFrom(w0, input, keepers);
    assert "" + DocsText(docs) == input;
    assert WithPrefix(w0, w.out) == w by { assert w.out + "" == w.out; }
    WipeBehind(w0, INITIAL, w.out, input, keepers);
  }

  lemma OneDocument(v: Value, post: string, keepers: set<string>)
    requires WellFormed(v) && Blank(post)
    ensures var docs := MoreDocs(NoDocs, v, post);
            && IsStream("", docs) && (!v.Scalar? ==> Containers(docs)) && DocsText(docs) == Text(v) + post
            && DocsText(RedactDocs(docs, keepers)) == Text(Redact(v, false, keepers)) + post
  {
    hide WellFormed, Text, Redact;
    var docs := MoreDocs(NoDocs, v, post);
    assert "" + Text(v) + post == Text(v) + post;
    assert "" + Text(Redact(v, false, keepers)) + post == Text(Redact(v, false, keepers)) + post;
    assert DocsOk(NoDocs);
  }

  /** The fields that a stream of one container leaves. */
  lemma StreamInStep(w: Wiper, lead: string, docs: Docs, keepers: set<string>)
    requires Resting(w) && IsStream(lead, docs) && Containers(docs) && docs.front.NoDocs?
    ensures var w' := Wipe(w, lead + DocsText(docs), keepers);
            && w'.buf == "" && !w'.wiped && w'.key == LastOf(w'.closures)
            && w'.closures == ClosuresAfter(w.closures, docs.doc)
  {
    hide Feed, ReaderAfter, DocsText, IsStream, Accepts, Eof, InStep, Wipe, ReaderOk, Matches, Closed, Containers;
    var input := lead + DocsText(docs);
    StreamIsAccepted(lead, docs);
    AcceptedReader(input);
    var z := ReaderAfter(input);
    ContainersRead(z, docs);
    WipeFollows(w, input, keepers);
    LeftByStream(Wipe(w, input, keepers), z, w.closures, docs, keepers);
  }

  lemma LeftByStream(w: Wiper, z: Reader, base: seq<bool>, docs: Docs, keepers: set<string>)
    requires InStep(w, z, base, keepers) && NoBareScalar(z)
    requires z.frames == [] && Settle(z.focus).Done? && DocsRead(z) == docs && docs.front.NoDocs?
    ensures w.buf == "" && !w.wiped && w.key == LastOf(w.closures) && w.closures == ClosuresAfter(base, docs.doc)
  {
    hide ReaderText, Redacted, Keep, KeptAt;
    assert Objects(z.frames) == [];
  }

  // ---------------------------------------------------------------- document by document

  /** Between two documents the scanner begins again. */
  lemma BetweenDocuments(lead: string, docs: Docs, c: char)
    requires IsStream(lead, docs) && MayAbut(docs.doc, docs.post, c)
    requires !IsSpace(c) && c != 'e' && c != 'E' && c != '.' && BeginValue(INITIAL, c).1 != ScanError
    ensures Next(Feed(INITIAL, lead + DocsText(docs)), c) == Next(INITIAL, c)
  {
    var input := lead + DocsText(docs);
    var k := Moves(State(FRESH, INITIAL), input);
    FeedStream(lead, docs);
    MovesFromStart(input);
    hide Moves, DocsText, Text, WellFormed, AfterItem, MayAbut, Good, IsNumber, BeginValue, Move, Feed, Startable;
    AfterItemSettles(docs.doc, docs.post);
    NextDocument(k, docs.doc, docs.post, c);
  }

  lemma {:induction false} LeadRun(w: Wiper, lead: string, keepers: set<string>)
    requires Blank(lead)
    ensures WipeFrom(w, INITIAL, lead, keepers) == w && Feed(INITIAL, lead) == INITIAL
  {
    if lead != "" {
      var before, c := lead[..|lead| - 1], lead[|lead| - 1];
      assert lead == before + [c];
      LeadRun(w, before, keepers);
      assert IsSpace(c);
      assert Next(INITIAL, c) == (INITIAL, ScanSkipSpace);
    }
  }

  /** The fields after some documents of a stream. */
  function AfterDocs(w: Wiper, lead: string, docs: Docs, keepers: set<string>): Wiper {
    WipeFrom(w, INITIAL, lead + DocsText(docs), keepers)
  }

  /** The last document is read from the state that the earlier ones left, as from the start. */
  lemma DocumentRun(w: Wiper, lead: string, docs: Docs, keepers: set<string>)
    requires IsStream(lead, docs)
    ensures AfterDocs(w, lead, docs, keepers) ==
            WipeFrom(AfterDocs(w, lead, docs.front, keepers), INITIAL, Text(docs.doc) + docs.post, keepers)
  {
    hide WellFormed, Text, WipeFrom, Feed, BeginValue, MayAbut, Blank;
    var front, v, post := docs.front, docs.doc, docs.post;
    var before, last := lead + DocsText(front), Text(v) + post;
    ValueBegins(v);
    assert last[0] == Text(v)[0];
    assert lead + DocsText(docs) == before + last;
    WipeConcat(w, INITIAL, before, last, keepers);
    if front.NoDocs? {
      LeadRun(w, lead, keepers);
      assert before == lead;
    } else {
      BetweenDocuments(lead, front, Text(v)[0]);
      hide Next;
      WipeSwitch(AfterDocs(w, lead, front, keepers), Feed(INITIAL, before), INITIAL, last, keepers);
    }
  }

  // ---------------------------------------------------------------- which scalars are masked

  /** The flags that some documents leave: the closure stack, whether a scalar would be taken for a key, and
      whether the mask counts as written. */
  function Stack(w: Wiper, docs: Docs): seq<bool> {
    if docs.NoDocs? then w.closures else ClosuresAfter(Stack(w, docs.front), docs.doc)
  }

  function TakesForKey(w: Wiper, docs: Docs): bool {
    if docs.NoDocs? then w.key
    else if docs.doc.Scalar? then TakesForKey(w, docs.front)
    else LastOf(Stack(w, docs))
  }

  function TakesForMasked(w: Wiper, docs: Docs): bool {
    if docs.NoDocs? then w.wiped else docs.doc.Scalar?
  }

  /** No scalar at the top level is read with one of the flags set. */
  predicate AllMasked(w: Wiper, docs: Docs) {
    docs.MoreDocs? ==>
      AllMasked(w, docs.front) &&
      (docs.doc.Scalar? ==> !TakesForKey(w, docs.front) && !TakesForMasked(w, docs.front))
  }

  /** The redactor's state after documents that were all redacted. */
  ghost predicate InOrder(w: Wiper, w': Wiper, docs: Docs, keepers: set<string>) {
    && w'.out == DocsText(RedactDocs(docs, keepers))
    && w'.buf == "" && !w'.keeping
    && w'.closures == Stack(w, docs) && w'.key == TakesForKey(w, docs) && w'.wiped == TakesForMasked(w, docs)
  }

  /** If no scalar is read with a flag set, the output is the redaction. */
  lemma {:induction false} MaskedRun(w: Wiper, lead: string, docs: Docs, keepers: set<string>)
    requires Resting(w) && Blank(lead) && DocsOk(docs) && AllMasked(w, docs)
    ensures InOrder(w, AfterDocs(w, lead, docs, keepers), docs, keepers)
  {
    if docs.NoDocs? {
      LeadRun(w, lead, keepers);
      assert lead + "" == lead;
    } else {
      var w1 := AfterDocs(w, lead, docs.front, keepers);
      MaskedRun(w, lead, docs.front, keepers);
      DocumentRun(w, lead, docs, keepers);
      hide WellFormed, WipeFrom, After, Blank, Text, Redact;
      if docs.doc.Scalar? {
        MaskedScalar(w1, docs.doc, docs.post, keepers);
      } else {
        ContainerRun(w1, docs.doc, docs.post, keepers);
      }
      var red := DocsText(RedactDocs(docs.front, keepers));
      assert red + (Text(Redact(docs.doc, false, keepers)) + docs.post) == red + Text(Redact(docs.doc, false, keepers)) + docs.post;
    }
  }

  lemma MaskedScalar(w: Wiper, v: Value, post: string, keepers: set<string>)
    requires v.Scalar? && WellFormed(v) && Blank(post) && !w.key && !w.keeping && !w.wiped
    ensures WipeFrom(w, INITIAL, Text(v) + post, keepers) ==
            w.(out := w.out + (Text(Redact(v, false, keepers)) + post), wiped := true)
  {
    hide IsScalar, WipeFrom;
    ScalarRun(w, v.text, post, keepers);
    ScalarNotEmpty(v.text);
    assert w.out + MASK + post == w.out + (MASK + post);
  }

  lemma ScalarNotEmpty(t: string)
    requires IsScalar(t)
    ensures t != ""
  {
    ScalarSteps(t);
  }

  // ---------------------------------------------------------------- what happens to the others

  /** A scalar at the top level is spelt like the mask. */
  predicate SpellsMask(docs: Docs) {
    docs.MoreDocs? && (SpellsMask(docs.front) || docs.doc == Scalar(MASK))
  }

  /** The strings differ where both have a character. */
  ghost predicate Diverge(a: string, b: string) {
    exists i :: 0 <= i < |a| && i < |b| && a[i] != b[i]
  }

  lemma DivergeGrows(a: string, b: string, x: string, y: string)
    requires Diverge(a, b)
    ensures Diverge(a + x, b + y)
  {
    var i :| 0 <= i < |a| && i < |b| && a[i] != b[i];
    assert (a + x)[i] != (b + y)[i];
  }

  lemma DivergeBehind(p: string, a: string, b: string)
    requires Diverge(a, b)
    ensures Diverge(p + a, p + b)
  {
    var i :| 0 <= i < |a| && i < |b| && a[i] != b[i];
    assert (p + a)[|p| + i] != (p + b)[|p| + i];
  }

  /** The output is behind: a mask is due next, but the redactor takes it for written. */
  ghost predicate Lags(w: Wiper, red: string) {
    && !w.key && !w.keeping && w.wiped
    && |w.out| < |red| && w.out == red[..|w.out|] && red[|w.out|] == '\"'
  }

  /** What lags diverges with whatever is written next, unless that is the mask. */
  lemma LagDiverges(w: Wiper, red: string, x: string, y: string)
    requires Lags(w, red) && x != "" && x[0] != '\"'
    ensures Diverge(w.out + x, red + y)
  {
    assert (w.out + x)[|w.out|] == x[0] && (red + y)[|w.out|] == '\"';
  }

  lemma LagGrows(w: Wiper, red: string, y: string)
    requires Lags(w, red)
    ensures Lags(w, red + y)
  {
  }

  lemma ScalarIsNotMask(t: string, x: string, y: string)
    requires IsScalar(t) && t != MASK
    ensures Diverge(t + x, MASK + y)
  {
    ScalarNotEmpty(t);
    var a, b := t + x, MASK + y;
    assert a[0] == t[0] && b[0] == '\"' && b[1] == '?' && b[2] == '\"';
    if t[0] == '\"' {
      StringOrNot(t);
      assert a[1] == t[1];
      if t[1] == '?' {
        QuestionMark(t);
        assert a[2] == t[2];
      }
    }
  }

  lemma StringOrNot(t: string)
    requires IsScalar(t) && t != "" && t[0] == '\"'
    ensures IsString(t) && |t| >= 2
  {
    hide IsString, IsNumber;
    if IsNumber(t) {
      NumberFirst(t);
      assert false;
    }
    assert IsString(t);
    StringLength(t);
  }

  lemma StringLength(t: string)
    requires IsString(t)
    ensures |t| >= 2
  {
  }

  lemma QuestionMark(t: string)
    requires IsString(t) && |t| >= 2 && t[0] == '\"' && t[1] == '?' && t != MASK
    ensures |t| >= 3 && t[2] != '\"'
  {
    StringParts(t);
    var body := t[1..|t| - 1];
    assert body != "" && body[0] == '?' && body == [body[0]] + body[1..];
    assert t == ['\"', '?'] + body[1..] + ['\"'];
    if body[1..] != "" {
      assert Chars(body[1..]);
      assert body[1..][0] == t[2];
    }
  }

  lemma ContainerFirst(w: Wiper, v: Value, post: string, keepers: set<string>)
    requires WellFormed(v) && !v.Scalar?
    ensures var c := Text(v)[0];
            && Text(v) != "" && (c == '{' || c == '[')
            && w.out + [c] <= WipeFrom(w, INITIAL, Text(v) + post, keepers).out
  {
    hide WipeFrom, Feed, Emit;
    ValueBegins(v);
    var c, rest := Text(v)[0], Text(v)[1..] + post;
    assert Text(v) + post == [c] + rest;
    WipeFromOne(w, INITIAL, c, keepers);
    WipeConcat(w, INITIAL, [c], rest, keepers);
    OpensWith(w, c, keepers);
    WipeBehind(WipeFrom(w, INITIAL, [c], keepers), Feed(INITIAL, [c]), "", rest, keepers);
  }

  lemma OpensWith(w: Wiper, c: char, keepers: set<string>)
    requires c == '{' || c == '['
    ensures Emit(w, Next(INITIAL, c).1, c, keepers).out == w.out + [c]
  {
  }

  /** A document behind an output that lags. */
  lemma LagRun(w: Wiper, red: string, v: Value, post: string, keepers: set<string>)
    requires Lags(w, red) && WellFormed(v) && Blank(post)
    ensures var w', red' := WipeFrom(w, INITIAL, Text(v) + post, keepers), red + (Text(Redact(v, false, keepers)) + post);
            Diverge(w'.out, red') || Lags(w', red')
  {
    hide WipeFrom, WellFormed, Text, Redact;
    var more := Text(Redact(v, false, keepers)) + post;
    var w' := WipeFrom(w, INITIAL, Text(v) + post, keepers);
    if v.Scalar? {
      LagScalar(w, v, post, keepers);
      assert w' == w.(out := w.out + post);
      if post == "" {
        assert w.out + post == w.out;
        LagGrows(w, red, more);
      } else {
        assert IsSpace(post[0]);
        LagDiverges(w, red, post, more);
      }
    } else {
      ContainerFirst(w, v, post, keepers);
      var x := w'.out[|w.out|..];
      assert w'.out == w.out + x && x[0] == Text(v)[0];
      LagDiverges(w, red, x, more);
    }
  }

  lemma LagScalar(w: Wiper, v: Value, post: string, keepers: set<string>)
    requires v.Scalar? && WellFormed(v) && Blank(post) && !w.key && !w.keeping && w.wiped
    ensures WipeFrom(w, INITIAL, Text(v) + post, keepers) == w.(out := w.out + post)
  {
    hide IsScalar, WipeFrom;
    ScalarRun(w, v.text, post, keepers);
  }

  lemma CopiedScalar(w: Wiper, v: Value, post: string, keepers: set<string>)
    requires v.Scalar? && WellFormed(v) && Blank(post) && w.key
    ensures WipeFrom(w, INITIAL, Text(v) + post, keepers).out == w.out + (v.text + post)
  {
    hide IsScalar, WipeFrom;
    ScalarRun(w, v.text, post, keepers);
    assert w.out + v.text + post == w.out + (v.text + post);
  }

  /** A scalar read with a flag set, behind documents that were redacted. */
  lemma FlaggedScalar(w: Wiper, red: string, v: Value, post: string, keepers: set<string>)
    requires w.out == red && !w.keeping && (w.key || w.wiped)
    requires v.Scalar? && v.text != MASK && WellFormed(v) && Blank(post)
    ensures var w', red' := WipeFrom(w, INITIAL, Text(v) + post, keepers), red + (Text(Redact(v, false, keepers)) + post);
            Diverge(w'.out, red') || Lags(w', red')
  {
    hide WipeFrom, IsScalar;
    var w', red' := WipeFrom(w, INITIAL, Text(v) + post, keepers), red + (MASK + post);
    if w.key {
      CopiedScalar(w, v, post, keepers);
      ScalarIsNotMask(v.text, post, post);
      DivergeBehind(red, v.text + post, MASK + post);
    } else {
      LagScalar(w, v, post, keepers);
      if post == "" {
        assert w.out + post == w.out;
        assert red'[|w.out|] == MASK[0];
      } else {
        assert IsSpace(post[0]);
        assert (MASK + post)[0] == '\"';
        DivergeBehind(red, post, MASK + post);
      }
    }
  }

  /** If some scalar is read with a flag set, the output is not the redaction, and no more input mends it. */
  lemma {:induction false} UnmaskedRun(w: Wiper, lead: string, docs: Docs, keepers: set<string>)
    requires Resting(w) && Blank(lead) && DocsOk(docs) && !AllMasked(w, docs) && !SpellsMask(docs)
    ensures var w', red := AfterDocs(w, lead, docs, keepers), DocsText(RedactDocs(docs, keepers));
            Diverge(w'.out, red) || Lags(w', red)
  {
    var front, v, post := docs.front, docs.doc, docs.post;
    var w1, red := AfterDocs(w, lead, front, keepers), DocsText(RedactDocs(front, keepers));
    var more := Text(Redact(v, false, keepers)) + post;
    DocumentRun(w, lead, docs, keepers);
    assert DocsText(RedactDocs(docs, keepers)) == red + more;
    hide WellFormed, WipeFrom, AfterDocs, Blank, Text, Redact, DocsText, RedactDocs, Diverge, Lags;
    if AllMasked(w, front) {
      MaskedRun(w, lead, front, keepers);
      FlaggedScalar(w1, red, v, post, keepers);
    } else {
      UnmaskedRun(w, lead, front, keepers);
      NeverMends(w1, red, v, post, keepers);
    }
  }

  /** An output that has diverged or lags is not mended by another document. */
  lemma NeverMends(w: Wiper, red: string, v: Value, post: string, keepers: set<string>)
    requires (Diverge(w.out, red) || Lags(w, red)) && WellFormed(v) && Blank(post)
    ensures var w', red' := WipeFrom(w, INITIAL, Text(v) + post, keepers), red + (Text(Redact(v, false, keepers)) + post);
            Diverge(w'.out, red') || Lags(w', red')
  {
    hide WellFormed, WipeFrom, Blank, Text, Redact, Diverge, Lags;
    if Diverge(w.out, red) {
      var w' := WipeFrom(w, INITIAL, Text(v) + post, keepers);
      WipeBehind(w, INITIAL, "", Text(v) + post, keepers);
      assert w'.out == w.out + w'.out[|w.out|..];
      DivergeGrows(w.out, red, w'.out[|w.out|..], Text(Redact(v, false, keepers)) + post);
    } else {
      LagRun(w, red, v, post, keepers);
    }
  }

  /** The output of a resting redactor is the redaction if and only if no scalar at the top level is read with
      one of the flags set. (A scalar that spells the mask is copied or masked alike.) */
  lemma RedactsExactly(w: Wiper, lead: string, docs: Docs, keepers: set<string>)
    requires Resting(w) && IsStream(lead, docs) && !SpellsMask(docs)
    ensures Wipe(w, lead + DocsText(docs), keepers).out == DocsText(RedactDocs(docs, keepers)) <==> AllMasked(w, docs)
  {
    hide DocsOk, Blank, RedactDocs;
    WipeIsFrom(w, lead + DocsText(docs), keepers);
    if AllMasked(w, docs) {
      MaskedRun(w, lead, docs, keepers);
    } else {
      UnmaskedRun(w, lead, docs, keepers);
    }
  }

  lemma {:induction false} RedactedFlags(w: Wiper, docs: Docs, keepers: set<string>)
    ensures var red := RedactDocs(docs, keepers);
            && Stack(w, red) == Stack(w, docs) && TakesForKey(w, red) == TakesForKey(w, docs)
            && TakesForMasked(w, red) == TakesForMasked(w, docs)
            && (AllMasked(w, red) <==> AllMasked(w, docs))
  {
    if docs.MoreDocs? {
      RedactedFlags(w, docs.front, keepers);
    }
  }

  /** Redacting the output again changes nothing, scalars at top level included, if both redactors mask them all. */
  lemma MaskedTwice(w1: Wiper, w2: Wiper, lead: string, docs: Docs, keepers: set<string>)
    requires Resting(w1) && Resting(w2) && IsStream(lead, docs) && AllMasked(w1, docs) && AllMasked(w2, docs)
    ensures var out := Wipe(w1, lead + DocsText(docs), keepers).out;
            Accepts(out) && Wipe(w2, out, keepers).out == out
  {
    hide DocsOk, Accepts, DocsText, Blank, WipeFrom;
    var docs' := RedactDocs(docs, keepers);
    WipeIsFrom(w1, lead + DocsText(docs), keepers);
    MaskedRun(w1, lead, docs, keepers);
    RedactDocsTwice(docs, keepers);
    RedactedFlags(w2, docs, keepers);
    NoLead();
    StreamIsAccepted("", docs');
    WipeIsFrom(w2, "" + DocsText(docs'), keepers);
    MaskedRun(w2, "", docs', keepers);
    assert "" + DocsText(docs') == DocsText(docs');
  }

  lemma NoLead()
    ensures Blank("")
  {
  }

  /** The same without looking at flags, for a new redactor: no two scalars in a row, and none behind the first
      container if that is an object. */
  predicate WellSpread(docs: Docs) {
    docs.MoreDocs? ==>
      && WellSpread(docs.front)
      && (docs.doc.Scalar? && docs.front.MoreDocs? ==> !docs.front.doc.Scalar? && !FirstIsObject(docs.front))
  }

  predicate FirstIsObject(docs: Docs) {
    docs.MoreDocs? && (FirstIsObject(docs.front) || (IsObject(docs.doc) && NoContainer(docs.front)))
  }

  predicate NoContainer(docs: Docs) {
    docs.MoreDocs? ==> NoContainer(docs.front) && docs.doc.Scalar?
  }

  lemma {:induction false} FlagsOfNew(docs: Docs)
    ensures Stack(UNUSED, docs) == if NoContainer(docs) then [] else [FirstIsObject(docs)]
    ensures TakesForKey(UNUSED, docs) == FirstIsObject(docs)
    ensures NoContainer(docs) ==> !FirstIsObject(docs)
  {
    if docs.MoreDocs? {
      FlagsOfNew(docs.front);
    }
  }

  lemma {:induction false} NewRedactorMasks(docs: Docs)
    ensures AllMasked(UNUSED, docs) <==> WellSpread(docs)
  {
    if docs.MoreDocs? {
      NewRedactorMasks(docs.front);
      FlagsOfNew(docs.front);
    }
  }

  /** A bare scalar behind an object is not masked: the redactor takes it for a key. */
  lemma BareScalarIsCopied(keepers: set<string>)
    ensures Wipe(UNUSED, "{}1", keepers).out == "{}1"
  {
    hide Feed, Wipe, Emit, Next;
    FeedNone();
    WipeNone(UNUSED, keepers);
    var t1: string := [] + ['{'];
    var t2 := t1 + ['}'];
    FeedLast(INITIAL, [], '{');
    FeedLast(INITIAL, t1, '}');
    WipeLast(UNUSED, [], '{', keepers);
    WipeLast(UNUSED, t1, '}', keepers);
    WipeLast(UNUSED, t2, '1', keepers);
    BareScalarSteps(keepers);
    assert t2 + ['1'] == "{}1";
  }

  lemma WipeNone(w: Wiper, keepers: set<string>)
    ensures Wipe(w, "", keepers) == w
  {
  }

  lemma BareScalarSteps(keepers: set<string>)
    ensures Next(INITIAL, '{') == (Scan(StateBeginStringOrEmpty, [ParseObjectKey], false, false), ScanBeginObject)
    ensures Next(Scan(StateBeginStringOrEmpty, [ParseObjectKey], false, false), '}') ==
            (Scan(StateEndTop, [], true, false), ScanEndObject)
    ensures Next(Scan(StateEndTop, [], true, false), '1').1 == ScanBeginLiteral
    ensures Emit(UNUSED, ScanBeginObject, '{', keepers) == Wiper([true], true, false, false, 0, "", "{")
    ensures Emit(Wiper([true], true, false, false, 0, "", "{"), ScanEndObject, '}', keepers) ==
            Wiper([true], true, false, false, 0, "", "{}")
    ensures Emit(Wiper([true], true, false, false, 0, "", "{}"), ScanBeginLiteral, '1', keepers).out == "{}1"
  {
    assert [] + [ParseObjectKey] == [ParseObjectKey] && [] + [true] == [true];
    EmptyObjectOp(Scan(StateBeginStringOrEmpty, [ParseObjectKey], false, false));
  }
}
