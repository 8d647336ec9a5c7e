/** Every JSON stream is accepted, and the scanner's reader recovers exactly its documents: with
    `JsonReader.AcceptedIsStream`, the scanner accepts precisely the streams, and reads each in one way. */
module JsonStreams {
  import opened JsonScanner
  import opened JsonText
  import opened JsonReader

  // ---------------------------------------------------------------- scanner and reader together

  datatype State = State(z: Reader, s: Scan)

  function Move(k: State, c: char): State {
    State(Advance(k.z, k.s, c), Next(k.s, c).0)
  }

  function Moves(k: State, input: string): State {
    if input == "" then k else Move(Moves(k, input[..|input| - 1]), input[|input| - 1])
  }

  ghost predicate Good(k: State) {
    ReaderOk(k.z) && Matches(k.z, k.s) && Closed(k.z)
  }

  lemma MovesLast(k: State, input: string, c: char)
    ensures Moves(k, input + [c]) == Move(Moves(k, input), c)
  {
    assert (input + [c])[..|input|] == input;
  }

  lemma MovesOne(k: State, c: char)
    ensures Moves(k, [c]) == Move(k, c)
  {
    MovesLast(k, "", c);
    assert "" + [c] == [c];
  }

  lemma {:induction false} MovesConcat(k: State, a: string, b: string)
    ensures Moves(k, a + b) == Moves(Moves(k, a), b)
  {
    if b == "" {
      assert a + b == a;
    } else {
      var b', c := b[..|b| - 1], b[|b| - 1];
      assert b == b' + [c] && a + b == (a + b') + [c];
      MovesConcat(k, a, b');
      MovesLast(k, a + b', c);
      MovesLast(Moves(k, a), b', c);
    }
  }

  lemma {:induction false} MovesFromStart(input: string)
    ensures Moves(State(FRESH, INITIAL), input) == State(ReaderAfter(input), Feed(INITIAL, input))
  {
    if input != "" {
      MovesFromStart(input[..|input| - 1]);
    }
  }

  lemma MoveGood(k: State, c: char)
    requires Good(k) && Next(k.s, c).1 != ScanError
    ensures Good(Move(k, c))
  {
    hide ReaderOk, Matches, Closed, Advance, Next;
    AdvanceKeeps(k.z, k.s, c);
  }

  // ---------------------------------------------------------------- scalars

  /** The literal state reached by reading `u` from `step` without leaving the literal. */
  function LitRun(step: Step, u: string): Lit
    decreases |u|
  {
    if u == "" then Take(step)
    else if !InLiteral(step) then Wrong
    else
      match LiteralStep(step, u[0])
      case Take(next) => LitRun(next, u[1..])
      case _ => Wrong
  }

  lemma {:induction false} LitRunConcat(step: Step, u: string, v: string)
    requires LitRun(step, u).Take?
    ensures LitRun(step, u + v) == LitRun(LitRun(step, u).step, v)
    decreases |u|
  {
    if u == "" {
      assert u + v == v;
    } else {
      assert (u + v)[0] == u[0] && (u + v)[1..] == u[1..] + v;
      LitRunConcat(LiteralStep(step, u[0]).step, u[1..], v);
    }
  }

  lemma {:induction false} DigitsRun(step: Step, u: string)
    requires step in {State1, StateDot0, StateE0} && Digits(u)
    ensures LitRun(step, u) == Take(step)
  {
    if u != "" {
      assert IsDigit(u[0]);
      DigitsRun(step, u[1..]);
    }
  }

  lemma {:induction false} CharsRun(b: string)
    requires Chars(b)
    ensures LitRun(StateInString, b) == Take(StateInString)
  {
    if b != "" {
      if b[0] != '\\' {
        CharsRun(b[1..]);
      } else {
        var n := if IsEscape(b[1]) then 2 else 6;
        CharsRun(b[n..]);
        assert b == b[..n] + b[n..];
        UnitRun(b[..n]);
        LitRunConcat(StateInString, b[..n], b[n..]);
      }
    }
  }

  lemma UnitRun(u: string)
    requires |u| == 2 || |u| == 6
    requires u[0] == '\\'
    requires if |u| == 2 then IsEscape(u[1])
             else u[1] == 'u' && IsHex(u[2]) && IsHex(u[3]) && IsHex(u[4]) && IsHex(u[5])
    ensures LitRun(StateInString, u) == Take(StateInString)
  {
    assert u[1..][1..] == u[2..];
    if |u| == 6 {
      assert u[2..][1..] == u[3..] && u[3..][1..] == u[4..] && u[4..][1..] == u[5..] && u[5..][1..] == "";
      assert LitRun(StateInStringEscU123, u[5..]) == Take(StateInString);
      assert LitRun(StateInStringEscU12, u[4..]) == Take(StateInString);
      assert LitRun(StateInStringEscU1, u[3..]) == Take(StateInString);
      assert LitRun(StateInStringEscU, u[2..]) == Take(StateInString);
    } else {
      assert u[2..] == "";
    }
    assert LitRun(StateInStringEsc, u[1..]) == Take(StateInString);
  }

  predicate Final(step: Step) {
    step in {State0, State1, StateDot0, StateE0}
  }

  lemma IntRun(t: string)
    requires IntText(t)
    ensures t != "" && LiteralStart(t[0]).Take?
    ensures var r := LitRun(LiteralStart(t[0]).step, t[1..]); r == Take(State0) || r == Take(State1)
  {
    if t[0] == '-' {
      var u := t[1..];
      if u != "0" {
        DigitsRun(State1, u[1..]);
      } else {
        assert u[1..] == "";
      }
    } else if t == "0" {
      assert t[1..] == "";
    } else {
      DigitsRun(State1, t[1..]);
    }
  }

  lemma FracRun(step: Step, f: string)
    requires step == State0 || step == State1
    requires FracText(f)
    ensures var r := LitRun(step, f); r == Take(if f == "" then step else StateDot0)
  {
    if f != "" {
      var d := f[1..];
      assert IsDigit(d[0]);
      DigitsRun(StateDot0, d[1..]);
      assert LitRun(StateDot, d) == Take(StateDot0);
    }
  }

  lemma UnsignedExpRun(step: Step, r: string)
    requires step == StateE || step == StateESign
    requires r != "" && Digits(r)
    ensures LitRun(step, r) == Take(StateE0)
  {
    assert IsDigit(r[0]);
    DigitsRun(StateE0, r[1..]);
  }

  lemma ExpRun(step: Step, e: string)
    requires step == State0 || step == State1 || step == StateDot0
    requires ExpText(e)
    ensures var r := LitRun(step, e); r == Take(if e == "" then step else StateE0)
  {
    if e != "" {
      var u := e[1..];
      if |e| >= 2 && (e[1] == '+' || e[1] == '-') {
        UnsignedExpRun(StateESign, e[2..]);
        RunCons(StateE, e[1], e[2..]);
        assert u == [e[1]] + e[2..];
      } else {
        UnsignedExpRun(StateE, u);
      }
      hide Digits, LitRun;
      RunCons(step, e[0], u);
      assert e == [e[0]] + u;
    }
  }

  lemma MantissaParts(m: string) returns (i: string, f: string)
    requires Mantissa(m)
    ensures m == i + f && IntText(i) && FracText(f)
  {
    var a :| 0 <= a <= |m| && MantissaAt(m, a);
    i, f := m[..a], m[a..];
  }

  lemma NumberParts(t: string) returns (i: string, f: string, e: string)
    requires IsNumber(t)
    ensures t == (i + f) + e && IntText(i) && FracText(f) && ExpText(e)
  {
    hide Mantissa, ExpText;
    var b :| 0 <= b <= |t| && ExpAt(t, b) && Mantissa(t[..b]);
    e := t[b..];
    i, f := MantissaParts(t[..b]);
  }

  lemma PartsRun(start: Step, i: string, f: string, e: string)
    requires FracText(f) && ExpText(e)
    requires LitRun(start, i) == Take(State0) || LitRun(start, i) == Take(State1)
    ensures var r := LitRun(start, (i + f) + e); r.Take? && Final(r.step)
  {
    hide LitRun, FracText, ExpText;
    var s1 := LitRun(start, i).step;
    FracRun(s1, f);
    LitRunConcat(start, i, f);
    ExpRun(LitRun(s1, f).step, e);
    LitRunConcat(start, i + f, e);
  }

  lemma TailOf(i: string, f: string, e: string)
    requires i != ""
    ensures ((i + f) + e)[0] == i[0] && ((i + f) + e)[1..] == (i[1..] + f) + e
  {
  }

  lemma NumberRun(t: string)
    requires IsNumber(t)
    ensures t != "" && LiteralStart(t[0]).Take? && t[0] != '\"'
    ensures var r := LitRun(LiteralStart(t[0]).step, t[1..]); r.Take? && Final(r.step)
  {
    hide IsNumber, LiteralStart, LiteralStep, IntText, FracText, ExpText, LitRun, Final;
    var i, f, e := NumberParts(t);
    IntRun(i);
    IntFirst(i);
    TailOf(i, f, e);
    PartsRun(LiteralStart(i[0]).step, i[1..], f, e);
  }

  /** Reading on inside a literal only lengthens the focus. */
  lemma {:induction false} LiteralMoves(k: State, u: string)
    requires Good(k) && k.z.focus.Partial?
    requires LitRun(k.s.step, u).Take? && InLiteral(LitRun(k.s.step, u).step)
    ensures Moves(k, u) == State(k.z.(focus := Partial(k.z.focus.text + u)), k.s.(step := LitRun(k.s.step, u).step))
    ensures Good(Moves(k, u))
    decreases |u|
  {
    hide Good, LiteralStep, Advance, Next, InLiteral, Moves;
    if u == "" {
      assert k.z.focus.text + u == k.z.focus.text;
      MovesNone(k);
    } else {
      var c, rest := u[0], u[1..];
      var next := LiteralStep(k.s.step, c).step;
      LitRunFirst(k.s.step, u);
      TakeMove(k, c);
      assert next != StateEndValue by {
        InLiteralIs(next);
      }
      LiteralMoves(Move(k, c), rest);
      assert u == [c] + rest;
      MovesOne(k, c);
      MovesConcat(k, [c], rest);
      assert k.z.focus.text + [c] + rest == k.z.focus.text + u;
    }
  }

  lemma MovesNone(k: State)
    ensures Moves(k, "") == k
  {
  }

  lemma InLiteralIs(step: Step)
    ensures InLiteral(step) ==> step != StateEndValue
  {
  }

  lemma LitRunFirst(step: Step, u: string)
    requires u != "" && LitRun(step, u).Take? && InLiteral(LitRun(step, u).step)
    ensures InLiteral(step) && LiteralStep(step, u[0]).Take?
    ensures InLiteral(LiteralStep(step, u[0]).step)
    ensures LitRun(step, u) == LitRun(LiteralStep(step, u[0]).step, u[1..])
  {
    hide LiteralStep;
    InLiteralBefore(LiteralStep(step, u[0]).step, u[1..]);
  }

  lemma InLiteralBefore(step: Step, u: string)
    requires LitRun(step, u).Take? && InLiteral(LitRun(step, u).step)
    ensures InLiteral(step)
  {
  }

  lemma TakeMove(k: State, c: char)
    requires Good(k) && k.z.focus.Partial? && LiteralStep(k.s.step, c).Take?
    ensures var next, t := LiteralStep(k.s.step, c).step, k.z.focus.text + [c];
            Move(k, c) == State(k.z.(focus := if next == StateEndValue then Done(Scalar(t), "") else Partial(t)),
                                k.s.(step := next))
    ensures Good(Move(k, c))
  {
    hide ReaderOk, Closed, LiteralStep, Reads;
    MoveGood(k, c);
  }

  /** The focus once a value has been read. */
  ghost function After(v: Value): Focus {
    if v.Scalar? && IsNumber(v.text) then Partial(v.text) else Done(v, "")
  }

  /** A value may begin here. */
  ghost predicate Startable(k: State, c: char) {
    && PartsOk(k.z) && Matches(k.z, k.s) && k.z.focus.Start? && !IsSpace(c)
    && (k.z.frames == [] && k.z.docs.MoreDocs? ==> MayAbut(k.z.docs.doc, k.z.docs.post, c))
  }

  lemma LiteralStartMove(k: State, c: char)
    requires Startable(k, c)
    requires if AtKey(k.z.frames) then c == '\"' else LiteralStart(c).Take?
    ensures Move(k, c) == State(k.z.(focus := Partial([c])), k.s.(step := LiteralStart(c).step))
    ensures Good(Move(k, c))
  {
    hide PartsOk, MayAbut, LiteralStart, IsSpace;
    LiteralStartOp(k.s, c, k.z.frames);
    KeepsLiteralStart(k.z, k.s, c);
  }

  lemma LiteralStartOp(s: Scan, c: char, fs: seq<Frame>)
    requires s.step == StartStep(fs) && !IsSpace(c)
    requires if AtKey(fs) then c == '\"' else LiteralStart(c).Take?
    ensures Next(s, c) == (s.(step := LiteralStart(c).step), ScanBeginLiteral)
  {
    LiteralStartPlain(c);
  }

  lemma LiteralStartPlain(c: char)
    requires LiteralStart(c).Take?
    ensures c !in ['{', '}', '[', ']'] && !IsSpace(c)
  {
  }

  lemma FeedNumber(k: State, t: string)
    requires IsNumber(t) && t != "" && Startable(k, t[0]) && !AtKey(k.z.frames)
    ensures Moves(k, t).z == k.z.(focus := Partial(t)) && Good(Moves(k, t))
  {
    NumberRun(t);
    hide IsNumber, LiteralStart, LiteralStep, Good, Startable;
    LiteralStartMove(k, t[0]);
    MovesOne(k, t[0]);
    LiteralMoves(Move(k, t[0]), t[1..]);
    MovesConcat(k, [t[0]], t[1..]);
    assert t == [t[0]] + t[1..];
  }

  /** A literal that closes itself with its last byte. */
  lemma FeedClosing(k: State, first: char, mid: string, last: char)
    requires Startable(k, first)
    requires if AtKey(k.z.frames) then first == '\"' else LiteralStart(first).Take?
    requires var r := LitRun(LiteralStart(first).step, mid);
             r.Take? && InLiteral(r.step) && LiteralStep(r.step, last) == Take(StateEndValue)
    ensures var t := [first] + mid + [last];
            Moves(k, t).z == k.z.(focus := Done(Scalar(t), "")) && Good(Moves(k, t))
  {
    hide LiteralStart, LiteralStep, Good, Startable, LitRun, Moves, InLiteral;
    LiteralStartMove(k, first);
    MovesOne(k, first);
    var k1 := Move(k, first);
    LiteralMoves(k1, mid);
    MovesConcat(k, [first], mid);
    TakeMove(Moves(k1, mid), last);
    MovesLast(k, [first] + mid, last);
  }

  lemma QuoteOps()
    ensures LiteralStart('\"') == Take(StateInString) && InLiteral(StateInString)
    ensures LiteralStep(StateInString, '\"') == Take(StateEndValue)
  {
  }

  lemma StringParts(t: string)
    requires IsString(t)
    ensures t == ['\"'] + t[1..|t| - 1] + ['\"'] && Chars(t[1..|t| - 1])
  {
    hide Chars;
  }

  lemma FeedString(k: State, t: string)
    requires IsString(t) && Startable(k, t[0])
    ensures Moves(k, t).z == k.z.(focus := Done(Scalar(t), "")) && Good(Moves(k, t))
  {
    hide Startable, Chars, LitRun, Good, Moves, LiteralStart, LiteralStep, InLiteral;
    StringParts(t);
    CharsRun(t[1..|t| - 1]);
    QuoteOps();
    FeedClosing(k, '\"', t[1..|t| - 1], '\"');
  }

  lemma FeedWord(k: State, t: string)
    requires IsWord(t) && Startable(k, t[0]) && !AtKey(k.z.frames)
    ensures Moves(k, t).z == k.z.(focus := Done(Scalar(t), "")) && Good(Moves(k, t))
  {
    WordRun(t);
    hide Startable, LiteralStep, LiteralStart, LitRun;
    FeedClosing(k, t[0], t[1..|t| - 1], t[|t| - 1]);
    assert t == [t[0]] + t[1..|t| - 1] + [t[|t| - 1]];
  }

  lemma RunCons(step: Step, c: char, u: string)
    requires InLiteral(step) && LiteralStep(step, c).Take?
    ensures LitRun(step, [c] + u) == LitRun(LiteralStep(step, c).step, u)
  {
    assert ([c] + u)[1..] == u;
  }

  lemma RunNone()
    ensures forall step :: LitRun(step, "") == Take(step)
  {
  }

  lemma TrueRun()
    ensures LitRun(StateT, "ru") == Take(StateTru)
  {
    hide LitRun;
    RunNone();
    RunCons(StateT, 'r', "u");
    RunCons(StateTr, 'u', "");
    assert "ru" == ['r'] + "u" && "u" == ['u'] + "";
  }

  lemma FalseRun()
    ensures LitRun(StateF, "als") == Take(StateFals)
  {
    hide LitRun;
    RunNone();
    RunCons(StateF, 'a', "ls");
    RunCons(StateFa, 'l', "s");
    RunCons(StateFal, 's', "");
    assert "als" == ['a'] + "ls" && "ls" == ['l'] + "s" && "s" == ['s'] + "";
  }

  lemma NullRun()
    ensures LitRun(StateN, "ul") == Take(StateNul)
  {
    hide LitRun;
    RunNone();
    RunCons(StateN, 'u', "l");
    RunCons(StateNu, 'l', "");
    assert "ul" == ['u'] + "l" && "l" == ['l'] + "";
  }

  lemma WordRun(t: string)
    requires IsWord(t)
    ensures LiteralStart(t[0]).Take?
    ensures var r := LitRun(LiteralStart(t[0]).step, t[1..|t| - 1]);
            r.Take? && InLiteral(r.step) && LiteralStep(r.step, t[|t| - 1]) == Take(StateEndValue)
  {
    hide LitRun;
    TrueRun();
    FalseRun();
    NullRun();
    assert t == "true" ==> t[1..|t| - 1] == "ru";
    assert t == "false" ==> t[1..|t| - 1] == "als";
    assert t == "null" ==> t[1..|t| - 1] == "ul";
  }

  // ---------------------------------------------------------------- the end of a number

  lemma NumberLast(t: string)
    requires IsNumber(t)
    ensures t != "" && IsDigit(t[|t| - 1]) && t[0] != '\"'
  {
    var i, f, e := NumberParts(t);
    IntLast(i);
    IntFirst(i);
    if e != "" {
      ExpLast(e);
    }
  }

  lemma IntLast(i: string)
    requires IntText(i)
    ensures i != "" && IsDigit(i[|i| - 1])
  {
    var u := if i[0] == '-' then i[1..] else i;
    if u != "0" {
      assert IsDigit(u[|u| - 1]);
    }
  }

  lemma ExpLast(e: string)
    requires e != "" && ExpText(e)
    ensures IsDigit(e[|e| - 1])
  {
    var r := if |e| >= 2 && (e[1] == '+' || e[1] == '-') then e[2..] else e[1..];
    assert IsDigit(r[|r| - 1]);
  }

  /** The states that are in the middle of something end in no digit, or begin with a quote. */
  lemma MiddleState(step: Step, t: string)
    requires Reads(step, t) && !Final(step)
    ensures t != "" && (t[0] == '\"' || !IsDigit(t[|t| - 1]))
  {
    hide Mantissa, IntText, Chars;
    if InText(step) {
      TextSound(step, t, ' ');
    }
  }

  lemma FracNotZero(t: string)
    requires FracOpen(t)
    ensures !IsZero(t)
  {
    var a :| 0 <= a && a + 2 <= |t| && MantissaAt(t, a);
    IntLast(t[..a]);
  }

  lemma ExpNotZero(t: string)
    requires ExpOpen(t)
    ensures !IsZero(t)
  {
    hide ExpText, Mantissa;
    var b :| 0 <= b < |t| && ExpAt(t, b) && Mantissa(t[..b]);
    ExpHead(t[b..]);
    assert t[b] == t[b..][0];
  }

  lemma ZeroIsState0(step: Step, t: string)
    requires Reads(step, t) && Final(step) && IsZero(t)
    ensures step == State0
  {
    hide FracOpen, ExpOpen;
    if FracOpen(t) {
      FracNotZero(t);
    }
    if ExpOpen(t) {
      ExpNotZero(t);
    }
  }

  /** A state that has read a whole number is one a number may end in. */
  lemma NumberState(step: Step, t: string)
    requires Reads(step, t) && IsNumber(t)
    ensures Final(step) && (IsZero(t) ==> step == State0)
  {
    hide IsNumber, Reads;
    NumberLast(t);
    if Final(step) {
      if IsZero(t) {
        ZeroIsState0(step, t);
      }
    } else {
      MiddleState(step, t);
    }
  }

  lemma NumberEnds(step: Step, t: string, c: char)
    requires Reads(step, t) && IsNumber(t)
    requires c != '.' && c != 'e' && c != 'E' && (IsZero(t) || !IsDigit(c))
    ensures InLiteral(step) && LiteralStep(step, c).Ended?
  {
    hide Reads, IsNumber;
    NumberState(step, t);
  }

  // ---------------------------------------------------------------- whitespace

  /** Whitespace may be read here without changing what has been recognised. */
  ghost predicate Spaceable(f: Focus) {
    f.Partial? ==> IsNumber(f.text)
  }

  lemma SpaceMove(k: State, c: char)
    requires Good(k) && Spaceable(k.z.focus) && IsSpace(c)
    ensures Move(k, c).z == AddSpace(k.z, c) && Good(Move(k, c))
  {
    hide Good, Next, AddSpace, IsNumber;
    SpaceOp(k, c);
    MoveGood(k, c);
  }

  lemma SpaceOp(k: State, c: char)
    requires Good(k) && Spaceable(k.z.focus) && IsSpace(c)
    ensures Next(k.s, c).1 == ScanSkipSpace || Next(k.s, c).1 == ScanEnd
  {
    hide Reads, LiteralStep, IsNumber, ReaderOk, Closed;
    if k.z.focus.Partial? {
      NumberEnds(k.s.step, k.z.focus.text, c);
    } else if k.z.focus.Start? {
      SpaceAtStart(k.s, c);
    }
  }

  /** The frame after reading whitespace `w` in front of a value or key. */
  function PadFrame(f: Frame, w: string): Frame {
    match f
    case InArray(items, pre) => InArray(items, pre + w)
    case InKey(members, preKey) => InKey(members, preKey + w)
    case InValue(members, preKey, key, postKey, pre) => InValue(members, preKey, key, postKey, pre + w)
  }

  lemma {:induction false} FeedPad(k: State, w: string)
    requires Good(k) && k.z.focus.Start? && k.z.frames != [] && Blank(w)
    ensures Moves(k, w).z == SetFrame(k.z, PadFrame(Top(k.z), w)) && Good(Moves(k, w))
  {
    if w == "" {
      assert PadFrame(Top(k.z), w) == Top(k.z);
      assert SetFrame(k.z, Top(k.z)) == k.z;
    } else {
      var w', c := w[..|w| - 1], w[|w| - 1];
      assert w == w' + [c];
      FeedPad(k, w');
      hide Good;
      SpaceMove(Moves(k, w'), c);
      MovesLast(k, w', c);
      PadOnce(k.z, w', c);
    }
  }

  lemma PadOnce(z: Reader, w: string, c: char)
    requires z.focus.Start? && z.frames != []
    ensures AddSpace(SetFrame(z, PadFrame(Top(z), w)), c) == SetFrame(z, PadFrame(Top(z), w + [c]))
  {
    var z1 := SetFrame(z, PadFrame(Top(z), w));
    assert z1.frames[..|z1.frames| - 1] == z.frames[..|z.frames| - 1];
    assert Top(z1) == PadFrame(Top(z), w);
    match Top(z)
    case InArray(_, pre) => assert (pre + w) + [c] == pre + (w + [c]);
    case InKey(_, pre) => assert (pre + w) + [c] == pre + (w + [c]);
    case InValue(_, _, _, _, pre) => assert (pre + w) + [c] == pre + (w + [c]);
  }

  lemma {:induction false} FeedLead(w: string)
    requires Blank(w)
    ensures Moves(State(FRESH, INITIAL), w).z == Reader(w, NoDocs, [], Start) && Good(Moves(State(FRESH, INITIAL), w))
  {
    if w != "" {
      var w', c := w[..|w| - 1], w[|w| - 1];
      assert w == w' + [c];
      FeedLead(w');
      hide Good;
      SpaceMove(Moves(State(FRESH, INITIAL), w'), c);
      MovesLast(State(FRESH, INITIAL), w', c);
    }
  }

  /** The focus after whitespace `w` behind a value. */
  function Behind(f: Focus, w: string): Focus {
    if w == "" || !Settle(f).Done? then f else Done(Settle(f).value, Settle(f).post + w)
  }

  lemma {:induction false} FeedBehind(k: State, w: string)
    requires Good(k) && !k.z.focus.Start? && Spaceable(k.z.focus) && Blank(w)
    ensures Moves(k, w).z == k.z.(focus := Behind(k.z.focus, w)) && Good(Moves(k, w))
  {
    if w != "" {
      var w', c := w[..|w| - 1], w[|w| - 1];
      assert w == w' + [c];
      FeedBehind(k, w');
      hide Good, IsNumber;
      SpaceMove(Moves(k, w'), c);
      MovesLast(k, w', c);
      assert w' == "" ==> Settle(k.z.focus).post + [c] == Settle(k.z.focus).post + w;
      assert (Settle(k.z.focus).post + w') + [c] == Settle(k.z.focus).post + w;
    }
  }

  // ---------------------------------------------------------------- values

  lemma AfterSettles(v: Value)
    requires WellFormed(v)
    ensures Settle(After(v)) == Done(v, "") && !After(v).Start? && Spaceable(After(v))
  {
  }

  /** The focus behind a value and whitespace. */
  ghost function AfterItem(v: Value, post: string): Focus {
    Behind(After(v), post)
  }

  lemma AfterItemSettles(v: Value, post: string)
    requires WellFormed(v)
    ensures Settle(AfterItem(v, post)) == Done(v, post) && !AfterItem(v, post).Start? && Spaceable(AfterItem(v, post))
  {
    hide WellFormed, IsNumber;
    AfterSettles(v);
    assert "" + post == post;
  }

  /** The state after a value inside an array or object. */
  ghost predicate ValueRead(k: State) {
    Good(k) && k.z.frames != [] && !AtKey(k.z.frames) && Settle(k.z.focus).Done? && Spaceable(k.z.focus)
  }

  lemma AfterOp(k: State, c: char)
    requires ValueRead(k) && (c == ',' || c == ']' || c == '}')
    ensures Next(k.s, c) == EndValue(k.s, c)
    ensures k.s.parseState != [] && k.s.parseState[|k.s.parseState| - 1] == Kind(Top(k.z))
  {
    hide IsNumber, ReaderOk, Closed, LiteralStep, Reads, EndValue;
    if k.z.focus.Partial? {
      NumberEnds(k.s.step, k.z.focus.text, c);
      hide Matches;
    }
  }

  lemma ItemComma(k: State)
    requires ValueRead(k) && Top(k.z).InArray?
    ensures Move(k, ',').z == SetFrame(k.z, InArray(ItemsNow(Top(k.z), k.z.focus), "")) && Good(Move(k, ','))
  {
    AfterOp(k, ',');
    hide Good, ItemsNow, Next;
    MoveGood(k, ',');
  }

  lemma ArrayEnd(k: State)
    requires ValueRead(k) && Top(k.z).InArray?
    ensures Move(k, ']').z == PopFrame(k.z, Array(ItemsNow(Top(k.z), k.z.focus))) && Good(Move(k, ']'))
  {
    AfterOp(k, ']');
    hide Good, ItemsNow, Next;
    MoveGood(k, ']');
  }

  lemma MemberComma(k: State)
    requires ValueRead(k) && Top(k.z).InValue?
    ensures Move(k, ',').z == SetFrame(k.z, InKey(MembersNow(Top(k.z), k.z.focus), "")) && Good(Move(k, ','))
  {
    AfterOp(k, ',');
    hide Good, MembersNow, Next;
    MoveGood(k, ',');
  }

  lemma ObjectEnd(k: State)
    requires ValueRead(k) && Top(k.z).InValue?
    ensures Move(k, '}').z == PopFrame(k.z, Object(MembersNow(Top(k.z), k.z.focus))) && Good(Move(k, '}'))
  {
    AfterOp(k, '}');
    hide Good, MembersNow, Next;
    MoveGood(k, '}');
  }

  lemma KeyColon(k: State)
    requires Good(k) && AtKey(k.z.frames) && k.z.focus.Done?
    ensures var t, f := Top(k.z), k.z.focus;
            f.value.Scalar? &&
            Move(k, ':').z == SetFrame(k.z, InValue(t.members, t.preKey, f.value.text, f.post, "")) && Good(Move(k, ':'))
  {
    hide IsString, Closed;
    assert Next(k.s, ':').1 == ScanObjectKey;
    hide Good, Next;
    MoveGood(k, ':');
  }

  lemma OpenMove(k: State, c: char)
    requires Startable(k, c) && !AtKey(k.z.frames) && (c == '{' || c == '[')
    ensures Move(k, c).z ==
            k.z.(frames := k.z.frames + [if c == '{' then InKey(NoMembers, "") else InArray(NoItems, "")], focus := Start)
    ensures Good(Move(k, c))
  {
    hide PartsOk, Next, MayAbut, IsSpace;
    KeepsOpen(k.z, k.s, c);
    OpenOp(k.s, c);
  }

  lemma EmptyEnd(k: State, c: char)
    requires Good(k) && k.z.focus.Start? && k.z.frames != []
    requires if c == ']' then Top(k.z).InArray? && Top(k.z).items.NoItems?
             else c == '}' && Top(k.z).InKey? && Top(k.z).members.NoMembers?
    ensures Move(k, c).z == PopFrame(k.z, if c == ']' then EmptyArray(Top(k.z).pre) else EmptyObject(Top(k.z).preKey))
    ensures Good(Move(k, c))
  {
    hide Closed, FrameOk;
    assert k.s.parseState[|k.s.parseState| - 1] == Kind(Top(k.z));
    if c == '}' {
      EmptyObjectOp(k.s);
    } else {
      assert Next(k.s, c) == (Pop(k.s), ScanEndArray);
    }
    hide Good, Next, Pop;
    MoveGood(k, c);
  }

  /** Inside a container, anything may begin a value. */
  lemma StartableInside(k: State, c: char)
    requires Good(k) && k.z.focus.Start? && !IsSpace(c) && k.z.frames != []
    ensures Startable(k, c)
  {
  }

  lemma PadSame(z: Reader, f: Frame, w: string)
    requires z.frames != [] && Top(z) == f
    ensures Top(SetFrame(z, PadFrame(f, w))) == PadFrame(f, w)
    ensures SetFrame(z, PadFrame(f, w)).frames[..|z.frames| - 1] == z.frames[..|z.frames| - 1]
    ensures AtKey(SetFrame(z, PadFrame(f, w)).frames) == f.InKey?
  {
  }

  /** Feeding a whole value. */
  lemma {:induction false} FeedValue(k: State, v: Value)
    requires WellFormed(v) && !AtKey(k.z.frames) && Text(v) != "" && Startable(k, Text(v)[0])
    ensures Moves(k, Text(v)).z == k.z.(focus := After(v)) && Good(Moves(k, Text(v)))
    decreases v, 0
  {
    hide Startable, Good, IsNumber, IsString, IsWord;
    match v
    case Scalar(t) =>
      if IsNumber(t) {
        FeedNumber(k, t);
      } else if IsString(t) {
        FeedString(k, t);
      } else {
        FeedWord(k, t);
      }
    case EmptyArray(gap) => FeedEmpty(k, gap, '[', ']');
    case EmptyObject(gap) => FeedEmpty(k, gap, '{', '}');
    case Array(items) => FeedArray(k, items);
    case Object(members) => FeedObject(k, members);
  }

  lemma FeedEmpty(k: State, gap: string, open: char, close: char)
    requires Blank(gap) && !AtKey(k.z.frames) && Startable(k, open)
    requires (open == '[' && close == ']') || (open == '{' && close == '}')
    ensures var t := [open] + gap + [close];
            && Moves(k, t).z == k.z.(focus := Done(if open == '[' then EmptyArray(gap) else EmptyObject(gap), ""))
            && Good(Moves(k, t))
  {
    hide Startable, Good;
    OpenMove(k, open);
    MovesOne(k, open);
    var k1 := Move(k, open);
    FeedPad(k1, gap);
    MovesConcat(k, [open], gap);
    PadSame(k1.z, Top(k1.z), gap);
    var k2 := Moves(k1, gap);
    assert "" + gap == gap;
    EmptyEnd(k2, close);
    MovesLast(k, [open] + gap, close);
    assert k1.z.frames[..|k1.z.frames| - 1] == k.z.frames;
  }

  /** Feeding an item into the array on top. */
  lemma {:induction false} FeedItem(k: State, x: Item)
    requires Good(k) && k.z.focus.Start? && k.z.frames != [] && !AtKey(k.z.frames) && ItemOk(x)
    ensures Moves(k, ItemText(x)).z ==
            SetFrame(k.z, PadFrame(Top(k.z), x.pre)).(focus := AfterItem(x.value, x.post))
    ensures Good(Moves(k, ItemText(x)))
    decreases x, 1
  {
    hide Good, WellFormed, Text, IsNumber, Startable;
    FeedPad(k, x.pre);
    PadSame(k.z, Top(k.z), x.pre);
    var k1 := Moves(k, x.pre);
    TextFirst(x.value);
    StartableInside(k1, Text(x.value)[0]);
    FeedValue(k1, x.value);
    MovesConcat(k, x.pre, Text(x.value));
    var k2 := Moves(k1, Text(x.value));
    AfterSettles(x.value);
    FeedBehind(k2, x.post);
    MovesConcat(k, x.pre + Text(x.value), x.post);
  }

  lemma {:induction false} FeedArray(k: State, items: Items)
    requires items.MoreItems? && ItemsOk(items) && !AtKey(k.z.frames) && Startable(k, '[')
    ensures var t := Text(Array(items));
            Moves(k, t).z == k.z.(focus := Done(Array(items), "")) && Good(Moves(k, t))
    decreases items, 4
  {
    hide Good, ItemsOk, Startable, ItemsText, Move, Moves, AfterItem;
    OpenMove(k, '[');
    MovesOne(k, '[');
    var k1 := Move(k, '[');
    var start := InArray(NoItems, "");
    assert k1.z == Pushed(k.z, start);
    FeedItems(k1, items);
    MovesConcat(k, "[", ItemsText(items));
    var k2 := Moves(k1, ItemsText(items));
    var last := InArray(items.front, items.last.pre);
    PushedSet(k.z, start, last, AfterItem(items.last.value, items.last.post), Array(items));
    ItemsEnd(k2, items);
    MovesLast(k, "[" + ItemsText(items), ']');
  }

  /** A container that has just been opened; its frame replaced; and its end. */
  function Pushed(z: Reader, f: Frame): Reader {
    z.(frames := z.frames + [f], focus := Start)
  }

  lemma PushedSet(z: Reader, f: Frame, g: Frame, focus: Focus, v: Value)
    ensures var z2 := SetFrame(Pushed(z, f), g).(focus := focus);
            z2.frames != [] && Top(z2) == g && z2.focus == focus && PopFrame(z2, v) == z.(focus := Done(v, ""))
    ensures Top(Pushed(z, f)) == f && Pushed(z, f).focus.Start? && Pushed(z, f).frames != []
  {
    assert Pushed(z, f).frames[..|z.frames|] == z.frames;
    assert (z.frames + [g])[..|z.frames|] == z.frames;
  }

  /** What is left after the last item is closed by the bracket. */
  lemma ItemsEnd(k: State, items: Items)
    requires Good(k) && items.MoreItems? && ItemsOk(items)
    requires k.z.frames != [] && Top(k.z) == InArray(items.front, items.last.pre)
    requires k.z.focus == AfterItem(items.last.value, items.last.post)
    ensures ValueRead(k) && ItemsNow(Top(k.z), k.z.focus) == items
    ensures Move(k, ']').z == PopFrame(k.z, Array(items)) && Good(Move(k, ']'))
  {
    hide Good, WellFormed;
    assert ItemOk(items.last);
    AfterItemSettles(items.last.value, items.last.post);
    ArrayEnd(k);
  }

  /** Feeding the items of an array, from just behind its bracket. */
  lemma {:induction false} FeedItems(k: State, items: Items)
    requires Good(k) && k.z.focus.Start? && k.z.frames != [] && Top(k.z) == InArray(NoItems, "")
    requires items.MoreItems? && ItemsOk(items)
    ensures Moves(k, ItemsText(items)).z ==
            SetFrame(k.z, InArray(items.front, items.last.pre)).(focus := AfterItem(items.last.value, items.last.post))
    ensures Good(Moves(k, ItemsText(items)))
    decreases items, 2
  {
    hide Good, ItemOk, AfterItem;
    var front, x := items.front, items.last;
    FeedItemsOpen(k, front);
    var k1 := Moves(k, ItemsOpen(front));
    assert Top(k1.z) == InArray(front, "");
    FeedItem(k1, x);
    MovesConcat(k, ItemsOpen(front), ItemText(x));
    assert "" + x.pre == x.pre;
  }

  lemma {:induction false} FeedItemsOpen(k: State, items: Items)
    requires Good(k) && k.z.focus.Start? && k.z.frames != [] && Top(k.z) == InArray(NoItems, "")
    requires ItemsOk(items)
    ensures Moves(k, ItemsOpen(items)).z == SetFrame(k.z, InArray(items, ""))
    ensures Good(Moves(k, ItemsOpen(items)))
    decreases items, 3
  {
    hide Good, ItemsText;
    if items.NoItems? {
      assert k.z == SetFrame(k.z, InArray(items, ""));
    } else {
      FeedItems(k, items);
      var k1 := Moves(k, ItemsText(items));
      ItemsNext(k1, items);
      ItemComma(k1);
      MovesLast(k, ItemsText(items), ',');
    }
  }

  lemma ItemsNext(k: State, items: Items)
    requires Good(k) && items.MoreItems? && ItemsOk(items)
    requires k.z.frames != [] && Top(k.z) == InArray(items.front, items.last.pre)
    requires k.z.focus == AfterItem(items.last.value, items.last.post)
    ensures ValueRead(k) && ItemsNow(Top(k.z), k.z.focus) == items
  {
    hide Good, WellFormed;
    assert ItemOk(items.last);
    AfterItemSettles(items.last.value, items.last.post);
  }

  lemma FeedObject(k: State, members: Members)
    requires members.MoreMembers? && MembersOk(members) && !AtKey(k.z.frames) && Startable(k, '{')
    ensures var t := Text(Object(members));
            Moves(k, t).z == k.z.(focus := Done(Object(members), "")) && Good(Moves(k, t))
    decreases members, 4
  {
    hide Good, MembersOk, Startable, MembersText, Move, Moves, AfterItem, LastFrame;
    OpenMove(k, '{');
    MovesOne(k, '{');
    var k1 := Move(k, '{');
    var start := InKey(NoMembers, "");
    assert k1.z == Pushed(k.z, start);
    FeedMembers(k1, members);
    MovesConcat(k, "{", MembersText(members));
    var k2 := Moves(k1, MembersText(members));
    PushedSet(k.z, start, LastFrame(members), AfterItem(members.last.item.value, members.last.item.post), Object(members));
    MembersEnd(k2, members);
    MovesLast(k, "{" + MembersText(members), '}');
  }

  /** What is left after the last member is closed by the brace. */
  lemma MembersEnd(k: State, members: Members)
    requires Good(k) && members.MoreMembers? && MembersOk(members)
    requires k.z.frames != [] && Top(k.z) == LastFrame(members)
    requires k.z.focus == AfterItem(members.last.item.value, members.last.item.post)
    ensures Move(k, '}').z == PopFrame(k.z, Object(members)) && Good(Move(k, '}'))
  {
    hide Good, MembersOk, Move, AfterItem, MembersNow;
    MembersNext(k, members);
    ObjectEnd(k);
  }

  /** The frame of an object whose last member has just been read. */
  function LastFrame(members: Members): Frame
    requires members.MoreMembers?
  {
    var m := members.last;
    InValue(members.front, m.preKey, m.key, m.postKey, m.item.pre)
  }

  lemma MembersNext(k: State, members: Members)
    requires Good(k) && members.MoreMembers? && MembersOk(members)
    requires k.z.frames != [] && Top(k.z) == LastFrame(members)
    requires k.z.focus == AfterItem(members.last.item.value, members.last.item.post)
    ensures ValueRead(k) && MembersNow(Top(k.z), k.z.focus) == members
  {
    hide Good, WellFormed;
    assert MemberOk(members.last) && ItemOk(members.last.item);
    AfterItemSettles(members.last.item.value, members.last.item.post);
  }

  lemma {:induction false} FeedMembers(k: State, members: Members)
    requires Good(k) && k.z.focus.Start? && k.z.frames != [] && Top(k.z) == InKey(NoMembers, "")
    requires members.MoreMembers? && MembersOk(members)
    ensures Moves(k, MembersText(members)).z ==
            SetFrame(k.z, LastFrame(members)).(focus := AfterItem(members.last.item.value, members.last.item.post))
    ensures Good(Moves(k, MembersText(members)))
    decreases members, 2
  {
    hide Good, MemberOk, AfterItem;
    var front, m := members.front, members.last;
    FeedMembersOpen(k, front);
    var k1 := Moves(k, MembersOpen(front));
    FeedMember(k1, m);
    MovesConcat(k, MembersOpen(front), MemberText(m));
  }

  lemma {:induction false} FeedMembersOpen(k: State, members: Members)
    requires Good(k) && k.z.focus.Start? && k.z.frames != [] && Top(k.z) == InKey(NoMembers, "")
    requires MembersOk(members)
    ensures Moves(k, MembersOpen(members)).z == SetFrame(k.z, InKey(members, ""))
    ensures Good(Moves(k, MembersOpen(members)))
    decreases members, 3
  {
    hide Good, MembersText;
    if members.NoMembers? {
      assert k.z == SetFrame(k.z, InKey(members, ""));
    } else {
      FeedMembers(k, members);
      var k1 := Moves(k, MembersText(members));
      MembersNext(k1, members);
      MemberComma(k1);
      MovesLast(k, MembersText(members), ',');
    }
  }

  /** A key and the whitespace around it. */
  lemma FeedKey(k: State, preKey: string, key: string, postKey: string)
    requires Good(k) && k.z.focus.Start? && k.z.frames != [] && Top(k.z).InKey? && Top(k.z).preKey == ""
    requires Blank(preKey) && IsString(key) && Blank(postKey)
    ensures var t := preKey + key + postKey;
            && Moves(k, t).z == SetFrame(k.z, InKey(Top(k.z).members, preKey)).(focus := Done(Scalar(key), postKey))
            && Good(Moves(k, t))
  {
    hide Good, IsString, Startable;
    FeedPad(k, preKey);
    PadSame(k.z, Top(k.z), preKey);
    assert "" + preKey == preKey;
    var k1 := Moves(k, preKey);
    TextFirst(Scalar(key));
    StartableInside(k1, key[0]);
    FeedString(k1, key);
    MovesConcat(k, preKey, key);
    FeedBehind(Moves(k1, key), postKey);
    MovesConcat(k, preKey + key, postKey);
    assert "" + postKey == postKey;
  }

  lemma {:induction false} FeedMember(k: State, m: Member)
    requires Good(k) && k.z.focus.Start? && k.z.frames != [] && Top(k.z).InKey? && Top(k.z).preKey == ""
    requires MemberOk(m)
    ensures Moves(k, MemberText(m)).z ==
            SetFrame(k.z, InValue(Top(k.z).members, m.preKey, m.key, m.postKey, m.item.pre))
              .(focus := AfterItem(m.item.value, m.item.post))
    ensures Good(Moves(k, MemberText(m)))
    decreases m, 1
  {
    hide Good, IsString, ItemOk, AfterItem, ItemText;
    var kt := m.preKey + m.key + m.postKey;
    FeedKey(k, m.preKey, m.key, m.postKey);
    var k1 := Moves(k, kt);
    KeyColon(k1);
    MovesLast(k, kt, ':');
    var k2 := Move(k1, ':');
    assert Top(k2.z) == InValue(Top(k.z).members, m.preKey, m.key, m.postKey, "");
    FeedItem(k2, m.item);
    MovesConcat(k, kt + ":", ItemText(m.item));
    assert "" + m.item.pre == m.item.pre;
    assert k2.z.frames[..|k2.z.frames| - 1] == k.z.frames[..|k.z.frames| - 1];
  }

  // ---------------------------------------------------------------- streams

  /** Between two documents: reading on is reading from the reader that has filed the finished one. */
  lemma NextDocument(k: State, v: Value, post: string, c: char)
    requires Good(k) && k.z.frames == [] && Settle(k.z.focus) == Done(v, post) && Spaceable(k.z.focus)
    requires WellFormed(v) && Blank(post) && MayAbut(v, post, c)
    requires !IsSpace(c) && c != 'e' && c != 'E' && c != '.' && BeginValue(INITIAL, c).1 != ScanError
    ensures var p := Reader(k.z.lead, MoreDocs(k.z.docs, v, post), [], Start);
            Move(k, c) == Move(State(p, INITIAL), c) && Startable(State(p, INITIAL), c)
    ensures Next(k.s, c) == BeginValue(INITIAL, c)
  {
    hide ReaderOk, Matches, Next, Advance, WellFormed, MayAbut, IsNumber, BeginValue, Closed, LiteralStep, Good;
    var z0 := k.z.(focus := Done(v, post));
    var s0 := if k.z.focus.Partial? then k.s.(step := StateEndValue) else k.s;
    NextAfterItem(k, v, post, c);
    ItemReady(k, v, post, c);
    PromoteKept(z0, s0, c);
    PartsBetween(k, v, post, c);
  }

  lemma PartsBetween(k: State, v: Value, post: string, c: char)
    requires k.z.frames == [] && Settle(k.z.focus) == Done(v, post) && MayAbut(v, post, c) && !IsSpace(c)
    requires var p := Promote(k.z.(focus := Done(v, post))); PartsOk(p) && Matches(p, INITIAL) && p.focus.Start?
    ensures var p := Reader(k.z.lead, MoreDocs(k.z.docs, v, post), [], Start);
            Promote(k.z.(focus := Done(v, post))) == p && Startable(State(p, INITIAL), c)
  {
    hide PartsOk, Matches, MayAbut;
  }

  lemma NextAfterItem(k: State, v: Value, post: string, c: char)
    requires Good(k) && k.z.frames == [] && Settle(k.z.focus) == Done(v, post) && Spaceable(k.z.focus)
    requires MayAbut(v, post, c) && !IsSpace(c) && c != 'e' && c != 'E' && c != '.'
    ensures Next(k.s, c) == BeginValue(INITIAL, c)
    ensures k.z.focus.Partial? ==> LiteralStep(k.s.step, c).Ended?
  {
    if k.z.focus.Partial? {
      NumberEnds(k.s.step, k.z.focus.text, c);
    }
    hide IsNumber, LiteralStep, Reads, BeginValue, Closed, WellFormed;
  }

  /** The item as a value that is over. */
  lemma ItemReady(k: State, v: Value, post: string, c: char)
    requires Good(k) && k.z.frames == [] && Settle(k.z.focus) == Done(v, post) && WellFormed(v) && Blank(post)
    requires Next(k.s, c).1 != ScanError && (k.z.focus.Partial? ==> LiteralStep(k.s.step, c).Ended?)
    ensures var z0 := k.z.(focus := Done(v, post));
            var s0 := if k.z.focus.Partial? then k.s.(step := StateEndValue) else k.s;
            && ReaderOk(z0) && Matches(z0, s0) && Next(k.s, c) == Next(s0, c) && Advance(k.z, k.s, c) == Advance(z0, s0, c)
  {
    hide Advance, Next, LiteralStep, WellFormed, MayAbut, IsNumber, Closed;
    if k.z.focus.Partial? {
      SettledSame(k.z, k.s, c);
    }
  }

  lemma ValueBegins(v: Value)
    requires WellFormed(v)
    ensures Text(v) != "" && !IsSpace(Text(v)[0]) && BeginValue(INITIAL, Text(v)[0]).1 != ScanError
    ensures Text(v)[0] !in ['e', 'E', '.']
  {
    TextFirst(v);
    if v.Scalar? && IsNumber(v.text) {
      NumberRun(v.text);
    }
    hide IsNumber;
  }

  lemma MovesSame(k1: State, k2: State, input: string)
    requires input != "" && Move(k1, input[0]) == Move(k2, input[0])
    ensures Moves(k1, input) == Moves(k2, input)
  {
    hide Move, Moves;
    MovesOne(k1, input[0]);
    MovesOne(k2, input[0]);
    MovesConcat(k1, [input[0]], input[1..]);
    MovesConcat(k2, [input[0]], input[1..]);
    assert input == [input[0]] + input[1..];
  }

  /** One document and the whitespace behind it. */
  lemma FeedDocument(k: State, v: Value, post: string)
    requires WellFormed(v) && Blank(post) && k.z.frames == [] && Text(v) != "" && Startable(k, Text(v)[0])
    ensures Moves(k, Text(v) + post).z == k.z.(focus := AfterItem(v, post)) && Good(Moves(k, Text(v) + post))
  {
    hide Good, Startable, WellFormed, IsNumber, Text;
    FeedValue(k, v);
    AfterSettles(v);
    FeedBehind(Moves(k, Text(v)), post);
    MovesConcat(k, Text(v), post);
  }

  /** Feeding a stream files all its documents but the last, which stays in the focus. */
  lemma {:induction false} FeedStream(lead: string, docs: Docs)
    requires IsStream(lead, docs)
    ensures var k := Moves(State(FRESH, INITIAL), lead + DocsText(docs));
            k.z == Reader(lead, docs.front, [], AfterItem(docs.doc, docs.post)) && Good(k)
    decreases docs
  {
    hide Good, Startable, WellFormed, IsNumber, Text, AfterItem, MayAbut, BeginValue;
    var start := State(FRESH, INITIAL);
    var front, v, post := docs.front, docs.doc, docs.post;
    ValueBegins(v);
    var c := Text(v)[0];
    var k1, p;
    if front.NoDocs? {
      FeedLead(lead);
      k1 := Moves(start, lead);
      p := k1;
      StartableFirst(k1, c);
      assert lead + DocsText(docs) == lead + (Text(v) + post);
    } else {
      FeedStream(lead, front);
      k1 := Moves(start, lead + DocsText(front));
      AfterItemSettles(front.doc, front.post);
      NextDocument(k1, front.doc, front.post, c);
      p := State(Reader(lead, front, [], Start), INITIAL);
      assert lead + DocsText(docs) == (lead + DocsText(front)) + (Text(v) + post);
    }
    FeedDocument(p, v, post);
    assert (Text(v) + post)[0] == c;
    MovesSame(k1, p, Text(v) + post);
    MovesConcat(start, if front.NoDocs? then lead else lead + DocsText(front), Text(v) + post);
  }

  lemma StartableFirst(k: State, c: char)
    requires Good(k) && k.z.focus.Start? && k.z.docs.NoDocs? && !IsSpace(c)
    ensures Startable(k, c)
  {
  }

  /** Every JSON stream is accepted, and reading it recovers its whitespace, documents and all. */
  lemma StreamIsAccepted(lead: string, docs: Docs)
    requires IsStream(lead, docs)
    ensures Accepts(lead + DocsText(docs))
    ensures ReaderAfter(lead + DocsText(docs)).lead == lead
    ensures DocsRead(ReaderAfter(lead + DocsText(docs))) == docs
  {
    var input := lead + DocsText(docs);
    FeedStream(lead, docs);
    MovesFromStart(input);
    hide Moves, DocsText, Text, WellFormed, AfterItem, IsNumber;
    AfterItemSettles(docs.doc, docs.post);
    EndAccepted(State(ReaderAfter(input), Feed(INITIAL, input)));
  }

  lemma EndAccepted(k: State)
    requires Good(k) && k.z.frames == [] && Settle(k.z.focus).Done? && Spaceable(k.z.focus)
    ensures Eof(k.s).1 != ScanError
  {
    if k.z.focus.Partial? {
      NumberEnds(k.s.step, k.z.focus.text, ' ');
    }
    hide ReaderOk, Closed, Reads, LiteralStep, IsNumber, BeginValue;
  }

  /** The scanner accepts exactly the JSON streams. */
  lemma AcceptsExactlyStreams(input: string)
    ensures Accepts(input) <==> exists lead, docs :: IsStream(lead, docs) && lead + DocsText(docs) == input
  {
    hide Accepts, IsStream, DocsText;
    if Accepts(input) {
      AcceptedIsStream(input);
    }
    if lead, docs :| IsStream(lead, docs) && lead + DocsText(docs) == input {
      StreamIsAccepted(lead, docs);
    }
  }

  /** An input is a stream in one way only. */
  lemma StreamIsUnambiguous(lead1: string, docs1: Docs, lead2: string, docs2: Docs)
    requires IsStream(lead1, docs1) && IsStream(lead2, docs2)
    requires lead1 + DocsText(docs1) == lead2 + DocsText(docs2)
    ensures lead1 == lead2 && docs1 == docs2
  {
    hide IsStream, Accepts, DocsText;
    StreamIsAccepted(lead1, docs1);
    StreamIsAccepted(lead2, docs2);
  }

  /** Two numbers may not always abut: `1.5` directly followed by `0.5` is refused, although each half is a
      JSON text, because the first number is read greedily. */
  lemma AbuttingNumbersCanFail()
    ensures IsNumber("1.5") && IsNumber("0.5") && !Accepts("1.5" + "0.5")
  {
    hide IsNumber;
    SmallNumber("1.5");
    SmallNumber("0.5");
    hide Accepts;
    RefusedNumbers("1.50.5");
    assert "1.5" + "0.5" == "1.50.5";
  }

  lemma SmallNumber(t: string)
    requires |t| == 3 && IsDigit(t[0]) && t[1] == '.' && IsDigit(t[2])
    ensures IsNumber(t)
  {
    hide Mantissa, IsNumber;
    assert IntText(t[..1]);
    assert FracText(t[1..]);
    MantissaIntro(t, 1);
    MantissaNumber(t);
  }

  lemma NumberSteps()
    ensures Next(INITIAL, '1').0 == Scan(State1, [], false, false)
    ensures Next(Scan(State1, [], false, false), '.').0 == Scan(StateDot, [], false, false)
    ensures Next(Scan(StateDot, [], false, false), '5').0 == Scan(StateDot0, [], false, false)
    ensures Next(Scan(StateDot0, [], false, false), '0').0 == Scan(StateDot0, [], false, false)
  {
  }

  lemma RefusedSteps()
    ensures Next(Scan(StateDot0, [], false, false), '.').0 == Scan(StateError, [], false, true)
    ensures Next(Scan(StateError, [], false, true), '5').0 == Scan(StateError, [], false, true)
  {
  }

  lemma RefusedNumbers(t: string)
    requires t == "1.50.5"
    ensures !Accepts(t)
  {
    hide Feed, Next, Accepts;
    FeedNone();
    NumberSteps();
    RefusedSteps();
    var t1: string := [] + ['1'];
    var t2 := t1 + ['.'];
    var t3 := t2 + ['5'];
    var t4 := t3 + ['0'];
    var t5 := t4 + ['.'];
    FeedLast(INITIAL, [], '1');
    FeedLast(INITIAL, t1, '.');
    FeedLast(INITIAL, t2, '5');
    FeedLast(INITIAL, t3, '0');
    FeedLast(INITIAL, t4, '.');
    FeedLast(INITIAL, t5, '5');
    ErrorRefuses(t5 + ['5']);
    assert t == t5 + ['5'];
  }

  lemma ErrorRefuses(t: string)
    requires Feed(INITIAL, t).err
    ensures !Accepts(t)
  {
    hide Feed;
  }

  lemma FeedNone()
    ensures Feed(INITIAL, "") == INITIAL
  {
  }
}
