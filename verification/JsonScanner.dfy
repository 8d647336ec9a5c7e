/** obfuscate/json_scanner.go: the byte-at-a-time JSON scanner.

    `Next` is the transition function: the scanner's fields before a byte to its fields after it and the
    opcode reported. The class below it changes the same fields in place, one method per state function
    that another one calls, and is proved to make exactly these transitions.

    A byte is a `char`; the states only ever compare it with ASCII characters. */
module JsonScanner {

  datatype Step =
    | StateBeginValue | StateBeginValueOrEmpty | StateBeginStringOrEmpty | StateBeginString
    | StateEndValue | StateEndTop
    | StateInString | StateInStringEsc
    | StateInStringEscU | StateInStringEscU1 | StateInStringEscU12 | StateInStringEscU123
    | StateNeg | State1 | State0 | StateDot | StateDot0 | StateE | StateESign | StateE0
    | StateT | StateTr | StateTru | StateF | StateFa | StateFal | StateFals | StateN | StateNu | StateNul
    | StateError

  datatype Parse = ParseObjectKey | ParseObjectValue | ParseArrayValue

  datatype Op =
    | ScanContinue | ScanBeginLiteral | ScanBeginObject | ScanObjectKey | ScanObjectValue | ScanEndObject
    | ScanBeginArray | ScanArrayValue | ScanEndArray | ScanSkipSpace | ScanEnd | ScanError

  /** The scanner's fields; `err` says whether an error has been recorded. */
  datatype Scan = Scan(step: Step, parseState: seq<Parse>, endTop: bool, err: bool)

  const INITIAL := Scan(StateBeginValue, [], false, false)

  predicate IsSpace(c: char) {
    c == ' ' || c == '\t' || c == '\r' || c == '\n'
  }

  predicate IsDigit(c: char) {
    '0' <= c <= '9'
  }

  predicate IsHex(c: char) {
    '0' <= c <= '9' || 'a' <= c <= 'f' || 'A' <= c <= 'F'
  }

  predicate IsEscape(c: char) {
    c in ['b', 'f', 'n', 'r', 't', '\\', '/', '\"']
  }

  /** The states strictly inside a string, number or word. */
  predicate InLiteral(step: Step) {
    !(step in {StateBeginValue, StateBeginValueOrEmpty, StateBeginStringOrEmpty, StateBeginString,
               StateEndValue, StateEndTop, StateError})
  }

  /** What a literal state makes of a byte: it takes it, the literal ended before it, or it is wrong. */
  datatype Lit = Take(step: Step) | Ended | Wrong

  function Expect(ok: bool, step: Step): Lit {
    if ok then Take(step) else Wrong
  }

  function LiteralStep(step: Step, c: char): Lit
    requires InLiteral(step)
  {
    match step
    case StateInString =>
      if c == '\"' then Take(StateEndValue)
      else if c == '\\' then Take(StateInStringEsc)
      else Expect(c >= ' ', StateInString)
    case StateInStringEsc =>
      if IsEscape(c) then Take(StateInString) else Expect(c == 'u', StateInStringEscU)
    case StateInStringEscU => Expect(IsHex(c), StateInStringEscU1)
    case StateInStringEscU1 => Expect(IsHex(c), StateInStringEscU12)
    case StateInStringEscU12 => Expect(IsHex(c), StateInStringEscU123)
    case StateInStringEscU123 => Expect(IsHex(c), StateInString)
    case StateNeg => if c == '0' then Take(State0) else Expect('1' <= c <= '9', State1)
    case State1 =>
      if IsDigit(c) then Take(State1)
      else if c == '.' then Take(StateDot)
      else if c == 'e' || c == 'E' then Take(StateE)
      else Ended
    case State0 =>
      if c == '.' then Take(StateDot) else if c == 'e' || c == 'E' then Take(StateE) else Ended
    case StateDot => Expect(IsDigit(c), StateDot0)
    case StateDot0 =>
      if IsDigit(c) then Take(StateDot0) else if c == 'e' || c == 'E' then Take(StateE) else Ended
    case StateE => if c == '+' || c == '-' then Take(StateESign) else Expect(IsDigit(c), StateE0)
    case StateESign => Expect(IsDigit(c), StateE0)
    case StateE0 => if IsDigit(c) then Take(StateE0) else Ended
    case StateT => Expect(c == 'r', StateTr)
    case StateTr => Expect(c == 'u', StateTru)
    case StateTru => Expect(c == 'e', StateEndValue)
    case StateF => Expect(c == 'a', StateFa)
    case StateFa => Expect(c == 'l', StateFal)
    case StateFal => Expect(c == 's', StateFals)
    case StateFals => Expect(c == 'e', StateEndValue)
    case StateN => Expect(c == 'u', StateNu)
    case StateNu => Expect(c == 'l', StateNul)
    case StateNul => Expect(c == 'l', StateEndValue)
  }

  /** The state entered by the first byte of a scalar, if it is one. */
  function LiteralStart(c: char): Lit {
    if c == '\"' then Take(StateInString)
    else if c == '-' then Take(StateNeg)
    else if c == '0' then Take(State0)
    else if c == 't' then Take(StateT)
    else if c == 'f' then Take(StateF)
    else if c == 'n' then Take(StateN)
    else Expect('1' <= c <= '9', State1)
  }

  function Fail(s: Scan): (Scan, Op) {
    (s.(step := StateError, err := true), ScanError)
  }

  function BeginValue(s: Scan, c: char): (Scan, Op) {
    if IsSpace(c) then (s, ScanSkipSpace)
    else if c == '{' then
      (s.(step := StateBeginStringOrEmpty, parseState := s.parseState + [ParseObjectKey]), ScanBeginObject)
    else if c == '[' then
      (s.(step := StateBeginValueOrEmpty, parseState := s.parseState + [ParseArrayValue]), ScanBeginArray)
    else
      match LiteralStart(c)
      case Take(step) => (s.(step := step), ScanBeginLiteral)
      case _ => Fail(s)
  }

  function BeginString(s: Scan, c: char): (Scan, Op) {
    if IsSpace(c) then (s, ScanSkipSpace)
    else if c == '\"' then (s.(step := StateInString), ScanBeginLiteral)
    else Fail(s)
  }

  function EndTop(s: Scan, c: char): (Scan, Op) {
    if IsSpace(c) then (s, ScanEnd) else BeginValue(INITIAL, c)
  }

  function Pop(s: Scan): Scan
    requires s.parseState != []
  {
    var rest := s.parseState[..|s.parseState| - 1];
    if rest == [] then s.(parseState := rest, step := StateEndTop, endTop := true)
    else s.(parseState := rest, step := StateEndValue)
  }

  function SetTop(s: Scan, p: Parse): Scan
    requires s.parseState != []
  {
    s.(parseState := s.parseState[..|s.parseState| - 1] + [p])
  }

  function EndValue(s: Scan, c: char): (Scan, Op) {
    if s.parseState == [] then EndTop(s.(step := StateEndTop, endTop := true), c)
    else if IsSpace(c) then (s.(step := StateEndValue), ScanSkipSpace)
    else
      match s.parseState[|s.parseState| - 1]
      case ParseObjectKey =>
        if c == ':' then (SetTop(s, ParseObjectValue).(step := StateBeginValue), ScanObjectKey) else Fail(s)
      case ParseObjectValue =>
        if c == ',' then (SetTop(s, ParseObjectKey).(step := StateBeginString), ScanObjectValue)
        else if c == '}' then (Pop(s), ScanEndObject)
        else Fail(s)
      case ParseArrayValue =>
        if c == ',' then (s.(step := StateBeginValue), ScanArrayValue)
        else if c == ']' then (Pop(s), ScanEndArray)
        else Fail(s)
  }

  function Next(s: Scan, c: char): (Scan, Op) {
    match s.step
    case StateBeginValue => BeginValue(s, c)
    case StateBeginValueOrEmpty =>
      if IsSpace(c) then (s, ScanSkipSpace) else if c == ']' then EndValue(s, c) else BeginValue(s, c)
    case StateBeginStringOrEmpty =>
      if IsSpace(c) then (s, ScanSkipSpace)
      else if c == '}' && s.parseState != [] then EndValue(SetTop(s, ParseObjectValue), c)
      else BeginString(s, c)
    case StateBeginString => BeginString(s, c)
    case StateEndValue => EndValue(s, c)
    case StateEndTop => EndTop(s, c)
    case StateError => (s, ScanError)
    case _ => NextInLiteral(s, c)
  }

  function NextInLiteral(s: Scan, c: char): (Scan, Op)
    requires InLiteral(s.step)
  {
    match LiteralStep(s.step, c)
    case Take(step) => (s.(step := step), ScanContinue)
    case Ended => EndValue(s, c)
    case Wrong => Fail(s)
  }

  lemma NextOfLiteral(s: Scan, c: char)
    requires InLiteral(s.step)
    ensures Next(s, c) == NextInLiteral(s, c)
  {
    hide LiteralStep, EndValue;
  }

  /** The fields after the end of input was announced, and whether that is reported as an error. */
  function Eof(s: Scan): (Scan, Op) {
    if s.err then (s, ScanError)
    else if s.endTop then (s, ScanEnd)
    else
      var s' := Next(s, ' ').0;
      if s'.endTop then (s', ScanEnd) else (s'.(err := true), ScanError)
  }

  /** The scanner after a whole input. */
  function Feed(s: Scan, input: string): Scan {
    if input == "" then s else Next(Feed(s, input[..|input| - 1]), input[|input| - 1]).0
  }

  /** The input is accepted: no byte and not the end of input is answered with an error. */
  predicate Accepts(input: string) {
    Eof(Feed(INITIAL, input)).1 != ScanError
  }

  /** The stack is never read when empty: `{` was pushed before a key or a `}` can be expected. */
  predicate StackOk(s: Scan) {
    && (s.step in {StateBeginStringOrEmpty, StateBeginString, StateBeginValueOrEmpty} ==> s.parseState != [])
    && (s.step == StateEndTop ==> s.parseState == [])
    && (s.endTop <==> s.step == StateEndTop)
    && (s.err <==> s.step == StateError)
  }

  lemma BeginStackOk(s: Scan, c: char)
    requires StackOk(s) && (s.step == StateBeginValue || s.step == StateBeginValueOrEmpty)
    ensures StackOk(BeginValue(s, c).0)
    ensures BeginValue(s, c).1 == ScanError <==> BeginValue(s, c).0.step == StateError
  {
    var l := LiteralStart(c);
    assert l.Take? ==> InLiteral(l.step);
  }

  lemma EndValueStackOk(s: Scan, c: char)
    requires !s.err && !s.endTop
    ensures StackOk(EndValue(s, c).0)
    ensures EndValue(s, c).1 == ScanError <==> EndValue(s, c).0.step == StateError
  {
    hide BeginValue, IsSpace;
    if s.parseState == [] {
      BeginStackOk(INITIAL, c);
    }
  }

  /** No transition can read an empty stack later, and errors are exactly the moves to the error state. */
  lemma NextStackOk(s: Scan, c: char)
    requires StackOk(s)
    ensures StackOk(Next(s, c).0)
    ensures Next(s, c).1 == ScanError <==> Next(s, c).0.step == StateError
  {
    hide BeginValue, EndValue, LiteralStep;
    match s.step
    case StateBeginValue => BeginStackOk(s, c);
    case StateBeginValueOrEmpty =>
      BeginStackOk(s, c);
      EndValueStackOk(s, c);
    case StateBeginStringOrEmpty =>
      EndValueStackOk(SetTop(s, ParseObjectValue), c);
    case StateBeginString =>
    case StateEndTop => BeginStackOk(INITIAL, c);
    case StateError =>
    case StateEndValue => EndValueStackOk(s, c);
    case _ =>
      EndValueStackOk(s, c);
      LiteralTakes(s.step, c);
  }

  lemma LiteralTakes(step: Step, c: char)
    requires InLiteral(step)
    ensures var l := LiteralStep(step, c); l.Take? ==> InLiteral(l.step) || l.step == StateEndValue
  {
  }

  class Scanner {
    var step: Step
    var endTop: bool
    var parseState: seq<Parse>
    var err: bool

    ghost function Fields(): Scan
      reads this
    {
      Scan(step, parseState, endTop, err)
    }

    constructor ()
      ensures Fields() == INITIAL
    {
      step, endTop, parseState, err := StateBeginValue, false, [], false;
    }

    method Reset()
      modifies this
      ensures Fields() == INITIAL
    {
      step := StateBeginValue;
      parseState := [];
      err := false;
      endTop := false;
    }

    method PushParseState(p: Parse)
      modifies this`parseState
      ensures parseState == old(parseState) + [p]
    {
      parseState := parseState + [p];
    }

    method PopParseState()
      requires parseState != []
      modifies this
      ensures Fields() == Pop(old(Fields()))
    {
      var n := |parseState| - 1;
      parseState := parseState[0..n];
      if n == 0 {
        step := StateEndTop;
        endTop := true;
      } else {
        step := StateEndValue;
      }
    }

    method Error() returns (op: Op)
      modifies this
      ensures (Fields(), op) == Fail(old(Fields()))
    {
      step := StateError;
      err := true;
      op := ScanError;
    }

    method DoBeginValue(c: char) returns (op: Op)
      modifies this
      ensures (Fields(), op) == BeginValue(old(Fields()), c)
    {
      if IsSpace(c) {
        return ScanSkipSpace;
      }
      match c
      case '{' =>
        step := StateBeginStringOrEmpty;
        PushParseState(ParseObjectKey);
        return ScanBeginObject;
      case '[' =>
        step := StateBeginValueOrEmpty;
        PushParseState(ParseArrayValue);
        return ScanBeginArray;
      case '\"' =>
        step := StateInString;
        return ScanBeginLiteral;
      case '-' =>
        step := StateNeg;
        return ScanBeginLiteral;
      case '0' =>
        step := State0;
        return ScanBeginLiteral;
      case 't' =>
        step := StateT;
        return ScanBeginLiteral;
      case 'f' =>
        step := StateF;
        return ScanBeginLiteral;
      case 'n' =>
        step := StateN;
        return ScanBeginLiteral;
      case _ =>
        if '1' <= c <= '9' {
          step := State1;
          return ScanBeginLiteral;
        }
        op := Error();
    }

    method DoBeginString(c: char) returns (op: Op)
      modifies this
      ensures (Fields(), op) == BeginString(old(Fields()), c)
    {
      if IsSpace(c) {
        return ScanSkipSpace;
      }
      if c == '\"' {
        step := StateInString;
        return ScanBeginLiteral;
      }
      op := Error();
    }

    method DoEndTop(c: char) returns (op: Op)
      modifies this
      ensures (Fields(), op) == EndTop(old(Fields()), c)
    {
      if c != ' ' && c != '\t' && c != '\r' && c != '\n' {
        // a new document might be starting: begin again on this same byte
        Reset();
        op := DoBeginValue(c);
        return;
      }
      return ScanEnd;
    }

    method DoEndValue(c: char) returns (op: Op)
      modifies this
      ensures (Fields(), op) == EndValue(old(Fields()), c)
    {
      var n := |parseState|;
      if n == 0 {
        step := StateEndTop;
        endTop := true;
        op := DoEndTop(c);
        return;
      }
      if IsSpace(c) {
        step := StateEndValue;
        return ScanSkipSpace;
      }
      match parseState[n - 1]
      case ParseObjectKey =>
        if c == ':' {
          parseState := parseState[..n - 1] + [ParseObjectValue];
          step := StateBeginValue;
          return ScanObjectKey;
        }
        op := Error();
      case ParseObjectValue =>
        if c == ',' {
          parseState := parseState[..n - 1] + [ParseObjectKey];
          step := StateBeginString;
          return ScanObjectValue;
        }
        if c == '}' {
          PopParseState();
          return ScanEndObject;
        }
        op := Error();
      case ParseArrayValue =>
        if c == ',' {
          step := StateBeginValue;
          return ScanArrayValue;
        }
        if c == ']' {
          PopParseState();
          return ScanEndArray;
        }
        op := Error();
    }

    /** The states inside a string. */
    method DoStringState(c: char) returns (op: Op)
      requires step in {StateInString, StateInStringEsc, StateInStringEscU, StateInStringEscU1,
                       StateInStringEscU12, StateInStringEscU123}
      modifies this
      ensures (Fields(), op) == NextInLiteral(old(Fields()), c)
    {
      hide EndValue;
      match step
      case StateInString =>
        if c == '\"' {
          step := StateEndValue;
          return ScanContinue;
        }
        if c == '\\' {
          step := StateInStringEsc;
          return ScanContinue;
        }
        if c >= ' ' {
          return ScanContinue;
        }
        op := Error();
      case StateInStringEsc =>
        match c {
          case 'b' | 'f' | 'n' | 'r' | 't' | '\\' | '/' | '\"' =>
            step := StateInString;
            return ScanContinue;
          case 'u' =>
            step := StateInStringEscU;
            return ScanContinue;
          case _ =>
            op := Error();
        }
      case StateInStringEscU =>
        if IsHex(c) {
          step := StateInStringEscU1;
          return ScanContinue;
        }
        op := Error();
      case StateInStringEscU1 =>
        if IsHex(c) {
          step := StateInStringEscU12;
          return ScanContinue;
        }
        op := Error();
      case StateInStringEscU12 =>
        if IsHex(c) {
          step := StateInStringEscU123;
          return ScanContinue;
        }
        op := Error();
      case StateInStringEscU123 =>
        if IsHex(c) {
          step := StateInString;
          return ScanContinue;
        }
        op := Error();
    }

    /** The states inside a number. */
    method DoNumberState(c: char) returns (op: Op)
      requires step in {StateNeg, State1, State0, StateDot, StateDot0, StateE, StateESign, StateE0}
      modifies this
      ensures (Fields(), op) == NextInLiteral(old(Fields()), c)
    {
      hide EndValue;
      match step
      case StateNeg =>
        if c == '0' {
          step := State0;
          return ScanContinue;
        }
        if '1' <= c <= '9' {
          step := State1;
          return ScanContinue;
        }
        op := Error();
      case State1 =>
        if '0' <= c <= '9' {
          return ScanContinue;
        }
        if c == '.' {
          step := StateDot;
          return ScanContinue;
        }
        if c == 'e' || c == 'E' {
          step := StateE;
          return ScanContinue;
        }
        op := DoEndValue(c);
      case State0 =>
        if c == '.' {
          step := StateDot;
          return ScanContinue;
        }
        if c == 'e' || c == 'E' {
          step := StateE;
          return ScanContinue;
        }
        op := DoEndValue(c);
      case StateDot =>
        if '0' <= c <= '9' {
          step := StateDot0;
          return ScanContinue;
        }
        op := Error();
      case StateDot0 =>
        if '0' <= c <= '9' {
          return ScanContinue;
        }
        if c == 'e' || c == 'E' {
          step := StateE;
          return ScanContinue;
        }
        op := DoEndValue(c);
      case StateE =>
        if c == '+' || c == '-' {
          step := StateESign;
          return ScanContinue;
        }
        if '0' <= c <= '9' {
          step := StateE0;
          return ScanContinue;
        }
        op := Error();
      case StateESign =>
        if '0' <= c <= '9' {
          step := StateE0;
          return ScanContinue;
        }
        op := Error();
      case StateE0 =>
        if '0' <= c <= '9' {
          return ScanContinue;
        }
        op := DoEndValue(c);
    }

    /** The states inside `true`, `false` and `null`. */
    method DoWordState(c: char) returns (op: Op)
      requires step in {StateT, StateTr, StateTru, StateF, StateFa, StateFal,
                       StateFals, StateN, StateNu, StateNul}
      modifies this
      ensures (Fields(), op) == NextInLiteral(old(Fields()), c)
    {
      hide EndValue;
      match step
      case StateT =>
        if c == 'r' {
          step := StateTr;
          return ScanContinue;
        }
        op := Error();
      case StateTr =>
        if c == 'u' {
          step := StateTru;
          return ScanContinue;
        }
        op := Error();
      case StateTru =>
        if c == 'e' {
          step := StateEndValue;
          return ScanContinue;
        }
        op := Error();
      case StateF =>
        if c == 'a' {
          step := StateFa;
          return ScanContinue;
        }
        op := Error();
      case StateFa =>
        if c == 'l' {
          step := StateFal;
          return ScanContinue;
        }
        op := Error();
      case StateFal =>
        if c == 's' {
          step := StateFals;
          return ScanContinue;
        }
        op := Error();
      case StateFals =>
        if c == 'e' {
          step := StateEndValue;
          return ScanContinue;
        }
        op := Error();
      case StateN =>
        if c == 'u' {
          step := StateNu;
          return ScanContinue;
        }
        op := Error();
      case StateNu =>
        if c == 'l' {
          step := StateNul;
          return ScanContinue;
        }
        op := Error();
      case StateNul =>
        if c == 'l' {
          step := StateEndValue;
          return ScanContinue;
        }
        op := Error();
    }

    /** Inside a string, number or word. */
    method DoLiteral(c: char) returns (op: Op)
      requires InLiteral(step)
      modifies this
      ensures (Fields(), op) == Next(old(Fields()), c)
    {
      NextOfLiteral(Fields(), c);
      if step in {StateInString, StateInStringEsc, StateInStringEscU, StateInStringEscU1, StateInStringEscU12,
                  StateInStringEscU123} {
        op := DoStringState(c);
      } else if step in {StateNeg, State1, State0, StateDot, StateDot0, StateE, StateESign, StateE0} {
        op := DoNumberState(c);
      } else {
        op := DoWordState(c);
      }
    }

    /** `s.step(s, c)`: the current state function applied to the next byte. */
    method StepByte(c: char) returns (op: Op)
      requires StackOk(Fields())
      modifies this
      ensures (Fields(), op) == Next(old(Fields()), c)
      ensures StackOk(Fields())
    {
      NextStackOk(Fields(), c);
      match step
      case StateBeginValue =>
        op := DoBeginValue(c);
      case StateBeginValueOrEmpty =>
        if IsSpace(c) {
          return ScanSkipSpace;
        }
        if c == ']' {
          op := DoEndValue(c);
        } else {
          op := DoBeginValue(c);
        }
      case StateBeginStringOrEmpty =>
        if IsSpace(c) {
          return ScanSkipSpace;
        }
        if c == '}' {
          var n := |parseState|;
          parseState := parseState[..n - 1] + [ParseObjectValue];
          op := DoEndValue(c);
        } else {
          op := DoBeginString(c);
        }
      case StateBeginString =>
        op := DoBeginString(c);
      case StateEndValue =>
        op := DoEndValue(c);
      case StateEndTop =>
        op := DoEndTop(c);
      case StateError =>
        return ScanError;
      case _ =>
        op := DoLiteral(c);
    }

    method DoEof() returns (op: Op)
      requires StackOk(Fields())
      modifies this
      ensures (Fields(), op) == Eof(old(Fields()))
    {
      if err {
        return ScanError;
      }
      if endTop {
        return ScanEnd;
      }
      var _ := StepByte(' ');
      if endTop {
        return ScanEnd;
      }
      if !err {
        err := true;
      }
      return ScanError;
    }
  }
}
