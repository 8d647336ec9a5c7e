/** The parse the scanner is in the middle of, and why an accepted input is a JSON stream.

    A `Reader` is the tree built so far: finished documents, one frame for each open array or object, and
    a focus. `Advance` extends it by one byte, using the opcode the scanner reports; it always stands for
    exactly the bytes read (`ReaderText`) and always agrees with the scanner's state (`Matches`). */
module JsonReader {
  import opened JsonScanner
  import opened JsonText

  datatype Frame =
    | InArray(items: Items, pre: string)
    | InKey(members: Members, preKey: string)
    | InValue(members: Members, preKey: string, key: string, postKey: string, pre: string)

  /** Before a value or key; inside a scalar; after a complete value or key. */
  datatype Focus = Start | Partial(text: string) | Done(value: Value, post: string)

  datatype Reader = Reader(lead: string, docs: Docs, frames: seq<Frame>, focus: Focus)

  const FRESH := Reader("", NoDocs, [], Start)

  // ---------------------------------------------------------------- the text of a reader

  function FrameText(f: Frame): string {
    match f
    case InArray(items, pre) => "[" + ItemsOpen(items) + pre
    case InKey(members, preKey) => "{" + MembersOpen(members) + preKey
    case InValue(members, preKey, key, postKey, pre) =>
      "{" + MembersOpen(members) + preKey + key + postKey + ":" + pre
  }

  function FramesText(fs: seq<Frame>): string {
    if fs == [] then "" else FramesText(fs[..|fs| - 1]) + FrameText(fs[|fs| - 1])
  }

  function FocusText(f: Focus): string {
    match f
    case Start => ""
    case Partial(text) => text
    case Done(value, post) => Text(value) + post
  }

  function ReaderText(z: Reader): string {
    z.lead + DocsText(z.docs) + FramesText(z.frames) + FocusText(z.focus)
  }

  // ---------------------------------------------------------------- one byte

  function Top(z: Reader): Frame
    requires z.frames != []
  {
    z.frames[|z.frames| - 1]
  }

  function SetFrame(z: Reader, f: Frame): Reader
    requires z.frames != []
  {
    z.(frames := z.frames[..|z.frames| - 1] + [f], focus := Start)
  }

  function PopFrame(z: Reader, v: Value): Reader
    requires z.frames != []
  {
    z.(frames := z.frames[..|z.frames| - 1], focus := Done(v, ""))
  }

  /** A number is over once a byte it cannot contain arrives. */
  function Settle(f: Focus): Focus {
    if f.Partial? then Done(Scalar(f.text), "") else f
  }

  /** A finished top-level document joins the list when the next one begins. */
  function Promote(z: Reader): Reader {
    var f := Settle(z.focus);
    if z.frames == [] && f.Done? then z.(docs := MoreDocs(z.docs, f.value, f.post), focus := Start) else z
  }

  function AddSpace(z: Reader, c: char): Reader {
    match Settle(z.focus)
    case Done(v, post) => z.(focus := Done(v, post + [c]))
    case _ =>
      if z.frames == [] then z.(lead := z.lead + [c])
      else
        match Top(z)
        case InArray(items, pre) => SetFrame(z, InArray(items, pre + [c]))
        case InKey(members, preKey) => SetFrame(z, InKey(members, preKey + [c]))
        case InValue(members, preKey, key, postKey, pre) =>
          SetFrame(z, InValue(members, preKey, key, postKey, pre + [c]))
  }

  /** The items of the innermost array including the one just finished. */
  function ItemsNow(f: Frame, focus: Focus): Items
    requires f.InArray?
  {
    match Settle(focus)
    case Done(v, post) => MoreItems(f.items, Item(f.pre, v, post))
    case _ => f.items
  }

  function MembersNow(f: Frame, focus: Focus): Members
    requires f.InValue?
  {
    match Settle(focus)
    case Done(v, post) => MoreMembers(f.members, Member(f.preKey, f.key, f.postKey, Item(f.pre, v, post)))
    case _ => f.members
  }

  function Advance(z: Reader, s: Scan, c: char): Reader {
    match Next(s, c).1
    case ScanBeginObject => var p := Promote(z); p.(frames := p.frames + [InKey(NoMembers, "")], focus := Start)
    case ScanBeginArray => var p := Promote(z); p.(frames := p.frames + [InArray(NoItems, "")], focus := Start)
    case ScanBeginLiteral => Promote(z).(focus := Partial([c]))
    case ScanContinue =>
      if !z.focus.Partial? then z
      else if Next(s, c).0.step == StateEndValue then z.(focus := Done(Scalar(z.focus.text + [c]), ""))
      else z.(focus := Partial(z.focus.text + [c]))
    case ScanSkipSpace => AddSpace(z, c)
    case ScanEnd => AddSpace(z, c)
    case ScanObjectKey =>
      if z.frames != [] && Top(z).InKey? && z.focus.Done? && z.focus.value.Scalar? then
        SetFrame(z, InValue(Top(z).members, Top(z).preKey, z.focus.value.text, z.focus.post, ""))
      else z
    case ScanObjectValue =>
      if z.frames != [] && Top(z).InValue? then SetFrame(z, InKey(MembersNow(Top(z), z.focus), "")) else z
    case ScanArrayValue =>
      if z.frames != [] && Top(z).InArray? then SetFrame(z, InArray(ItemsNow(Top(z), z.focus), "")) else z
    case ScanEndObject =>
      if z.frames == [] then z
      else if Top(z).InKey? then PopFrame(z, EmptyObject(Top(z).preKey))
      else if Top(z).InValue? then PopFrame(z, Object(MembersNow(Top(z), z.focus)))
      else z
    case ScanEndArray =>
      if z.frames == [] || !Top(z).InArray? then z
      else if z.focus.Start? then PopFrame(z, EmptyArray(Top(z).pre))
      else PopFrame(z, Array(ItemsNow(Top(z), z.focus)))
    case ScanError => z
  }

  // ---------------------------------------------------------------- partial scalars

  predicate StrOpen(t: string) {
    t != "" && t[0] == '\"' && Chars(t[1..])
  }

  /** An open string ending in `\u` and `k` hexadecimal digits. */
  predicate UnicodeOpen(t: string, k: nat) {
    |t| >= k + 2 && StrOpen(t[..|t| - k - 2]) && t[|t| - k - 2] == '\\' && t[|t| - k - 1] == 'u' &&
    forall i :: |t| - k <= i < |t| ==> IsHex(t[i])
  }

  ghost predicate FracOpen(t: string) {
    exists a :: 0 <= a && a + 2 <= |t| && MantissaAt(t, a)
  }

  ghost predicate ExpOpen(t: string) {
    exists b :: 0 <= b < |t| && ExpAt(t, b) && Mantissa(t[..b])
  }

  predicate IsZero(t: string) {
    t == "0" || t == "-0"
  }

  /** What a literal state has read so far. */
  ghost predicate Reads(step: Step, t: string) {
    match step
    case StateInString => StrOpen(t)
    case StateInStringEsc => |t| >= 2 && t[|t| - 1] == '\\' && StrOpen(t[..|t| - 1])
    case StateInStringEscU => UnicodeOpen(t, 0)
    case StateInStringEscU1 => UnicodeOpen(t, 1)
    case StateInStringEscU12 => UnicodeOpen(t, 2)
    case StateInStringEscU123 => UnicodeOpen(t, 3)
    case StateNeg => t == "-"
    case State0 => IsZero(t)
    case State1 => IntText(t) && !IsZero(t)
    case StateDot => t != "" && t[|t| - 1] == '.' && IntText(t[..|t| - 1])
    case StateDot0 => FracOpen(t)
    case StateE => t != "" && (t[|t| - 1] == 'e' || t[|t| - 1] == 'E') && Mantissa(t[..|t| - 1])
    case StateESign =>
      |t| >= 2 && (t[|t| - 1] == '+' || t[|t| - 1] == '-') && (t[|t| - 2] == 'e' || t[|t| - 2] == 'E')
      && Mantissa(t[..|t| - 2])
    case StateE0 => ExpOpen(t)
    case StateT => t == "t"
    case StateTr => t == "tr"
    case StateTru => t == "tru"
    case StateF => t == "f"
    case StateFa => t == "fa"
    case StateFal => t == "fal"
    case StateFals => t == "fals"
    case StateN => t == "n"
    case StateNu => t == "nu"
    case StateNul => t == "nul"
    case _ => false
  }

  predicate InText(step: Step) {
    step in {StateInString, StateInStringEsc, StateInStringEscU, StateInStringEscU1, StateInStringEscU12,
             StateInStringEscU123}
  }

  predicate InWord(step: Step) {
    step in {StateT, StateTr, StateTru, StateF, StateFa, StateFal, StateFals, StateN, StateNu, StateNul}
  }

  lemma StrGrow(open: string, unit: string)
    requires StrOpen(open) && Chars(unit)
    ensures StrOpen(open + unit)
  {
    hide Chars;
    CharsAppend(open[1..], unit);
    assert (open + unit)[1..] == open[1..] + unit;
  }

  lemma UnicodeGrow(t: string, k: nat, c: char)
    requires UnicodeOpen(t, k) && IsHex(c)
    ensures UnicodeOpen(t + [c], k + 1)
    ensures k == 3 ==> StrOpen(t + [c])
  {
    hide StrOpen, IsHex;
    var u := t + [c];
    var open := t[..|t| - k - 2];
    assert u[..|u| - (k + 1) - 2] == open;
    if k == 3 {
      var unit := u[|open|..];
      assert unit == ['\\', 'u', t[|t| - 3], t[|t| - 2], t[|t| - 1], c];
      UnicodeUnit(unit);
      StrGrow(open, unit);
      assert u == open + unit;
    }
  }

  lemma UnicodeUnit(u: string)
    requires |u| == 6 && u[0] == '\\' && u[1] == 'u' && IsHex(u[2]) && IsHex(u[3]) && IsHex(u[4]) && IsHex(u[5])
    ensures Chars(u)
  {
    assert u[6..] == "";
  }

  lemma EscapeUnit(c: char)
    requires IsEscape(c)
    ensures Chars(['\\', c])
  {
    assert ['\\', c][2..] == "";
  }

  lemma TextSound(step: Step, t: string, c: char)
    requires InText(step) && Reads(step, t)
    ensures t != "" && t[0] == '\"'
    ensures match LiteralStep(step, c)
            case Take(next) => if next == StateEndValue then IsString(t + [c]) else InText(next) && Reads(next, t + [c])
            case Ended => false
            case Wrong => true
  {
    hide Chars;
    var u := t + [c];
    if step == StateInString {
      assert u[..|u| - 1] == t && u[1..|u| - 1] == t[1..];
      if c != '\"' && c != '\\' && c >= ' ' {
        PlainUnit(c);
        StrGrow(t, [c]);
      }
    } else if step == StateInStringEsc {
      var open := t[..|t| - 1];
      if IsEscape(c) {
        EscapeUnit(c);
        StrGrow(open, ['\\', c]);
        assert u == open + ['\\', c];
      } else {
        assert u[..|u| - 2] == open;
      }
    } else if IsHex(c) {
      UnicodeGrow(t, if step == StateInStringEscU then 0 else if step == StateInStringEscU1 then 1
                     else if step == StateInStringEscU12 then 2 else 3, c);
    }
  }

  lemma PlainUnit(c: char)
    requires c != '\"' && c != '\\' && c >= ' '
    ensures Chars([c])
  {
    assert [c][1..] == "";
  }

  lemma WordSound(step: Step, t: string, c: char)
    requires InWord(step) && Reads(step, t)
    ensures t != "" && t[0] != '\"' && t[0] != '-' && !IsDigit(t[0])
    ensures match LiteralStep(step, c)
            case Take(next) => if next == StateEndValue then IsWord(t + [c]) else InWord(next) && Reads(next, t + [c])
            case Ended => false
            case Wrong => true
  {
  }

  lemma MantissaIntro(m: string, a: nat)
    requires a <= |m| && MantissaAt(m, a)
    ensures Mantissa(m)
  {
  }

  lemma IntMantissa(t: string)
    requires IntText(t)
    ensures Mantissa(t)
  {
    assert t[..|t|] == t && t[|t|..] == "";
    MantissaIntro(t, |t|);
  }

  lemma MantissaNumber(t: string)
    requires Mantissa(t)
    ensures IsNumber(t)
  {
    assert t[..|t|] == t && t[|t|..] == "";
    assert ExpAt(t, |t|);
  }

  lemma IntGrow(t: string, c: char)
    requires IntText(t) && !IsZero(t) && IsDigit(c)
    ensures IntText(t + [c]) && !IsZero(t + [c])
  {
    var d := if t[0] == '-' then t[1..] else t;
    var u := t + [c];
    assert (if u[0] == '-' then u[1..] else u) == d + [c];
  }

  lemma IntFirst(t: string)
    requires IntText(t)
    ensures t != "" && t[0] != '\"'
  {
  }

  lemma MantissaFirst(m: string)
    requires Mantissa(m)
    ensures m != "" && m[0] != '\"'
  {
    MantissaNumber(m);
    NumberFirst(m);
  }

  lemma FracGrow(t: string, a: nat, c: char)
    requires a + 2 <= |t| && MantissaAt(t, a) && IsDigit(c)
    ensures MantissaAt(t + [c], a)
  {
    var u := t + [c];
    assert u[..a] == t[..a] && u[a..] == t[a..] + [c];
    assert u[a..][1..] == t[a..][1..] + [c];
  }

  lemma FracStart(t: string, c: char)
    requires IntText(t) && IsDigit(c)
    ensures FracOpen(t + ['.'] + [c])
  {
    var u := t + ['.'] + [c];
    assert u[..|t|] == t && u[|t|..] == ['.', c];
    assert MantissaAt(u, |t|);
  }

  lemma DotSound(t: string, c: char)
    requires Reads(StateDot, t)
    ensures t != "" && t[0] != '\"'
    ensures IsDigit(c) ==> FracOpen(t + [c])
  {
    hide IntText, FracOpen;
    var i := t[..|t| - 1];
    IntFirst(i);
    assert t[0] == i[0];
    if IsDigit(c) {
      FracStart(i, c);
      assert t + [c] == i + ['.'] + [c];
    }
  }

  lemma DigitsSound(t: string, c: char)
    requires IntText(t)
    ensures t != "" && t[0] != '\"' && IsNumber(t) && Mantissa(t)
    ensures !IsZero(t) && IsDigit(c) ==> IntText(t + [c]) && !IsZero(t + [c])
    ensures (t + [c])[..|t + [c]| - 1] == t
  {
    IntFirst(t);
    IntMantissa(t);
    MantissaNumber(t);
    if !IsZero(t) && IsDigit(c) {
      IntGrow(t, c);
    }
    assert (t + [c])[..|t + [c]| - 1] == t;
  }

  lemma IntSound(step: Step, t: string, c: char)
    requires step == StateNeg || step == State0 || step == State1 || step == StateDot
    requires Reads(step, t)
    ensures t != "" && t[0] != '\"'
    ensures match LiteralStep(step, c)
            case Take(next) => InLiteral(next) && !InText(next) && Reads(next, t + [c])
            case Ended => IsNumber(t) && (IsZero(t) || !IsDigit(c))
            case Wrong => true
  {
    hide IntText, Mantissa, IsNumber, FracOpen;
    if step == StateNeg {
      if '1' <= c <= '9' {
        NegDigit(c);
      }
    } else if step == StateDot {
      DotSound(t, c);
    } else {
      if IsZero(t) {
        ZeroInt(t);
      }
      DigitsSound(t, c);
    }
  }

  lemma NegDigit(c: char)
    requires '1' <= c <= '9'
    ensures IntText("-" + [c]) && !IsZero("-" + [c])
  {
    assert ("-" + [c])[1..] == [c];
  }

  lemma ZeroInt(t: string)
    requires IsZero(t)
    ensures IntText(t)
  {
  }

  lemma FracFacts(t: string, c: char)
    requires FracOpen(t)
    ensures t != "" && t[0] != '\"' && IsNumber(t) && Mantissa(t)
    ensures IsDigit(c) ==> FracOpen(t + [c])
    ensures (t + [c])[..|t + [c]| - 1] == t
  {
    var a: nat :| a + 2 <= |t| && MantissaAt(t, a);
    MantissaIntro(t, a);
    MantissaNumber(t);
    MantissaFirst(t);
    hide MantissaAt, Mantissa, IsNumber;
    if IsDigit(c) {
      FracGrow(t, a, c);
    }
    assert (t + [c])[..|t + [c]| - 1] == t;
  }

  lemma FracSound(step: Step, t: string, c: char)
    requires step == StateDot0 && Reads(step, t)
    ensures t != "" && t[0] != '\"'
    ensures match LiteralStep(step, c)
            case Take(next) => InLiteral(next) && !InText(next) && Reads(next, t + [c])
            case Ended => IsNumber(t) && !IsDigit(c)
            case Wrong => true
  {
    hide FracOpen, Mantissa, IsNumber;
    FracFacts(t, c);
  }

  lemma ExpSound(step: Step, t: string, c: char)
    requires step == StateE || step == StateESign || step == StateE0
    requires Reads(step, t)
    ensures t != "" && t[0] != '\"'
    ensures match LiteralStep(step, c)
            case Take(next) => InLiteral(next) && !InText(next) && Reads(next, t + [c])
            case Ended => IsNumber(t) && !IsDigit(c)
            case Wrong => true
  {
    hide Mantissa, ExpText;
    var u := t + [c];
    var b: nat :| b < |t| && Mantissa(t[..b]) &&
             (step == StateE0 ==> ExpAt(t, b)) && (step == StateE ==> b == |t| - 1) && (step == StateESign ==> b == |t| - 2);
    MantissaFirst(t[..b]);
    assert u[..b] == t[..b];
    assert u[b..] == t[b..] + [c];
    if IsDigit(c) {
      if step == StateE0 {
        ExpHead(t[b..]);
      }
      ExpGrow(t[b..], c, step);
      assert ExpAt(u, b);
    } else if step == StateE && (c == '+' || c == '-') {
      assert u[..|u| - 2] == t[..b];
    }
  }

  lemma ExpHead(e: string)
    requires e != "" && ExpText(e)
    ensures e[0] == 'e' || e[0] == 'E'
  {
  }

  lemma ExpGrow(e: string, c: char, step: Step)
    requires e != "" && (e[0] == 'e' || e[0] == 'E') && IsDigit(c)
    requires step == StateE ==> |e| == 1
    requires step == StateESign ==> |e| == 2 && (e[1] == '+' || e[1] == '-')
    requires step != StateE && step != StateESign ==> ExpText(e)
    ensures ExpText(e + [c])
  {
    var f := e + [c];
    var signed := |e| >= 2 && (e[1] == '+' || e[1] == '-');
    var k := if signed then 2 else 1;
    assert f[k..] == e[k..] + [c];
    assert Digits(e[k..]);
  }

  lemma NotNumber(t: string)
    requires t != "" && t[0] != '-' && !IsDigit(t[0])
    ensures !IsNumber(t)
  {
    if IsNumber(t) {
      NumberFirst(t);
    }
  }

  /** Every literal state has read a prefix of a scalar, and leaves only with a whole one. */
  lemma LiteralSound(step: Step, t: string, c: char)
    requires InLiteral(step) && Reads(step, t)
    ensures t != ""
    ensures t[0] == '\"' <==> InText(step)
    ensures match LiteralStep(step, c)
            case Take(next) =>
              if next == StateEndValue then
                IsScalar(t + [c]) && !IsNumber(t + [c]) && (t[0] == '\"' ==> IsString(t + [c]))
              else InLiteral(next) && Reads(next, t + [c])
            case Ended => IsNumber(t) && (IsZero(t) || !IsDigit(c))
            case Wrong => true
  {
    hide IsNumber, IsString, LiteralStep, Reads;
    if InText(step) {
      TextSound(step, t, c);
      NotNumber(t + [c]);
    } else if InWord(step) {
      WordSound(step, t, c);
      NotNumber(t + [c]);
    } else if step == StateDot0 {
      FracSound(step, t, c);
    } else if step == StateE || step == StateESign || step == StateE0 {
      ExpSound(step, t, c);
    } else {
      IntSound(step, t, c);
    }
  }

  // ---------------------------------------------------------------- readers and scanner states

  function Kind(f: Frame): Parse {
    match f
    case InArray(_, _) => ParseArrayValue
    case InKey(_, _) => ParseObjectKey
    case InValue(_, _, _, _, _) => ParseObjectValue
  }

  function StackOf(fs: seq<Frame>): seq<Parse> {
    seq(|fs|, i requires 0 <= i < |fs| => Kind(fs[i]))
  }

  /** The state in which a value or key is awaited. */
  function StartStep(fs: seq<Frame>): Step {
    if fs == [] then StateBeginValue
    else
      match fs[|fs| - 1]
      case InArray(items, _) => if items.NoItems? then StateBeginValueOrEmpty else StateBeginValue
      case InKey(members, _) => if members.NoMembers? then StateBeginStringOrEmpty else StateBeginString
      case InValue(_, _, _, _, _) => StateBeginValue
  }

  predicate AtKey(fs: seq<Frame>) {
    fs != [] && fs[|fs| - 1].InKey?
  }

  ghost predicate Matches(z: Reader, s: Scan) {
    && s.parseState == StackOf(z.frames)
    && !s.err && (s.endTop <==> s.step == StateEndTop)
    && match z.focus
       case Start => s.step == StartStep(z.frames)
       case Partial(t) => InLiteral(s.step) && Reads(s.step, t)
       case Done(v, post) =>
         if z.frames == [] then s.step == StateEndTop || (s.step == StateEndValue && v.Scalar? && post == "")
         else s.step == StateEndValue
  }

  ghost predicate FrameOk(f: Frame) {
    match f
    case InArray(items, pre) => ItemsOk(items) && Blank(pre)
    case InKey(members, preKey) => MembersOk(members) && Blank(preKey)
    case InValue(members, preKey, key, postKey, pre) =>
      MembersOk(members) && Blank(preKey) && IsString(key) && Blank(postKey) && Blank(pre)
  }

  ghost predicate FramesOk(fs: seq<Frame>) {
    forall i :: 0 <= i < |fs| ==> FrameOk(fs[i]) && (i < |fs| - 1 ==> !fs[i].InKey?)
  }

  ghost predicate FocusOk(f: Focus, atKey: bool) {
    match f
    case Start => true
    case Partial(t) => t != "" && (atKey ==> t[0] == '\"')
    case Done(v, post) => WellFormed(v) && Blank(post) && (atKey ==> v.Scalar? && IsString(v.text))
  }

  /** The document in the focus may stand directly behind the documents before it. */
  ghost predicate AbutOk(docs: Docs, f: Focus) {
    docs.MoreDocs? ==> FocusText(f) != "" && MayAbut(docs.doc, docs.post, FocusText(f)[0])
  }

  ghost predicate PartsOk(z: Reader) {
    Blank(z.lead) && DocsOk(z.docs) && FramesOk(z.frames) && FocusOk(z.focus, AtKey(z.frames))
  }

  ghost predicate ReaderOk(z: Reader) {
    PartsOk(z) && (z.frames == [] ==> AbutOk(z.docs, z.focus))
  }

  /** A number that is still the last thing read has not been closed yet. */
  ghost predicate Closed(z: Reader) {
    z.frames == [] && z.focus.Done? && z.focus.value.Scalar? && z.focus.post == "" ==> !IsNumber(z.focus.value.text)
  }

  /** One byte keeps the reader well-formed, in step with the scanner, and worth exactly the bytes read. */
  ghost predicate Kept(z: Reader, s: Scan, c: char) {
    && ReaderOk(Advance(z, s, c)) && Closed(Advance(z, s, c))
    && Matches(Advance(z, s, c), Next(s, c).0)
    && ReaderText(Advance(z, s, c)) == ReaderText(z) + [c]
  }

  lemma FramesTextLast(fs: seq<Frame>, f: Frame)
    ensures FramesText(fs + [f]) == FramesText(fs) + FrameText(f)
  {
    assert (fs + [f])[..|fs|] == fs;
  }

  lemma FramesTextTop(fs: seq<Frame>)
    requires fs != []
    ensures FramesText(fs) == FramesText(fs[..|fs| - 1]) + FrameText(fs[|fs| - 1])
  {
  }

  lemma StackSetTop(fs: seq<Frame>, f: Frame)
    requires fs != []
    ensures StackOf(fs[..|fs| - 1] + [f]) == StackOf(fs)[..|fs| - 1] + [Kind(f)]
  {
  }

  lemma StackPush(fs: seq<Frame>, f: Frame)
    ensures StackOf(fs + [f]) == StackOf(fs) + [Kind(f)]
  {
  }

  lemma StackPop(fs: seq<Frame>)
    requires fs != []
    ensures StackOf(fs[..|fs| - 1]) == StackOf(fs)[..|fs| - 1]
  {
  }

  lemma BlankAppend(w: string, c: char)
    requires Blank(w) && IsSpace(c)
    ensures Blank(w + [c])
  {
  }

  /** Replacing the top frame and clearing the focus. */
  lemma SetFrameText(z: Reader, f: Frame, c: char)
    requires z.frames != []
    requires FrameText(f) == FrameText(Top(z)) + FocusText(z.focus) + [c]
    ensures ReaderText(SetFrame(z, f)) == ReaderText(z) + [c]
  {
    hide FrameText, DocsText;
    FramesTextTop(z.frames);
    FramesTextLast(z.frames[..|z.frames| - 1], f);
  }

  lemma SetFrameOk(z: Reader, f: Frame)
    requires z.frames != [] && ReaderOk(z) && FrameOk(f)
    ensures ReaderOk(SetFrame(z, f))
  {
    hide FrameOk, DocsOk, Blank, WellFormed;
  }

  lemma PopFrameKept(z: Reader, v: Value, c: char)
    requires z.frames != [] && ReaderOk(z) && WellFormed(v)
    requires Text(v) == FrameText(Top(z)) + FocusText(z.focus) + [c]
    requires !v.Scalar?
    ensures ReaderText(PopFrame(z, v)) == ReaderText(z) + [c]
    ensures ReaderOk(PopFrame(z, v))
  {
    PopFrameText(z, v, c);
    hide FrameText, DocsText, Text, FrameOk, DocsOk, WellFormed, ReaderText, IsNumber;
    TextFirst(v);
    var z' := PopFrame(z, v);
    assert FocusText(z'.focus) == Text(v);
    assert FocusText(z'.focus)[0] == Text(v)[0];
  }

  lemma PopFrameText(z: Reader, v: Value, c: char)
    requires z.frames != [] && Text(v) == FrameText(Top(z)) + FocusText(z.focus) + [c]
    ensures ReaderText(PopFrame(z, v)) == ReaderText(z) + [c]
  {
    hide FrameText, DocsText, Text, FramesText;
    FramesTextTop(z.frames);
    var a, b, f := z.lead + DocsText(z.docs), FramesText(z.frames[..|z.frames| - 1]), FocusText(z.focus);
    assert FocusText(PopFrame(z, v).focus) == Text(v);
    assert a + b + (FrameText(Top(z)) + f + [c]) == a + (b + FrameText(Top(z))) + f + [c];
  }

  // ---------------------------------------------------------------- every kind of byte keeps the reader

  function SpaceFrame(f: Frame, c: char): Frame {
    match f
    case InArray(items, pre) => InArray(items, pre + [c])
    case InKey(members, preKey) => InKey(members, preKey + [c])
    case InValue(members, preKey, key, postKey, pre) => InValue(members, preKey, key, postKey, pre + [c])
  }

  lemma SpaceFrameKept(f: Frame, c: char)
    requires FrameOk(f) && IsSpace(c)
    ensures FrameOk(SpaceFrame(f, c)) && FrameText(SpaceFrame(f, c)) == FrameText(f) + [c]
    ensures Kind(SpaceFrame(f, c)) == Kind(f)
  {
    hide ItemsOk, MembersOk, ItemsOpen, MembersOpen, IsString;
  }

  lemma KeepsFrameSpace(z: Reader, s: Scan, c: char)
    requires ReaderOk(z) && Matches(z, s) && z.focus.Start? && IsSpace(c) && z.frames != []
    ensures Kept(z, s, c)
  {
    hide DocsText, DocsOk, FrameOk, FrameText, Next, IsSpace, Blank;
    SpaceAtStart(s, c);
    var f := SpaceFrame(Top(z), c);
    assert FrameOk(Top(z));
    SpaceFrameKept(Top(z), c);
    SetFrameText(z, f, c);
    SetFrameOk(z, f);
    StackSetTop(z.frames, f);
    var fs := z.frames[..|z.frames| - 1] + [f];
    assert fs[|fs| - 1] == f;
    assert Advance(z, s, c) == SetFrame(z, f);
  }

  /** Whitespace before a value or key. */
  lemma KeepsStartSpace(z: Reader, s: Scan, c: char)
    requires ReaderOk(z) && Matches(z, s) && z.focus.Start? && IsSpace(c)
    ensures Kept(z, s, c)
  {
    if z.frames == [] {
      hide DocsText, DocsOk, Next;
      SpaceAtStart(s, c);
      BlankAppend(z.lead, c);
      assert z.docs.NoDocs?;
      assert ReaderText(z.(lead := z.lead + [c])) == ReaderText(z) + [c] by {
        assert DocsText(z.docs) == "" by {
          NoDocsText(z.docs);
        }
      }
    } else {
      KeepsFrameSpace(z, s, c);
    }
  }

  lemma NoDocsText(docs: Docs)
    requires docs.NoDocs?
    ensures DocsText(docs) == ""
  {
  }

  lemma SpaceAtStart(s: Scan, c: char)
    requires IsSpace(c)
    requires s.step in {StateBeginValue, StateBeginValueOrEmpty, StateBeginStringOrEmpty, StateBeginString}
    ensures Next(s, c) == (s, ScanSkipSpace)
  {
  }

  /** A bracket opens a new frame. */
  lemma KeepsOpen(z: Reader, s: Scan, c: char)
    requires PartsOk(z) && Matches(z, s) && z.focus.Start? && !AtKey(z.frames)
    requires c == '{' || c == '['
    ensures Kept(z, s, c)
  {
    hide DocsText, WellFormed, DocsOk, FrameOk, BeginValue, FrameText, Next, FramesText, StackOf, ReaderText, FramesOk;
    var f := if c == '{' then InKey(NoMembers, "") else InArray(NoItems, "");
    EmptyFrameOk();
    OpenOp(s, c);
    StackPush(z.frames, f);
    var z' := z.(frames := z.frames + [f], focus := Start);
    assert Advance(z, s, c) == z';
    PushText(z, f, c);
    PushFramesOk(z.frames, f);
    assert z'.frames[|z.frames|] == f;
  }

  lemma PushText(z: Reader, f: Frame, c: char)
    requires z.focus.Start? && FrameText(f) == [c]
    ensures ReaderText(z.(frames := z.frames + [f], focus := Start)) == ReaderText(z) + [c]
  {
    hide DocsText, FrameText;
    FramesTextLast(z.frames, f);
  }

  lemma PushFramesOk(fs: seq<Frame>, f: Frame)
    requires FramesOk(fs) && FrameOk(f) && !AtKey(fs)
    ensures FramesOk(fs + [f])
  {
    hide FrameOk;
  }

  lemma OpenOp(s: Scan, c: char)
    requires s.step == StateBeginValue || s.step == StateBeginValueOrEmpty
    requires c == '{' || c == '['
    ensures Next(s, c) ==
            if c == '{' then (s.(step := StateBeginStringOrEmpty, parseState := s.parseState + [ParseObjectKey]), ScanBeginObject)
            else (s.(step := StateBeginValueOrEmpty, parseState := s.parseState + [ParseArrayValue]), ScanBeginArray)
  {
  }

  lemma EmptyFrameOk()
    ensures FrameOk(InKey(NoMembers, "")) && FrameOk(InArray(NoItems, ""))
    ensures FrameText(InKey(NoMembers, "")) == "{" && FrameText(InArray(NoItems, "")) == "["
  {
  }

  /** The first byte of a scalar or key. */
  lemma KeepsLiteralStart(z: Reader, s: Scan, c: char)
    requires PartsOk(z) && Matches(z, s) && z.focus.Start? && !IsSpace(c)
    requires if AtKey(z.frames) then c == '\"' else LiteralStart(c).Take?
    requires z.frames == [] ==> AbutOk(z.docs, Partial([c]))
    ensures Kept(z, s, c)
  {
    hide DocsText, WellFormed, DocsOk, FrameOk;
    LiteralStartReads(c);
    assert Advance(z, s, c) == z.(focus := Partial([c]));
    assert ReaderText(z.(focus := Partial([c]))) == ReaderText(z) + [c];
  }

  lemma LiteralStartReads(c: char)
    requires LiteralStart(c).Take?
    ensures InLiteral(LiteralStart(c).step) && Reads(LiteralStart(c).step, [c])
    ensures c != '{' && c != '[' && c != ']' && c != '}' && !IsSpace(c)
  {
    if c == '\"' {
      assert [c][1..] == "";
    }
  }

  /** A byte taken by the literal being read. */
  lemma KeepsTake(z: Reader, s: Scan, c: char)
    requires ReaderOk(z) && Matches(z, s) && z.focus.Partial?
    requires LiteralStep(s.step, c).Take?
    ensures Kept(z, s, c)
  {
    hide DocsText, DocsOk, FrameOk, Reads, LiteralStep, IsScalar, IsString, IsNumber;
    var t := z.focus.text;
    LiteralSound(s.step, t, c);
    var f := if LiteralStep(s.step, c).step == StateEndValue then Done(Scalar(t + [c]), "") else Partial(t + [c]);
    assert Advance(z, s, c) == z.(focus := f);
    assert FocusText(f) == t + [c];
    assert FocusText(f)[0] == FocusText(z.focus)[0];
    assert z.lead + DocsText(z.docs) + FramesText(z.frames) + (t + [c]) == ReaderText(z) + [c];
    assert ReaderText(z.(focus := f)) == ReaderText(z) + [c];
  }

  /** Whitespace after a value or key. */
  lemma KeepsDoneSpace(z: Reader, s: Scan, c: char)
    requires ReaderOk(z) && Matches(z, s) && z.focus.Done? && IsSpace(c)
    ensures Kept(z, s, c)
  {
    hide DocsText, WellFormed, DocsOk, FrameOk, Text;
    var v, post := z.focus.value, z.focus.post;
    BlankAppend(post, c);
    assert Advance(z, s, c) == z.(focus := Done(v, post + [c]));
    assert Text(v) + (post + [c]) == (Text(v) + post) + [c];
    assert z.lead + DocsText(z.docs) + FramesText(z.frames) + ((Text(v) + post) + [c]) == ReaderText(z) + [c];
    assert FocusText(Done(v, post + [c])) == FocusText(z.focus) + [c];
  }

  /** The colon after a key. */
  lemma KeepsColon(z: Reader, s: Scan)
    requires ReaderOk(z) && Matches(z, s) && z.focus.Done? && AtKey(z.frames)
    ensures Kept(z, s, ':')
  {
    hide FrameText, FrameOk, DocsText, DocsOk, ReaderText, IsString, WellFormed, Next, Advance, ReaderOk;
    var f := ColonFrame(z);
    SetFrameText(z, f, ':');
    SetFrameOk(z, f);
    StackSetTop(z.frames, f);
    ColonStep(z, s, f);
  }

  /** What the colon does to the scanner and to the reader. */
  lemma ColonStep(z: Reader, s: Scan, f: Frame)
    requires Matches(z, s) && z.focus.Done? && z.focus.value.Scalar? && AtKey(z.frames)
    requires f == InValue(Top(z).members, Top(z).preKey, z.focus.value.text, z.focus.post, "")
    ensures s.parseState != [] && Next(s, ':') == (SetTop(s, ParseObjectValue).(step := StateBeginValue), ScanObjectKey)
    ensures Advance(z, s, ':') == SetFrame(z, f)
  {
    assert s.parseState[|s.parseState| - 1] == Kind(Top(z));
  }

  /** The frame of an object once the colon behind a key has been read. */
  lemma ColonFrame(z: Reader) returns (f: Frame)
    requires ReaderOk(z) && z.focus.Done? && AtKey(z.frames)
    ensures z.focus.value.Scalar? && FrameOk(f)
    ensures f == InValue(Top(z).members, Top(z).preKey, z.focus.value.text, z.focus.post, "")
    ensures FrameText(f) == FrameText(Top(z)) + FocusText(z.focus) + ":"
  {
    hide DocsText, DocsOk, MembersOpen, MembersOk, IsString;
    var t := Top(z);
    f := InValue(t.members, t.preKey, z.focus.value.text, z.focus.post, "");
    assert FrameOk(t);
  }

  lemma Regroup(o: string, x: string, pre: string, t: string, post: string, e: string)
    ensures o + ((x + (pre + t + post)) + e) + "" == (o + x + pre) + (t + post) + e
    ensures o + (x + (pre + t + post)) + e == (o + x + pre) + (t + post) + e
  {
  }

  lemma ItemsNowText(f: Frame, v: Value, post: string)
    requires f.InArray?
    ensures var items := ItemsNow(f, Done(v, post));
            && FrameText(InArray(items, "")) == FrameText(f) + (Text(v) + post) + ","
            && Text(Array(items)) == FrameText(f) + (Text(v) + post) + "]"
  {
    var items := ItemsNow(f, Done(v, post));
    ArrayParts(items);
    hide Text, ItemsText, ItemsOpen, ItemText;
    Regroup("[", ItemsOpen(f.items), f.pre, Text(v), post, ",");
    Regroup("[", ItemsOpen(f.items), f.pre, Text(v), post, "]");
  }

  lemma ArrayParts(items: Items)
    requires items.MoreItems?
    ensures Text(Array(items)) == "[" + ItemsText(items) + "]"
    ensures ItemsOpen(items) == ItemsText(items) + ","
    ensures ItemsText(items) ==
            ItemsOpen(items.front) + (items.last.pre + Text(items.last.value) + items.last.post)
  {
    assert ItemText(items.last) == items.last.pre + Text(items.last.value) + items.last.post;
  }

  /** A finished item joins its array. */
  lemma ItemsNowKept(f: Frame, v: Value, post: string)
    requires f.InArray? && FrameOk(f) && WellFormed(v) && Blank(post)
    ensures var items := ItemsNow(f, Done(v, post));
            && FrameOk(InArray(items, "")) && WellFormed(Array(items))
            && FrameText(InArray(items, "")) == FrameText(f) + (Text(v) + post) + ","
            && Text(Array(items)) == FrameText(f) + (Text(v) + post) + "]"
  {
    ItemsNowText(f, v, post);
    hide FrameText, Text;
    var items := ItemsNow(f, Done(v, post));
    assert ItemOk(items.last);
  }

  lemma MembersNowText(f: Frame, v: Value, post: string)
    requires f.InValue?
    ensures var members := MembersNow(f, Done(v, post));
            && FrameText(InKey(members, "")) == FrameText(f) + (Text(v) + post) + ","
            && Text(Object(members)) == FrameText(f) + (Text(v) + post) + "}"
  {
    var members := MembersNow(f, Done(v, post));
    ObjectParts(members);
    var x, k := MembersOpen(f.members), f.preKey + f.key + f.postKey + ":" + f.pre;
    assert FrameText(f) == "{" + x + k;
    hide Text, MembersText, MembersOpen, MemberText;
    assert k + Text(v) + post == f.preKey + f.key + f.postKey + ":" + (f.pre + Text(v) + post);
    assert FrameText(InKey(members, "")) == "{" + (MembersText(members) + ",") + "";
    Regroup("{", x, k, Text(v), post, ",");
    Regroup("{", x, k, Text(v), post, "}");
  }

  lemma ObjectParts(members: Members)
    requires members.MoreMembers?
    ensures Text(Object(members)) == "{" + MembersText(members) + "}"
    ensures MembersOpen(members) == MembersText(members) + ","
    ensures var m := members.last;
            MembersText(members) == MembersOpen(members.front) +
              (m.preKey + m.key + m.postKey + ":" + (m.item.pre + Text(m.item.value) + m.item.post))
  {
    ObjectOne(members);
    MemberOne(members.last);
    ItemOne(members.last.item);
    hide Text, MembersText, MembersOpen, MemberText, ItemText;
  }

  lemma ObjectOne(members: Members)
    requires members.MoreMembers?
    ensures Text(Object(members)) == "{" + MembersText(members) + "}"
    ensures MembersOpen(members) == MembersText(members) + ","
    ensures MembersText(members) == MembersOpen(members.front) + MemberText(members.last)
  {
    hide MemberText, ItemText;
  }

  lemma MemberOne(m: Member)
    ensures MemberText(m) == m.preKey + m.key + m.postKey + ":" + ItemText(m.item)
  {
    hide Text, ItemText;
  }

  lemma ItemOne(x: Item)
    ensures ItemText(x) == x.pre + Text(x.value) + x.post
  {
    hide Text;
  }

  /** A finished member joins its object. */
  lemma MembersNowKept(f: Frame, v: Value, post: string)
    requires f.InValue? && FrameOk(f) && WellFormed(v) && Blank(post)
    ensures var members := MembersNow(f, Done(v, post));
            && FrameOk(InKey(members, "")) && WellFormed(Object(members))
            && FrameText(InKey(members, "")) == FrameText(f) + (Text(v) + post) + ","
            && Text(Object(members)) == FrameText(f) + (Text(v) + post) + "}"
  {
    MembersNowText(f, v, post);
    hide FrameText, Text;
    var members := MembersNow(f, Done(v, post));
    assert ItemOk(members.last.item) && MemberOk(members.last);
  }

  /** The comma after an array item. */
  lemma KeepsItemComma(z: Reader, s: Scan)
    requires ReaderOk(z) && Matches(z, s) && z.focus.Done? && z.frames != [] && Top(z).InArray?
    ensures Kept(z, s, ',')
  {
    hide DocsText, DocsOk, WellFormed, Text, FrameOk, FrameText, ItemsText, ItemsOpen;
    var t := Top(z);
    var f := InArray(ItemsNow(t, z.focus), "");
    assert FrameOk(t);
    ItemsNowKept(t, z.focus.value, z.focus.post);
    SetFrameText(z, f, ',');
    SetFrameOk(z, f);
    StackSetTop(z.frames, f);
    assert StackOf(z.frames)[..|z.frames| - 1] + [Kind(f)] == StackOf(z.frames);
    assert Advance(z, s, ',') == SetFrame(z, f);
  }

  /** The comma after an object member. */
  lemma KeepsMemberComma(z: Reader, s: Scan)
    requires ReaderOk(z) && Matches(z, s) && z.focus.Done? && z.frames != [] && Top(z).InValue?
    ensures Kept(z, s, ',')
  {
    hide DocsText, DocsOk, WellFormed, Text, FrameOk, FrameText, MembersText, MembersOpen;
    var t := Top(z);
    var f := InKey(MembersNow(t, z.focus), "");
    assert FrameOk(t);
    MembersNowKept(t, z.focus.value, z.focus.post);
    SetFrameText(z, f, ',');
    SetFrameOk(z, f);
    StackSetTop(z.frames, f);
    assert Advance(z, s, ',') == SetFrame(z, f);
  }

  lemma PopMatches(z: Reader, s: Scan, v: Value)
    requires z.frames != [] && s.parseState == StackOf(z.frames) && !s.err && !s.endTop
    ensures Matches(PopFrame(z, v), Pop(s))
  {
    StackPop(z.frames);
  }

  lemma EmptyKept(f: Frame)
    requires FrameOk(f) && f.InArray? && f.items.NoItems?
    ensures WellFormed(EmptyArray(f.pre)) && Text(EmptyArray(f.pre)) == FrameText(f) + "" + "]"
  {
  }

  lemma EmptyObjectKept(f: Frame)
    requires FrameOk(f) && f.InKey? && f.members.NoMembers?
    ensures WellFormed(EmptyObject(f.preKey)) && Text(EmptyObject(f.preKey)) == FrameText(f) + "" + "}"
  {
  }

  /** The bracket that closes an empty array. */
  lemma KeepsCloseEmptyArray(z: Reader, s: Scan)
    requires ReaderOk(z) && Matches(z, s) && z.focus.Start? && z.frames != []
    requires Top(z).InArray? && Top(z).items.NoItems?
    ensures Kept(z, s, ']')
  {
    hide DocsText, DocsOk, FrameOk, FrameText, WellFormed, Text;
    var t := Top(z);
    assert FrameOk(t);
    EmptyKept(t);
    PopFrameKept(z, EmptyArray(t.pre), ']');
    PopMatches(z, s, EmptyArray(t.pre));
    assert Advance(z, s, ']') == PopFrame(z, EmptyArray(t.pre));
  }

  lemma EmptyObjectOp(s: Scan)
    requires s.step == StateBeginStringOrEmpty && s.parseState != []
    ensures Next(s, '}') == (Pop(s), ScanEndObject)
  {
    var n := |s.parseState| - 1;
    var s1 := SetTop(s, ParseObjectValue);
    assert s1.parseState[..n] == s.parseState[..n] && s1.parseState[n] == ParseObjectValue;
  }

  /** The bracket that closes an empty object. */
  lemma KeepsCloseEmptyObject(z: Reader, s: Scan)
    requires ReaderOk(z) && Matches(z, s) && z.focus.Start? && z.frames != []
    requires Top(z).InKey? && Top(z).members.NoMembers?
    ensures Kept(z, s, '}')
  {
    hide DocsText, DocsOk, FrameOk, FrameText, WellFormed, Text, Next, Pop;
    var t := Top(z);
    assert FrameOk(t);
    EmptyObjectKept(t);
    PopFrameKept(z, EmptyObject(t.preKey), '}');
    EmptyObjectOp(s);
    PopMatches(z, s, EmptyObject(t.preKey));
    assert Advance(z, s, '}') == PopFrame(z, EmptyObject(t.preKey));
  }

  /** The bracket that closes an array with items. */
  lemma KeepsCloseArray(z: Reader, s: Scan)
    requires ReaderOk(z) && Matches(z, s) && z.focus.Done? && z.frames != [] && Top(z).InArray?
    ensures Kept(z, s, ']')
  {
    hide DocsText, DocsOk, FrameOk, FrameText, WellFormed, Text;
    var t := Top(z);
    assert FrameOk(t);
    var v := Array(ItemsNow(t, z.focus));
    ItemsNowKept(t, z.focus.value, z.focus.post);
    PopFrameKept(z, v, ']');
    PopMatches(z, s, v);
    assert Advance(z, s, ']') == PopFrame(z, v);
  }

  /** The bracket that closes an object with members. */
  lemma KeepsCloseObject(z: Reader, s: Scan)
    requires ReaderOk(z) && Matches(z, s) && z.focus.Done? && z.frames != [] && Top(z).InValue?
    ensures Kept(z, s, '}')
  {
    hide DocsText, DocsOk, FrameOk, FrameText, WellFormed, Text;
    var t := Top(z);
    assert FrameOk(t);
    var v := Object(MembersNow(t, z.focus));
    MembersNowKept(t, z.focus.value, z.focus.post);
    PopFrameKept(z, v, '}');
    PopMatches(z, s, v);
    assert Advance(z, s, '}') == PopFrame(z, v);
  }

  // ---------------------------------------------------------------- all of them together

  /** The next document of a stream begins: the finished one joins the list. */
  lemma PromoteKept(z: Reader, s: Scan, c: char)
    requires ReaderOk(z) && Matches(z, s) && z.focus.Done? && z.frames == []
    requires !IsSpace(c) && MayAbut(z.focus.value, z.focus.post, c) && Next(s, c).1 != ScanError
    ensures PartsOk(Promote(z)) && Matches(Promote(z), INITIAL) && ReaderText(Promote(z)) == ReaderText(z)
    ensures Promote(z).focus.Start? && Promote(z).frames == []
    ensures Promote(z).docs == MoreDocs(z.docs, z.focus.value, z.focus.post)
    ensures Next(s, c) == BeginValue(INITIAL, c) == Next(INITIAL, c)
    ensures Advance(z, s, c) == Advance(Promote(z), INITIAL, c)
  {
    hide BeginValue, WellFormed, Text, IsNumber;
    TextFirst(z.focus.value);
    BeginOp(c);
  }

  lemma BeginOp(c: char)
    requires !IsSpace(c)
    ensures BeginValue(INITIAL, c).1 in {ScanBeginObject, ScanBeginArray, ScanBeginLiteral, ScanError}
  {
  }

  lemma KeepsBegin(z: Reader, s: Scan, c: char)
    requires PartsOk(z) && Matches(z, s) && z.focus.Start? && !AtKey(z.frames) && !IsSpace(c)
    requires BeginValue(s, c).1 != ScanError
    requires z.frames == [] && z.docs.MoreDocs? ==> MayAbut(z.docs.doc, z.docs.post, c)
    requires c != ']'
    ensures Kept(z, s, c)
  {
    hide Kept, PartsOk, Matches, IsNumber;
    if c == '{' || c == '[' {
      KeepsOpen(z, s, c);
    } else {
      KeepsLiteralStart(z, s, c);
    }
  }

  lemma KeepsStart(z: Reader, s: Scan, c: char)
    requires ReaderOk(z) && Matches(z, s) && z.focus.Start? && !IsSpace(c)
    requires Next(s, c).1 != ScanError
    ensures Kept(z, s, c)
  {
    hide Kept, DocsOk, FramesOk;
    if z.frames != [] && Top(z).InArray? && Top(z).items.NoItems? && c == ']' {
      KeepsCloseEmptyArray(z, s);
    } else if AtKey(z.frames) {
      if Top(z).members.NoMembers? && c == '}' {
        KeepsCloseEmptyObject(z, s);
      } else {
        KeepsLiteralStart(z, s, c);
      }
    } else {
      assert c != ']';
      KeepsBegin(z, s, c);
    }
  }

  lemma KeepsDone(z: Reader, s: Scan, c: char)
    requires ReaderOk(z) && Matches(z, s) && z.focus.Done? && !IsSpace(c)
    requires Next(s, c).1 != ScanError
    requires z.frames == [] ==> MayAbut(z.focus.value, z.focus.post, c)
    ensures Kept(z, s, c)
  {
    hide Kept, DocsOk, FramesOk, WellFormed, BeginValue, Pop, SetTop, MayAbut;
    if z.frames == [] {
      PromoteKept(z, s, c);
      KeepsPromoted(z, s, c);
    } else if Top(z).InKey? {
      KeepsColon(z, s);
    } else if Top(z).InValue? {
      if c == ',' {
        KeepsMemberComma(z, s);
      } else {
        KeepsCloseObject(z, s);
      }
    } else if c == ',' {
      KeepsItemComma(z, s);
    } else {
      KeepsCloseArray(z, s);
    }
  }

  lemma KeepsPromoted(z: Reader, s: Scan, c: char)
    requires ReaderOk(z) && Matches(z, s) && z.focus.Done? && !IsSpace(c) && z.frames == []
    requires Next(s, c).1 != ScanError && MayAbut(z.focus.value, z.focus.post, c)
    ensures Kept(z, s, c)
  {
    hide Advance, Next, BeginValue, ReaderText, PartsOk, MayAbut;
    PromoteKept(z, s, c);
    assert c != ']' by {
      BracketEnds(c);
    }
    KeepsBegin(Promote(z), INITIAL, c);
  }

  lemma BracketEnds(c: char)
    requires BeginValue(INITIAL, c).1 != ScanError
    ensures c != ']'
  {
  }

  /** A number ended by this byte: the same move from the settled reader and the after-value state. */
  lemma SettledSame(z: Reader, s: Scan, c: char)
    requires Matches(z, s) && z.focus.Partial? && LiteralStep(s.step, c).Ended? && !AtKey(z.frames)
    requires Next(s, c).1 != ScanError
    ensures var z0, s0 := z.(focus := Settle(z.focus)), s.(step := StateEndValue);
            && Next(s, c) == Next(s0, c)
            && Advance(z, s, c) == Advance(z0, s0, c)
            && ReaderText(z0) == ReaderText(z)
            && Matches(z0, s0)
  {
    hide LiteralStep, Reads, BeginValue, ReaderText;
    var s0 := s.(step := StateEndValue);
    NextSettled(s, c);
    SettledText(z);
    EndValueOps(s0, c);
    if z.frames != [] {
      assert StackOf(z.frames)[|z.frames| - 1] == Kind(Top(z));
    }
  }

  lemma NextSettled(s: Scan, c: char)
    requires InLiteral(s.step) && LiteralStep(s.step, c).Ended?
    ensures Next(s, c) == EndValue(s, c) && EndValue(s.(step := StateEndValue), c) == EndValue(s, c)
  {
    hide LiteralStep, BeginValue;
  }

  lemma SettledText(z: Reader)
    ensures ReaderText(z.(focus := Settle(z.focus))) == ReaderText(z)
  {
    hide DocsText, FramesText;
    if z.focus.Partial? {
      assert z.focus.text + "" == z.focus.text;
    }
  }

  lemma EndValueOps(s: Scan, c: char)
    ensures s.parseState == [] ==>
              EndValue(s, c).1 in {ScanEnd, ScanBeginObject, ScanBeginArray, ScanBeginLiteral, ScanError, ScanSkipSpace}
    ensures s.parseState == [] && EndValue(s, c).1 == ScanSkipSpace ==> IsSpace(c)
    ensures s.parseState != [] && s.parseState[|s.parseState| - 1] != ParseObjectKey ==>
              EndValue(s, c).1 in {ScanSkipSpace, ScanObjectValue, ScanEndObject, ScanArrayValue, ScanEndArray, ScanError}
  {
  }

  lemma KeepsPartial(z: Reader, s: Scan, c: char)
    requires ReaderOk(z) && Matches(z, s) && z.focus.Partial?
    requires Next(s, c).1 != ScanError
    ensures Kept(z, s, c)
  {
    hide Kept, Advance, EndValue, BeginValue, DocsOk, FramesOk, ReaderText, IsNumber, IsString;
    LiteralSound(s.step, z.focus.text, c);
    hide LiteralStep, Reads;
    if LiteralStep(s.step, c).Take? {
      KeepsTake(z, s, c);
    } else {
      assert !AtKey(z.frames) by {
        if AtKey(z.frames) {
          TextNeverEnds(s.step, z.focus.text, c);
        }
      }
      SettledSame(z, s, c);
      var z0, s0 := z.(focus := Settle(z.focus)), s.(step := StateEndValue);
      assert FocusText(z0.focus) == FocusText(z.focus);
      assert ReaderOk(z0);
      if IsSpace(c) {
        KeepsDoneSpace(z0, s0, c);
      } else {
        KeepsDone(z0, s0, c);
      }
      KeptSame(z, s, z0, s0, c);
    }
  }

  lemma TextNeverEnds(step: Step, t: string, c: char)
    requires InText(step)
    ensures !LiteralStep(step, c).Ended?
  {
  }

  lemma KeptSame(z: Reader, s: Scan, z0: Reader, s0: Scan, c: char)
    requires Next(s, c) == Next(s0, c) && Advance(z, s, c) == Advance(z0, s0, c) && ReaderText(z0) == ReaderText(z)
    requires Kept(z0, s0, c)
    ensures Kept(z, s, c)
  {
  }

  /** Any byte the scanner does not refuse keeps the reader. */
  lemma AdvanceKeeps(z: Reader, s: Scan, c: char)
    requires ReaderOk(z) && Matches(z, s) && Closed(z) && Next(s, c).1 != ScanError
    ensures Kept(z, s, c)
  {
    hide Kept, Advance, EndValue, BeginValue, DocsOk, FramesOk, ReaderText, IsNumber, IsString, WellFormed;
    if z.focus.Partial? {
      KeepsPartial(z, s, c);
    } else if z.focus.Start? {
      if IsSpace(c) {
        KeepsStartSpace(z, s, c);
      } else {
        KeepsStart(z, s, c);
      }
    } else if IsSpace(c) {
      KeepsDoneSpace(z, s, c);
    } else {
      KeepsDone(z, s, c);
    }
  }

  // ---------------------------------------------------------------- accepted inputs are streams

  /** The reader after a whole input. */
  function ReaderAfter(input: string): Reader {
    if input == "" then FRESH
    else
      var before := input[..|input| - 1];
      Advance(ReaderAfter(before), Feed(INITIAL, before), input[|input| - 1])
  }

  lemma FeedLast(s: Scan, input: string, c: char)
    ensures Feed(s, input + [c]) == Next(Feed(s, input), c).0
    ensures ReaderAfter(input + [c]) == Advance(ReaderAfter(input), Feed(INITIAL, input), c)
  {
    assert (input + [c])[..|input|] == input;
  }

  lemma {:induction false} FeedStackOk(input: string)
    ensures StackOk(Feed(INITIAL, input))
  {
    if input != "" {
      var before := input[..|input| - 1];
      FeedStackOk(before);
      NextStackOk(Feed(INITIAL, before), input[|input| - 1]);
    }
  }

  /** Reading `c` after `input` succeeded, so reading `input` did. */
  lemma NoErrorBefore(input: string, c: char)
    requires !Feed(INITIAL, input + [c]).err
    ensures !Feed(INITIAL, input).err && Next(Feed(INITIAL, input), c).1 != ScanError
  {
    FeedLast(INITIAL, input, c);
    FeedStackOk(input);
    NextStackOk(Feed(INITIAL, input), c);
    FeedStackOk(input + [c]);
  }

  /** As long as the scanner reports no error, the reader stands for the input read. */
  lemma {:induction false} RunKeeps(input: string)
    requires !Feed(INITIAL, input).err
    ensures var z := ReaderAfter(input);
            ReaderOk(z) && Closed(z) && Matches(z, Feed(INITIAL, input)) && ReaderText(z) == input
  {
    hide ReaderOk, Closed, Matches, ReaderText, Advance, Next, Feed, ReaderAfter;
    if input == "" {
      NothingRead();
    } else {
      var before, c := input[..|input| - 1], input[|input| - 1];
      assert input == before + [c];
      NoErrorBefore(before, c);
      RunKeeps(before);
      FeedLast(INITIAL, before, c);
      AdvanceKeeps(ReaderAfter(before), Feed(INITIAL, before), c);
    }
  }

  lemma NothingRead()
    ensures ReaderAfter("") == FRESH && Feed(INITIAL, "") == INITIAL
    ensures ReaderOk(FRESH) && Closed(FRESH) && Matches(FRESH, INITIAL) && ReaderText(FRESH) == ""
  {
  }

  /** The documents of a reader, once its input has ended. */
  function DocsRead(z: Reader): Docs {
    Promote(z).docs
  }

  lemma EndOfInput(s: Scan)
    requires StackOk(s) && Eof(s).1 != ScanError
    ensures !s.err && s.parseState == []
    ensures s.step == StateEndTop || s.step == StateEndValue || (InLiteral(s.step) && LiteralStep(s.step, ' ').Ended?)
  {
  }

  /** Every accepted input is a JSON stream, namely the one its reader holds. */
  lemma AcceptedIsStream(input: string)
    requires Accepts(input)
    ensures var z := ReaderAfter(input);
            IsStream(z.lead, DocsRead(z)) && z.lead + DocsText(DocsRead(z)) == input
  {
    FeedStackOk(input);
    EndOfInput(Feed(INITIAL, input));
    RunKeeps(input);
    hide Feed, ReaderAfter, Eof, Matches, ReaderOk, Closed, Promote;
    EndsAsStream(ReaderAfter(input), Feed(INITIAL, input));
  }

  /** A reader whose input may end here holds a stream. */
  lemma EndsAsStream(z: Reader, s: Scan)
    requires ReaderOk(z) && Closed(z) && Matches(z, s) && s.parseState == []
    requires s.step == StateEndTop || s.step == StateEndValue || (InLiteral(s.step) && LiteralStep(s.step, ' ').Ended?)
    ensures IsStream(z.lead, DocsRead(z)) && z.lead + DocsText(DocsRead(z)) == ReaderText(z)
    ensures z.frames == [] && Settle(z.focus).Done?
  {
    assert z.frames == [] by {
      assert |StackOf(z.frames)| == |z.frames|;
    }
    if z.focus.Partial? {
      LiteralSound(s.step, z.focus.text, ' ');
    }
    hide Reads, LiteralStep;
    LastDocument(z);
  }

  lemma SettledValue(f: Focus)
    requires FocusOk(f, false) && !f.Start? && (f.Partial? ==> IsNumber(f.text))
    ensures var g := Settle(f);
            g.Done? && WellFormed(g.value) && Blank(g.post) && FocusText(g) == FocusText(f) == Text(g.value) + g.post
  {
    hide IsNumber, IsString, IsWord;
  }

  lemma LastDocument(z: Reader)
    requires PartsOk(z) && z.frames == [] && AbutOk(z.docs, z.focus)
    requires z.focus.Partial? ==> IsNumber(z.focus.text)
    requires !z.focus.Start?
    ensures IsStream(z.lead, DocsRead(z)) && z.lead + DocsText(DocsRead(z)) == ReaderText(z)
  {
    hide IsNumber, Text, WellFormed, MayAbut, FocusText;
    SettledValue(z.focus);
    var f := Settle(z.focus);
    TextFirst(f.value);
    assert DocsRead(z) == MoreDocs(z.docs, f.value, f.post);
    assert DocsText(DocsRead(z)) == DocsText(z.docs) + Text(f.value) + f.post;
    assert FramesText(z.frames) == "";
  }
}
