/** obfuscate/json.go: the streaming JSON redactor, and the recursive redaction it amounts to. */
module JsonObfuscator {
  import opened JsonScanner
  import opened JsonText
  import opened JsonReader
  import opened JsonStreams

  // ---------------------------------------------------------------- what redaction means

  function TrimLeft(t: string): string {
    if t != "" && t[0] == '\"' then TrimLeft(t[1..]) else t
  }

  function TrimRight(t: string): string {
    if t != "" && t[|t| - 1] == '\"' then TrimRight(t[..|t| - 1]) else t
  }

  /** strings.Trim(t, `"`) */
  function Trim(t: string): string {
    TrimRight(TrimLeft(t))
  }

  const MASK := "\"?\""

  /** The value with its whitespace dropped and every scalar masked that does not lie under a kept key. */
  function Redact(v: Value, keep: bool, keepers: set<string>): Value
    decreases v, 0
  {
    match v
    case Scalar(text) => if keep then v else Scalar(MASK)
    case EmptyArray(_) => EmptyArray("")
    case Array(items) => Array(RedactItems(items, keep, keepers))
    case EmptyObject(_) => EmptyObject("")
    case Object(members) => Object(RedactMembers(members, keep, keepers))
  }

  function RedactItem(x: Item, keep: bool, keepers: set<string>): Item
    decreases x, 1
  {
    Item("", Redact(x.value, keep, keepers), "")
  }

  function RedactItems(items: Items, keep: bool, keepers: set<string>): Items
    decreases items, 2
  {
    if items.NoItems? then NoItems
    else MoreItems(RedactItems(items.front, keep, keepers), RedactItem(items.last, keep, keepers))
  }

  function RedactMember(m: Member, keep: bool, keepers: set<string>): Member
    decreases m, 1
  {
    Member("", m.key, "", RedactItem(m.item, keep || Trim(m.key) in keepers, keepers))
  }

  function RedactMembers(members: Members, keep: bool, keepers: set<string>): Members
    decreases members, 2
  {
    if members.NoMembers? then NoMembers
    else MoreMembers(RedactMembers(members.front, keep, keepers), RedactMember(members.last, keep, keepers))
  }

  function RedactDocs(docs: Docs, keepers: set<string>): Docs {
    if docs.NoDocs? then NoDocs
    else MoreDocs(RedactDocs(docs.front, keepers), Redact(docs.doc, false, keepers), docs.post)
  }

  /** Every document is an object or an array. */
  predicate Containers(docs: Docs) {
    docs.MoreDocs? ==> Containers(docs.front) && !docs.doc.Scalar?
  }

  // ---------------------------------------------------------------- one step of the redactor

  /** The redactor's fields, with its key buffer and its output. */
  datatype Wiper = Wiper(closures: seq<bool>, key: bool, wiped: bool, keeping: bool, keepDepth: int,
                         buf: string, out: string)

  /** A new redactor. */
  const UNUSED := Wiper([], false, false, false, 0, "", "")

  function SetKey(w: Wiper): Wiper {
    var n := |w.closures|;
    w.(key := n == 0 || w.closures[n - 1], wiped := false)
  }

  function Write(w: Wiper, t: string): Wiper {
    w.(out := w.out + t)
  }

  /** What the loop body of `obfuscate` does with a byte the scanner answered with `op`. */
  function Emit(w: Wiper, op: Op, c: char, keepers: set<string>): Wiper {
    var depth := |w.closures|;
    match op
    case ScanBeginObject => Write(SetKey(w.(closures := w.closures + [true])), [c])
    case ScanBeginArray => Write(SetKey(w.(closures := w.closures + [false])), [c])
    case ScanEndArray => Write(ValueEnd(PopClosure(w), depth), [c])
    case ScanEndObject => Write(ValueEnd(PopClosure(w), depth), [c])
    case ScanObjectValue => Write(ValueEnd(w, depth), [c])
    case ScanArrayValue => Write(ValueEnd(w, depth), [c])
    case ScanBeginLiteral => Literal(w, c)
    case ScanContinue => Literal(w, c)
    case ScanObjectKey =>
      var w1 := if !w.keeping && Trim(w.buf) in keepers then w.(keeping := true, keepDepth := depth + 1) else w;
      Write(w1.(buf := "", key := false), [c])
    case ScanSkipSpace => w
    case ScanEnd => Write(w, [c])
    case ScanError => w
  }

  /** The closure stack never loses its last entry. */
  function PopClosure(w: Wiper): Wiper {
    var n := |w.closures| - 1;
    if n > 0 then w.(closures := w.closures[..n]) else w
  }

  function ValueEnd(w: Wiper, depth: int): Wiper {
    var w1 := SetKey(w);
    if w1.keeping && depth < w1.keepDepth then w1.(keeping := false) else w1
  }

  function Literal(w: Wiper, c: char): Wiper {
    if w.key then Write(w.(buf := w.buf + [c]), [c])
    else if !w.keeping then if !w.wiped then Write(w, MASK).(wiped := true) else w
    else Write(w, [c])
  }

  // ---------------------------------------------------------------- the redacted reader

  predicate KeptFrame(f: Frame, keepers: set<string>) {
    f.InValue? && Trim(f.key) in keepers
  }

  /** The position in the open objects and arrays lies under a kept key. */
  function Keep(fs: seq<Frame>, keepers: set<string>): bool {
    fs != [] && (Keep(fs[..|fs| - 1], keepers) || KeptFrame(fs[|fs| - 1], keepers))
  }

  /** How many frames lie outside the outermost kept one. */
  function KeptAt(fs: seq<Frame>, keepers: set<string>): nat {
    if fs == [] then 0
    else if Keep(fs[..|fs| - 1], keepers) then KeptAt(fs[..|fs| - 1], keepers)
    else |fs| - 1
  }

  function RedactFrame(f: Frame, keep: bool, keepers: set<string>): Frame {
    match f
    case InArray(items, _) => InArray(RedactItems(items, keep, keepers), "")
    case InKey(members, _) => InKey(RedactMembers(members, keep, keepers), "")
    case InValue(members, _, key, _, _) => InValue(RedactMembers(members, keep, keepers), "", key, "", "")
  }

  function RedactFrames(fs: seq<Frame>, keepers: set<string>): seq<Frame> {
    if fs == [] then []
    else
      var front := fs[..|fs| - 1];
      RedactFrames(front, keepers) + [RedactFrame(fs[|fs| - 1], Keep(front, keepers), keepers)]
  }

  function RedactFocus(f: Focus, fs: seq<Frame>, keepers: set<string>): Focus {
    match f
    case Start => Start
    case Partial(t) => if AtKey(fs) || Keep(fs, keepers) then f else Partial(MASK)
    case Done(v, post) =>
      if AtKey(fs) then Done(v, "")
      else Done(Redact(v, Keep(fs, keepers), keepers), if fs == [] then post else "")
  }

  function Redacted(z: Reader, keepers: set<string>): Reader {
    Reader("", RedactDocs(z.docs, keepers), RedactFrames(z.frames, keepers), RedactFocus(z.focus, z.frames, keepers))
  }

  // ---------------------------------------------------------------- what every step keeps

  function IsObject(v: Value): bool {
    v.Object? || v.EmptyObject?
  }

  function FirstDoc(docs: Docs): Value
    requires docs.MoreDocs?
  {
    if docs.front.NoDocs? then docs.doc else FirstDoc(docs.front)
  }

  /** The entries at the bottom of `closures` that belong to no open object or array: those the stack began
      with or, if it began empty, the one the first document left behind. */
  function Residue(base: seq<bool>, z: Reader): seq<bool> {
    if base != [] then base
    else if z.docs.MoreDocs? then [IsObject(FirstDoc(z.docs))]
    else if z.frames == [] && z.focus.Done? then [IsObject(z.focus.value)]
    else []
  }

  function Objects(fs: seq<Frame>): seq<bool> {
    seq(|fs|, i requires 0 <= i < |fs| => !fs[i].InArray?)
  }

  /** No bare scalar at the top level so far. */
  predicate NoBareScalar(z: Reader) {
    Containers(z.docs) && (z.frames == [] ==> z.focus.Start? || (z.focus.Done? && !z.focus.value.Scalar?))
  }

  /** The redactor's fields in terms of the reader: its closure stack is a fixed residue followed by the
      image of the scanner's stack, `keeping` says that a kept key is open, and the output is the text of
      the redacted reader. */
  ghost predicate InStep(w: Wiper, z: Reader, base: seq<bool>, keepers: set<string>) {
    && w.closures == Residue(base, z) + Objects(z.frames)
    && (w.keeping <==> Keep(z.frames, keepers))
    && (w.keeping ==> w.keepDepth == |Residue(base, z)| + KeptAt(z.frames, keepers) + 2)
    && w.out == ReaderText(Redacted(z, keepers))
    && FlagsOk(w, z, keepers)
  }

  /** The flags that a closing bracket leaves behind. */
  predicate TopFlags(w: Wiper) {
    !w.wiped && w.closures != [] && w.key == w.closures[|w.closures| - 1]
  }

  ghost predicate FlagsOk(w: Wiper, z: Reader, keepers: set<string>) {
    && (z.frames != [] && !z.focus.Done? ==> w.key == AtKey(z.frames))
    && (z.frames != [] && z.focus.Start? ==> !w.wiped)
    && (z.focus.Partial? && !AtKey(z.frames) && !Keep(z.frames, keepers) ==> w.wiped)
    && (AtKey(z.frames) ==> !w.wiped)
    && (z.frames == [] && z.focus.Done? ==> TopFlags(w))
    && w.buf == (if !AtKey(z.frames) then ""
                 else match z.focus case Start => "" case Partial(t) => t case Done(v, _) => Text(v))
  }

  // ---------------------------------------------------------------- reading an opcode back

  /** What an opcode says about the reader it was reported for. */
  ghost predicate OpFits(z: Reader, op: Op, c: char) {
    match op
    case ScanBeginObject => c == '{' && BeginsValue(z)
    case ScanBeginArray => c == '[' && BeginsValue(z)
    case ScanBeginLiteral => if z.frames != [] then z.focus.Start? else z.focus.Start? || Settle(z.focus).Done?
    case ScanContinue => z.focus.Partial?
    case ScanObjectKey => c == ':' && AtKey(z.frames) && z.focus.Done? && z.focus.value.Scalar?
    case ScanObjectValue => c == ',' && z.frames != [] && Top(z).InValue? && Settle(z.focus).Done?
    case ScanArrayValue => c == ',' && z.frames != [] && Top(z).InArray? && Settle(z.focus).Done?
    case ScanEndObject =>
      c == '}' && z.frames != [] &&
      if z.focus.Start? then Top(z).InKey? && Top(z).members.NoMembers? else Top(z).InValue? && Settle(z.focus).Done?
    case ScanEndArray =>
      c == ']' && z.frames != [] && Top(z).InArray? &&
      (if z.focus.Start? then Top(z).items.NoItems? else Settle(z.focus).Done?)
    case ScanSkipSpace => IsSpace(c) && if z.frames == [] then z.focus.Start? else z.focus.Start? || Settle(z.focus).Done?
    case ScanEnd => IsSpace(c) && z.frames == [] && Settle(z.focus).Done?
    case ScanError => true
  }

  predicate BeginsValue(z: Reader) {
    if z.frames == [] then z.focus.Start? || Settle(z.focus).Done? else z.focus.Start? && !AtKey(z.frames)
  }

  lemma BeginOpFits(s: Scan, c: char)
    requires !IsSpace(c)
    ensures var op := BeginValue(s, c).1;
            op == ScanError || op == ScanBeginLiteral || (op == ScanBeginObject && c == '{') ||
            (op == ScanBeginArray && c == '[')
  {
  }

  lemma EndValueFits(z: Reader, s: Scan, c: char)
    requires s.parseState == StackOf(z.frames) && Settle(z.focus).Done?
    requires AtKey(z.frames) ==> z.focus.Done? && z.focus.value.Scalar?
    ensures OpFits(z, EndValue(s, c).1, c)
  {
    hide BeginValue;
    if z.frames == [] {
      if !IsSpace(c) {
        BeginOpFits(INITIAL, c);
      }
    } else {
      assert s.parseState[|s.parseState| - 1] == Kind(Top(z));
    }
  }

  lemma OpMeans(k: State, c: char)
    requires Good(k)
    ensures OpFits(k.z, Next(k.s, c).1, c)
  {
    hide Reads, LiteralStep, Closed, EndValue, BeginValue, IsNumber, IsString;
    if k.z.focus.Partial? {
      LiteralSound(k.s.step, k.z.focus.text, c);
      if LiteralStep(k.s.step, c).Ended? {
        if AtKey(k.z.frames) {
          TextNeverEnds(k.s.step, k.z.focus.text, c);
        }
        EndValueFits(k.z, k.s, c);
      }
    } else if k.z.focus.Start? {
      StartFits(k, c);
    } else {
      EndValueFits(k.z, k.s, c);
      if k.s.step == StateEndTop {
        EndTopFits(k.s, c);
      }
    }
  }

  lemma EndTopFits(s: Scan, c: char)
    requires s.step == StateEndTop && s.parseState == []
    ensures Next(s, c).1 == EndValue(s, c).1
  {
    hide BeginValue;
  }

  lemma StartFits(k: State, c: char)
    requires Good(k) && k.z.focus.Start?
    ensures OpFits(k.z, Next(k.s, c).1, c)
  {
    hide Closed, FrameOk, BeginValue, DocsOk;
    if IsSpace(c) {
      SpaceAtStart(k.s, c);
    } else {
      BeginOpFits(k.s, c);
      if k.z.frames != [] {
        assert k.s.parseState[|k.s.parseState| - 1] == Kind(Top(k.z));
        if AtKey(k.z.frames) && c == '}' && Top(k.z).members.NoMembers? {
          EmptyObjectOp(k.s);
        }
      }
    }
  }

  // ---------------------------------------------------------------- the redacted reader follows the reader

  lemma RedactFramesLast(fs: seq<Frame>, f: Frame, keepers: set<string>)
    ensures RedactFrames(fs + [f], keepers) ==
            RedactFrames(fs, keepers) + [RedactFrame(f, Keep(fs, keepers), keepers)]
    ensures Keep(fs + [f], keepers) <==> Keep(fs, keepers) || KeptFrame(f, keepers)
    ensures KeptAt(fs + [f], keepers) == if Keep(fs, keepers) then KeptAt(fs, keepers) else |fs|
  {
    assert (fs + [f])[..|fs|] == fs;
  }

  lemma RedactFramesTop(fs: seq<Frame>, keepers: set<string>)
    requires fs != []
    ensures var init, f := fs[..|fs| - 1], fs[|fs| - 1];
            && RedactFrames(fs, keepers) == RedactFrames(init, keepers) + [RedactFrame(f, Keep(init, keepers), keepers)]
            && (Keep(fs, keepers) <==> Keep(init, keepers) || KeptFrame(f, keepers))
            && KeptAt(fs, keepers) == if Keep(init, keepers) then KeptAt(init, keepers) else |fs| - 1
  {
  }

  lemma {:induction false} RedactFramesLength(fs: seq<Frame>, keepers: set<string>)
    ensures |RedactFrames(fs, keepers)| == |fs|
    ensures Keep(fs, keepers) ==> KeptAt(fs, keepers) < |fs|
  {
    if fs != [] {
      RedactFramesLength(fs[..|fs| - 1], keepers);
    }
  }

  function Init(z: Reader): seq<Frame>
    requires z.frames != []
  {
    z.frames[..|z.frames| - 1]
  }

  lemma RedactedTop(z: Reader, keepers: set<string>)
    requires z.frames != []
    ensures Redacted(z, keepers).frames != []
    ensures Top(Redacted(z, keepers)) == RedactFrame(Top(z), Keep(Init(z), keepers), keepers)
    ensures Init(Redacted(z, keepers)) == RedactFrames(Init(z), keepers)
  {
    RedactFramesTop(z.frames, keepers);
  }

  /** A written byte when the top frame is replaced. */
  lemma RedactedSet(z: Reader, f: Frame, c: char, keepers: set<string>)
    requires z.frames != []
    requires var r := Redacted(z, keepers);
             r.frames != [] &&
             FrameText(RedactFrame(f, Keep(Init(z), keepers), keepers)) == FrameText(Top(r)) + FocusText(r.focus) + [c]
    ensures ReaderText(Redacted(SetFrame(z, f), keepers)) == ReaderText(Redacted(z, keepers)) + [c]
  {
    hide FrameText, FocusText, ReaderText, RedactFrame, Keep, RedactFrames;
    RedactedTop(z, keepers);
    RedactFramesLast(Init(z), f, keepers);
    SetFrameText(Redacted(z, keepers), RedactFrame(f, Keep(Init(z), keepers), keepers), c);
    assert Redacted(SetFrame(z, f), keepers) ==
           SetFrame(Redacted(z, keepers), RedactFrame(f, Keep(Init(z), keepers), keepers));
  }

  /** A written byte when the top frame is closed. */
  lemma RedactedPop(z: Reader, v: Value, c: char, keepers: set<string>)
    requires z.frames != [] && FramesOk(z.frames)
    requires var r := Redacted(z, keepers);
             r.frames != [] &&
             Text(Redact(v, Keep(Init(z), keepers), keepers)) == FrameText(Top(r)) + FocusText(r.focus) + [c]
    ensures ReaderText(Redacted(PopFrame(z, v), keepers)) == ReaderText(Redacted(z, keepers)) + [c]
  {
    hide FrameText, FocusText, ReaderText, RedactFrame, Keep, RedactFrames, Text, Redact, FrameOk;
    RedactedTop(z, keepers);
    var v' := Redact(v, Keep(Init(z), keepers), keepers);
    PopFrameText(Redacted(z, keepers), v', c);
    assert !AtKey(Init(z));
    assert Redacted(PopFrame(z, v), keepers) == PopFrame(Redacted(z, keepers), v');
  }

  /** The redacted focus behind a value, settled or not. */
  lemma RedactedValueText(z: Reader, v: Value, post: string, keepers: set<string>)
    requires Settle(z.focus) == Done(v, post) && !AtKey(z.frames)
    ensures FocusText(RedactFocus(z.focus, z.frames, keepers)) ==
            Text(Redact(v, Keep(z.frames, keepers), keepers)) + (if z.frames == [] then post else "")
    || (z.frames == [] && z.focus.Partial?)
  {
    hide Keep;
    if z.focus.Partial? {
      assert v == Scalar(z.focus.text);
    }
  }

  /** The redacted array or object that a finished child joins. */
  lemma RedactedItem(f: Frame, v: Value, post: string, keep: bool, keepers: set<string>)
    requires f.InArray?
    ensures var r := RedactFrame(f, keep, keepers);
            var items := ItemsNow(f, Done(v, post));
            && FrameText(RedactFrame(InArray(items, ""), keep, keepers)) ==
                 FrameText(r) + Text(Redact(v, keep, keepers)) + ","
            && Text(Redact(Array(items), keep, keepers)) == FrameText(r) + Text(Redact(v, keep, keepers)) + "]"
  {
    var r := RedactFrame(f, keep, keepers);
    var v' := Redact(v, keep, keepers);
    ItemsNowText(r, v', "");
    assert RedactItems(ItemsNow(f, Done(v, post)), keep, keepers) == ItemsNow(r, Done(v', ""));
    hide FrameText, Text, Redact;
    assert Text(v') + "" == Text(v');
    RedactArray(ItemsNow(f, Done(v, post)), keep, keepers);
  }

  lemma RedactArray(items: Items, keep: bool, keepers: set<string>)
    ensures Redact(Array(items), keep, keepers) == Array(RedactItems(items, keep, keepers))
  {
  }

  lemma RedactObject(members: Members, keep: bool, keepers: set<string>)
    ensures Redact(Object(members), keep, keepers) == Object(RedactMembers(members, keep, keepers))
  {
  }

  lemma RedactedMember(f: Frame, v: Value, post: string, keep: bool, keepers: set<string>)
    requires f.InValue?
    ensures var r := RedactFrame(f, keep, keepers);
            var members := MembersNow(f, Done(v, post));
            var v' := Redact(v, keep || Trim(f.key) in keepers, keepers);
            && FrameText(RedactFrame(InKey(members, ""), keep, keepers)) == FrameText(r) + Text(v') + ","
            && Text(Redact(Object(members), keep, keepers)) == FrameText(r) + Text(v') + "}"
  {
    hide Trim;
    var r := RedactFrame(f, keep, keepers);
    var v' := Redact(v, keep || Trim(f.key) in keepers, keepers);
    MembersNowText(r, v', "");
    var m := MembersNow(f, Done(v, post)).last;
    assert RedactItem(m.item, keep || Trim(m.key) in keepers, keepers) == Item("", v', "");
    assert RedactMember(m, keep, keepers) == Member("", f.key, "", Item("", v', ""));
    assert RedactMembers(MembersNow(f, Done(v, post)), keep, keepers) == MembersNow(r, Done(v', ""));
    hide FrameText, Text, Redact;
    assert Text(v') + "" == Text(v');
    RedactObject(MembersNow(f, Done(v, post)), keep, keepers);
  }

  // ---------------------------------------------------------------- the flags

  lemma ObjectsLast(fs: seq<Frame>, f: Frame)
    ensures Objects(fs + [f]) == Objects(fs) + [!f.InArray?]
  {
  }

  /** The end of a value clears `keeping` exactly when the kept frame is the one on top. */
  lemma ValueEndKeeping(w: Wiper, fs: seq<Frame>, n: nat, keepers: set<string>)
    requires fs != []
    requires w.keeping <==> Keep(fs, keepers)
    requires w.keeping ==> w.keepDepth == n + KeptAt(fs, keepers) + 2
    ensures var w1, init := ValueEnd(w, n + |fs|), fs[..|fs| - 1];
            && (w1.keeping <==> Keep(init, keepers))
            && (w1.keeping ==> w1.keepDepth == n + KeptAt(init, keepers) + 2)
            && !w1.wiped && w1.buf == w.buf && w1.out == w.out && w1.closures == w.closures
            && w1.key == (w.closures == [] || w.closures[|w.closures| - 1])
            && (w.closures != [] ==> TopFlags(w1))
  {
    RedactFramesLength(fs[..|fs| - 1], keepers);
  }

  // ---------------------------------------------------------------- every kind of byte keeps them in step

  /** The redactor's fields follow this move. */
  ghost predicate Follows(k: State, w: Wiper, c: char, base: seq<bool>, keepers: set<string>) {
    InStep(Emit(w, Next(k.s, c).1, c, keepers), Move(k, c).z, base, keepers)
  }

  ghost predicate StepReady(k: State, w: Wiper, c: char, op: Op, base: seq<bool>, keepers: set<string>) {
    && Good(k) && Next(k.s, c).1 == op && op != ScanError
    && NoBareScalar(k.z) && NoBareScalar(Move(k, c).z)
    && InStep(w, k.z, base, keepers)
  }

  lemma FollowsColon(k: State, w: Wiper, c: char, base: seq<bool>, keepers: set<string>)
    requires StepReady(k, w, c, ScanObjectKey, base, keepers)
    ensures Follows(k, w, c, base, keepers)
  {
    hide Good, Next, ReaderText, Redacted, Trim, RedactFrames, KeptAt, Keep, Text;
    OpMeans(k, c);
    var z := k.z;
    var t := Top(z);
    var f := InValue(t.members, t.preKey, z.focus.value.text, z.focus.post, "");
    assert Move(k, c).z == SetFrame(z, f);
    ColonText(z, keepers);
    RedactFramesTop(z.frames, keepers);
    RedactFramesLast(Init(z), f, keepers);
    assert Objects(Init(z) + [f]) == Objects(z.frames);
    assert w.buf == f.key by {
      assert Text(z.focus.value) == z.focus.value.text by {
        ScalarText(z.focus.value);
      }
    }
  }

  lemma ScalarText(v: Value)
    requires v.Scalar?
    ensures Text(v) == v.text
  {
  }

  lemma ColonText(z: Reader, keepers: set<string>)
    requires AtKey(z.frames) && z.focus.Done? && z.focus.value.Scalar?
    ensures var t := Top(z);
            ReaderText(Redacted(SetFrame(z, InValue(t.members, t.preKey, z.focus.value.text, z.focus.post, "")), keepers)) ==
            ReaderText(Redacted(z, keepers)) + ":"
  {
    hide ReaderText, MembersOpen, RedactMembers, Keep;
    RedactedTop(z, keepers);
    var t := Top(z);
    RedactedSet(z, InValue(t.members, t.preKey, z.focus.value.text, z.focus.post, ""), ':', keepers);
  }

  lemma FollowsItemComma(k: State, w: Wiper, c: char, base: seq<bool>, keepers: set<string>)
    requires StepReady(k, w, c, ScanArrayValue, base, keepers)
    ensures Follows(k, w, c, base, keepers)
  {
    hide Good, Next, ReaderText, Redacted, RedactFrames, KeptAt, Keep, Text, ValueEnd;
    OpMeans(k, c);
    var z := k.z;
    var f := InArray(ItemsNow(Top(z), z.focus), "");
    assert Move(k, c).z == SetFrame(z, f);
    ItemCommaText(z, keepers);
    RedactFramesTop(z.frames, keepers);
    RedactFramesLast(Init(z), f, keepers);
    assert Objects(Init(z) + [f]) == Objects(z.frames);
    ValueEndKeeping(w, z.frames, |Residue(base, z)|, keepers);
    assert w.closures[|w.closures| - 1] == false;
  }

  lemma ItemCommaText(z: Reader, keepers: set<string>)
    requires z.frames != [] && Top(z).InArray? && Settle(z.focus).Done?
    ensures ReaderText(Redacted(SetFrame(z, InArray(ItemsNow(Top(z), z.focus), "")), keepers)) ==
            ReaderText(Redacted(z, keepers)) + ","
  {
    hide ReaderText, ItemsOpen, RedactItems, Keep, FrameText, Text, Redact, RedactFrame, RedactFrames;
    var v, post := Settle(z.focus).value, Settle(z.focus).post;
    RedactedTop(z, keepers);
    RedactFramesTop(z.frames, keepers);
    RedactedItem(Top(z), v, post, Keep(Init(z), keepers), keepers);
    RedactedValueText(z, v, post, keepers);
    RedactedSet(z, InArray(ItemsNow(Top(z), z.focus), ""), ',', keepers);
  }

  lemma FollowsMemberComma(k: State, w: Wiper, c: char, base: seq<bool>, keepers: set<string>)
    requires StepReady(k, w, c, ScanObjectValue, base, keepers)
    ensures Follows(k, w, c, base, keepers)
  {
    hide Good, Next, ReaderText, Redacted, RedactFrames, KeptAt, Keep, Text, ValueEnd;
    OpMeans(k, c);
    var z := k.z;
    var f := InKey(MembersNow(Top(z), z.focus), "");
    assert Move(k, c).z == SetFrame(z, f);
    MemberCommaText(z, keepers);
    RedactFramesTop(z.frames, keepers);
    RedactFramesLast(Init(z), f, keepers);
    assert Objects(Init(z) + [f]) == Objects(z.frames);
    ValueEndKeeping(w, z.frames, |Residue(base, z)|, keepers);
    assert w.closures[|w.closures| - 1] == true;
  }

  lemma MemberCommaText(z: Reader, keepers: set<string>)
    requires z.frames != [] && Top(z).InValue? && Settle(z.focus).Done?
    ensures ReaderText(Redacted(SetFrame(z, InKey(MembersNow(Top(z), z.focus), "")), keepers)) ==
            ReaderText(Redacted(z, keepers)) + ","
  {
    hide ReaderText, MembersOpen, RedactMembers, Keep, FrameText, Text, Redact, RedactFrame, RedactFrames, Trim;
    var v, post := Settle(z.focus).value, Settle(z.focus).post;
    RedactedTop(z, keepers);
    RedactFramesTop(z.frames, keepers);
    RedactedMember(Top(z), v, post, Keep(Init(z), keepers), keepers);
    RedactedValueText(z, v, post, keepers);
    RedactedSet(z, InKey(MembersNow(Top(z), z.focus), ""), ',', keepers);
  }

  /** The closure stack when a bracket closes: popped, unless that would empty it. */
  lemma PopClosures(w: Wiper, z: Reader, v: Value, base: seq<bool>)
    requires z.frames != [] && w.closures == Residue(base, z) + Objects(z.frames)
    requires IsObject(v) == !Top(z).InArray?
    ensures PopClosure(w).closures == Residue(base, PopFrame(z, v)) + Objects(Init(z))
    ensures Init(z) != [] ==> Residue(base, PopFrame(z, v)) == Residue(base, z)
    ensures PopClosure(w) == w.(closures := PopClosure(w).closures)
  {
    ObjectsLast(Init(z), Top(z));
    assert Init(z) + [Top(z)] == z.frames;
    ResidueAfterPop(z, v, base);
    PopSeq(w, Residue(base, z), Objects(Init(z)), !Top(z).InArray?);
    if Init(z) == [] {
      NoObjects();
    } else {
      SomeObjects(Init(z));
    }
    hide Objects, Residue, PopClosure;
  }

  lemma ResidueAfterPop(z: Reader, v: Value, base: seq<bool>)
    requires z.frames != []
    ensures Residue(base, PopFrame(z, v)) ==
            if Residue(base, z) == [] && Init(z) == [] then [IsObject(v)] else Residue(base, z)
  {
  }

  lemma NoObjects()
    ensures Objects([]) == []
  {
  }

  lemma SomeObjects(fs: seq<Frame>)
    requires fs != []
    ensures Objects(fs) != []
  {
  }

  lemma PopSeq(w: Wiper, r: seq<bool>, o: seq<bool>, b: bool)
    requires w.closures == r + (o + [b])
    ensures PopClosure(w) == w.(closures := if r == [] && o == [] then [b] else r + o)
  {
    assert (r + (o + [b]))[..|r| + |o|] == r + o;
  }

  lemma CloseFlags(w: Wiper, z: Reader, keepers: set<string>)
    requires z.focus.Done? && !AtKey(z.frames) && w.buf == "" && (z.frames == [] ==> TopFlags(w))
    ensures FlagsOk(w, z, keepers)
  {
  }

  lemma WriteFlags(w: Wiper, t: string)
    ensures TopFlags(Write(w, t)) == TopFlags(w)
  {
  }

  lemma NotEmptied(w: Wiper)
    ensures w.closures != [] ==> PopClosure(w).closures != []
  {
  }

  lemma CloseInStep(w: Wiper, z: Reader, c: char, v: Value, base: seq<bool>, keepers: set<string>)
    requires z.frames != [] && FramesOk(z.frames) && InStep(w, z, base, keepers) && w.buf == ""
    requires IsObject(v) == !Top(z).InArray? && !v.Scalar?
    requires ReaderText(Redacted(PopFrame(z, v), keepers)) == ReaderText(Redacted(z, keepers)) + [c]
    ensures InStep(Write(ValueEnd(PopClosure(w), |w.closures|), [c]), PopFrame(z, v), base, keepers)
  {
    hide FramesOk, ReaderText, Redacted, KeptAt, Keep, ValueEnd, PopClosure, AtKey, FlagsOk, Residue, TopFlags, Objects;
    InitNotAtKey(z);
    PopClosures(w, z, v, base);
    var w0 := PopClosure(w);
    var w1 := ValueEnd(w0, |w.closures|);
    var z' := PopFrame(z, v);
    ResidueLength(w, z, base);
    ValueEndKeeping(w0, z.frames, |Residue(base, z)|, keepers);
    NotEmptied(w);
    WriteFlags(w1, [c]);
    CloseFlags(Write(w1, [c]), z', keepers);
    KeepNothing(keepers);
    assert z'.frames == Init(z);
  }

  lemma InitNotAtKey(z: Reader)
    requires z.frames != [] && FramesOk(z.frames)
    ensures !AtKey(Init(z))
  {
    hide FrameOk;
  }

  lemma ResidueLength(w: Wiper, z: Reader, base: seq<bool>)
    requires w.closures == Residue(base, z) + Objects(z.frames)
    ensures |w.closures| == |Residue(base, z)| + |z.frames|
  {
    hide Residue;
  }

  lemma FollowsClose(k: State, w: Wiper, c: char, v: Value, base: seq<bool>, keepers: set<string>)
    requires var op := Next(k.s, c).1; (op == ScanEndArray || op == ScanEndObject) && StepReady(k, w, c, op, base, keepers)
    requires k.z.frames != [] && Move(k, c).z == PopFrame(k.z, v) && IsObject(v) == !Top(k.z).InArray? && !v.Scalar?
    requires ReaderText(Redacted(PopFrame(k.z, v), keepers)) == ReaderText(Redacted(k.z, keepers)) + [c]
    ensures Follows(k, w, c, base, keepers)
  {
    ReadyToClose(k, w, c, base, keepers);
    EmitPlain(w, c, keepers);
    hide Good, FramesOk, InStep, ReaderText, Redacted, ValueEnd, PopClosure, PopFrame, Next, Move, Emit, NoBareScalar;
    CloseInStep(w, k.z, c, v, base, keepers);
  }

  lemma ReadyToClose(k: State, w: Wiper, c: char, base: seq<bool>, keepers: set<string>)
    requires var op := Next(k.s, c).1; (op == ScanEndArray || op == ScanEndObject) && StepReady(k, w, c, op, base, keepers)
    ensures w.buf == "" && FramesOk(k.z.frames) && InStep(w, k.z, base, keepers)
  {
    hide Good, FramesOk, InStep, Next, NoBareScalar;
    OpMeans(k, c);
    GoodFrames(k);
    NoKeyText(w, k.z, base, keepers);
  }

  lemma GoodFrames(k: State)
    requires Good(k)
    ensures FramesOk(k.z.frames)
  {
    hide FramesOk, DocsOk, FocusOk, AbutOk, Matches, Closed;
  }

  lemma NoKeyText(w: Wiper, z: Reader, base: seq<bool>, keepers: set<string>)
    requires InStep(w, z, base, keepers) && (!AtKey(z.frames) || z.focus.Start?)
    ensures w.buf == ""
  {
    hide ReaderText, Redacted, Keep, KeptAt, Residue, Objects, TopFlags;
  }

  /** The bytes that change no key. */
  lemma EmitPlain(w: Wiper, c: char, keepers: set<string>)
    ensures Emit(w, ScanEndArray, c, keepers) == Write(ValueEnd(PopClosure(w), |w.closures|), [c])
    ensures Emit(w, ScanEndObject, c, keepers) == Write(ValueEnd(PopClosure(w), |w.closures|), [c])
    ensures Emit(w, ScanSkipSpace, c, keepers) == w && Emit(w, ScanEnd, c, keepers) == Write(w, [c])
  {
    hide ValueEnd, PopClosure;
  }

  lemma KeepNothing(keepers: set<string>)
    ensures !Keep([], keepers)
  {
  }

  lemma CloseArrayText(z: Reader, keepers: set<string>)
    requires z.frames != [] && FramesOk(z.frames) && Top(z).InArray? && Settle(z.focus).Done?
    ensures ReaderText(Redacted(PopFrame(z, Array(ItemsNow(Top(z), z.focus))), keepers)) ==
            ReaderText(Redacted(z, keepers)) + "]"
  {
    hide ReaderText, ItemsOpen, RedactItems, Keep, FrameText, Text, Redact, RedactFrame, RedactFrames, FrameOk;
    var v, post := Settle(z.focus).value, Settle(z.focus).post;
    RedactedTop(z, keepers);
    RedactFramesTop(z.frames, keepers);
    RedactedItem(Top(z), v, post, Keep(Init(z), keepers), keepers);
    RedactedValueText(z, v, post, keepers);
    RedactedPop(z, Array(ItemsNow(Top(z), z.focus)), ']', keepers);
  }

  lemma CloseObjectText(z: Reader, keepers: set<string>)
    requires z.frames != [] && FramesOk(z.frames) && Top(z).InValue? && Settle(z.focus).Done?
    ensures ReaderText(Redacted(PopFrame(z, Object(MembersNow(Top(z), z.focus))), keepers)) ==
            ReaderText(Redacted(z, keepers)) + "}"
  {
    hide ReaderText, MembersOpen, RedactMembers, Keep, FrameText, Text, Redact, RedactFrame, RedactFrames, FrameOk, Trim;
    var v, post := Settle(z.focus).value, Settle(z.focus).post;
    RedactedTop(z, keepers);
    RedactFramesTop(z.frames, keepers);
    RedactedMember(Top(z), v, post, Keep(Init(z), keepers), keepers);
    RedactedValueText(z, v, post, keepers);
    RedactedPop(z, Object(MembersNow(Top(z), z.focus)), '}', keepers);
  }

  lemma CloseEmptyText(z: Reader, v: Value, c: char, keepers: set<string>)
    requires z.frames != [] && FramesOk(z.frames) && z.focus.Start?
    requires (c == ']' && v.EmptyArray? && Top(z).InArray? && Top(z).items.NoItems?) ||
             (c == '}' && v.EmptyObject? && Top(z).InKey? && Top(z).members.NoMembers?)
    ensures ReaderText(Redacted(PopFrame(z, v), keepers)) == ReaderText(Redacted(z, keepers)) + [c]
  {
    hide ReaderText, Keep, RedactFrames, FrameOk;
    RedactedTop(z, keepers);
    RedactFramesTop(z.frames, keepers);
    RedactedPop(z, v, c, keepers);
  }

  /** The array a closing bracket ends. */
  function ClosedArray(z: Reader): Value
    requires z.frames != [] && Top(z).InArray? && (z.focus.Start? || Settle(z.focus).Done?)
  {
    if z.focus.Start? then EmptyArray(Top(z).pre) else Array(ItemsNow(Top(z), z.focus))
  }

  lemma EndArrayMeans(k: State, w: Wiper, c: char, base: seq<bool>, keepers: set<string>)
    requires StepReady(k, w, c, ScanEndArray, base, keepers)
    ensures var z := k.z;
            && z.frames != [] && FramesOk(z.frames) && Top(z).InArray? && c == ']'
            && (if z.focus.Start? then Top(z).items.NoItems? else Settle(z.focus).Done?)
            && Move(k, c).z == PopFrame(z, ClosedArray(z))
  {
    OpMeans(k, c);
    assert FramesOk(k.z.frames);
    hide Good, Next, InStep, FramesOk, NoBareScalar, ItemsNow, PopFrame;
  }

  lemma FollowsEndArray(k: State, w: Wiper, c: char, base: seq<bool>, keepers: set<string>)
    requires StepReady(k, w, c, ScanEndArray, base, keepers)
    ensures Follows(k, w, c, base, keepers)
  {
    EndArrayMeans(k, w, c, base, keepers);
    assert Next(k.s, c).1 == ScanEndArray by {
      hide Next, InStep, Good;
    }
    hide Good, Next, InStep, Follows, ReaderText, Redacted, FramesOk, NoBareScalar, StepReady, PopFrame, Move;
    var z := k.z;
    if z.focus.Start? {
      CloseEmptyText(z, ClosedArray(z), c, keepers);
    } else {
      CloseArrayText(z, keepers);
    }
    FollowsClose(k, w, c, ClosedArray(z), base, keepers);
  }

  lemma FollowsEndObject(k: State, w: Wiper, c: char, base: seq<bool>, keepers: set<string>)
    requires StepReady(k, w, c, ScanEndObject, base, keepers)
    ensures Follows(k, w, c, base, keepers)
  {
    OpMeans(k, c);
    var z := k.z;
    assert FramesOk(z.frames);
    hide Good, Next, InStep, Follows, ReaderText, Redacted, FramesOk, NoBareScalar;
    var v := if z.focus.Start? then EmptyObject(Top(z).preKey) else Object(MembersNow(Top(z), z.focus));
    assert Move(k, c).z == PopFrame(z, v);
    if z.focus.Start? {
      CloseEmptyText(z, v, c, keepers);
    } else {
      CloseObjectText(z, keepers);
    }
    FollowsClose(k, w, c, v, base, keepers);
  }

  // ---------------------------------------------------------------- brackets, scalars and whitespace

  lemma RedactedPush(z: Reader, f: Frame, c: char, keepers: set<string>)
    requires z.focus.Start? && FrameText(RedactFrame(f, Keep(z.frames, keepers), keepers)) == [c]
    ensures ReaderText(Redacted(z.(frames := z.frames + [f], focus := Start), keepers)) ==
            ReaderText(Redacted(z, keepers)) + [c]
  {
    hide FrameText, RedactFrame, Keep, RedactFrames, DocsText;
    RedactFramesLast(z.frames, f, keepers);
    FramesTextLast(RedactFrames(z.frames, keepers), RedactFrame(f, Keep(z.frames, keepers), keepers));
  }

  /** Filing the finished document changes neither the redacted text nor the residue. */
  lemma PromoteSame(z: Reader, base: seq<bool>, keepers: set<string>)
    requires NoBareScalar(z)
    ensures ReaderText(Redacted(Promote(z), keepers)) == ReaderText(Redacted(z, keepers))
    ensures Residue(base, Promote(z)) == Residue(base, z)
    ensures Promote(z).frames == z.frames && (z.frames == [] ==> Promote(z).focus.Start?)
    ensures z.frames != [] ==> Promote(z) == z
  {
    hide Text, Redact;
    if z.frames == [] && z.focus.Done? {
      assert RedactFrames(z.frames, keepers) == [];
    }
  }

  lemma OpenFrameText(c: char, keep: bool, keepers: set<string>)
    requires c == '{' || c == '['
    ensures var f := if c == '{' then InKey(NoMembers, "") else InArray(NoItems, "");
            FrameText(RedactFrame(f, keep, keepers)) == [c]
  {
  }

  lemma FollowsOpen(k: State, w: Wiper, c: char, base: seq<bool>, keepers: set<string>)
    requires var op := Next(k.s, c).1;
             (op == ScanBeginObject || op == ScanBeginArray) && StepReady(k, w, c, op, base, keepers)
    ensures Follows(k, w, c, base, keepers)
  {
    OpMeans(k, c);
    hide Good, Next;
    OpenInStep(w, k.z, c, base, keepers);
  }

  lemma OpenInStep(w: Wiper, z: Reader, c: char, base: seq<bool>, keepers: set<string>)
    requires InStep(w, z, base, keepers) && NoBareScalar(z) && BeginsValue(z) && (c == '{' || c == '[')
    ensures var p := Promote(z);
            var f := if c == '{' then InKey(NoMembers, "") else InArray(NoItems, "");
            InStep(Write(SetKey(w.(closures := w.closures + [c == '{'])), [c]),
                   p.(frames := p.frames + [f], focus := Start), base, keepers)
  {
    PromoteSame(z, base, keepers);
    hide ReaderText, Redacted, Promote;
    var f := if c == '{' then InKey(NoMembers, "") else InArray(NoItems, "");
    PushInStep(w, z, Promote(z), f, c, base, keepers);
  }

  lemma PushInStep(w: Wiper, z: Reader, p: Reader, f: Frame, c: char, base: seq<bool>, keepers: set<string>)
    requires InStep(w, z, base, keepers) && !AtKey(z.frames)
    requires p.frames == z.frames && p.focus.Start? && Residue(base, p) == Residue(base, z)
    requires ReaderText(Redacted(p, keepers)) == ReaderText(Redacted(z, keepers))
    requires (c == '{' && f == InKey(NoMembers, "")) || (c == '[' && f == InArray(NoItems, ""))
    ensures InStep(Write(SetKey(w.(closures := w.closures + [c == '{'])), [c]),
                   p.(frames := p.frames + [f], focus := Start), base, keepers)
  {
    hide ReaderText, Redacted, Residue, RedactFrame, FrameText, Keep, KeptAt, Objects, FlagsOk, RedactFrames, AtKey;
    var z' := p.(frames := p.frames + [f], focus := Start);
    PushResidue(p, f, base);
    OpenFrameText(c, Keep(z.frames, keepers), keepers);
    RedactedPush(p, f, c, keepers);
    ObjectsLast(z.frames, f);
    RedactFramesLast(z.frames, f, keepers);
    PushFlags(w, z, z', f, c, keepers);
    ClosuresAssoc(Residue(base, z), Objects(z.frames), c == '{');
  }

  lemma ClosuresAssoc(r: seq<bool>, o: seq<bool>, b: bool)
    ensures (r + o) + [b] == r + (o + [b])
  {
  }

  lemma PushResidue(p: Reader, f: Frame, base: seq<bool>)
    requires p.focus.Start?
    ensures Residue(base, p.(frames := p.frames + [f], focus := Start)) == Residue(base, p)
  {
  }

  lemma PushFlags(w: Wiper, z: Reader, z': Reader, f: Frame, c: char, keepers: set<string>)
    requires FlagsOk(w, z, keepers) && !AtKey(z.frames)
    requires z'.frames == z.frames + [f] && z'.focus.Start?
    requires (c == '{' && f == InKey(NoMembers, "")) || (c == '[' && f == InArray(NoItems, ""))
    ensures FlagsOk(Write(SetKey(w.(closures := w.closures + [c == '{'])), [c]), z', keepers)
  {
    hide Keep;
    assert z'.frames[|z.frames|] == f;
  }

  /** A byte of a scalar or key. */
  lemma RedactedLiteral(z: Reader, t: string, c: char, keepers: set<string>)
    requires z.frames != []
    requires z.focus == (if t == "" then Start else Partial(t))
    ensures var z1 := z.(focus := Partial(t + [c]));
            ReaderText(Redacted(z1, keepers)) == ReaderText(Redacted(z, keepers)) +
              (if AtKey(z.frames) || Keep(z.frames, keepers) then [c] else if t == "" then MASK else "")
  {
    hide DocsText, FramesText, Keep;
  }

  lemma LiteralFlags(w: Wiper, z: Reader, t: string, c: char, keepers: set<string>)
    requires z.frames != [] && z.focus == (if t == "" then Start else Partial(t))
    requires FlagsOk(w, z, keepers) && (w.keeping <==> Keep(z.frames, keepers))
    ensures FlagsOk(Literal(w, c), z.(focus := Partial(t + [c])), keepers)
    ensures Literal(w, c).out ==
            w.out + (if AtKey(z.frames) || Keep(z.frames, keepers) then [c] else if t == "" then MASK else "")
  {
    hide Keep, AtKey;
    assert "" + [c] == [c];
    assert w.out + "" == w.out;
  }

  lemma LiteralInStep(w: Wiper, z: Reader, t: string, c: char, base: seq<bool>, keepers: set<string>)
    requires z.frames != [] && z.focus == (if t == "" then Start else Partial(t))
    requires InStep(w, z, base, keepers)
    ensures InStep(Literal(w, c), z.(focus := Partial(t + [c])), base, keepers)
  {
    RedactedLiteral(z, t, c, keepers);
    LiteralFlags(w, z, t, c, keepers);
    hide ReaderText, Redacted, Keep, KeptAt, Objects, AtKey, FlagsOk;
  }

  lemma ClosedFlags(w: Wiper, z: Reader, keepers: set<string>)
    requires z.frames != [] && z.focus.Partial? && FlagsOk(w, z, keepers)
    ensures FlagsOk(w, z.(focus := Done(Scalar(z.focus.text), "")), keepers)
  {
    hide Keep;
    ScalarText(Scalar(z.focus.text));
  }

  lemma ClosedText(z: Reader, keepers: set<string>)
    requires z.frames != [] && z.focus.Partial?
    ensures ReaderText(Redacted(z.(focus := Done(Scalar(z.focus.text), "")), keepers)) == ReaderText(Redacted(z, keepers))
  {
    hide DocsText, FramesText, Keep, AtKey;
  }

  /** A scalar is complete: nothing is written for that. */
  lemma ClosedInStep(w: Wiper, z: Reader, base: seq<bool>, keepers: set<string>)
    requires z.frames != [] && z.focus.Partial? && InStep(w, z, base, keepers)
    ensures InStep(w, z.(focus := Done(Scalar(z.focus.text), "")), base, keepers)
  {
    ClosedText(z, keepers);
    ClosedFlags(w, z, keepers);
    hide ReaderText, Redacted, Keep, KeptAt, Objects, FlagsOk;
  }

  lemma FollowsLiteral(k: State, w: Wiper, c: char, base: seq<bool>, keepers: set<string>)
    requires var op := Next(k.s, c).1;
             (op == ScanBeginLiteral || op == ScanContinue) && StepReady(k, w, c, op, base, keepers)
    ensures Follows(k, w, c, base, keepers)
  {
    OpMeans(k, c);
    LiteralInside(k, w, c, base, keepers);
    assert k.z.focus.Partial? ==> k.z.focus.text != "" by {
      hide WellFormed, DocsOk, FrameOk;
    }
    hide Good, Next, InStep, NoBareScalar, Literal;
    var t := if k.z.focus.Partial? then k.z.focus.text else "";
    LiteralInStep(w, k.z, t, c, base, keepers);
    ClosedInStep(Literal(w, c), k.z.(focus := Partial(t + [c])), base, keepers);
    assert "" + [c] == [c];
  }

  lemma LiteralInside(k: State, w: Wiper, c: char, base: seq<bool>, keepers: set<string>)
    requires var op := Next(k.s, c).1;
             (op == ScanBeginLiteral || op == ScanContinue) && StepReady(k, w, c, op, base, keepers)
    ensures k.z.frames != [] && (Next(k.s, c).1 == ScanBeginLiteral ==> Promote(k.z) == k.z && k.z.focus.Start?)
  {
    OpMeans(k, c);
    hide Good, Next, InStep;
  }

  lemma AddSpaceMeans(z: Reader, c: char)
    ensures z.focus.Start? && z.frames != [] ==> AddSpace(z, c) == SetFrame(z, SpaceFrame(Top(z), c))
    ensures !z.focus.Start? ==>
              AddSpace(z, c) == z.(focus := Done(Settle(z.focus).value, Settle(z.focus).post + [c]))
  {
  }

  lemma SpaceFrameMeans(f: Frame, c: char, keep: bool, keepers: set<string>)
    ensures RedactFrame(SpaceFrame(f, c), keep, keepers) == RedactFrame(f, keep, keepers)
    ensures KeptFrame(SpaceFrame(f, c), keepers) == KeptFrame(f, keepers)
    ensures SpaceFrame(f, c).InArray? == f.InArray? && SpaceFrame(f, c).InKey? == f.InKey?
  {
    hide Trim;
  }

  lemma SpaceFrames(z: Reader, c: char, keepers: set<string>)
    requires z.frames != [] && z.focus.Start?
    ensures var fs := SetFrame(z, SpaceFrame(Top(z), c)).frames;
            && Objects(fs) == Objects(z.frames) && AtKey(fs) == AtKey(z.frames) && fs != []
            && (Keep(fs, keepers) <==> Keep(z.frames, keepers))
            && KeptAt(fs, keepers) == KeptAt(z.frames, keepers)
            && RedactFrames(fs, keepers) == RedactFrames(z.frames, keepers)
  {
    hide Keep, KeptAt, RedactFrame, KeptFrame, RedactFrames, SpaceFrame;
    var f := SpaceFrame(Top(z), c);
    SpaceFrameMeans(Top(z), c, Keep(Init(z), keepers), keepers);
    RedactFramesTop(z.frames, keepers);
    RedactFramesLast(Init(z), f, keepers);
    assert Init(z) + [f] == SetFrame(z, f).frames;
  }

  /** Whitespace that is not written. */
  lemma RedactedSpace(z: Reader, c: char, keepers: set<string>)
    requires z.frames != [] && (z.focus.Start? || Settle(z.focus).Done?) && (z.focus.Partial? ==> !AtKey(z.frames))
    ensures ReaderText(Redacted(AddSpace(z, c), keepers)) == ReaderText(Redacted(z, keepers))
  {
    AddSpaceMeans(z, c);
    if z.focus.Start? {
      SpaceFrames(z, c, keepers);
      hide RedactFrames, DocsText, FramesText, AddSpace, SpaceFrame;
    } else {
      hide Keep, DocsText, FramesText, AddSpace, RedactFrames;
      assert FocusText(RedactFocus(AddSpace(z, c).focus, z.frames, keepers)) ==
             FocusText(RedactFocus(z.focus, z.frames, keepers)) by {
        hide AtKey;
      }
    }
  }

  lemma SpaceFlags(w: Wiper, z: Reader, c: char, keepers: set<string>)
    requires z.frames != [] && (z.focus.Start? || Settle(z.focus).Done?)
    requires FlagsOk(w, z, keepers) && (z.focus.Partial? ==> !AtKey(z.frames))
    ensures FlagsOk(w, AddSpace(z, c), keepers)
  {
    AddSpaceMeans(z, c);
    if z.focus.Start? {
      SpaceFrames(z, c, keepers);
    }
    hide AddSpace, Keep, Objects, SpaceFrame;
  }

  lemma SpaceInStep(w: Wiper, z: Reader, c: char, base: seq<bool>, keepers: set<string>)
    requires InStep(w, z, base, keepers) && (z.focus.Partial? ==> !AtKey(z.frames))
    requires z.frames != [] && (z.focus.Start? || Settle(z.focus).Done?)
    ensures InStep(w, AddSpace(z, c), base, keepers)
  {
    RedactedSpace(z, c, keepers);
    SpaceFlags(w, z, c, keepers);
    AddSpaceMeans(z, c);
    if z.focus.Start? {
      SpaceFrames(z, c, keepers);
    }
    hide ReaderText, Redacted, AddSpace, Keep, KeptAt, Objects, SpaceFrame, FlagsOk, AtKey, RedactFrames;
  }

  lemma LeadInStep(w: Wiper, z: Reader, c: char, base: seq<bool>, keepers: set<string>)
    requires InStep(w, z, base, keepers) && z.frames == [] && z.focus.Start?
    ensures AddSpace(z, c) == z.(lead := z.lead + [c]) && InStep(w, AddSpace(z, c), base, keepers)
  {
    assert Redacted(z.(lead := z.lead + [c]), keepers) == Redacted(z, keepers);
    hide ReaderText, Redacted, Keep, KeptAt, Objects;
  }

  lemma FollowsSpace(k: State, w: Wiper, c: char, base: seq<bool>, keepers: set<string>)
    requires StepReady(k, w, c, ScanSkipSpace, base, keepers)
    ensures Follows(k, w, c, base, keepers)
  {
    hide Good, Next, AddSpace, InStep, NoBareScalar, AtKey, Move, Emit;
    SpaceMeans(k, c);
    MoveSpace(k, c);
    EmitPlain(w, c, keepers);
    if k.z.frames == [] {
      LeadInStep(w, k.z, c, base, keepers);
    } else {
      SpaceInStep(w, k.z, c, base, keepers);
    }
  }

  lemma SpaceMeans(k: State, c: char)
    requires Good(k) && Next(k.s, c).1 == ScanSkipSpace
    ensures if k.z.frames == [] then k.z.focus.Start? else k.z.focus.Start? || Settle(k.z.focus).Done?
    ensures k.z.focus.Partial? ==> !AtKey(k.z.frames)
  {
    hide Good, Next, AtKey;
    OpMeans(k, c);
    if k.z.focus.Partial? && AtKey(k.z.frames) {
      SpaceNotInKey(k, c);
    }
  }

  lemma MoveSpace(k: State, c: char)
    requires Next(k.s, c).1 == ScanSkipSpace || Next(k.s, c).1 == ScanEnd
    ensures Move(k, c).z == AddSpace(k.z, c)
  {
    hide Next, AddSpace;
  }

  lemma SpaceNotInKey(k: State, c: char)
    requires Good(k) && k.z.focus.Partial? && AtKey(k.z.frames)
    ensures Next(k.s, c).1 != ScanSkipSpace
  {
    hide Reads, LiteralStep, Closed, IsString;
    LiteralSound(k.s.step, k.z.focus.text, c);
    TextNeverEnds(k.s.step, k.z.focus.text, c);
  }

  lemma EndInStep(w: Wiper, z: Reader, c: char, base: seq<bool>, keepers: set<string>)
    requires InStep(w, z, base, keepers) && z.frames == [] && z.focus.Done?
    ensures InStep(Write(w, [c]), z.(focus := Done(z.focus.value, z.focus.post + [c])), base, keepers)
  {
    DocSpaceText(z, c, keepers);
    WriteFlags(w, [c]);
    var z' := z.(focus := Done(z.focus.value, z.focus.post + [c]));
    assert FlagsOk(Write(w, [c]), z', keepers) by {
      hide TopFlags, Keep;
    }
    assert Residue(base, z') == Residue(base, z);
    hide ReaderText, Redacted, Keep, KeptAt, FlagsOk, Residue, Objects;
  }

  /** Whitespace behind a document is copied. */
  lemma FollowsEnd(k: State, w: Wiper, c: char, base: seq<bool>, keepers: set<string>)
    requires StepReady(k, w, c, ScanEnd, base, keepers)
    ensures Follows(k, w, c, base, keepers)
  {
    hide Good, Next, InStep, Move, Emit, AddSpace;
    OpMeans(k, c);
    MoveSpace(k, c);
    EmitPlain(w, c, keepers);
    AddSpaceMeans(k.z, c);
    EndInStep(w, k.z, c, base, keepers);
  }

  lemma DocSpaceText(z: Reader, c: char, keepers: set<string>)
    requires z.frames == [] && z.focus.Done?
    ensures ReaderText(Redacted(z.(focus := Done(z.focus.value, z.focus.post + [c])), keepers)) ==
            ReaderText(Redacted(z, keepers)) + [c]
  {
    hide DocsText, Text, Redact;
    assert RedactFrames(z.frames, keepers) == [];
  }

  /** Whatever byte is read, the redactor's fields keep following the reader. */
  lemma EmitFollows(k: State, w: Wiper, c: char, base: seq<bool>, keepers: set<string>)
    requires StepReady(k, w, c, Next(k.s, c).1, base, keepers)
    ensures Follows(k, w, c, base, keepers)
  {
    hide Good, Follows, NoBareScalar, InStep, Next;
    match Next(k.s, c).1
    case ScanBeginObject => FollowsOpen(k, w, c, base, keepers);
    case ScanBeginArray => FollowsOpen(k, w, c, base, keepers);
    case ScanBeginLiteral => FollowsLiteral(k, w, c, base, keepers);
    case ScanContinue => FollowsLiteral(k, w, c, base, keepers);
    case ScanObjectKey => FollowsColon(k, w, c, base, keepers);
    case ScanObjectValue => FollowsMemberComma(k, w, c, base, keepers);
    case ScanArrayValue => FollowsItemComma(k, w, c, base, keepers);
    case ScanEndObject => FollowsEndObject(k, w, c, base, keepers);
    case ScanEndArray => FollowsEndArray(k, w, c, base, keepers);
    case ScanSkipSpace => FollowsSpace(k, w, c, base, keepers);
    case ScanEnd => FollowsEnd(k, w, c, base, keepers);
    case ScanError =>
  }

  /** A bare scalar at the top level is never forgotten. */
  lemma BareScalarStays(k: State, c: char)
    requires Good(k) && Next(k.s, c).1 != ScanError && NoBareScalar(Move(k, c).z)
    ensures NoBareScalar(k.z)
  {
    OpMeans(k, c);
    hide Good, Next;
  }

  // ---------------------------------------------------------------- whole inputs

  /** The redactor's fields after a whole input, starting from `w`. */
  function Wipe(w: Wiper, input: string, keepers: set<string>): Wiper {
    if input == "" then w
    else
      var before, c := input[..|input| - 1], input[|input| - 1];
      Emit(Wipe(w, before, keepers), Next(Feed(INITIAL, before), c).1, c, keepers)
  }

  lemma WipeLast(w: Wiper, input: string, c: char, keepers: set<string>)
    ensures Wipe(w, input + [c], keepers) ==
            Emit(Wipe(w, input, keepers), Next(Feed(INITIAL, input), c).1, c, keepers)
  {
    assert (input + [c])[..|input|] == input;
  }

  /** A redactor at rest: whatever an earlier call left on its closure stack, it is not keeping anything. */
  predicate Resting(w: Wiper) {
    w.buf == "" && w.out == "" && !w.keeping
  }

  lemma RestingInStep(w: Wiper, keepers: set<string>)
    requires Resting(w)
    ensures InStep(w, FRESH, w.closures, keepers)
  {
    assert RedactFrames([], keepers) == [];
    assert Objects([]) == [];
  }

  lemma {:induction false} WipeFollows(w: Wiper, input: string, keepers: set<string>)
    requires Resting(w) && !Feed(INITIAL, input).err && NoBareScalar(ReaderAfter(input))
    ensures InStep(Wipe(w, input, keepers), ReaderAfter(input), w.closures, keepers)
  {
    hide InStep, NoBareScalar, Next, Advance, Emit;
    if input == "" {
      RestingInStep(w, keepers);
    } else {
      var before, c := input[..|input| - 1], input[|input| - 1];
      assert input == before + [c];
      NoErrorBefore(before, c);
      RunKeeps(before);
      FeedLast(INITIAL, before, c);
      WipeLast(w, before, c, keepers);
      var k := State(ReaderAfter(before), Feed(INITIAL, before));
      BareScalarStays(k, c);
      WipeFollows(w, before, keepers);
      hide ReaderOk, Matches, Closed, Feed, ReaderAfter, Wipe;
      EmitFollows(k, Wipe(w, before, keepers), c, w.closures, keepers);
    }
  }

  /** The redactor computes the recursive redaction: on any stream of objects and arrays, its output is the
      text of the redacted documents without whitespace, except that whitespace after a document is kept. */
  lemma WipeIsRedaction(w: Wiper, lead: string, docs: Docs, keepers: set<string>)
    requires Resting(w) && IsStream(lead, docs) && Containers(docs)
    ensures var w' := Wipe(w, lead + DocsText(docs), keepers);
            w'.out == DocsText(RedactDocs(docs, keepers)) && !w'.keeping
  {
    hide Feed, ReaderAfter, DocsText, IsStream, Accepts, Containers, RedactDocs, ReaderText, Redacted;
    var input := lead + DocsText(docs);
    StreamIsAccepted(lead, docs);
    AcceptedReader(input);
    var z := ReaderAfter(input);
    ContainersRead(z, docs);
    WipeFollows(w, input, keepers);
    RestText(z, keepers);
    KeepNothing(keepers);
  }

  lemma AcceptedReader(input: string)
    requires Accepts(input)
    ensures var z := ReaderAfter(input); z.frames == [] && Settle(z.focus).Done? && !Feed(INITIAL, input).err
  {
    hide Feed, ReaderAfter, Eof, InLiteral, LiteralStep;
    FeedStackOk(input);
    EndOfInput(Feed(INITIAL, input));
    RunKeeps(input);
    hide ReaderOk, Matches, Closed;
    EndsAsStream(ReaderAfter(input), Feed(INITIAL, input));
  }

  lemma ContainersRead(z: Reader, docs: Docs)
    requires z.frames == [] && Settle(z.focus).Done? && DocsRead(z) == docs && Containers(docs)
    ensures NoBareScalar(z)
  {
  }

  lemma RestText(z: Reader, keepers: set<string>)
    requires z.frames == [] && z.focus.Done?
    ensures ReaderText(Redacted(z, keepers)) == DocsText(RedactDocs(DocsRead(z), keepers))
  {
    hide Text, Redact;
    assert RedactFrames(z.frames, keepers) == [];
    assert !Keep(z.frames, keepers);
  }

  // ---------------------------------------------------------------- redacting twice

  lemma MaskIsString()
    ensures IsString(MASK)
  {
    assert MASK[1..2] == "?";
    assert "?"[1..] == "";
  }

  lemma {:induction false} RedactTwice(v: Value, keep: bool, keepers: set<string>)
    ensures Redact(Redact(v, keep, keepers), keep, keepers) == Redact(v, keep, keepers)
    ensures WellFormed(v) ==> WellFormed(Redact(v, keep, keepers))
    ensures Redact(v, keep, keepers).Scalar? == v.Scalar?
    decreases v, 0
  {
    hide IsString, IsNumber, Trim;
    match v
    case Scalar(_) => MaskIsString();
    case EmptyArray(_) =>
    case Array(items) => RedactItemsTwice(items, keep, keepers);
    case EmptyObject(_) =>
    case Object(members) => RedactMembersTwice(members, keep, keepers);
  }

  lemma {:induction false} RedactItemsTwice(items: Items, keep: bool, keepers: set<string>)
    ensures RedactItems(RedactItems(items, keep, keepers), keep, keepers) == RedactItems(items, keep, keepers)
    ensures ItemsOk(items) ==> ItemsOk(RedactItems(items, keep, keepers))
    ensures RedactItems(items, keep, keepers).NoItems? == items.NoItems?
    decreases items, 1
  {
    if items.MoreItems? {
      RedactItemsTwice(items.front, keep, keepers);
      RedactTwice(items.last.value, keep, keepers);
      hide Redact, WellFormed;
      assert ItemOk(items.last) ==> ItemOk(RedactItem(items.last, keep, keepers));
      assert RedactItem(RedactItem(items.last, keep, keepers), keep, keepers) == RedactItem(items.last, keep, keepers);
    }
  }

  lemma {:induction false} RedactMembersTwice(members: Members, keep: bool, keepers: set<string>)
    ensures RedactMembers(RedactMembers(members, keep, keepers), keep, keepers) == RedactMembers(members, keep, keepers)
    ensures MembersOk(members) ==> MembersOk(RedactMembers(members, keep, keepers))
    ensures RedactMembers(members, keep, keepers).NoMembers? == members.NoMembers?
    decreases members, 1
  {
    hide IsString, Trim;
    if members.MoreMembers? {
      var m := members.last;
      var inner := keep || Trim(m.key) in keepers;
      RedactMembersTwice(members.front, keep, keepers);
      RedactTwice(m.item.value, inner, keepers);
      hide Redact, WellFormed;
      assert ItemOk(m.item) ==> ItemOk(RedactItem(m.item, inner, keepers));
      assert MemberOk(m) ==> MemberOk(RedactMember(m, keep, keepers));
      assert RedactItem(RedactItem(m.item, inner, keepers), inner, keepers) == RedactItem(m.item, inner, keepers);
      assert RedactMember(RedactMember(m, keep, keepers), keep, keepers) == RedactMember(m, keep, keepers);
    }
  }

  lemma {:induction false} RedactDocsTwice(docs: Docs, keepers: set<string>)
    requires DocsOk(docs)
    ensures RedactDocs(RedactDocs(docs, keepers), keepers) == RedactDocs(docs, keepers)
    ensures DocsOk(RedactDocs(docs, keepers))
    ensures Containers(docs) ==> Containers(RedactDocs(docs, keepers))
  {
    if docs.MoreDocs? {
      RedactDocsTwice(docs.front, keepers);
      RedactTwice(docs.doc, false, keepers);
      MaskMayAbut(docs.front, Text(Redact(docs.doc, false, keepers)), keepers);
      hide Redact, WellFormed, Text, MayAbut;
    }
  }

  /** Whatever is next may follow a redacted document. */
  lemma MaskMayAbut(docs: Docs, next: string, keepers: set<string>)
    ensures var red := RedactDocs(docs, keepers);
            red.MoreDocs? && next != "" ==> MayAbut(red.doc, red.post, next[0])
  {
    MaskIsNoNumber();
    hide IsNumber;
  }

  lemma MaskIsNoNumber()
    ensures !IsNumber(MASK)
  {
    if IsNumber(MASK) {
      NumberFirst(MASK);
    }
  }

  /** Redacting the redacted output again changes nothing, whichever resting redactor does it. */
  lemma WipeTwice(w1: Wiper, w2: Wiper, lead: string, docs: Docs, keepers: set<string>)
    requires Resting(w1) && Resting(w2) && IsStream(lead, docs) && Containers(docs)
    ensures var out := Wipe(w1, lead + DocsText(docs), keepers).out;
            Accepts(out) && Wipe(w2, out, keepers).out == out
  {
    hide DocsOk, Accepts, DocsText;
    WipeIsRedaction(w1, lead, docs, keepers);
    RedactDocsTwice(docs, keepers);
    var docs' := RedactDocs(docs, keepers);
    assert IsStream("", docs');
    StreamIsAccepted("", docs');
    WipeIsRedaction(w2, "", docs', keepers);
    assert "" + DocsText(docs') == DocsText(docs');
  }

  // ---------------------------------------------------------------- the object

  class Redactor {
    const keepers: set<string>
    const scan: Scanner
    var closures: seq<bool>
    var key: bool
    var wiped: bool
    var keeping: bool
    var keepDepth: int

    constructor (keepers: set<string>)
      ensures this.keepers == keepers && closures == [] && !keeping && !key && !wiped && fresh(scan)
    {
      this.keepers := keepers;
      scan := new Scanner();
      closures, key, wiped, keeping, keepDepth := [], false, false, false, 0;
    }

    ghost function Fields(buf: string, out: string): Wiper
      reads this
    {
      Wiper(closures, key, wiped, keeping, keepDepth, buf, out)
    }

    method DoSetKey()
      modifies this`key, this`wiped
      ensures forall buf, out :: Fields(buf, out) == SetKey(old(Fields(buf, out)))
    {
      var n := |closures|;
      key := n == 0 || closures[n - 1];
      wiped := false;
    }

    method DoValueEnd(depth: int)
      modifies this`key, this`wiped, this`keeping
      ensures forall buf, out :: Fields(buf, out) == ValueEnd(old(Fields(buf, out)), depth)
    {
      DoSetKey();
      if keeping && depth < keepDepth {
        keeping := false;
      }
    }

    /** The loop body: one byte and its opcode. */
    method DoEmit(op: Op, c: char, buf0: string, out0: string) returns (buf: string, out: string)
      modifies this
      ensures Fields(buf, out) == Emit(old(Fields(buf0, out0)), op, c, keepers)
    {
      buf, out := buf0, out0;
      var depth := |closures|;
      match op {
        case ScanBeginObject =>
          closures := closures + [true];
          DoSetKey();
        case ScanBeginArray =>
          closures := closures + [false];
          DoSetKey();
        case ScanEndArray =>
          DoPop();
          DoValueEnd(depth);
        case ScanEndObject =>
          DoPop();
          DoValueEnd(depth);
        case ScanObjectValue =>
          DoValueEnd(depth);
        case ScanArrayValue =>
          DoValueEnd(depth);
        case ScanBeginLiteral =>
          buf, out := DoLiteral(c, buf, out);
          return;
        case ScanContinue =>
          buf, out := DoLiteral(c, buf, out);
          return;
        case ScanObjectKey =>
          var k := Trim(buf);
          if !keeping && k in keepers {
            keeping := true;
            keepDepth := depth + 1;
          }
          buf := "";
          key := false;
        case ScanSkipSpace =>
          return;
        case ScanError =>
          return;
        case ScanEnd =>
      }
      out := out + [c];
    }

    method DoPop()
      modifies this`closures
      ensures forall buf, out :: Fields(buf, out) == PopClosure(old(Fields(buf, out)))
    {
      var n := |closures| - 1;
      if n > 0 {
        closures := closures[..n];
      }
    }

    method DoLiteral(c: char, buf0: string, out0: string) returns (buf: string, out: string)
      modifies this`wiped
      ensures Fields(buf, out) == Literal(old(Fields(buf0, out0)), c)
    {
      buf, out := buf0, out0;
      if key {
        buf := buf + [c];
      } else if !keeping {
        if !wiped {
          out := out + MASK;
          wiped := true;
        }
        return;
      }
      out := out + [c];
    }

    /** Redacts a text: up to the first byte refused, and with an ellipsis if there is one or the text is cut off.
        An accepted stream of objects and arrays comes out as its recursive redaction, if no earlier call was
        cut off under a kept key. */
    method Obfuscate(data: string) returns (out: string, err: bool)
      modifies this, scan
      ensures err <==> !Accepts(data)
      ensures var w' := Wipe(old(Fields("", "")), Taken(data), keepers);
              out == w'.out + (if err then "..." else "") && Fields("", "") == NextCall(w')
      ensures !err && !old(keeping) ==> Finished(data, keepers, out, keeping)
    {
      hide Feed, Wipe, Finished, StackOk, Next, Taken;
      ghost var w0 := Fields("", "");
      var n, buf;
      n, buf, out := ReadBytes(data);
      TakenIs(data, n);
      if n < |data| {
        StaysRefused(data, n + 1);
        ErrorRefuses(data);
        out := out + "...";
        return out, true;
      }
      assert data[..n] == data;
      var op := scan.DoEof();
      if op == ScanError {
        out := out + "...";
        return out, true;
      }
      if !w0.keeping {
        FinishedRun(w0, data, keepers);
      }
      assert out + "" == out;
      return out, false;
    }

    /** The loop over the bytes: it ends behind the last one or at the first one refused. */
    method ReadBytes(data: string) returns (n: nat, buf: string, out: string)
      modifies this, scan
      ensures n <= |data| && !Feed(INITIAL, data[..n]).err
      ensures Fields(buf, out) == Wipe(old(Fields("", "")), data[..n], keepers)
      ensures n < |data| ==> Feed(INITIAL, data[..n + 1]).err
      ensures n == |data| ==> scan.Fields() == Feed(INITIAL, data[..n]) && StackOk(scan.Fields())
    {
      hide Next, Emit, StackOk;
      ghost var w0 := Fields("", "");
      out := "";
      buf := "";
      scan.Reset();
      n := 0;
      assert data[..0] == "";
      FeedStackOk("");
      while n < |data|
        invariant n <= |data|
        invariant scan.Fields() == Feed(INITIAL, data[..n]) && StackOk(scan.Fields()) && !scan.Fields().err
        invariant Fields(buf, out) == Wipe(w0, data[..n], keepers)
      {
        var c := data[n];
        assert data[..n + 1] == data[..n] + [c];
        FeedLast(INITIAL, data[..n], c);
        WipeLast(w0, data[..n], c, keepers);
        FeedStackOk(data[..n + 1]);
        NextErrs(scan.Fields(), c);
        var op := scan.StepByte(c);
        if op == ScanError {
          return;
        }
        buf, out := DoEmit(op, c, buf, out);
        n := n + 1;
      }
    }
  }

  lemma NextErrs(s: Scan, c: char)
    requires StackOk(s)
    ensures Next(s, c).1 == ScanError <==> Next(s, c).0.err
  {
    NextStackOk(s, c);
  }

  /** A call starts with an empty key buffer and an empty output. */
  function NextCall(w: Wiper): Wiper {
    w.(buf := "", out := "")
  }

  /** The text in front of the first byte that the scanner refuses. */
  function Taken(data: string): string {
    if data != "" && Feed(INITIAL, data).err then Taken(data[..|data| - 1]) else data
  }

  /** The outcome of an accepted text. */
  ghost predicate Finished(data: string, keepers: set<string>, out: string, keeping: bool) {
    forall lead, docs :: IsStream(lead, docs) && Containers(docs) && lead + DocsText(docs) == data ==>
      out == DocsText(RedactDocs(docs, keepers)) && !keeping
  }

  lemma FinishedRun(w: Wiper, data: string, keepers: set<string>)
    requires Resting(w)
    ensures Finished(data, keepers, Wipe(w, data, keepers).out, Wipe(w, data, keepers).keeping)
  {
    hide IsStream, Containers, DocsText;
    forall lead, docs | IsStream(lead, docs) && Containers(docs) && lead + DocsText(docs) == data
      ensures Wipe(w, data, keepers).out == DocsText(RedactDocs(docs, keepers)) && !Wipe(w, data, keepers).keeping
    {
      WipeIsRedaction(w, lead, docs, keepers);
    }
  }

  lemma {:induction false} StaysRefused(data: string, n: nat)
    requires n <= |data| && Feed(INITIAL, data[..n]).err
    ensures Feed(INITIAL, data).err
    decreases |data| - n
  {
    hide Feed, Next;
    if n == |data| {
      assert data[..n] == data;
    } else {
      assert data[..n + 1] == data[..n] + [data[n]];
      FeedStackOk(data[..n]);
      FeedLast(INITIAL, data[..n], data[n]);
      StaysErr(Feed(INITIAL, data[..n]), data[n]);
      StaysRefused(data, n + 1);
    }
  }

  lemma {:induction false} TakenIs(data: string, n: nat)
    requires n <= |data| && !Feed(INITIAL, data[..n]).err && (n < |data| ==> Feed(INITIAL, data[..n + 1]).err)
    ensures Taken(data) == data[..n]
  {
    hide Feed;
    if n == |data| {
      assert data[..n] == data;
    } else {
      StaysRefused(data, n + 1);
      var before := data[..|data| - 1];
      assert before[..n] == data[..n];
      assert n < |before| ==> before[..n + 1] == data[..n + 1];
      TakenIs(before, n);
    }
  }

  lemma StaysErr(s: Scan, c: char)
    requires StackOk(s) && s.err
    ensures Next(s, c).0 == s
  {
  }
}
