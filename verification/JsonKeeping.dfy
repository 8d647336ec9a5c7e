/** obfuscate/json.go: what an input that is cut off leaves behind for the calls after it.

    The key buffer collects the bytes of every scalar that the redactor takes for a key, and a colon empties it. A
    scalar at the top level may be taken for one, so the first key of a later document can have such scalars in
    front of it. `KeysInStep` follows the buffer and the kept keys through any input, scalars at top level included. */
module JsonKeeping {
  import opened JsonScanner
  import opened JsonText
  import opened JsonReader
  import opened JsonStreams
  import opened JsonObfuscator
  import opened JsonTopLevel

  // ---------------------------------------------------------------- the key buffer

  /** A colon has been read somewhere in the value. */
  function HasKey(v: Value): bool
    decreases v, 0
  {
    match v
    case Array(items) => ItemsHaveKey(items)
    case Object(members) => members.MoreMembers?
    case _ => false
  }

  function ItemsHaveKey(items: Items): bool
    decreases items, 1
  {
    items.MoreItems? && (ItemsHaveKey(items.front) || HasKey(items.last.value))
  }

  function FrameHasKey(f: Frame): bool {
    match f
    case InArray(items, _) => ItemsHaveKey(items)
    case InKey(members, _) => members.MoreMembers?
    case InValue(_, _, _, _, _) => true
  }

  function FramesHaveKey(fs: seq<Frame>): bool {
    fs != [] && (FramesHaveKey(fs[..|fs| - 1]) || FrameHasKey(fs[|fs| - 1]))
  }

  /** The finished value in the focus has a key. */
  function FocusHasKey(f: Focus): bool {
    f.Done? && HasKey(f.value)
  }

  /** The scalars at top level that were taken for keys since the last colon. */
  function Dirt(w: Wiper, docs: Docs): string {
    if docs.NoDocs? then ""
    else if docs.doc.Scalar? then
      Dirt(w, docs.front) + if TakesForKey(w, docs.front) then docs.doc.text else ""
    else if HasKey(docs.doc) then ""
    else Dirt(w, docs.front)
  }

  /** The key of the frame as the redactor read it: with the dirt in front if it is the first of its document. */
  function ReadFrame(f: Frame, first: bool, dirt: string): Frame {
    if f.InValue? && f.members.NoMembers? && first then f.(key := dirt + f.key) else f
  }

  function ReadFrames(fs: seq<Frame>, dirt: string): seq<Frame> {
    if fs == [] then []
    else
      var front := fs[..|fs| - 1];
      ReadFrames(front, dirt) + [ReadFrame(fs[|fs| - 1], !FramesHaveKey(front), dirt)]
  }

  /** The open objects and arrays under the keys the redactor read. */
  function Opening(w: Wiper, z: Reader): seq<Frame> {
    ReadFrames(z.frames, Dirt(w, DocsRead(z)))
  }

  /** The buffer in front of the key that is being read. */
  function Behind(w: Wiper, z: Reader): string {
    if FramesHaveKey(z.frames) || (z.frames != [] && FocusHasKey(z.focus)) then "" else Dirt(w, DocsRead(z))
  }

  /** As much of the key as has been read. */
  function KeyText(z: Reader): string {
    if !AtKey(z.frames) then ""
    else
      match z.focus
      case Start => ""
      case Partial(t) => t
      case Done(v, _) => Text(v)
  }

  ghost predicate KeepsAs(w: Wiper, fs: seq<Frame>, n: nat, keepers: set<string>) {
    && (w.keeping <==> Keep(fs, keepers))
    && (w.keeping ==> w.keepDepth == n + KeptAt(fs, keepers) + 2)
  }

  ghost predicate KeyFlag(w: Wiper, z: Reader, w0: Wiper) {
    && (z.frames == [] ==> w.key == TakesForKey(w0, DocsRead(z)))
    && (z.frames != [] && !z.focus.Done? ==> w.key == AtKey(z.frames))
  }

  /** The redactor's fields, begun at `w0`, in terms of the reader. */
  ghost predicate KeysInStep(w: Wiper, z: Reader, w0: Wiper, keepers: set<string>) {
    && w.closures == Stack(w0, DocsRead(z)) + Objects(z.frames)
    && KeepsAs(w, Opening(w0, z), |Stack(w0, DocsRead(z))|, keepers)
    && w.buf == Behind(w0, z) + KeyText(z)
    && KeyFlag(w, z, w0)
  }


  lemma ReadFramesLast(fs: seq<Frame>, f: Frame, dirt: string)
    ensures ReadFrames(fs + [f], dirt) == ReadFrames(fs, dirt) + [ReadFrame(f, !FramesHaveKey(fs), dirt)]
    ensures FramesHaveKey(fs + [f]) <==> FramesHaveKey(fs) || FrameHasKey(f)
  {
    assert (fs + [f])[..|fs|] == fs;
  }

  lemma ReadFramesTop(z: Reader, dirt: string)
    requires z.frames != []
    ensures ReadFrames(z.frames, dirt) ==
            ReadFrames(Init(z), dirt) + [ReadFrame(Top(z), !FramesHaveKey(Init(z)), dirt)]
    ensures FramesHaveKey(z.frames) <==> FramesHaveKey(Init(z)) || FrameHasKey(Top(z))
  {
  }

  lemma {:induction false} ReadFramesLength(fs: seq<Frame>, dirt: string)
    ensures |ReadFrames(fs, dirt)| == |fs|
  {
    if fs != [] {
      ReadFramesLength(fs[..|fs| - 1], dirt);
    }
  }

  /** Keeping is not affected by a frame that waits for a key or an item. */
  lemma KeepsPushed(w: Wiper, fs: seq<Frame>, f: Frame, n: nat, keepers: set<string>)
    requires KeepsAs(w, fs, n, keepers) && !f.InValue?
    ensures KeepsAs(w, fs + [f], n, keepers)
  {
    RedactFramesLast(fs, f, keepers);
    hide Keep, KeptAt;
  }

  /** Fields that do not matter for keeping. */
  lemma KeepsSame(w: Wiper, w': Wiper, fs: seq<Frame>, n: nat, keepers: set<string>)
    requires KeepsAs(w, fs, n, keepers) && w'.keeping == w.keeping && w'.keepDepth == w.keepDepth
    ensures KeepsAs(w', fs, n, keepers)
  {
  }

  /** The end of a value closes the topmost frame. */
  lemma KeepsClosed(w: Wiper, fs: seq<Frame>, f: Frame, n: nat, keepers: set<string>)
    requires KeepsAs(w, fs + [f], n, keepers)
    ensures KeepsAs(ValueEnd(w, n + |fs| + 1), fs, n, keepers)
  {
    var all := fs + [f];
    assert all[..|all| - 1] == fs && |all| == |fs| + 1;
    ValueEndKeeping(w, all, n, keepers);
    hide Keep, KeptAt, ValueEnd;
  }

  // ---------------------------------------------------------------- every kind of byte

  lemma PromoteKeys(w: Wiper, z: Reader, w0: Wiper, keepers: set<string>)
    requires KeysInStep(w, z, w0, keepers)
    ensures KeysInStep(w, Promote(z), w0, keepers)
  {
    hide Stack, TakesForKey, Dirt, KeepsAs, Objects, FramesHaveKey, ReadFrames, HasKey;
    var p := Promote(z);
    if z.frames == [] {
      assert DocsRead(p) == DocsRead(z) && p.frames == z.frames;
    } else {
      assert p == z;
    }
  }

  /** A bracket opens. */
  lemma OpenKeys(w: Wiper, z: Reader, c: char, w0: Wiper, keepers: set<string>)
    requires KeysInStep(w, z, w0, keepers) && z.focus.Start? && !AtKey(z.frames) && (c == '{' || c == '[')
    ensures var f := if c == '{' then InKey(NoMembers, "") else InArray(NoItems, "");
            KeysInStep(Write(SetKey(w.(closures := w.closures + [c == '{'])), [c]),
                       z.(frames := z.frames + [f], focus := Start), w0, keepers)
  {
    hide Stack, TakesForKey, Dirt, KeepsAs, Objects, FramesHaveKey, ReadFrames, HasKey;
    var f := if c == '{' then InKey(NoMembers, "") else InArray(NoItems, "");
    var z' := z.(frames := z.frames + [f], focus := Start);
    var w' := Write(SetKey(w.(closures := w.closures + [c == '{'])), [c]);
    var docs := z.docs;
    assert DocsRead(z) == docs && DocsRead(z') == docs;
    var dirt, n := Dirt(w0, docs), |Stack(w0, docs)|;
    ReadFramesLast(z.frames, f, dirt);
    ObjectsLast(z.frames, f);
    ClosuresAssoc(Stack(w0, docs), Objects(z.frames), c == '{');
    KeepsPushed(w, ReadFrames(z.frames, dirt), f, n, keepers);
    KeepsSame(w, w', ReadFrames(z'.frames, dirt), n, keepers);
    assert !FrameHasKey(f);
    assert z'.frames[|z.frames|] == f;
  }

  /** A byte of a scalar or key inside a document. */
  lemma LiteralKeys(w: Wiper, z: Reader, t: string, c: char, w0: Wiper, keepers: set<string>)
    requires KeysInStep(w, z, w0, keepers) && z.frames != [] && z.focus == (if t == "" then Start else Partial(t))
    ensures KeysInStep(Literal(w, c), z.(focus := Partial(t + [c])), w0, keepers)
  {
    hide KeepsAs, Objects, FramesHaveKey, ReadFrames, HasKey, Stack, TakesForKey, Dirt;
    var z' := z.(focus := Partial(t + [c]));
    assert DocsRead(z') == DocsRead(z);
    KeepsSame(w, Literal(w, c), Opening(w0, z), |Stack(w0, DocsRead(z))|, keepers);
    assert KeyText(z') == KeyText(z) + if AtKey(z.frames) then [c] else "" by {
      assert "" + [c] == [c];
    }
  }

  /** A byte of a scalar at the top level. */
  lemma TopLiteralKeys(w: Wiper, z: Reader, t: string, c: char, w0: Wiper, keepers: set<string>)
    requires KeysInStep(w, z, w0, keepers) && z.frames == [] && z.focus == (if t == "" then Start else Partial(t))
    ensures KeysInStep(Literal(w, c), z.(focus := Partial(t + [c])), w0, keepers)
  {
    hide Objects;
    var z' := z.(focus := Partial(t + [c]));
    TopScalarGrows(w0, z.docs, t, c);
    hide HasKey, Stack, TakesForKey, Dirt;
    assert DocsRead(z') == MoreDocs(z.docs, Scalar(t + [c]), "");
    assert Opening(w0, z') == [] == Opening(w0, z);
    assert w.buf == Dirt(w0, DocsRead(z));
    assert Dirt(w0, DocsRead(z')) + "" == Dirt(w0, DocsRead(z'));
  }

  lemma TopScalarGrows(w: Wiper, docs: Docs, t: string, c: char)
    ensures var d := if t == "" then docs else MoreDocs(docs, Scalar(t), "");
            var d' := MoreDocs(docs, Scalar(t + [c]), "");
            && Stack(w, d') == Stack(w, d) && TakesForKey(w, d') == TakesForKey(w, d)
            && Dirt(w, d') == Dirt(w, d) + if TakesForKey(w, d) then [c] else ""
  {
    assert Dirt(w, docs) + t + [c] == Dirt(w, docs) + (t + [c]);
    assert "" + [c] == [c];
  }

  /** A scalar is complete. */
  lemma ClosedKeys(w: Wiper, z: Reader, w0: Wiper, keepers: set<string>)
    requires KeysInStep(w, z, w0, keepers) && z.focus.Partial?
    ensures KeysInStep(w, z.(focus := Done(Scalar(z.focus.text), "")), w0, keepers)
  {
    hide KeepsAs, Objects, FramesHaveKey, ReadFrames, Stack, TakesForKey, Dirt;
    assert DocsRead(z.(focus := Done(Scalar(z.focus.text), ""))) == DocsRead(z);
  }

  /** A colon: the kept key is looked for with the dirt in front. */
  lemma ColonKeys(w: Wiper, z: Reader, w0: Wiper, keepers: set<string>)
    requires KeysInStep(w, z, w0, keepers) && AtKey(z.frames) && z.focus.Done? && z.focus.value.Scalar?
    ensures var t := Top(z);
            KeysInStep(Emit(w, ScanObjectKey, ':', keepers),
                       SetFrame(z, InValue(t.members, t.preKey, z.focus.value.text, z.focus.post, "")), w0, keepers)
  {
    hide Stack, TakesForKey, Dirt, KeepsAs, Objects, FramesHaveKey, ReadFrames, Trim;
    var t := Top(z);
    var f := InValue(t.members, t.preKey, z.focus.value.text, z.focus.post, "");
    var z', w' := SetFrame(z, f), Emit(w, ScanObjectKey, ':', keepers);
    var dirt, n := Dirt(w0, z.docs), |Stack(w0, z.docs)|;
    assert DocsRead(z) == z.docs == DocsRead(z');
    ReadFramesTop(z, dirt);
    ReadFramesLast(Init(z), f, dirt);
    ScalarText(z.focus.value);
    assert "" + f.key == f.key;
    ReadFramesLength(Init(z), dirt);
    ObjectsSwap(z, f);
    ObjectsLength(z.frames);
    KeepsColon(w, ReadFrames(Init(z), dirt), ReadFrame(t, !FramesHaveKey(Init(z)), dirt),
               ReadFrame(f, !FramesHaveKey(Init(z)), dirt), n, keepers);
    assert z'.frames[|z.frames| - 1] == f;
  }

  lemma KeepsColon(w: Wiper, fs: seq<Frame>, f: Frame, f': Frame, n: nat, keepers: set<string>)
    requires KeepsAs(w, fs + [f], n, keepers) && !f.InValue? && f'.InValue? && f'.key == w.buf
    requires |w.closures| == n + |fs| + 1
    ensures KeepsAs(Emit(w, ScanObjectKey, ':', keepers), fs + [f'], n, keepers)
  {
    RedactFramesLast(fs, f, keepers);
    RedactFramesLast(fs, f', keepers);
    hide Keep, KeptAt, Trim;
  }

  lemma ObjectsSwap(z: Reader, f: Frame)
    requires z.frames != [] && f.InArray? == Top(z).InArray?
    ensures Objects(SetFrame(z, f).frames) == Objects(z.frames)
  {
  }

  lemma ObjectsLength(fs: seq<Frame>)
    ensures |Objects(fs)| == |fs|
  {
  }

  /** A comma: `f` is the array or object with the finished value filed. */
  lemma CommaKeys(w: Wiper, z: Reader, f: Frame, c: char, w0: Wiper, keepers: set<string>)
    requires KeysInStep(w, z, w0, keepers) && z.frames != [] && Settle(z.focus).Done? && !AtKey(z.frames)
    requires if Top(z).InArray? then f == InArray(ItemsNow(Top(z), z.focus), "")
             else f == InKey(MembersNow(Top(z), z.focus), "")
    ensures KeysInStep(Write(ValueEnd(w, |w.closures|), [c]), SetFrame(z, f), w0, keepers)
  {
    CommaFields(w, z, f, w0, keepers);
    CommaText(w, z, f, w0, keepers);
    hide KeysInStep, Stack, TakesForKey, Dirt, KeepsAs, Objects, FramesHaveKey, ReadFrames, ValueEnd, ItemsNow, MembersNow;
    hide HasKey, Behind;
    var z' := SetFrame(z, f);
    var w1, dirt := ValueEnd(w, |w.closures|), Dirt(w0, z.docs);
    ReadFramesLast(Init(z), f, dirt);
    KeepsSame(w1, Write(w1, [c]), ReadFrames(z'.frames, dirt), |Stack(w0, z.docs)|, keepers);
    FiledInStep(Write(w1, [c]), z', w0, keepers);
  }

  lemma FiledInStep(w: Wiper, z: Reader, w0: Wiper, keepers: set<string>)
    requires z.frames != [] && z.focus.Start?
    requires w.closures == Stack(w0, z.docs) + Objects(z.frames) && w.key == AtKey(z.frames)
    requires KeepsAs(w, ReadFrames(z.frames, Dirt(w0, z.docs)), |Stack(w0, z.docs)|, keepers)
    requires w.buf == Behind(w0, z)
    ensures KeysInStep(w, z, w0, keepers)
  {
    hide Stack, TakesForKey, Dirt, KeepsAs, Objects, ReadFrames, Behind;
    assert DocsRead(z) == z.docs;
    NoText(w);
  }

  /** Filing a value leaves the buffer as it is. */
  lemma CommaText(w: Wiper, z: Reader, f: Frame, w0: Wiper, keepers: set<string>)
    requires KeysInStep(w, z, w0, keepers) && z.frames != [] && Settle(z.focus).Done? && !AtKey(z.frames)
    requires if Top(z).InArray? then f == InArray(ItemsNow(Top(z), z.focus), "")
             else f == InKey(MembersNow(Top(z), z.focus), "")
    ensures w.buf == Behind(w0, SetFrame(z, f))
  {
    FiledHasKey(z, f);
    hide Stack, TakesForKey, Dirt, KeepsAs, Objects, FramesHaveKey, ReadFrames, ItemsNow, MembersNow, HasKey, FrameHasKey;
    hide Opening, KeyFlag;
    ReadFramesTop(z, "");
    ReadFramesLast(Init(z), f, "");
    NoText(w);
  }

  /** The fields after a comma. */
  lemma CommaFields(w: Wiper, z: Reader, f: Frame, w0: Wiper, keepers: set<string>)
    requires KeysInStep(w, z, w0, keepers) && z.frames != [] && !AtKey(z.frames) && f.InArray? == Top(z).InArray?
    requires !f.InValue?
    ensures var w1, r := ValueEnd(w, |w.closures|), Stack(w0, z.docs);
            && w1.closures == r + Objects(SetFrame(z, f).frames) && w1.key == !f.InArray? && w1.buf == w.buf
            && KeepsAs(w1, ReadFrames(Init(z), Dirt(w0, z.docs)) + [f], |r|, keepers)
  {
    hide Stack, TakesForKey, Dirt, KeepsAs, Objects, FramesHaveKey, ReadFrames, ValueEnd, Behind, KeyText, KeyFlag;
    var dirt, n := Dirt(w0, z.docs), |Stack(w0, z.docs)|;
    assert DocsRead(z) == z.docs;
    ReadFramesTop(z, dirt);
    ReadFramesLength(Init(z), dirt);
    ObjectsSwap(z, f);
    ObjectsLength(z.frames);
    LastObject(z, Stack(w0, z.docs));
    var w1 := ValueEnd(w, |w.closures|);
    EndFields(w, |w.closures|);
    KeepsClosed(w, ReadFrames(Init(z), dirt), ReadFrame(Top(z), !FramesHaveKey(Init(z)), dirt), n, keepers);
    KeepsPushed(w1, ReadFrames(Init(z), dirt), f, n, keepers);
  }

  lemma EndFields(w: Wiper, depth: int)
    ensures var w1 := ValueEnd(w, depth);
            && w1.closures == w.closures && w1.buf == w.buf
            && w1.key == (w.closures == [] || w.closures[|w.closures| - 1])
  {
  }

  lemma LastObject(z: Reader, r: seq<bool>)
    requires z.frames != []
    ensures var all := r + Objects(z.frames); all != [] && all[|all| - 1] == !Top(z).InArray?
  {
  }

  lemma FiledHasKey(z: Reader, f: Frame)
    requires z.frames != [] && Settle(z.focus).Done? && !AtKey(z.frames)
    requires if Top(z).InArray? then f == InArray(ItemsNow(Top(z), z.focus), "")
             else f == InKey(MembersNow(Top(z), z.focus), "")
    ensures FrameHasKey(f) <==> FrameHasKey(Top(z)) || FocusHasKey(z.focus)
  {
    hide HasKey;
    ScalarHasNoKey();
    var v := Settle(z.focus).value;
    assert HasKey(v) == FocusHasKey(z.focus);
    if Top(z).InArray? {
      OneMoreItem(Top(z).items, Item(Top(z).pre, v, Settle(z.focus).post));
    }
  }

  lemma OneMoreItem(items: Items, x: Item)
    ensures ItemsHaveKey(MoreItems(items, x)) <==> ItemsHaveKey(items) || HasKey(x.value)
  {
  }

  lemma ScalarHasNoKey()
    ensures forall v: Value {:trigger HasKey(v)} :: v.Scalar? ==> !HasKey(v)
  {
  }

  /** The array or object that the top frame becomes. */
  ghost predicate Closes(z: Reader, v: Value)
    requires z.frames != []
  {
    match Top(z)
    case InArray(items, pre) =>
      if z.focus.Start? then items.NoItems? && v == EmptyArray(pre)
      else Settle(z.focus).Done? && v == Array(ItemsNow(Top(z), z.focus))
    case InKey(members, pre) => z.focus.Start? && members.NoMembers? && v == EmptyObject(pre)
    case InValue(_, _, _, _, _) => Settle(z.focus).Done? && v == Object(MembersNow(Top(z), z.focus))
  }

  lemma ClosedHasKey(z: Reader, v: Value)
    requires z.frames != [] && Closes(z, v)
    ensures HasKey(v) <==> FrameHasKey(Top(z)) || FocusHasKey(z.focus)
    ensures IsObject(v) == !Top(z).InArray? && !v.Scalar?
  {
    ScalarHasNoKey();
    if Top(z).InArray? && !z.focus.Start? {
      FiledHasKey(z, InArray(ItemsNow(Top(z), z.focus), ""));
    }
  }

  /** A bracket closes. */
  lemma CloseKeys(w: Wiper, z: Reader, v: Value, c: char, w0: Wiper, keepers: set<string>)
    requires KeysInStep(w, z, w0, keepers) && z.frames != [] && Closes(z, v) && !AtKey(Init(z))
    ensures KeysInStep(Write(ValueEnd(PopClosure(w), |w.closures|), [c]), PopFrame(z, v), w0, keepers)
  {
    ClosedHasKey(z, v);
    hide KeysInStep, ValueEnd, PopClosure, Closes;
    var dirt, r := Dirt(w0, z.docs), Stack(w0, z.docs);
    var w1 := ValueEnd(PopClosure(w), |w.closures|);
    CloseFields(w, z, v, w0, keepers);
    KeepsSame(w1, Write(w1, [c]), ReadFrames(Init(z), dirt), |r|, keepers);
    hide Stack, TakesForKey, Dirt, KeepsAs, Objects, FramesHaveKey, ReadFrames, HasKey, AtKey;
    if Init(z) == [] {
      TopClosed(Write(w1, [c]), z, v, w0, keepers);
    } else {
      InnerClosed(Write(w1, [c]), z, v, w0, keepers);
    }
  }

  /** The fields after a closing bracket. */
  lemma CloseFields(w: Wiper, z: Reader, v: Value, w0: Wiper, keepers: set<string>)
    requires KeysInStep(w, z, w0, keepers) && z.frames != [] && Closes(z, v)
    ensures var w1, r, o := ValueEnd(PopClosure(w), |w.closures|), Stack(w0, z.docs), Objects(Init(z));
            && w1.closures == (if r == [] && o == [] then [IsObject(v)] else r + o)
            && w1.key == LastOf(w1.closures)
            && KeepsAs(w1, ReadFrames(Init(z), Dirt(w0, z.docs)), |r|, keepers)
            && w1.buf == if FramesHaveKey(Init(z)) || HasKey(v) then "" else Dirt(w0, z.docs)
  {
    hide TakesForKey, Stack, Dirt, KeepsAs, Objects, FramesHaveKey, ReadFrames, ValueEnd, PopClosure, HasKey, Closes;
    hide Opening, KeyFlag, FrameHasKey;
    ClosedHasKey(z, v);
    ClosedNotInKey(z, v);
    CloseKeeps(w, z, w0, keepers);
    ReadFramesTop(z, Dirt(w0, z.docs));
    assert Init(z) + [Top(z)] == z.frames;
    ObjectsLast(Init(z), Top(z));
    PopSeq(w, Stack(w0, z.docs), Objects(Init(z)), IsObject(v));
    EndFields(PopClosure(w), |w.closures|);
  }

  lemma CloseKeeps(w: Wiper, z: Reader, w0: Wiper, keepers: set<string>)
    requires KeysInStep(w, z, w0, keepers) && z.frames != []
    ensures KeepsAs(ValueEnd(PopClosure(w), |w.closures|), ReadFrames(Init(z), Dirt(w0, z.docs)),
                    |Stack(w0, z.docs)|, keepers)
  {
    hide TakesForKey, Stack, Dirt, KeepsAs, Objects, FramesHaveKey, ReadFrames, ValueEnd, HasKey;
    hide Behind, KeyText, KeyFlag;
    var dirt, r := Dirt(w0, z.docs), Stack(w0, z.docs);
    assert DocsRead(z) == z.docs;
    ReadFramesTop(z, dirt);
    ReadFramesLength(Init(z), dirt);
    ObjectsLength(z.frames);
    KeepsSame(w, PopClosure(w), Opening(w0, z), |r|, keepers);
    KeepsClosed(PopClosure(w), ReadFrames(Init(z), dirt), ReadFrame(Top(z), !FramesHaveKey(Init(z)), dirt), |r|,
                keepers);
  }

  lemma ClosedNotInKey(z: Reader, v: Value)
    requires z.frames != [] && Closes(z, v)
    ensures KeyText(z) == "" && DocsRead(z) == z.docs
  {
  }

  lemma TopClosed(w: Wiper, z: Reader, v: Value, w0: Wiper, keepers: set<string>)
    requires z.frames != [] && Init(z) == [] && !v.Scalar?
    requires w.closures == (if Stack(w0, z.docs) == [] then [IsObject(v)] else Stack(w0, z.docs))
    requires w.key == LastOf(w.closures) && KeepsAs(w, ReadFrames([], Dirt(w0, z.docs)), |Stack(w0, z.docs)|, keepers)
    requires w.buf == if HasKey(v) then "" else Dirt(w0, z.docs)
    ensures KeysInStep(w, PopFrame(z, v), w0, keepers)
  {
    var z' := PopFrame(z, v);
    DocumentEnds(w0, z.docs, v);
    var dirt', n' := Dirt(w0, DocsRead(z')), |Stack(w0, DocsRead(z'))|;
    NothingOpen(w, Dirt(w0, z.docs), dirt', |Stack(w0, z.docs)|, n', keepers);
    NoText(w);
    hide Stack, TakesForKey, Dirt, KeepsAs, Objects, FramesHaveKey, ReadFrames, HasKey;
    assert DocsRead(z') == MoreDocs(z.docs, v, "");
    assert w.closures + [] == w.closures;
  }

  lemma InnerClosed(w: Wiper, z: Reader, v: Value, w0: Wiper, keepers: set<string>)
    requires z.frames != [] && Init(z) != [] && !AtKey(Init(z))
    requires w.closures == Stack(w0, z.docs) + Objects(Init(z))
    requires KeepsAs(w, ReadFrames(Init(z), Dirt(w0, z.docs)), |Stack(w0, z.docs)|, keepers)
    requires w.buf == if FramesHaveKey(Init(z)) || HasKey(v) then "" else Dirt(w0, z.docs)
    ensures KeysInStep(w, PopFrame(z, v), w0, keepers)
  {
    hide Stack, TakesForKey, Dirt, KeepsAs, Objects, FramesHaveKey, ReadFrames, HasKey, AtKey;
    assert DocsRead(PopFrame(z, v)) == z.docs;
    NoText(w);
  }

  lemma NoText(w: Wiper)
    ensures w.buf + "" == w.buf
  {
  }

  lemma DocumentEnds(w: Wiper, docs: Docs, v: Value)
    requires !v.Scalar?
    ensures var d, r := MoreDocs(docs, v, ""), Stack(w, docs);
            && Stack(w, d) == (if r == [] then [IsObject(v)] else r)
            && TakesForKey(w, d) == LastOf(Stack(w, d)) && Dirt(w, d) == if HasKey(v) then "" else Dirt(w, docs)
  {
    hide HasKey;
  }

  lemma NothingOpen(w: Wiper, d: string, d': string, n: nat, n': nat, keepers: set<string>)
    requires KeepsAs(w, ReadFrames([], d), n, keepers)
    ensures ReadFrames([], d') == [] && KeepsAs(w, [], n', keepers) && Objects([]) == [] && !FramesHaveKey([])
    ensures ReadFrames([], d) == []
  {
  }

  /** Whitespace in front of a key or value that is not there yet. */
  lemma SpaceBeforeKeys(w: Wiper, z: Reader, c: char, w0: Wiper, keepers: set<string>)
    requires KeysInStep(w, z, w0, keepers) && z.frames != [] && z.focus.Start?
    ensures KeysInStep(w, SetFrame(z, SpaceFrame(Top(z), c)), w0, keepers)
  {
    hide Stack, TakesForKey, Dirt, KeepsAs, Objects, FramesHaveKey, ReadFrames;
    var f := SpaceFrame(Top(z), c);
    var z' := SetFrame(z, f);
    var dirt, first := Dirt(w0, z.docs), !FramesHaveKey(Init(z));
    assert DocsRead(z) == z.docs == DocsRead(z');
    ReadFramesTop(z, dirt);
    ReadFramesLast(Init(z), f, dirt);
    ObjectsSwap(z, f);
    SpacedFrame(Top(z), c, first, dirt, keepers);
    KeepsSpaced(w, ReadFrames(Init(z), dirt), ReadFrame(Top(z), first, dirt), ReadFrame(f, first, dirt),
                |Stack(w0, z.docs)|, keepers);
    assert z'.frames[|z.frames| - 1] == f;
  }

  lemma SpacedFrame(f: Frame, c: char, first: bool, dirt: string, keepers: set<string>)
    ensures var f' := SpaceFrame(f, c);
            && FrameHasKey(f') == FrameHasKey(f) && f'.InArray? == f.InArray? && f'.InKey? == f.InKey?
            && KeptFrame(ReadFrame(f', first, dirt), keepers) == KeptFrame(ReadFrame(f, first, dirt), keepers)
  {
    hide Trim;
  }

  lemma KeepsSpaced(w: Wiper, fs: seq<Frame>, f: Frame, f': Frame, n: nat, keepers: set<string>)
    requires KeepsAs(w, fs + [f], n, keepers) && KeptFrame(f, keepers) == KeptFrame(f', keepers)
    ensures KeepsAs(w, fs + [f'], n, keepers)
  {
    RedactFramesLast(fs, f, keepers);
    RedactFramesLast(fs, f', keepers);
    hide Keep, KeptAt, KeptFrame;
  }

  /** Whitespace behind a key or value. */
  lemma SpaceBehindKeys(w: Wiper, z: Reader, c: char, w0: Wiper, keepers: set<string>)
    requires KeysInStep(w, z, w0, keepers) && Settle(z.focus).Done? && (z.focus.Partial? ==> !AtKey(z.frames))
    ensures KeysInStep(w, z.(focus := Done(Settle(z.focus).value, Settle(z.focus).post + [c])), w0, keepers)
  {
    var v, post := Settle(z.focus).value, Settle(z.focus).post;
    var z' := z.(focus := Done(v, post + [c]));
    PostIsNothing(w0, z.docs, v, post, post + [c]);
    ScalarHasNoKey();
    hide Stack, TakesForKey, Dirt, KeepsAs, Objects, FramesHaveKey, ReadFrames, HasKey;
    if z.frames != [] {
      assert DocsRead(z') == z.docs == DocsRead(z);
    } else {
      assert DocsRead(z') == MoreDocs(z.docs, v, post + [c]) && DocsRead(z) == MoreDocs(z.docs, v, post);
    }
  }

  lemma PostIsNothing(w: Wiper, docs: Docs, v: Value, post: string, post': string)
    ensures var d, d' := MoreDocs(docs, v, post), MoreDocs(docs, v, post');
            Stack(w, d) == Stack(w, d') && TakesForKey(w, d) == TakesForKey(w, d') && Dirt(w, d) == Dirt(w, d')
  {
    hide HasKey;
  }

  lemma LeadKeys(w: Wiper, z: Reader, lead: string, w0: Wiper, keepers: set<string>)
    requires KeysInStep(w, z, w0, keepers)
    ensures KeysInStep(w, z.(lead := lead), w0, keepers)
  {
    hide Stack, TakesForKey, Dirt, KeepsAs, Objects, FramesHaveKey, ReadFrames, HasKey;
    assert DocsRead(z.(lead := lead)) == DocsRead(z);
  }

  lemma OutKeys(w: Wiper, t: string, z: Reader, w0: Wiper, keepers: set<string>)
    requires KeysInStep(w, z, w0, keepers)
    ensures KeysInStep(Write(w, t), z, w0, keepers)
  {
    hide Stack, TakesForKey, Dirt, Objects, Opening, Behind, KeyText, Keep, KeptAt;
  }

  // ---------------------------------------------------------------- every byte

  ghost predicate KeyReady(k: State, w: Wiper, c: char, op: Op, w0: Wiper, keepers: set<string>) {
    Good(k) && Next(k.s, c).1 == op && op != ScanError && KeysInStep(w, k.z, w0, keepers)
  }

  ghost predicate KeysFollow(k: State, w: Wiper, c: char, w0: Wiper, keepers: set<string>) {
    KeysInStep(Emit(w, Next(k.s, c).1, c, keepers), Move(k, c).z, w0, keepers)
  }

  lemma KeysOpen(k: State, w: Wiper, c: char, w0: Wiper, keepers: set<string>)
    requires KeyReady(k, w, c, Next(k.s, c).1, w0, keepers)
    requires var op := Next(k.s, c).1; op == ScanBeginObject || op == ScanBeginArray
    ensures KeysFollow(k, w, c, w0, keepers)
  {
    OpMeans(k, c);
    hide Good, Next, KeysInStep;
    PromoteKeys(w, k.z, w0, keepers);
    OpenKeys(w, Promote(k.z), c, w0, keepers);
  }

  lemma KeysLiteral(k: State, w: Wiper, c: char, w0: Wiper, keepers: set<string>)
    requires KeyReady(k, w, c, Next(k.s, c).1, w0, keepers)
    requires var op := Next(k.s, c).1; op == ScanBeginLiteral || op == ScanContinue
    ensures KeysFollow(k, w, c, w0, keepers)
  {
    OpMeans(k, c);
    PartialIsSome(k);
    hide Good, Next, KeysInStep, Literal;
    var p := if Next(k.s, c).1 == ScanBeginLiteral then Promote(k.z) else k.z;
    var t := if p.focus.Partial? then p.focus.text else "";
    PromoteKeys(w, k.z, w0, keepers);
    if p.frames == [] {
      TopLiteralKeys(w, p, t, c, w0, keepers);
    } else {
      LiteralKeys(w, p, t, c, w0, keepers);
    }
    ClosedKeys(Literal(w, c), p.(focus := Partial(t + [c])), w0, keepers);
    assert "" + [c] == [c];
  }

  lemma PartialIsSome(k: State)
    requires Good(k)
    ensures k.z.focus.Partial? ==> k.z.focus.text != ""
  {
    hide WellFormed, DocsOk, FrameOk;
  }

  lemma KeysColon(k: State, w: Wiper, c: char, w0: Wiper, keepers: set<string>)
    requires KeyReady(k, w, c, ScanObjectKey, w0, keepers)
    ensures KeysFollow(k, w, c, w0, keepers)
  {
    OpMeans(k, c);
    hide Good, Next, KeysInStep, Trim, Emit;
    ColonKeys(w, k.z, w0, keepers);
  }

  lemma KeysComma(k: State, w: Wiper, c: char, w0: Wiper, keepers: set<string>)
    requires KeyReady(k, w, c, Next(k.s, c).1, w0, keepers)
    requires var op := Next(k.s, c).1; op == ScanObjectValue || op == ScanArrayValue
    ensures KeysFollow(k, w, c, w0, keepers)
  {
    OpMeans(k, c);
    hide Good, Next, KeysInStep, ValueEnd, ItemsNow, MembersNow;
    var t := Top(k.z);
    var f := if t.InArray? then InArray(ItemsNow(t, k.z.focus), "") else InKey(MembersNow(t, k.z.focus), "");
    CommaKeys(w, k.z, f, c, w0, keepers);
  }

  /** The array or object that ends here. */
  function ClosedValue(z: Reader): Value
    requires z.frames != []
  {
    var t := Top(z);
    if t.InKey? then EmptyObject(t.preKey)
    else if t.InValue? then Object(MembersNow(t, z.focus))
    else if z.focus.Start? then EmptyArray(t.pre)
    else Array(ItemsNow(t, z.focus))
  }

  lemma MoveClose(k: State, c: char)
    requires var op := Next(k.s, c).1; (op == ScanEndObject || op == ScanEndArray) && Good(k)
    ensures k.z.frames != [] && FramesOk(k.z.frames) && Closes(k.z, ClosedValue(k.z))
    ensures Move(k, c).z == PopFrame(k.z, ClosedValue(k.z))
  {
    OpMeans(k, c);
    assert FramesOk(k.z.frames);
    hide Good, Next, FramesOk, ItemsNow, MembersNow, AtKey, PopFrame;
  }

  lemma KeysClose(k: State, w: Wiper, c: char, w0: Wiper, keepers: set<string>)
    requires KeyReady(k, w, c, Next(k.s, c).1, w0, keepers)
    requires var op := Next(k.s, c).1; op == ScanEndObject || op == ScanEndArray
    ensures KeysFollow(k, w, c, w0, keepers)
  {
    hide Good, Next, KeysInStep, ValueEnd, PopClosure, PopFrame, FramesOk, AtKey, Move, Emit, Closes, ClosedValue;
    MoveClose(k, c);
    EmitPlain(w, c, keepers);
    InitNotAtKey(k.z);
    CloseKeys(w, k.z, ClosedValue(k.z), c, w0, keepers);
  }

  lemma NoKeyAtTop()
    ensures !AtKey([])
  {
  }

  lemma KeysSpace(k: State, w: Wiper, c: char, w0: Wiper, keepers: set<string>)
    requires KeyReady(k, w, c, Next(k.s, c).1, w0, keepers)
    requires var op := Next(k.s, c).1; op == ScanSkipSpace || op == ScanEnd
    ensures KeysFollow(k, w, c, w0, keepers)
  {
    hide Good, Next, KeysInStep, AtKey, SpaceFrame, Move, Emit;
    OpMeans(k, c);
    if Next(k.s, c).1 == ScanSkipSpace {
      SpaceMeans(k, c);
    } else {
      NoKeyAtTop();
    }
    MoveSpace(k, c);
    EmitPlain(w, c, keepers);
    AddSpaceMeans(k.z, c);
    if !k.z.focus.Start? {
      SpaceBehindKeys(w, k.z, c, w0, keepers);
    } else if k.z.frames == [] {
      LeadKeys(w, k.z, k.z.lead + [c], w0, keepers);
    } else {
      SpaceBeforeKeys(w, k.z, c, w0, keepers);
    }
    hide AddSpace;
    OutKeys(w, [c], AddSpace(k.z, c), w0, keepers);
  }

  /** Whatever byte is read, the key buffer and the kept keys keep following the reader. */
  lemma KeysKept(k: State, w: Wiper, c: char, w0: Wiper, keepers: set<string>)
    requires KeyReady(k, w, c, Next(k.s, c).1, w0, keepers)
    ensures KeysFollow(k, w, c, w0, keepers)
  {
    hide Good, KeysFollow, KeysInStep, Next;
    match Next(k.s, c).1
    case ScanBeginObject => KeysOpen(k, w, c, w0, keepers);
    case ScanBeginArray => KeysOpen(k, w, c, w0, keepers);
    case ScanBeginLiteral => KeysLiteral(k, w, c, w0, keepers);
    case ScanContinue => KeysLiteral(k, w, c, w0, keepers);
    case ScanObjectKey => KeysColon(k, w, c, w0, keepers);
    case ScanObjectValue => KeysComma(k, w, c, w0, keepers);
    case ScanArrayValue => KeysComma(k, w, c, w0, keepers);
    case ScanEndObject => KeysClose(k, w, c, w0, keepers);
    case ScanEndArray => KeysClose(k, w, c, w0, keepers);
    case ScanSkipSpace => KeysSpace(k, w, c, w0, keepers);
    case ScanEnd => KeysSpace(k, w, c, w0, keepers);
    case ScanError =>
  }

  /** The same after any input that the scanner has not refused, from a redactor at rest. */
  lemma {:induction false} WipeKeys(w: Wiper, input: string, keepers: set<string>)
    requires Resting(w) && !Feed(INITIAL, input).err
    ensures KeysInStep(Wipe(w, input, keepers), ReaderAfter(input), w, keepers)
  {
    hide KeysInStep, Next, Advance, Emit;
    if input == "" {
      RestingKeys(w, keepers);
    } else {
      var before, c := input[..|input| - 1], input[|input| - 1];
      assert input == before + [c];
      NoErrorBefore(before, c);
      RunKeeps(before);
      FeedLast(INITIAL, before, c);
      WipeLast(w, before, c, keepers);
      var k := State(ReaderAfter(before), Feed(INITIAL, before));
      WipeKeys(w, before, keepers);
      hide ReaderOk, Matches, Closed, Feed, ReaderAfter, Wipe;
      KeysKept(k, Wipe(w, before, keepers), c, w, keepers);
    }
  }

  lemma RestingKeys(w: Wiper, keepers: set<string>)
    requires Resting(w)
    ensures KeysInStep(w, FRESH, w, keepers)
  {
    assert DocsRead(FRESH) == NoDocs;
    assert Objects([]) == [] && w.closures + [] == w.closures;
  }

  // ---------------------------------------------------------------- truncated inputs

  /** Keeping, with a depth that no bracket of a later input gets below. */
  predicate Stuck(w: Wiper) {
    w.keeping && w.closures != [] && w.keepDepth <= |w.closures| + 1
  }

  /** What an input leaves behind in a resting redactor: it keeps if and only if the input ends under a kept key,
      keys being taken as the redactor read them, and then it is stuck. */
  lemma LeftKeeping(w: Wiper, input: string, keepers: set<string>)
    requires Resting(w)
    ensures var w', z := Wipe(w, Taken(input), keepers), ReaderAfter(Taken(input));
            && (w'.keeping <==> Keep(ReadFrames(z.frames, Dirt(w, z.docs)), keepers))
            && (w'.keeping ==> Stuck(w'))
  {
    hide Keep, KeptAt, Wipe, ReaderAfter, Feed, Objects, Stack, Dirt, Behind, KeyFlag, ReadFrames, Taken;
    TakenIsRead(input);
    var z := ReaderAfter(Taken(input));
    var fs := Opening(w, z);
    WipeKeys(w, Taken(input), keepers);
    ReadFramesLength(z.frames, Dirt(w, DocsRead(z)));
    ObjectsLength(z.frames);
    KeptBelow(fs, keepers);
    if z.frames == [] {
      NoFrames(Dirt(w, DocsRead(z)), Dirt(w, z.docs));
    }
  }

  lemma NoFrames(d: string, d': string)
    ensures ReadFrames([], d) == ReadFrames([], d') == []
  {
  }

  lemma {:induction false} TakenIsRead(input: string)
    ensures !Feed(INITIAL, Taken(input)).err
  {
    hide Feed;
    if input == "" {
      FeedNone();
    } else if Feed(INITIAL, input).err {
      TakenIsRead(input[..|input| - 1]);
    }
  }

  /** Where no scalar at top level was taken for a key, the keys are those of the text. */
  lemma LeftKeepingClean(w: Wiper, input: string, keepers: set<string>)
    requires Resting(w) && AllMasked(w, ReaderAfter(Taken(input)).docs)
    ensures Wipe(w, Taken(input), keepers).keeping <==> Keep(ReaderAfter(Taken(input)).frames, keepers)
  {
    hide Keep, Wipe, ReaderAfter, Feed, AllMasked, Taken, ReadFrames;
    LeftKeeping(w, input, keepers);
    NoDirt(w, ReaderAfter(Taken(input)).docs);
    CleanFrames(ReaderAfter(Taken(input)).frames);
  }

  lemma {:induction false} NoDirt(w: Wiper, docs: Docs)
    requires AllMasked(w, docs)
    ensures Dirt(w, docs) == ""
  {
    hide HasKey;
    if docs.MoreDocs? {
      NoDirt(w, docs.front);
    }
  }

  lemma {:induction false} CleanFrames(fs: seq<Frame>)
    ensures ReadFrames(fs, "") == fs
  {
    if fs != [] {
      var f := fs[|fs| - 1];
      CleanFrames(fs[..|fs| - 1]);
      assert f.InValue? ==> "" + f.key == f.key;
    }
  }

  lemma {:induction false} KeptBelow(fs: seq<Frame>, keepers: set<string>)
    ensures Keep(fs, keepers) ==> KeptAt(fs, keepers) + 1 <= |fs|
  {
    if fs != [] {
      KeptBelow(fs[..|fs| - 1], keepers);
    }
  }

  /** Without a key to keep nothing is ever kept. */
  lemma {:induction false} NeverKeeping(w: Wiper, input: string, keepers: set<string>)
    requires !w.keeping && keepers == {}
    ensures !Wipe(w, input, keepers).keeping
  {
    hide Next, Feed;
    if input != "" {
      NeverKeeping(w, input[..|input| - 1], keepers);
    }
  }

  /** How the scanner's stack moves with its answers. */
  ghost predicate MovesWith(n: nat, r: (Scan, Op)) {
    var n', op := |r.0.parseState|, r.1;
    && (op == ScanBeginObject || op == ScanBeginArray ==> n' == n + 1)
    && (op == ScanEndObject || op == ScanEndArray ==> n' + 1 == n)
    && (op == ScanObjectValue || op == ScanArrayValue ==> n' == n > 0)
    && (op in {ScanObjectKey, ScanContinue, ScanBeginLiteral, ScanSkipSpace, ScanEnd} ==> n' == n)
  }

  lemma BeginMoves(s: Scan, c: char)
    ensures MovesWith(|s.parseState|, BeginValue(s, c)) && MovesWith(|s.parseState|, BeginString(s, c))
  {
    hide LiteralStart;
  }

  lemma EndMoves(s: Scan, c: char)
    ensures s.parseState == [] ==> MovesWith(0, EndTop(s, c))
    ensures MovesWith(|s.parseState|, EndValue(s, c))
  {
    hide BeginValue;
    BeginMoves(INITIAL, c);
  }

  lemma StackMoves(s: Scan, c: char)
    requires StackOk(s)
    ensures MovesWith(|s.parseState|, Next(s, c))
  {
    hide BeginValue, BeginString, EndValue, EndTop, NextInLiteral, LiteralStep;
    match s.step
    case StateBeginValue => BeginMoves(s, c);
    case StateBeginValueOrEmpty =>
      BeginMoves(s, c);
      EndMoves(s, c);
    case StateBeginStringOrEmpty =>
      BeginMoves(s, c);
      EndMoves(SetTop(s, ParseObjectValue), c);
    case StateBeginString => BeginMoves(s, c);
    case StateEndValue => EndMoves(s, c);
    case StateEndTop => EndMoves(s, c);
    case StateError =>
    case _ =>
      LiteralMovesNot(s, c);
      NextOfLiteral(s, c);
  }

  lemma LiteralMovesNot(s: Scan, c: char)
    requires InLiteral(s.step)
    ensures MovesWith(|s.parseState|, NextInLiteral(s, c))
  {
    EndMoves(s, c);
    hide LiteralStep, EndValue;
  }

  /** A stuck redactor writes the byte, unless it is whitespace inside a document, and stays stuck. */
  lemma StuckStep(w: Wiper, s: Scan, c: char, base: nat, keepers: set<string>)
    requires StackOk(s) && Next(s, c).1 != ScanError
    requires w.keeping && 0 < base && w.keepDepth <= base + 1 && |w.closures| == base + |s.parseState|
    ensures var op := Next(s, c).1;
            var w' := Emit(w, op, c, keepers);
            && w'.keeping && w'.keepDepth == w.keepDepth && |w'.closures| == base + |Next(s, c).0.parseState|
            && w'.out == if op == ScanSkipSpace then w.out else w.out + [c]
  {
    StackMoves(s, c);
    hide Next, Trim;
  }

  /** The bytes of an input that are not whitespace inside a document. */
  function Unspaced(input: string): string {
    if input == "" then ""
    else
      var before, c := input[..|input| - 1], input[|input| - 1];
      if Next(Feed(INITIAL, before), c).1 == ScanSkipSpace then Unspaced(before) else Unspaced(before) + [c]
  }

  lemma {:induction false} StuckRun(w: Wiper, input: string, keepers: set<string>)
    requires Stuck(w) && !Feed(INITIAL, input).err
    ensures var w' := Wipe(w, input, keepers);
            && w'.keeping && w'.keepDepth == w.keepDepth
            && |w'.closures| == |w.closures| + |Feed(INITIAL, input).parseState|
            && w'.out == w.out + Unspaced(input)
  {
    hide Emit, Next;
    if input == "" {
      assert w.out + "" == w.out;
    } else {
      var before, c := input[..|input| - 1], input[|input| - 1];
      assert input == before + [c];
      NoErrorBefore(before, c);
      FeedStackOk(before);
      StuckRun(w, before, keepers);
      WipeLast(w, before, c, keepers);
      NextStackOk(Feed(INITIAL, before), c);
      FeedStackOk(input);
      hide Wipe, Feed;
      FeedLast(INITIAL, before, c);
      StuckStep(Wipe(w, before, keepers), Feed(INITIAL, before), c, |w.closures|, keepers);
      assert w.out + Unspaced(before) + [c] == w.out + (Unspaced(before) + [c]);
    }
  }

  /** What a stuck redactor returns is its input, up to the first byte refused, without the whitespace inside
      documents and with nothing masked; and the call leaves it stuck again. */
  lemma StuckCopies(w: Wiper, data: string, keepers: set<string>)
    requires Stuck(w)
    ensures var w' := Wipe(NextCall(w), Taken(data), keepers);
            w'.out == Unspaced(Taken(data)) && Stuck(NextCall(w'))
  {
    hide Wipe, Unspaced, Feed, Taken;
    TakenIsRead(data);
    StuckRun(NextCall(w), Taken(data), keepers);
    assert "" + Unspaced(Taken(data)) == Unspaced(Taken(data));
  }

  /** The redactor after some calls. */
  function AfterCalls(w: Wiper, calls: seq<string>, keepers: set<string>): Wiper {
    if calls == [] then w
    else
      NextCall(Wipe(AfterCalls(w, calls[..|calls| - 1], keepers), Taken(calls[|calls| - 1]), keepers))
  }

  /** Once stuck, whatever it is called with, a redactor masks nothing any more. */
  lemma {:induction false} StuckForGood(w: Wiper, calls: seq<string>, data: string, keepers: set<string>)
    requires Stuck(w) && NextCall(w) == w
    ensures Stuck(AfterCalls(w, calls, keepers))
    ensures Wipe(AfterCalls(w, calls, keepers), Taken(data), keepers).out == Unspaced(Taken(data))
  {
    hide Wipe, Unspaced, Taken;
    if calls != [] {
      StuckForGood(w, calls[..|calls| - 1], calls[|calls| - 1], keepers);
      StuckCopies(AfterCalls(w, calls[..|calls| - 1], keepers), calls[|calls| - 1], keepers);
    }
    StuckCopies(AfterCalls(w, calls, keepers), data, keepers);
  }

  /** Such a call exists: `{"k":` cut off behind a kept key leaves a new redactor stuck. */
  lemma TruncatedInputSticks(keepers: set<string>)
    requires "k" in keepers
    ensures Stuck(Wipe(UNUSED, "{\"k\":", keepers))
  {
    hide Feed, Wipe, Emit, Next;
    FeedNone();
    WipeNone(UNUSED, keepers);
    var t1: string := [] + ['{'];
    var t2 := t1 + ['\"'];
    var t3 := t2 + ['k'];
    var t4 := t3 + ['\"'];
    FeedLast(INITIAL, [], '{');
    FeedLast(INITIAL, t1, '\"');
    FeedLast(INITIAL, t2, 'k');
    FeedLast(INITIAL, t3, '\"');
    WipeLast(UNUSED, [], '{', keepers);
    WipeLast(UNUSED, t1, '\"', keepers);
    WipeLast(UNUSED, t2, 'k', keepers);
    WipeLast(UNUSED, t3, '\"', keepers);
    WipeLast(UNUSED, t4, ':', keepers);
    BareScalarSteps(keepers);
    KeySteps();
    KeyWipes(keepers);
    assert t4 + [':'] == "{\"k\":";
  }

  lemma KeySteps()
    ensures Next(Scan(StateBeginStringOrEmpty, [ParseObjectKey], false, false), '\"') ==
            (Scan(StateInString, [ParseObjectKey], false, false), ScanBeginLiteral)
    ensures Next(Scan(StateInString, [ParseObjectKey], false, false), 'k') ==
            (Scan(StateInString, [ParseObjectKey], false, false), ScanContinue)
    ensures Next(Scan(StateInString, [ParseObjectKey], false, false), '\"') ==
            (Scan(StateEndValue, [ParseObjectKey], false, false), ScanContinue)
    ensures Next(Scan(StateEndValue, [ParseObjectKey], false, false), ':').1 == ScanObjectKey
  {
  }

  lemma KeyWipes(keepers: set<string>)
    requires "k" in keepers
    ensures Emit(Wiper([true], true, false, false, 0, "", "{"), ScanBeginLiteral, '\"', keepers) ==
            Wiper([true], true, false, false, 0, "\"", "{\"")
    ensures Emit(Wiper([true], true, false, false, 0, "\"", "{\""), ScanContinue, 'k', keepers) ==
            Wiper([true], true, false, false, 0, "\"k", "{\"k")
    ensures Emit(Wiper([true], true, false, false, 0, "\"k", "{\"k"), ScanContinue, '\"', keepers) ==
            Wiper([true], true, false, false, 0, "\"k\"", "{\"k\"")
    ensures Stuck(Emit(Wiper([true], true, false, false, 0, "\"k\"", "{\"k\""), ScanObjectKey, ':', keepers))
  {
    TrimmedKey();
    hide Trim;
    assert "" + ['\"'] == "\"" && "{" + ['\"'] == "{\"";
    assert "\"" + ['k'] == "\"k" && "{\"" + ['k'] == "{\"k";
    assert "\"k" + ['\"'] == "\"k\"" && "{\"k" + ['\"'] == "{\"k\"";
  }

  lemma TrimmedKey()
    ensures Trim("\"k\"") == "k"
  {
    assert "\"k\""[1..] == "k\"";
    assert "k\""[..1] == "k";
  }

  // ---------------------------------------------------------------- a scalar that spoils a key

  const AT_KEY := Scan(StateBeginStringOrEmpty, [ParseObjectKey], false, false)
  const ONE_DOC := MoreDocs(NoDocs, EmptyObject(""), "")
  const TWO_DOCS := MoreDocs(ONE_DOC, Scalar("\"k\""), "")

  // the reader and the scanner after each byte of `{}"k"{"":`
  const K0 := State(FRESH, INITIAL)
  const K1 := State(Reader("", NoDocs, [InKey(NoMembers, "")], Start), AT_KEY)
  const K2 := State(Reader("", NoDocs, [], Done(EmptyObject(""), "")), Scan(StateEndTop, [], true, false))
  const K3 := State(Reader("", ONE_DOC, [], Partial("\"")), Scan(StateInString, [], false, false))
  const K4 := State(Reader("", ONE_DOC, [], Partial("\"k")), Scan(StateInString, [], false, false))
  const K5 := State(Reader("", ONE_DOC, [], Done(Scalar("\"k\""), "")), Scan(StateEndValue, [], false, false))
  const K6 := State(Reader("", TWO_DOCS, [InKey(NoMembers, "")], Start), AT_KEY)
  const K7 := State(Reader("", TWO_DOCS, [InKey(NoMembers, "")], Partial("\"")),
                     Scan(StateInString, [ParseObjectKey], false, false))
  const K8 := State(Reader("", TWO_DOCS, [InKey(NoMembers, "")], Done(Scalar("\"\""), "")),
                     Scan(StateEndValue, [ParseObjectKey], false, false))
  const K9 := State(Reader("", TWO_DOCS, [InValue(NoMembers, "", "\"\"", "", "")], Start),
                     Scan(StateBeginValue, [ParseObjectValue], false, false))

  /** The scanner and the reader make this move. */
  ghost predicate Goes(k: State, c: char, k': State) {
    Move(k, c) == k'
  }

  lemma Scans1()
    ensures Next(K0.s, '{') == (K1.s, ScanBeginObject) && Next(K1.s, '}') == (K2.s, ScanEndObject)
    ensures Next(K2.s, '\"') == (K3.s, ScanBeginLiteral)
  {
    BareScalarSteps({});
  }

  lemma Moves1()
    ensures Goes(K0, '{', K1) && Goes(K1, '}', K2) && Goes(K2, '\"', K3)
  {
    Moved1();
    Moved2();
    Moved3();
  }

  lemma Moved1()
    ensures Goes(K0, '{', K1)
  {
    hide Next;
    Scans1();
  }

  lemma Moved2()
    ensures Goes(K1, '}', K2)
  {
    hide Next;
    Scans1();
  }

  lemma Moved3()
    ensures Goes(K2, '\"', K3)
  {
    hide Next;
    Scans1();
  }

  lemma Scans2()
    ensures Next(K3.s, 'k') == (K4.s, ScanContinue) && Next(K4.s, '\"') == (K5.s, ScanContinue)
    ensures Next(K5.s, '{') == (K6.s, ScanBeginObject)
  {
    assert [] + [ParseObjectKey] == [ParseObjectKey];
  }

  lemma Moves2()
    ensures Goes(K3, 'k', K4) && Goes(K4, '\"', K5) && Goes(K5, '{', K6)
  {
    hide Next;
    Scans2();
    assert "\"" + ['k'] == "\"k" && "\"k" + ['\"'] == "\"k\"";
  }

  lemma Scans3()
    ensures Next(K6.s, '\"') == (K7.s, ScanBeginLiteral) && Next(K7.s, '\"') == (K8.s, ScanContinue)
    ensures Next(K8.s, ':') == (K9.s, ScanObjectKey)
  {
    assert [] + [ParseObjectValue] == [ParseObjectValue];
  }

  lemma Moves3()
    ensures Goes(K6, '\"', K7) && Goes(K7, '\"', K8) && Goes(K8, ':', K9)
  {
    hide Next;
    Scans3();
    assert "\"" + ['\"'] == "\"\"";
  }

  ghost predicate Reached(t: string, k: State) {
    State(ReaderAfter(t), Feed(INITIAL, t)) == k
  }

  lemma ReadOne(t: string, c: char, k: State, k': State)
    requires Reached(t, k) && Goes(k, c, k')
    ensures Reached(t + [c], k')
  {
    hide Next, Advance, Feed, ReaderAfter;
    FeedLast(INITIAL, t, c);
  }

  /** The keys of the text alone do not decide: in `{}"k"{"":` the scalar counts as the beginning of the empty key
      behind it, which is read as `k`. */
  lemma ScalarSpoilsKey(keepers: set<string>)
    requires "k" in keepers && "" !in keepers
    ensures var input := "{}\"k\"{\"\":";
            Stuck(Wipe(UNUSED, Taken(input), keepers)) && !Keep(ReaderAfter(Taken(input)).frames, keepers)
  {
    hide Feed, Wipe, ReaderAfter, Keep, Goes, ReadFrames, Dirt, Trim;
    var input := "{}\"k\"{\"\":";
    SpoilingInput();
    assert Taken(input) == input;
    LeftKeeping(UNUSED, input, keepers);
    SpoiledKey(keepers);
  }

  lemma SpoilingStart()
    ensures Reached("{}\"", K3)
  {
    assert Reached("", K0);
    hide Reached, Goes;
    Moves1();
    ReadOne("", '{', K0, K1);
    assert "" + ['{'] == "{";
    ReadOne("{", '}', K1, K2);
    assert "{" + ['}'] == "{}";
    ReadOne("{}", '\"', K2, K3);
    assert "{}" + ['\"'] == "{}\"";
  }

  lemma SpoilingMiddle()
    ensures Reached("{}\"k\"{", K6)
  {
    hide Reached, Goes;
    SpoilingStart();
    Moves2();
    ReadOne("{}\"", 'k', K3, K4);
    assert "{}\"" + ['k'] == "{}\"k";
    ReadOne("{}\"k", '\"', K4, K5);
    assert "{}\"k" + ['\"'] == "{}\"k\"";
    ReadOne("{}\"k\"", '{', K5, K6);
    assert "{}\"k\"" + ['{'] == "{}\"k\"{";
  }

  lemma SpoilingInput()
    ensures Reached("{}\"k\"{\"\":", K9)
  {
    hide Reached, Goes;
    SpoilingMiddle();
    Moves3();
    ReadOne("{}\"k\"{", '\"', K6, K7);
    assert "{}\"k\"{" + ['\"'] == "{}\"k\"{\"";
    ReadOne("{}\"k\"{\"", '\"', K7, K8);
    assert "{}\"k\"{\"" + ['\"'] == "{}\"k\"{\"\"";
    ReadOne("{}\"k\"{\"\"", ':', K8, K9);
    assert "{}\"k\"{\"\"" + [':'] == "{}\"k\"{\"\":";
  }

  lemma SpoiledKey(keepers: set<string>)
    requires "k" in keepers && "" !in keepers
    ensures var fs := [InValue(NoMembers, "", "\"\"", "", "")];
            Keep(ReadFrames(fs, Dirt(UNUSED, TWO_DOCS)), keepers) && !Keep(fs, keepers)
  {
    SpoiledDirt();
    SpoiledTrim();
    hide Dirt, Trim, Keep;
    var f := InValue(NoMembers, "", "\"\"", "", "");
    var f' := InValue(NoMembers, "", "\"k\"\"\"", "", "");
    assert "\"k\"" + "\"\"" == "\"k\"\"\"";
    ReadFramesLast([], f, "\"k\"");
    RedactFramesLast([], f, keepers);
    RedactFramesLast([], f', keepers);
    KeepNothing(keepers);
    assert [] + [f] == [f] && [] + [f'] == [f'];
  }

  lemma SpoiledDirt()
    ensures Dirt(UNUSED, TWO_DOCS) == "\"k\""
  {
    assert TakesForKey(UNUSED, ONE_DOC);
    assert "" + "\"k\"" == "\"k\"";
  }

  lemma SpoiledTrim()
    ensures Trim("\"\"") == "" && Trim("\"k\"\"\"") == "k"
  {
    assert "\"\""[1..] == "\"" && "\""[1..] == "";
    assert "\"k\"\"\""[1..] == "k\"\"\"" && "k\"\"\""[..3] == "k\"\"" && "k\"\""[..2] == "k\"" && "k\""[..1] == "k";
  }
}
