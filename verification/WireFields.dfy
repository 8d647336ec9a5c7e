/** Fields of all wire types, nested groups included (Protocol Buffers Encoding, section "Message Structure"), and what
    skipping makes of them. */
module WireFields {
  import opened Wire
  import S = SpanCodec

  /** A field by its number and its content. */
  datatype Field =
    | VarintField(n: nat, v: U64)
    | Fixed64Field(n: nat, b: Bytes)
    | BytesField(n: nat, b: Bytes)
    | GroupField(n: nat, fields: Fields)
    | Fixed32Field(n: nat, b: Bytes)

  datatype Fields = NoFields | MoreFields(first: Field, rest: Fields)

  function TypeOf(f: Field): nat {
    match f
    case VarintField(_, _) => 0
    case Fixed64Field(_, _) => 1
    case BytesField(_, _) => 2
    case GroupField(_, _) => 3
    case Fixed32Field(_, _) => 5
  }

  function TagOf(f: Field): nat {
    8 * f.n + TypeOf(f)
  }

  predicate Proper(f: Field)
    decreases f, 0
  {
    && TagOf(f) + 1 < 0x1_0000_0000_0000_0000
    && match f
       case VarintField(_, _) => true
       case Fixed64Field(_, b) => |b| == 8
       case BytesField(_, _) => true
       case GroupField(_, fields) => AllProper(fields)
       case Fixed32Field(_, b) => |b| == 4
  }

  predicate AllProper(fs: Fields)
    decreases fs, 1
  {
    fs.MoreFields? ==> Proper(fs.first) && AllProper(fs.rest)
  }

  function Content(f: Field): Bytes
    decreases f, 0
  {
    match f
    case VarintField(_, v) => EncodeVarint(v)
    case Fixed64Field(_, b) => b
    case BytesField(_, b) => EncodeVarint(|b|) + b
    case GroupField(n, fields) => AllEncoded(fields) + EncodeVarint(8 * n + 4)
    case Fixed32Field(_, b) => b
  }

  function Encoded(f: Field): Bytes
    decreases f, 1
  {
    EncodeVarint(TagOf(f)) + Content(f)
  }

  function AllEncoded(fs: Fields): Bytes
    decreases fs, 2
  {
    if fs.NoFields? then [] else Encoded(fs.first) + AllEncoded(fs.rest)
  }

  lemma StandsAt(a: Bytes, b: Bytes, c: Bytes)
    ensures At(a + b + c, |a|, b) && (a + b + c)[|a|..] == b + c
  {
  }

  lemma TagFirst(f: Field, rest: Bytes)
    requires Proper(f)
    ensures ReadVarint(Encoded(f) + rest, 0) == Ok((TagOf(f), |EncodeVarint(TagOf(f))|)) && TagOf(f) % 8 == TypeOf(f)
    ensures At(Encoded(f) + rest, |EncodeVarint(TagOf(f))|, Content(f))
  {
    var tag := EncodeVarint(TagOf(f));
    StandsAt([], tag, Content(f) + rest);
    StandsAt(tag, Content(f), rest);
    assert [] + tag + (Content(f) + rest) == Encoded(f) + rest == tag + Content(f) + rest;
    VarintRoundTrip(Encoded(f) + rest, 0, TagOf(f));
    hide EncodeVarint, Content, ReadVarint;
    TagType(f);
  }

  lemma TagType(f: Field)
    ensures TagOf(f) % 8 == TypeOf(f)
  {
  }

  /** Skipping a field, groups and the groups in them included, lands right behind it, whatever follows. */
  lemma {:induction false} FieldSkipped(f: Field, rest: Bytes)
    requires Proper(f) && Fits(Encoded(f) + rest)
    ensures Skip(Encoded(f) + rest) == Ok(|Encoded(f)|)
    decreases f, 0
  {
    hide ReadVarint, EncodeVarint, At, SkipGroup, Encoded, Content, Skip;
    var d, i := Encoded(f) + rest, |EncodeVarint(TagOf(f))|;
    TagFirst(f, rest);
    Sizes(f);
    match f
    case VarintField(_, v) => NumberSkipped(f, d, i);
    case Fixed64Field(_, _) => FixedSkipped(f, d, i);
    case BytesField(_, b) => TextSkipped(f, d, i);
    case GroupField(n, fields) =>
      Inside(f);
      GroupSkipped(fields, n, d, i);
      GroupEntered(f, d, i);
    case Fixed32Field(_, _) => FixedSkipped(f, d, i);
  }

  lemma Sizes(f: Field)
    ensures |Encoded(f)| == |EncodeVarint(TagOf(f))| + |Content(f)| && |EncodeVarint(TagOf(f))| > 0
  {
    hide EncodeVarint, Content;
  }

  lemma Inside(f: Field)
    requires f.GroupField?
    ensures Content(f) == AllEncoded(f.fields) + EncodeVarint(8 * f.n + 4)
  {
  }

  lemma NumberSkipped(f: Field, d: Bytes, i: nat)
    requires f.VarintField? && ReadVarint(d, 0) == Ok((TagOf(f), i)) && TagOf(f) % 8 == 0 && At(d, i, Content(f))
    ensures Skip(d) == Ok(i + |Content(f)|)
  {
    hide ReadVarint, EncodeVarint, At, SkipGroup;
    VarintRoundTrip(d, i, f.v);
  }

  lemma FixedSkipped(f: Field, d: Bytes, i: nat)
    requires (f.Fixed64Field? || f.Fixed32Field?) && Proper(f)
    requires ReadVarint(d, 0) == Ok((TagOf(f), i)) && TagOf(f) % 8 == TypeOf(f)
    ensures Skip(d) == Ok(i + |Content(f)|)
  {
    hide ReadVarint, EncodeVarint, SkipGroup;
  }

  lemma TextSkipped(f: Field, d: Bytes, i: nat)
    requires f.BytesField? && ReadVarint(d, 0) == Ok((TagOf(f), i)) && TagOf(f) % 8 == 2
    requires At(d, i, Content(f)) && Fits(d)
    ensures Skip(d) == Ok(i + |Content(f)|)
  {
    hide ReadVarint, EncodeVarint, At, Skip;
    var b := f.b;
    AtSplit(d, i, EncodeVarint(|b|), b);
    AtEnd(d, i, Content(f));
    VarintRoundTrip(d, i, |b|);
    LengthSkipped(f, d, i, b);
  }

  lemma GroupEntered(f: Field, d: Bytes, i: nat)
    requires f.GroupField? && ReadVarint(d, 0) == Ok((TagOf(f), i)) && TagOf(f) % 8 == 3 && i > 0
    ensures Skip(d) == SkipGroup(d, i)
  {
    hide ReadVarint, EncodeVarint, SkipGroup;
  }

  lemma LengthSkipped(f: Field, d: Bytes, i: nat, b: Bytes)
    requires ReadVarint(d, 0) == Ok((TagOf(f), i)) && TagOf(f) % 8 == 2 && |b| < 0x8000_0000_0000_0000
    requires ReadVarint(d, i) == Ok((|b|, i + |EncodeVarint(|b|)|)) && i + |EncodeVarint(|b|)| + |b| <= |d| && Fits(d)
    ensures Skip(d) == Ok(i + |EncodeVarint(|b|)| + |b|)
  {
    hide ReadVarint, EncodeVarint;
  }

  lemma {:induction false} GroupSkipped(fs: Fields, n: nat, d: Bytes, i: nat)
    requires AllProper(fs) && 8 * n + 4 < 0x1_0000_0000_0000_0000 && Fits(d) && i > 0
    requires At(d, i, AllEncoded(fs) + EncodeVarint(8 * n + 4))
    ensures SkipGroup(d, i) == Ok(i + |AllEncoded(fs) + EncodeVarint(8 * n + 4)|)
    decreases fs, 1
  {
    hide Skip, ReadVarint, EncodeVarint, At, Encoded, SkipGroup;
    if fs.NoFields? {
      assert AllEncoded(fs) + EncodeVarint(8 * n + 4) == EncodeVarint(8 * n + 4);
      GroupEnds(n, d, i);
    } else {
      var f, rest := fs.first, AllEncoded(fs.rest) + EncodeVarint(8 * n + 4);
      assert AllEncoded(fs) + EncodeVarint(8 * n + 4) == Encoded(f) + rest;
      hide AllEncoded;
      var after := Behind(f, rest, d, i);
      FieldSkipped(f, after);
      GroupStep(f, rest, d, i);
      GroupSkipped(fs.rest, n, d, i + |Encoded(f)|);
    }
  }

  lemma GroupEnds(n: nat, d: Bytes, i: nat)
    requires 8 * n + 4 < 0x1_0000_0000_0000_0000 && i > 0 && At(d, i, EncodeVarint(8 * n + 4))
    ensures SkipGroup(d, i) == Ok(i + |EncodeVarint(8 * n + 4)|)
  {
    hide ReadVarint, EncodeVarint, At, Skip;
    VarintRoundTrip(d, i, 8 * n + 4);
    var v: nat := 8 * n + 4;
    assert v % 8 == 4;
  }

  lemma Behind(f: Field, rest: Bytes, d: Bytes, i: nat) returns (after: Bytes)
    requires At(d, i, Encoded(f) + rest) && Fits(d)
    ensures i <= |d| && d[i..] == Encoded(f) + after && Fits(Encoded(f) + after)
  {
    hide Encoded;
    AtSplit(d, i, Encoded(f), rest);
    after := d[i..][|Encoded(f)|..];
  }

  lemma GroupStep(f: Field, rest: Bytes, d: Bytes, i: nat)
    requires Proper(f) && At(d, i, Encoded(f) + rest) && i > 0 && i <= |d| && Skip(d[i..]) == Ok(|Encoded(f)|)
    ensures At(d, i + |Encoded(f)|, rest) && SkipGroup(d, i) == SkipGroup(d, i + |Encoded(f)|)
  {
    AtSplit(d, i, Encoded(f), rest);
    AtSplit(d, i, EncodeVarint(TagOf(f)), Content(f));
    VarintRoundTrip(d, i, TagOf(f));
    TagType(f);
    NotEmpty(f);
    AtEnd(d, i, Encoded(f));
    hide ReadVarint, EncodeVarint, At, Encoded, Skip, Content;
  }

  lemma NotEmpty(f: Field)
    ensures |Encoded(f)| > 0
  {
  }

  /** So a field whose number the message does not know is passed over without a trace, wherever it stands. */
  lemma UnknownPassedOver(data: Bytes, i: nat, f: Field, m: S.Span)
    requires Proper(f) && Fits(data) && At(data, i, Encoded(f)) && 12 < f.n < 0x1000_0000
    ensures i + |Encoded(f)| <= |data| && S.SpanLoop(data, i, m) == S.SpanLoop(data, i + |Encoded(f)|, m)
  {
    hide S.SpanLoop, S.SpanField, Skip, EncodeVarint, ReadTag, At, Encoded, Content;
    AtEnd(data, i, Encoded(f));
    NotEmpty(f);
    UnknownTag(data, i, f);
    UnknownSkipped(data, i, f);
    UnknownField(data, i, f, m);
    S.LoopStep(data, i, m, m, i + |Encoded(f)|);
  }

  lemma UnknownTag(data: Bytes, i: nat, f: Field)
    requires Proper(f) && At(data, i, Encoded(f)) && 12 < f.n < 0x1000_0000
    ensures ReadTag(data, i).Ok? && ReadTag(data, i).value.0 == f.n
  {
    hide EncodeVarint, ReadTag, At, Content;
    AtSplit(data, i, EncodeVarint(TagOf(f)), Content(f));
    TagTable(data, i, TagOf(f));
    TagType(f);
    TagNumber(f);
  }

  lemma TagNumber(f: Field)
    ensures TagOf(f) / 8 == f.n
  {
  }

  lemma UnknownSkipped(data: Bytes, i: nat, f: Field)
    requires Proper(f) && Fits(data) && At(data, i, Encoded(f)) && i + |Encoded(f)| <= |data|
    ensures SkipField(data, i) == Ok(i + |Encoded(f)|)
  {
    hide Skip, Encoded;
    var after := data[i..][|Encoded(f)|..];
    assert data[i..] == Encoded(f) + after;
    FieldSkipped(f, after);
    NotEmpty(f);
  }

  lemma UnknownField(data: Bytes, i: nat, f: Field, m: S.Span)
    requires 12 < f.n && i < |data| && ReadTag(data, i).Ok? && ReadTag(data, i).value.0 == f.n
    requires SkipField(data, i) == Ok(i + |Encoded(f)|)
    ensures S.SpanField(data, i, m) == Ok((m, i + |Encoded(f)|))
  {
    hide ReadTag, SkipField, Encoded, ReadBytes, ReadVarint, S.SetString, S.SetVarint, S.ReadMeta, S.ReadMetric;
  }
}
