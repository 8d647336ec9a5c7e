/** model/trace.pb.go and model/trace_payload.pb.go: the messages that nest others. */
module TraceCodec {
  import opened Wire
  import S = SpanCodec

  datatype APITrace = APITrace(traceID: U64, spans: seq<S.Span>, startTime: I64, endTime: I64)

  datatype TracePayload = TracePayload(hostName: Bytes, env: Bytes, traces: seq<APITrace>, transactions: seq<S.Span>)

  const NO_TRACE := APITrace(0, [], 0, 0)
  const NO_PAYLOAD := TracePayload([], [], [], [])

  // ---------------------------------------------------------------- encoding

  /** Nested messages, each already encoded, under one tag. */
  function Entries(tag: Byte, encs: seq<Bytes>): Bytes {
    if encs == [] then [] else S.Entry(tag, encs[0]) + Entries(tag, encs[1..])
  }

  function SizeEntries(sizes: seq<nat>): nat {
    if sizes == [] then 0 else S.SizeEntry(sizes[0]) + SizeEntries(sizes[1..])
  }

  function TraceBytes(m: APITrace, encs: seq<Bytes>): Bytes {
    S.VarintField(0x08, m.traceID) + Entries(0x12, encs) +
    S.VarintField(0x30, ToU64(m.startTime)) + S.VarintField(0x38, ToU64(m.endTime))
  }

  function PayloadBytes(m: TracePayload, traces: seq<Bytes>, spans: seq<Bytes>): Bytes {
    S.StringField(0x0a, m.hostName) + S.StringField(0x12, m.env) + Entries(0x1a, traces) + Entries(0x22, spans)
  }

  ghost predicate EncodeSpans(spans: seq<S.Span>, encs: seq<Bytes>) {
    |encs| == |spans| && forall i :: 0 <= i < |spans| ==> S.EncodesSpan(spans[i], encs[i])
  }

  ghost predicate EncodesTrace(m: APITrace, b: Bytes) {
    exists encs :: EncodeSpans(m.spans, encs) && b == TraceBytes(m, encs)
  }

  ghost predicate EncodeTraces(traces: seq<APITrace>, encs: seq<Bytes>) {
    |encs| == |traces| && forall i :: 0 <= i < |traces| ==> EncodesTrace(traces[i], encs[i])
  }

  ghost predicate EncodesPayload(m: TracePayload, b: Bytes) {
    exists traces, spans :: EncodeTraces(m.traces, traces) && EncodeSpans(m.transactions, spans)
                            && b == PayloadBytes(m, traces, spans)
  }

  /** A field that is alone in its message; `b` stands for an encoded span, or an encoded trace. */
  lemma TraceTags(v: U64, x: I64, b: Bytes)
    requires v != 0 && x != 0
    ensures var n := if x >= 0 then x else x + 0x1_0000_0000_0000_0000;
            && TraceBytes(NO_TRACE.(traceID := v), []) == [0x08] + EncodeVarint(v)
            && TraceBytes(NO_TRACE, [b]) == [0x12] + EncodeVarint(|b|) + b
            && TraceBytes(NO_TRACE.(startTime := x), []) == [0x30] + EncodeVarint(n)
            && TraceBytes(NO_TRACE.(endTime := x), []) == [0x38] + EncodeVarint(n)
  {
    Unsigned(x);
    hide EncodeVarint, ToU64, Entries, S.VarintField, S.StringField, S.MetaBytes, S.MetricsBytes;
    S.NothingAdded();
    S.AllAbsent();
    OneEntry(b);
    S.Present(0x08, [], v);
    S.Present(0x30, [], ToU64(x));
    S.Present(0x38, [], ToU64(x));
  }

  lemma OneEntry(b: Bytes)
    ensures forall tag: Byte :: Entries(tag, [b]) == [tag] + EncodeVarint(|b|) + b && Entries(tag, []) == []
  {
    hide EncodeVarint;
    forall tag: Byte
      ensures Entries(tag, [b]) == [tag] + EncodeVarint(|b|) + b
    {
      assert [b][1..] == [];
      S.EntryIs(tag, b);
      assert S.Entry(tag, b) + [] == S.Entry(tag, b);
    }
  }

  lemma PayloadTags(s: Bytes, b: Bytes)
    requires s != []
    ensures PayloadBytes(NO_PAYLOAD.(hostName := s), [], []) == [0x0a] + EncodeVarint(|s|) + s
    ensures PayloadBytes(NO_PAYLOAD.(env := s), [], []) == [0x12] + EncodeVarint(|s|) + s
    ensures PayloadBytes(NO_PAYLOAD, [b], []) == [0x1a] + EncodeVarint(|b|) + b
    ensures PayloadBytes(NO_PAYLOAD, [], [b]) == [0x22] + EncodeVarint(|b|) + b
  {
    hide EncodeVarint, Entries, S.VarintField, S.StringField, S.MetaBytes, S.MetricsBytes, ToU64;
    S.NothingAdded();
    S.AllAbsent();
    OneEntry(b);
    S.Present(0x0a, s, 0);
    S.Present(0x12, s, 0);
  }

  // ---------------------------------------------------------------- sizes

  ghost function SpanSizes(spans: seq<S.Span>): seq<nat> {
    seq(|spans|, i requires 0 <= i < |spans| => S.SizeSpan(spans[i]))
  }

  ghost function SizeTrace(m: APITrace): nat {
    S.SizeVarintField(m.traceID) + SizeEntries(SpanSizes(m.spans)) +
    S.SizeVarintField(ToU64(m.startTime)) + S.SizeVarintField(ToU64(m.endTime))
  }

  ghost function TraceSizes(traces: seq<APITrace>): seq<nat> {
    seq(|traces|, i requires 0 <= i < |traces| => SizeTrace(traces[i]))
  }

  ghost function SizePayload(m: TracePayload): nat {
    S.SizeStringField(m.hostName) + S.SizeStringField(m.env) +
    SizeEntries(TraceSizes(m.traces)) + SizeEntries(SpanSizes(m.transactions))
  }

  lemma {:induction false} EntriesSize(tag: Byte, encs: seq<Bytes>, sizes: seq<nat>)
    requires |encs| == |sizes| && forall i :: 0 <= i < |encs| ==> |encs[i]| == sizes[i]
    ensures |Entries(tag, encs)| == SizeEntries(sizes)
  {
    if encs != [] {
      S.FieldSizes(tag, encs[0], 0);
      EntriesSize(tag, encs[1..], sizes[1..]);
    }
  }

  lemma SpansSize(tag: Byte, spans: seq<S.Span>, encs: seq<Bytes>)
    requires EncodeSpans(spans, encs)
    ensures |Entries(tag, encs)| == SizeEntries(SpanSizes(spans))
  {
    hide S.EncodesSpan, S.SizeSpan;
    forall i | 0 <= i < |spans|
      ensures |encs[i]| == S.SizeSpan(spans[i])
    {
      S.EncodedSpan(spans[i], encs[i]);
    }
    EntriesSize(tag, encs, SpanSizes(spans));
  }

  // ---------------------------------------------------------------- decoding

  /** One round of the trace's decoding loop. */
  function TraceField(data: Bytes, i: nat, m: APITrace): (r: Result<(APITrace, nat)>)
    requires i <= |data|
    ensures r.Ok? ==> i < r.value.1 <= |data|
  {
    var (n, wireType, i1) :- ReadTag(data, i);
    if n in {1, 6, 7} then
      if wireType != 0 then Err(WrongWireType)
      else
        var (v, i2) :- ReadVarint(data, i1);
        Ok((SetVarint(m, n, v), i2))
    else if n == 2 then
      if wireType != 2 then Err(WrongWireType)
      else
        var (b, i2) :- ReadBytes(data, i1);
        var s :- S.ParseSpan(b);
        Ok((m.(spans := m.spans + [s]), i2))
    else
      var i2 :- SkipField(data, i);
      Ok((m, i2))
  }

  function SetVarint(m: APITrace, n: int, v: U64): APITrace {
    match n
    case 1 => m.(traceID := v)
    case 6 => m.(startTime := ToI64(v))
    case _ => m.(endTime := ToI64(v))
  }

  /** A known field of another wire type than its own is refused. */
  lemma WrongTypes(data: Bytes, i: nat, t: APITrace, p: TracePayload, n: int, wireType: nat, at: nat)
    requires i <= |data| && ReadTag(data, i) == Ok((n, wireType, at))
    ensures n in {1, 6, 7} && wireType != 0 ==> TraceField(data, i, t) == Err(WrongWireType)
    ensures n == 2 && wireType != 2 ==> TraceField(data, i, t) == Err(WrongWireType)
    ensures n in {1, 2, 3, 4} && wireType != 2 ==> PayloadField(data, i, p) == Err(WrongWireType)
  {
    hide ReadTag, ReadBytes, ReadVarint, SkipField, S.ParseSpan, ParseTrace;
  }

  function TraceLoop(data: Bytes, i: nat, m: APITrace): Result<APITrace>
    requires i <= |data|
    decreases |data| - i
  {
    if i == |data| then Ok(m)
    else
      var (m', i') :- TraceField(data, i, m);
      TraceLoop(data, i', m')
  }

  function ParseTrace(data: Bytes): Result<APITrace> {
    TraceLoop(data, 0, NO_TRACE)
  }

  /** One round of the payload's decoding loop. */
  function PayloadField(data: Bytes, i: nat, m: TracePayload): (r: Result<(TracePayload, nat)>)
    requires i <= |data|
    ensures r.Ok? ==> i < r.value.1 <= |data|
  {
    var (n, wireType, i1) :- ReadTag(data, i);
    if 1 <= n <= 4 then
      if wireType != 2 then Err(WrongWireType)
      else
        var (b, i2) :- ReadBytes(data, i1);
        match n
        case 1 => Ok((m.(hostName := b), i2))
        case 2 => Ok((m.(env := b), i2))
        case 3 => var t :- ParseTrace(b); Ok((m.(traces := m.traces + [t]), i2))
        case 4 => var s :- S.ParseSpan(b); Ok((m.(transactions := m.transactions + [s]), i2))
    else
      var i2 :- SkipField(data, i);
      Ok((m, i2))
  }

  function PayloadLoop(data: Bytes, i: nat, m: TracePayload): Result<TracePayload>
    requires i <= |data|
    decreases |data| - i
  {
    if i == |data| then Ok(m)
    else
      var (m', i') :- PayloadField(data, i, m);
      PayloadLoop(data, i', m')
  }

  function ParsePayload(data: Bytes): Result<TracePayload> {
    PayloadLoop(data, 0, NO_PAYLOAD)
  }

  // ---------------------------------------------------------------- round trips

  lemma WrittenVarint(data: Bytes, i: nat, m: APITrace, n: int, v: U64)
    requires n in {1, 6, 7} && At(data, i, [n * 8] + EncodeVarint(v))
    ensures i < |data| && TraceField(data, i, m) == Ok((SetVarint(m, n, v), i + 1 + |EncodeVarint(v)|))
  {
    hide SetVarint, ReadTag, ReadVarint, EncodeVarint, At;
    AtEnd(data, i, [n * 8] + EncodeVarint(v));
    AtSplit(data, i, [n * 8], EncodeVarint(v));
    TagRoundTrip(data, i, n * 8);
    VarintRoundTrip(data, i + 1, v);
  }

  function WithVarint(m: APITrace, n: int, v: U64): APITrace {
    if v == 0 then m else SetVarint(m, n, v)
  }

  lemma VarintStep(data: Bytes, i: nat, m: APITrace, n: int, v: U64)
    requires n in {1, 6, 7}
    requires At(data, i, S.VarintField(n * 8, v))
    ensures i + |S.VarintField(n * 8, v)| <= |data|
    ensures TraceLoop(data, i, m) ==
            TraceLoop(data, i + |S.VarintField(n * 8, v)|, WithVarint(m, n, v))
  {
    hide At, SetVarint, TraceField;
    AtEnd(data, i, S.VarintField(n * 8, v));
    if v != 0 {
      WrittenVarint(data, i, m, n, v);
    }
  }

  /** A length-delimited field as written: its tag and its bytes are read back. */
  lemma WrittenBytes(data: Bytes, i: nat, n: int, b: Bytes)
    requires Fits(data) && 1 <= n <= 4 && At(data, i, S.Entry(n * 8 + 2, b))
    ensures i < |data| && i + |S.Entry(n * 8 + 2, b)| <= |data| && Fits(b)
    ensures ReadTag(data, i) == Ok((n, 2, i + 1))
    ensures ReadBytes(data, i + 1) == Ok((b, i + |S.Entry(n * 8 + 2, b)|))
  {
    hide ReadTag, ReadBytes, At;
    AtEnd(data, i, S.Entry(n * 8 + 2, b));
    AtSplit(data, i, [n * 8 + 2], Prefixed(b));
    TagRoundTrip(data, i, n * 8 + 2);
    BytesRoundTrip(data, i + 1, b);
  }

  lemma {:induction false} SpansStep(data: Bytes, i: nat, m: APITrace, spans: seq<S.Span>, encs: seq<Bytes>)
    requires Fits(data) && EncodeSpans(spans, encs) && At(data, i, Entries(0x12, encs))
    ensures i + |Entries(0x12, encs)| <= |data|
    ensures TraceLoop(data, i, m) == TraceLoop(data, i + |Entries(0x12, encs)|, m.(spans := m.spans + spans))
    decreases |encs|
  {
    hide At, S.EncodesSpan, S.ParseSpan, ReadTag, ReadBytes, S.Entry, TraceLoop;
    AtEnd(data, i, Entries(0x12, encs));
    if encs == [] {
      assert m.spans + spans == m.spans;
    } else {
      var e := S.Entry(0x12, encs[0]);
      AtSplit(data, i, e, Entries(0x12, encs[1..]));
      WrittenBytes(data, i, 2, encs[0]);
      S.EncodedSpan(spans[0], encs[0]);
      var m' := m.(spans := m.spans + [spans[0]]);
      assert TraceField(data, i, m) == Ok((m', i + |e|));
      TraceLoopStep(data, i, m, m', i + |e|);
      SpansStep(data, i + |e|, m', spans[1..], encs[1..]);
      assert m.spans + [spans[0]] + spans[1..] == m.spans + spans;
    }
  }

  lemma TraceLoopStep(data: Bytes, i: nat, m: APITrace, m': APITrace, i': nat)
    requires i < |data| && TraceField(data, i, m) == Ok((m', i'))
    ensures TraceLoop(data, i, m) == TraceLoop(data, i', m')
  {
  }

  /** A trace decoded into another message, and a payload: scalars win unless they have the default value, and
      spans and traces are appended. */
  function Merged(m0: APITrace, m: APITrace): APITrace {
    APITrace(S.Newer(m0.traceID, m.traceID, 0), m0.spans + m.spans,
             S.Newer(m0.startTime, m.startTime, 0), S.Newer(m0.endTime, m.endTime, 0))
  }

  function PayloadMerged(m0: TracePayload, m: TracePayload): TracePayload {
    TracePayload(S.Newer(m0.hostName, m.hostName, []), S.Newer(m0.env, m.env, []),
                 m0.traces + m.traces, m0.transactions + m.transactions)
  }

  lemma MergedIntoNone(t: APITrace, p: TracePayload)
    ensures Merged(NO_TRACE, t) == t && PayloadMerged(NO_PAYLOAD, p) == p
  {
    assert [] + t.spans == t.spans && [] + p.traces == p.traces && [] + p.transactions == p.transactions;
  }

  lemma TraceDecodes(m0: APITrace, m: APITrace, encs: seq<Bytes>, b: Bytes)
    requires EncodeSpans(m.spans, encs) && b == TraceBytes(m, encs) && Fits(b)
    ensures TraceLoop(b, 0, m0) == Ok(Merged(m0, m))
  {
    hide EncodeSpans, S.VarintField, ToU64, Entries, TraceLoop, At, WithVarint;
    var f1, f2 := S.VarintField(0x08, m.traceID), Entries(0x12, encs);
    var f3, f4 := S.VarintField(0x30, ToU64(m.startTime)), S.VarintField(0x38, ToU64(m.endTime));
    S.WholeAt(b);
    AtSplit(b, 0, f1 + f2 + f3, f4);
    AtSplit(b, 0, f1 + f2, f3);
    AtSplit(b, 0, f1, f2);
    VarintStep(b, 0, m0, 1, m.traceID);
    var m1 := WithVarint(m0, 1, m.traceID);
    SpansStep(b, |f1|, m1, m.spans, encs);
    var m2 := m1.(spans := m1.spans + m.spans);
    VarintStep(b, |f1| + |f2|, m2, 6, ToU64(m.startTime));
    var m3 := WithVarint(m2, 6, ToU64(m.startTime));
    VarintStep(b, |f1| + |f2| + |f3|, m3, 7, ToU64(m.endTime));
    MergedSteps(m0, m);
    TraceLoopEnd(b, Merged(m0, m));
  }

  lemma MergedSteps(m0: APITrace, m: APITrace)
    ensures var m1 := WithVarint(m0, 1, m.traceID);
            var m2 := m1.(spans := m1.spans + m.spans);
            WithVarint(WithVarint(m2, 6, ToU64(m.startTime)), 7, ToU64(m.endTime)) == Merged(m0, m)
  {
    SignedRoundTrip(m.startTime);
    SignedRoundTrip(m.endTime);
    S.ZeroSigned(m.startTime);
    S.ZeroSigned(m.endTime);
    hide ToU64, ToI64;
  }

  /** An APITrace, encoded with any order of its spans' maps: the size is as announced, decoding gives it back, and
      decoding it into another message merges the two. */
  lemma TraceRoundTrip(m: APITrace, b: Bytes)
    requires EncodesTrace(m, b)
    ensures |b| == SizeTrace(m)
    ensures Fits(b) ==> ParseTrace(b) == Ok(m) && forall m0 :: TraceLoop(b, 0, m0) == Ok(Merged(m0, m))
  {
    hide EncodeSpans, SpanSizes, SizeEntries, S.VarintField, S.SizeVarintField, ToU64, Entries, TraceLoop, Merged;
    var encs :| EncodeSpans(m.spans, encs) && b == TraceBytes(m, encs);
    SpansSize(0x12, m.spans, encs);
    S.FieldSizes(0x08, [], m.traceID);
    S.FieldSizes(0x30, [], ToU64(m.startTime));
    S.FieldSizes(0x38, [], ToU64(m.endTime));
    if Fits(b) {
      forall m0
        ensures TraceLoop(b, 0, m0) == Ok(Merged(m0, m))
      {
        TraceDecodes(m0, m, encs, b);
      }
      MergedIntoNone(m, NO_PAYLOAD);
    }
  }

  lemma TraceLoopEnd(b: Bytes, m: APITrace)
    ensures TraceLoop(b, |b|, m) == Ok(m)
  {
  }

  lemma PayloadLoopStep(data: Bytes, i: nat, m: TracePayload, m': TracePayload, i': nat)
    requires i < |data| && PayloadField(data, i, m) == Ok((m', i'))
    ensures PayloadLoop(data, i, m) == PayloadLoop(data, i', m')
  {
  }

  /** The two string fields of a payload. */
  lemma NamesStep(data: Bytes, m0: TracePayload, m: TracePayload)
    requires Fits(data) && At(data, 0, S.StringField(0x0a, m.hostName) + S.StringField(0x12, m.env))
    ensures var n := |S.StringField(0x0a, m.hostName)| + |S.StringField(0x12, m.env)|;
            n <= |data| && PayloadLoop(data, 0, m0) ==
            PayloadLoop(data, n, m0.(hostName := S.Newer(m0.hostName, m.hostName, []), env := S.Newer(m0.env, m.env, [])))
  {
    hide At, ReadTag, ReadBytes, PayloadLoop, S.StringField;
    var f1, f2 := S.StringField(0x0a, m.hostName), S.StringField(0x12, m.env);
    AtEnd(data, 0, f1 + f2);
    AtSplit(data, 0, f1, f2);
    NameStep(data, 0, m0, 1, m.hostName);
    NameStep(data, |f1|, WithName(m0, 1, m.hostName), 2, m.env);
  }

  function WithName(m: TracePayload, n: int, name: Bytes): TracePayload {
    if n == 1 then m.(hostName := S.Newer(m.hostName, name, [])) else m.(env := S.Newer(m.env, name, []))
  }

  lemma NameStep(data: Bytes, i: nat, m: TracePayload, n: int, name: Bytes)
    requires Fits(data) && 1 <= n <= 2 && At(data, i, S.StringField(n * 8 + 2, name))
    ensures i + |S.StringField(n * 8 + 2, name)| <= |data|
    ensures PayloadLoop(data, i, m) == PayloadLoop(data, i + |S.StringField(n * 8 + 2, name)|, WithName(m, n, name))
  {
    hide At, ReadTag, ReadBytes, PayloadLoop;
    AtEnd(data, i, S.StringField(n * 8 + 2, name));
    if name != [] {
      WrittenBytes(data, i, n, name);
      PayloadLoopStep(data, i, m, WithName(m, n, name), i + |S.StringField(n * 8 + 2, name)|);
    }
  }

  lemma {:induction false} TracesStep(data: Bytes, i: nat, m: TracePayload, traces: seq<APITrace>, encs: seq<Bytes>)
    requires Fits(data) && EncodeTraces(traces, encs) && At(data, i, Entries(0x1a, encs))
    ensures i + |Entries(0x1a, encs)| <= |data|
    ensures PayloadLoop(data, i, m) == PayloadLoop(data, i + |Entries(0x1a, encs)|, m.(traces := m.traces + traces))
    decreases |encs|
  {
    hide At, EncodesTrace, ParseTrace, ReadTag, ReadBytes, S.Entry, PayloadLoop;
    AtEnd(data, i, Entries(0x1a, encs));
    if encs == [] {
      assert m.traces + traces == m.traces;
    } else {
      var e := S.Entry(0x1a, encs[0]);
      AtSplit(data, i, e, Entries(0x1a, encs[1..]));
      WrittenBytes(data, i, 3, encs[0]);
      TraceRoundTrip(traces[0], encs[0]);
      var m' := m.(traces := m.traces + [traces[0]]);
      PayloadLoopStep(data, i, m, m', i + |e|);
      TracesStep(data, i + |e|, m', traces[1..], encs[1..]);
      assert m.traces + [traces[0]] + traces[1..] == m.traces + traces;
    }
  }

  lemma {:induction false} TransactionsStep(data: Bytes, i: nat, m: TracePayload, spans: seq<S.Span>, encs: seq<Bytes>)
    requires Fits(data) && EncodeSpans(spans, encs) && At(data, i, Entries(0x22, encs))
    ensures i + |Entries(0x22, encs)| <= |data|
    ensures PayloadLoop(data, i, m) ==
            PayloadLoop(data, i + |Entries(0x22, encs)|, m.(transactions := m.transactions + spans))
    decreases |encs|
  {
    hide At, S.EncodesSpan, S.ParseSpan, ReadTag, ReadBytes, S.Entry, PayloadLoop;
    AtEnd(data, i, Entries(0x22, encs));
    if encs == [] {
      assert m.transactions + spans == m.transactions;
    } else {
      var e := S.Entry(0x22, encs[0]);
      AtSplit(data, i, e, Entries(0x22, encs[1..]));
      WrittenBytes(data, i, 4, encs[0]);
      S.EncodedSpan(spans[0], encs[0]);
      var m' := m.(transactions := m.transactions + [spans[0]]);
      PayloadLoopStep(data, i, m, m', i + |e|);
      TransactionsStep(data, i + |e|, m', spans[1..], encs[1..]);
      assert m.transactions + [spans[0]] + spans[1..] == m.transactions + spans;
    }
  }

  lemma PayloadDecodes(m0: TracePayload, m: TracePayload, ts: seq<Bytes>, ss: seq<Bytes>, b: Bytes)
    requires EncodeTraces(m.traces, ts) && EncodeSpans(m.transactions, ss) && b == PayloadBytes(m, ts, ss) && Fits(b)
    ensures PayloadLoop(b, 0, m0) == Ok(PayloadMerged(m0, m))
  {
    hide EncodeSpans, EncodeTraces, S.StringField, Entries, PayloadLoop, At;
    var f1, f2 := S.StringField(0x0a, m.hostName), S.StringField(0x12, m.env);
    var f3, f4 := Entries(0x1a, ts), Entries(0x22, ss);
    S.WholeAt(b);
    AtSplit(b, 0, f1 + f2 + f3, f4);
    AtSplit(b, 0, f1 + f2, f3);
    NamesStep(b, m0, m);
    var m1 := m0.(hostName := S.Newer(m0.hostName, m.hostName, []), env := S.Newer(m0.env, m.env, []));
    TracesStep(b, |f1| + |f2|, m1, m.traces, ts);
    TransactionsStep(b, |f1| + |f2| + |f3|, m1.(traces := m0.traces + m.traces), m.transactions, ss);
    PayloadLoopEnd(b, PayloadMerged(m0, m));
  }

  /** A payload: as for a trace. */
  lemma PayloadRoundTrip(m: TracePayload, b: Bytes)
    requires EncodesPayload(m, b)
    ensures |b| == SizePayload(m)
    ensures Fits(b) ==> ParsePayload(b) == Ok(m) && forall m0 :: PayloadLoop(b, 0, m0) == Ok(PayloadMerged(m0, m))
  {
    hide EncodeSpans, EncodeTraces, SpanSizes, TraceSizes, SizeEntries, S.StringField, S.SizeStringField, Entries,
      PayloadLoop, PayloadMerged;
    var ts, ss :| EncodeTraces(m.traces, ts) && EncodeSpans(m.transactions, ss) && b == PayloadBytes(m, ts, ss);
    SpansSize(0x22, m.transactions, ss);
    TracesSize(m.traces, ts);
    S.FieldSizes(0x0a, m.hostName, 0);
    S.FieldSizes(0x12, m.env, 0);
    if Fits(b) {
      forall m0
        ensures PayloadLoop(b, 0, m0) == Ok(PayloadMerged(m0, m))
      {
        PayloadDecodes(m0, m, ts, ss, b);
      }
      MergedIntoNone(NO_TRACE, m);
    }
  }

  lemma PayloadLoopEnd(b: Bytes, m: TracePayload)
    ensures PayloadLoop(b, |b|, m) == Ok(m)
  {
  }

  lemma TracesSize(traces: seq<APITrace>, encs: seq<Bytes>)
    requires EncodeTraces(traces, encs)
    ensures |Entries(0x1a, encs)| == SizeEntries(TraceSizes(traces))
  {
    hide EncodesTrace, SizeTrace;
    forall i | 0 <= i < |traces|
      ensures |encs[i]| == SizeTrace(traces[i])
    {
      TraceRoundTrip(traces[i], encs[i]);
    }
    EntriesSize(0x1a, encs, TraceSizes(traces));
  }

  // ---------------------------------------------------------------- slices out of range

  ghost predicate SpanPanics(data: Bytes) {
    exists j :: 0 <= j < |data| && S.ComesTo(data, 0, j) && S.OverlongField(data, j)
  }

  ghost predicate TracePanics(data: Bytes) {
    exists j :: 0 <= j < |data| && TraceComesTo(data, 0, j) && OverlongTraceField(data, j)
  }

  /** The field at `i` has an overlong length, or a nested message with one. */
  ghost predicate OverlongTraceField(data: Bytes, i: nat)
    requires i <= |data|
  {
    var tag := ReadTag(data, i);
    tag.Ok? &&
    var (n, wireType, at) := tag.value;
    if n in {1, 6, 7} then false
    else if n == 2 then
      wireType == 2 &&
      (Overlong(data, at) || (ReadBytes(data, at).Ok? && SpanPanics(ReadBytes(data, at).value.0)))
    else OverlongGroup(data[i..])
  }

  ghost predicate OverlongPayloadField(data: Bytes, i: nat)
    requires i <= |data|
  {
    var tag := ReadTag(data, i);
    tag.Ok? &&
    var (n, wireType, at) := tag.value;
    if 1 <= n <= 4 then
      wireType == 2 &&
      (|| Overlong(data, at)
       || (n == 3 && ReadBytes(data, at).Ok? && TracePanics(ReadBytes(data, at).value.0))
       || (n == 4 && ReadBytes(data, at).Ok? && SpanPanics(ReadBytes(data, at).value.0)))
    else OverlongGroup(data[i..])
  }

  lemma ReadBytesFits(data: Bytes, i: nat)
    requires Fits(data) && ReadBytes(data, i).Ok?
    ensures Fits(ReadBytes(data, i).value.0)
  {
    hide ReadVarint;
  }

  lemma ParseSpanPanics(data: Bytes)
    requires Fits(data)
    ensures S.ParseSpan(data) == Err(SliceOutOfRange) <==> SpanPanics(data)
  {
    hide S.SpanLoop, S.ComesTo, S.OverlongField;
    S.DecodingPanics(data, 0, S.EMPTY);
  }

  lemma TraceFieldPanics(data: Bytes, i: nat, m: APITrace)
    requires i <= |data| && Fits(data)
    ensures TraceField(data, i, m) == Err(SliceOutOfRange) <==> OverlongTraceField(data, i)
    ensures TraceField(data, i, m).Ok? <==> TraceField(data, i, NO_TRACE).Ok?
    ensures TraceField(data, i, m).Ok? ==> TraceField(data, i, m).value.1 == TraceField(data, i, NO_TRACE).value.1
  {
    S.TagErrors(data, i);
    S.SkipFieldPanics(data, i);
    hide ReadBytes, ReadVarint, SkipField, Overlong, OverlongGroup, ReadTag, S.ParseSpan, SpanPanics, SetVarint;
    var tag := ReadTag(data, i);
    if tag.Ok? {
      var at := tag.value.2;
      BytesPanic(data, at);
      S.TagErrors(data, at);
      if ReadBytes(data, at).Ok? {
        ReadBytesFits(data, at);
        ParseSpanPanics(ReadBytes(data, at).value.0);
      }
    }
  }

  /** Decoding from `i` comes to a field at `j`. */
  predicate TraceComesTo(data: Bytes, i: nat, j: nat)
    requires i <= |data|
    decreases |data| - i
  {
    i == j ||
    (i < |data| &&
     var f := TraceField(data, i, NO_TRACE);
     f.Ok? && TraceComesTo(data, f.value.1, j))
  }

  /** Decoding a trace slices out of range if and only if it comes to a field with an overlong length, or with a
      nested message whose decoding does. */
  lemma {:induction false} TraceDecodingPanics(data: Bytes, i: nat, m: APITrace)
    requires i <= |data| && Fits(data)
    ensures TraceLoop(data, i, m) == Err(SliceOutOfRange) <==>
            exists j :: 0 <= j < |data| && TraceComesTo(data, i, j) && OverlongTraceField(data, j)
    decreases |data| - i
  {
    hide TraceField, OverlongTraceField;
    if i < |data| {
      TraceFieldPanics(data, i, m);
      var f := TraceField(data, i, m);
      if f.Ok? {
        TraceDecodingPanics(data, f.value.1, f.value.0);
        forall j | 0 <= j < |data|
          ensures TraceComesTo(data, i, j) <==> j == i || TraceComesTo(data, f.value.1, j)
        {
        }
      } else {
        forall j | 0 <= j < |data|
          ensures TraceComesTo(data, i, j) <==> j == i
        {
        }
      }
    } else {
      forall j | 0 <= j < |data|
        ensures !TraceComesTo(data, i, j)
      {
      }
    }
  }

  lemma ParseTracePanics(data: Bytes)
    requires Fits(data)
    ensures ParseTrace(data) == Err(SliceOutOfRange) <==> TracePanics(data)
  {
    hide TraceLoop, TraceComesTo, OverlongTraceField;
    TraceDecodingPanics(data, 0, NO_TRACE);
  }

  lemma PayloadFieldPanics(data: Bytes, i: nat, m: TracePayload)
    requires i <= |data| && Fits(data)
    ensures PayloadField(data, i, m) == Err(SliceOutOfRange) <==> OverlongPayloadField(data, i)
    ensures PayloadField(data, i, m).Ok? <==> PayloadField(data, i, NO_PAYLOAD).Ok?
    ensures PayloadField(data, i, m).Ok? ==>
              PayloadField(data, i, m).value.1 == PayloadField(data, i, NO_PAYLOAD).value.1
  {
    S.TagErrors(data, i);
    S.SkipFieldPanics(data, i);
    hide ReadBytes, SkipField, Overlong, OverlongGroup, ReadTag, S.ParseSpan, SpanPanics, ParseTrace, TracePanics;
    var tag := ReadTag(data, i);
    if tag.Ok? {
      var at := tag.value.2;
      BytesPanic(data, at);
      if ReadBytes(data, at).Ok? {
        ReadBytesFits(data, at);
        ParseSpanPanics(ReadBytes(data, at).value.0);
        ParseTracePanics(ReadBytes(data, at).value.0);
      }
    }
  }

  /** Decoding from `i` comes to a field at `j`. */
  predicate PayloadComesTo(data: Bytes, i: nat, j: nat)
    requires i <= |data|
    decreases |data| - i
  {
    i == j ||
    (i < |data| &&
     var f := PayloadField(data, i, NO_PAYLOAD);
     f.Ok? && PayloadComesTo(data, f.value.1, j))
  }

  /** Decoding a payload slices out of range if and only if it comes to a field with an overlong length, or with a
      nested message whose decoding does. */
  lemma {:induction false} PayloadDecodingPanics(data: Bytes, i: nat, m: TracePayload)
    requires i <= |data| && Fits(data)
    ensures PayloadLoop(data, i, m) == Err(SliceOutOfRange) <==>
            exists j :: 0 <= j < |data| && PayloadComesTo(data, i, j) && OverlongPayloadField(data, j)
    decreases |data| - i
  {
    hide PayloadField, OverlongPayloadField;
    if i < |data| {
      PayloadFieldPanics(data, i, m);
      var f := PayloadField(data, i, m);
      if f.Ok? {
        PayloadDecodingPanics(data, f.value.1, f.value.0);
        forall j | 0 <= j < |data|
          ensures PayloadComesTo(data, i, j) <==> j == i || PayloadComesTo(data, f.value.1, j)
        {
        }
      } else {
        forall j | 0 <= j < |data|
          ensures PayloadComesTo(data, i, j) <==> j == i
        {
        }
      }
    } else {
      forall j | 0 <= j < |data|
        ensures !PayloadComesTo(data, i, j)
      {
      }
    }
  }

  // ---------------------------------------------------------------- the generated methods

  lemma EntriesAppend(tag: Byte, encs: seq<Bytes>, b: Bytes)
    ensures Entries(tag, encs + [b]) == Entries(tag, encs) + S.Entry(tag, b)
  {
    hide S.Entry;
    if encs == [] {
      assert [] + [b] == [b] && [b][1..] == [];
    } else {
      EntriesAppend(tag, encs[1..], b);
      assert (encs + [b])[1..] == encs[1..] + [b];
      S.Assoc(S.Entry(tag, encs[0]), Entries(tag, encs[1..]), S.Entry(tag, b));
    }
  }

  lemma {:induction false} SizesSplit(sizes: seq<nat>, k: nat)
    requires k < |sizes|
    ensures SizeEntries(sizes[k..]) == S.SizeEntry(sizes[k]) + SizeEntries(sizes[k + 1..])
  {
    assert sizes[k..][1..] == sizes[k + 1..];
  }

  /** The loop writing nested spans: tag, size, then the span itself. */
  method PutSpans(data: array<Byte>, i0: nat, tag: Byte, spans: seq<S.Span>) returns (i: nat, ghost encs: seq<Bytes>)
    requires i0 + SizeEntries(SpanSizes(spans)) <= data.Length
    modifies data
    ensures EncodeSpans(spans, encs) && i == i0 + SizeEntries(SpanSizes(spans))
    ensures data[..i] == old(data[..i0]) + Entries(tag, encs)
  {
    hide S.EncodesSpan, S.SizeSpan, S.Entry, S.SizeEntry, Entries, SizeEntries, EncodeVarint, SizeVarint;
    i, encs := i0, [];
    ghost var before, sizes := data[..i0], SpanSizes(spans);
    NoEntries(tag);
    assert sizes[0..] == sizes;
    var k := 0;
    while k < |spans|
      invariant 0 <= k <= |spans| && EncodeSpans(spans[..k], encs)
      invariant i >= i0 && i + SizeEntries(sizes[k..]) == i0 + SizeEntries(sizes)
      invariant data[..i] == before + Entries(tag, encs)
    {
      SizesSplit(sizes, k);
      var size := S.SpanSize(spans[k]);
      ghost var written := data[..i];
      WrittenSize(tag, size);
      i := PutByte(data, i, tag);
      i := PutVarint(data, i, size);
      ghost var b;
      i, b := S.SpanMarshalTo(spans[k], data, i);
      S.EncodedSpan(spans[k], b);
      EntryWhole(tag, written, b);
      EntriesAppend(tag, encs, b);
      S.Assoc(before, Entries(tag, encs), S.Entry(tag, b));
      encs := encs + [b];
      k := k + 1;
    }
    assert spans[..k] == spans && sizes[k..] == [];
  }

  lemma NoEntries(tag: Byte)
    ensures Entries(tag, []) == [] && SizeEntries([]) == 0
  {
  }

  lemma WrittenSize(tag: Byte, size: nat)
    ensures 1 + |EncodeVarint(size)| + size == S.SizeEntry(size) && |EncodeVarint(size)| == SizeVarint(size)
  {
    VarintSize(size);
  }

  lemma EntryWhole(tag: Byte, before: Bytes, b: Bytes)
    ensures before + [tag] + EncodeVarint(|b|) + b == before + S.Entry(tag, b)
  {
    S.EntryMeans(tag, b);
    hide EncodeVarint, S.Entry;
    var e := EncodeVarint(|b|);
    S.Assoc(before, [tag], e);
    S.Assoc(before, [tag] + e, b);
    S.Assoc([tag], e, b);
  }

  method TraceMarshalTo(m: APITrace, data: array<Byte>, i0: nat) returns (i: nat, ghost b: Bytes)
    requires i0 + SizeTrace(m) <= data.Length
    modifies data
    ensures EncodesTrace(m, b) && i == i0 + |b| == i0 + SizeTrace(m)
    ensures data[..i] == old(data[..i0]) + b
  {
    hide EncodeSpans, SpanSizes, SizeEntries, S.VarintField, S.SizeVarintField, ToU64, Entries;
    ghost var before := data[..i0];
    i := S.PutVarintField(data, i0, 0x08, m.traceID);
    ghost var encs;
    i, encs := PutSpans(data, i, 0x12, m.spans);
    i := S.PutVarintField(data, i, 0x30, ToU64(m.startTime));
    i := S.PutVarintField(data, i, 0x38, ToU64(m.endTime));
    b := TraceBytes(m, encs);
    assert data[..i] == before + b;
    TraceRoundTrip(m, b);
  }

  method TraceSize(m: APITrace) returns (n: nat)
    ensures n == SizeTrace(m)
  {
    hide S.SizeVarintField, S.SizeSpan, S.SizeEntry, ToU64;
    n := S.SizeOfVarint(m.traceID);
    ghost var sizes := SpanSizes(m.spans);
    ghost var rest := SizeEntries(sizes);
    assert sizes[0..] == sizes;
    var k := 0;
    while k < |m.spans|
      invariant 0 <= k <= |m.spans|
      invariant n + SizeEntries(sizes[k..]) == S.SizeVarintField(m.traceID) + rest
    {
      SizesSplit(sizes, k);
      var l := S.SpanSize(m.spans[k]);
      var e := S.SizeOfEntry(l);
      n := n + e;
      k := k + 1;
    }
    assert sizes[k..] == [];
    var a := S.SizeOfVarint(ToU64(m.startTime));
    var b := S.SizeOfVarint(ToU64(m.endTime));
    n := n + a + b;
  }

  /** Size of the payload: the loops over both repeated fields. */
  method PayloadSize(m: TracePayload) returns (n: nat)
    ensures n == SizePayload(m)
    ensures forall b :: EncodesPayload(m, b) ==> |b| == n
  {
    hide S.SizeStringField, SizeTrace, S.SizeSpan, S.SizeEntry, EncodesPayload;
    n := S.SizeOfString(m.hostName);
    var env := S.SizeOfString(m.env);
    n := n + env;
    ghost var n0, sizes := n, TraceSizes(m.traces);
    assert sizes[0..] == sizes;
    var k := 0;
    while k < |m.traces|
      invariant 0 <= k <= |m.traces| && n + SizeEntries(sizes[k..]) == n0 + SizeEntries(sizes)
    {
      SizesSplit(sizes, k);
      var l := TraceSize(m.traces[k]);
      var e := S.SizeOfEntry(l);
      n := n + e;
      k := k + 1;
    }
    assert sizes[k..] == [];
    var t := SizeOfSpans(m.transactions);
    n := n + t;
    forall b | EncodesPayload(m, b)
      ensures |b| == n
    {
      PayloadRoundTrip(m, b);
    }
  }

  method SizeOfSpans(spans: seq<S.Span>) returns (n: nat)
    ensures n == SizeEntries(SpanSizes(spans))
  {
    hide S.SizeSpan, S.SizeEntry;
    n := 0;
    ghost var sizes := SpanSizes(spans);
    assert sizes[0..] == sizes;
    var k := 0;
    while k < |spans|
      invariant 0 <= k <= |spans| && n + SizeEntries(sizes[k..]) == SizeEntries(sizes)
    {
      SizesSplit(sizes, k);
      var l := S.SpanSize(spans[k]);
      var e := S.SizeOfEntry(l);
      n := n + e;
      k := k + 1;
    }
    assert sizes[k..] == [];
  }

  method PutTraces(data: array<Byte>, i0: nat, traces: seq<APITrace>) returns (i: nat, ghost encs: seq<Bytes>)
    requires i0 + SizeEntries(TraceSizes(traces)) <= data.Length
    modifies data
    ensures EncodeTraces(traces, encs) && i == i0 + SizeEntries(TraceSizes(traces))
    ensures data[..i] == old(data[..i0]) + Entries(0x1a, encs)
  {
    hide EncodesTrace, SizeTrace, S.Entry, S.SizeEntry, Entries, EncodeVarint, SizeVarint;
    i, encs := i0, [];
    ghost var before, sizes := data[..i0], TraceSizes(traces);
    NoEntries(0x1a);
    assert sizes[0..] == sizes;
    var k := 0;
    while k < |traces|
      invariant 0 <= k <= |traces| && EncodeTraces(traces[..k], encs)
      invariant i >= i0 && i + SizeEntries(sizes[k..]) == i0 + SizeEntries(sizes)
      invariant data[..i] == before + Entries(0x1a, encs)
    {
      SizesSplit(sizes, k);
      var size := TraceSize(traces[k]);
      ghost var written := data[..i];
      WrittenSize(0x1a, size);
      i := PutByte(data, i, 0x1a);
      i := PutVarint(data, i, size);
      ghost var b;
      i, b := TraceMarshalTo(traces[k], data, i);
      EntryWhole(0x1a, written, b);
      EntriesAppend(0x1a, encs, b);
      S.Assoc(before, Entries(0x1a, encs), S.Entry(0x1a, b));
      encs := encs + [b];
      k := k + 1;
    }
    assert traces[..k] == traces && sizes[k..] == [];
  }

  /** MarshalTo of the payload: what it writes decodes to the payload and is as long as announced. */
  method PayloadMarshalTo(m: TracePayload, data: array<Byte>, i0: nat) returns (i: nat, ghost b: Bytes)
    requires i0 + SizePayload(m) <= data.Length
    modifies data
    ensures EncodesPayload(m, b) && i == i0 + |b| == i0 + SizePayload(m)
    ensures data[..i] == old(data[..i0]) + b
    ensures Fits(b) ==> ParsePayload(b) == Ok(m)
  {
    hide EncodeSpans, EncodeTraces, SpanSizes, TraceSizes, SizeEntries, S.StringField, S.SizeStringField, Entries, ParsePayload;
    ghost var before := data[..i0];
    i := S.PutString(data, i0, 0x0a, m.hostName);
    i := S.PutString(data, i, 0x12, m.env);
    ghost var ts, ss;
    i, ts := PutTraces(data, i, m.traces);
    i, ss := PutSpans(data, i, 0x22, m.transactions);
    b := PayloadBytes(m, ts, ss);
    assert data[..i] == before + b;
    PayloadRoundTrip(m, b);
  }

  /** Unmarshal of a trace: nested spans are decoded from their slice and appended. */
  method TraceUnmarshal(m0: APITrace, data: Bytes) returns (r: Result<APITrace>)
    ensures r == TraceLoop(data, 0, m0)
  {
    hide TraceField;
    var i := 0;
    var m := m0;
    while i < |data|
      invariant 0 <= i <= |data| && TraceLoop(data, i, m) == TraceLoop(data, 0, m0)
      decreases |data| - i
    {
      var f := GetTraceField(data, i, m);
      if f.Err? {
        return Err(f.error);
      }
      m, i := f.value.0, f.value.1;
    }
    return Ok(m);
  }

  method GetTraceField(data: Bytes, i: nat, m: APITrace) returns (r: Result<(APITrace, nat)>)
    requires i < |data|
    ensures r == TraceField(data, i, m)
  {
    hide S.SpanLoop, ReadTag, ReadBytes, SkipField;
    var tag := GetTag(data, i);
    if tag.Err? {
      return Err(tag.error);
    }
    var (n, wireType, at) := tag.value;
    match n {
      case 1 => r := GetTraceVarint(data, at, wireType, m, 1);
      case 6 => r := GetTraceVarint(data, at, wireType, m, 6);
      case 7 => r := GetTraceVarint(data, at, wireType, m, 7);
      case 2 =>
        if wireType != 2 {
          return Err(WrongWireType);
        }
        var b := GetBytes(data, at);
        if b.Err? {
          return Err(b.error);
        }
        var s := S.SpanUnmarshal(S.EMPTY, b.value.0);
        if s.Err? {
          return Err(s.error);
        }
        return Ok((m.(spans := m.spans + [s.value]), b.value.1));
      case _ =>
        var next := GetSkip(data, i);
        r := if next.Err? then Err(next.error) else Ok((m, next.value));
    }
  }

  method GetTraceVarint(data: Bytes, at: nat, wireType: nat, m: APITrace, n: int) returns (r: Result<(APITrace, nat)>)
    ensures r == if wireType != 0 then Err(WrongWireType)
                 else var v := ReadVarint(data, at); if v.Err? then Err(v.error) else Ok((SetVarint(m, n, v.value.0), v.value.1))
  {
    if wireType != 0 {
      return Err(WrongWireType);
    }
    var v := GetVarint(data, at);
    if v.Err? {
      return Err(v.error);
    }
    return Ok((SetVarint(m, n, v.value.0), v.value.1));
  }

  /** Unmarshal of a payload. */
  method PayloadUnmarshal(m0: TracePayload, data: Bytes) returns (r: Result<TracePayload>)
    ensures r == PayloadLoop(data, 0, m0)
  {
    hide PayloadField;
    var i := 0;
    var m := m0;
    while i < |data|
      invariant 0 <= i <= |data| && PayloadLoop(data, i, m) == PayloadLoop(data, 0, m0)
      decreases |data| - i
    {
      var f := GetPayloadField(data, i, m);
      if f.Err? {
        return Err(f.error);
      }
      m, i := f.value.0, f.value.1;
    }
    return Ok(m);
  }

  method GetPayloadField(data: Bytes, i: nat, m: TracePayload) returns (r: Result<(TracePayload, nat)>)
    requires i < |data|
    ensures r == PayloadField(data, i, m)
  {
    hide S.SpanLoop, TraceLoop, ReadTag, ReadBytes, SkipField;
    var tag := GetTag(data, i);
    if tag.Err? {
      return Err(tag.error);
    }
    var (n, wireType, at) := tag.value;
    if n > 4 {
      var next := GetSkip(data, i);
      if next.Err? {
        return Err(next.error);
      }
      return Ok((m, next.value));
    }
    if wireType != 2 {
      return Err(WrongWireType);
    }
    var b := GetBytes(data, at);
    if b.Err? {
      return Err(b.error);
    }
    if n == 1 {
      return Ok((m.(hostName := b.value.0), b.value.1));
    } else if n == 2 {
      return Ok((m.(env := b.value.0), b.value.1));
    } else if n == 3 {
      var t := TraceUnmarshal(NO_TRACE, b.value.0);
      if t.Err? {
        return Err(t.error);
      }
      return Ok((m.(traces := m.traces + [t.value]), b.value.1));
    } else {
      var s := S.SpanUnmarshal(S.EMPTY, b.value.0);
      if s.Err? {
        return Err(s.error);
      }
      return Ok((m.(transactions := m.transactions + [s.value]), b.value.1));
    }
  }
}
