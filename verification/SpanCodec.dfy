/** model/span.pb.go: the Span message. Strings are byte slices, doubles their bit patterns, and a map is
    written in an arbitrary order of its keys. */
module SpanCodec {
  import opened Wire

  datatype Span = Span(
    service: Bytes, name: Bytes, resource: Bytes, traceID: U64, spanID: U64, parentID: U64,
    start: I64, duration: I64, error: I32, meta: map<Bytes, Bytes>, metrics: map<Bytes, U64>, type_: Bytes)

  const EMPTY := Span([], [], [], 0, 0, 0, 0, 0, 0, map[], map[], [])

  // ---------------------------------------------------------------- encoding

  function StringField(tag: Byte, s: Bytes): Bytes {
    if s == [] then [] else [tag] + Prefixed(s)
  }

  function VarintField(tag: Byte, v: U64): Bytes {
    if v == 0 then [] else [tag] + EncodeVarint(v)
  }

  function MetaBody(k: Bytes, v: Bytes): Bytes {
    [0x0a] + Prefixed(k) + [0x12] + Prefixed(v)
  }

  function MetricBody(k: Bytes, bits: U64): Bytes {
    [0x0a] + Prefixed(k) + [0x11] + LittleEndian(bits, 8)
  }

  function Entry(tag: Byte, body: Bytes): Bytes {
    [tag] + Prefixed(body)
  }

  /** `order` lists the keys, each once. */
  predicate IsOrder(order: seq<Bytes>, keys: set<Bytes>) {
    (forall i, j :: 0 <= i < j < |order| ==> order[i] != order[j]) && (set i | 0 <= i < |order| :: order[i]) == keys
  }

  function MetaBytes(order: seq<Bytes>, meta: map<Bytes, Bytes>): Bytes
    requires forall k :: k in order ==> k in meta
  {
    if order == [] then []
    else Entry(0x52, MetaBody(order[0], meta[order[0]])) + MetaBytes(order[1..], meta)
  }

  function MetricsBytes(order: seq<Bytes>, metrics: map<Bytes, U64>): Bytes
    requires forall k :: k in order ==> k in metrics
  {
    if order == [] then []
    else Entry(0x5a, MetricBody(order[0], metrics[order[0]])) + MetricsBytes(order[1..], metrics)
  }

  /** The scalar fields in front of the maps. */
  function HeadBytes(m: Span): Bytes {
    StringField(0x0a, m.service) + StringField(0x12, m.name) + StringField(0x1a, m.resource) +
    VarintField(0x20, m.traceID) + VarintField(0x28, m.spanID) + VarintField(0x30, m.parentID) +
    VarintField(0x38, ToU64(m.start)) + VarintField(0x40, ToU64(m.duration)) + VarintField(0x48, ToU64(m.error))
  }

  lemma OrderKeys(order: seq<Bytes>, keys: set<Bytes>)
    requires IsOrder(order, keys)
    ensures forall k :: k in order <==> k in keys
  {
  }

  /** What MarshalTo writes when the maps are iterated in these orders. */
  function SpanBytes(m: Span, metaOrder: seq<Bytes>, metricsOrder: seq<Bytes>): Bytes
    requires IsOrder(metaOrder, m.meta.Keys) && IsOrder(metricsOrder, m.metrics.Keys)
  {
    OrderKeys(metaOrder, m.meta.Keys);
    OrderKeys(metricsOrder, m.metrics.Keys);
    HeadBytes(m) + MetaBytes(metaOrder, m.meta) + MetricsBytes(metricsOrder, m.metrics) + StringField(0x62, m.type_)
  }

  lemma Absent(tag: Byte)
    ensures StringField(tag, []) == [] && VarintField(tag, 0) == [] && ToU64(0) == 0
  {
  }

  lemma Present(tag: Byte, s: Bytes, v: U64)
    ensures s != [] ==> StringField(tag, s) == [tag] + EncodeVarint(|s|) + s
    ensures v != 0 ==> VarintField(tag, v) == [tag] + EncodeVarint(v)
  {
    hide EncodeVarint;
    assert [tag] + (EncodeVarint(|s|) + s) == [tag] + EncodeVarint(|s|) + s;
  }

  lemma NothingAdded()
    ensures forall a: Bytes, b: Bytes {:trigger a + b} :: (b == [] ==> a + b == a) && (a == [] ==> a + b == b)
  {
  }

  lemma AllAbsent()
    ensures forall tag: Byte :: StringField(tag, []) == [] && VarintField(tag, 0) == []
    ensures ToU64(0) == 0 && MetaBytes([], map[]) == [] && MetricsBytes([], map[]) == []
    ensures IsOrder([], EMPTY.meta.Keys) && IsOrder([], EMPTY.metrics.Keys)
  {
    forall tag: Byte
      ensures StringField(tag, []) == [] && VarintField(tag, 0) == []
    {
      Absent(tag);
    }
  }

  /** A field that is alone in its message: its tag, which is eight times the field's number and the wire type, and its
      value. */
  lemma StringTags(s: Bytes)
    requires s != []
    ensures SpanBytes(EMPTY.(service := s), [], []) == [0x0a] + EncodeVarint(|s|) + s
    ensures SpanBytes(EMPTY.(name := s), [], []) == [0x12] + EncodeVarint(|s|) + s
    ensures SpanBytes(EMPTY.(resource := s), [], []) == [0x1a] + EncodeVarint(|s|) + s
    ensures SpanBytes(EMPTY.(type_ := s), [], []) == [0x62] + EncodeVarint(|s|) + s
  {
    hide EncodeVarint, StringField, VarintField, ToU64, MetaBytes, MetricsBytes;
    NothingAdded();
    AllAbsent();
    Present(0x0a, s, 0);
    Present(0x12, s, 0);
    Present(0x1a, s, 0);
    Present(0x62, s, 0);
  }

  lemma IDTags(v: U64)
    requires v != 0
    ensures SpanBytes(EMPTY.(traceID := v), [], []) == [0x20] + EncodeVarint(v)
    ensures SpanBytes(EMPTY.(spanID := v), [], []) == [0x28] + EncodeVarint(v)
    ensures SpanBytes(EMPTY.(parentID := v), [], []) == [0x30] + EncodeVarint(v)
  {
    hide EncodeVarint, StringField, VarintField, ToU64, MetaBytes, MetricsBytes;
    NothingAdded();
    AllAbsent();
    Present(0x20, [], v);
    Present(0x28, [], v);
    Present(0x30, [], v);
  }

  /** Negative numbers are written as the 64 bits of their two's complement. */
  lemma NumberTags(x: I64, e: I32)
    requires x != 0 && e != 0
    ensures var v := if x >= 0 then x else x + 0x1_0000_0000_0000_0000;
            && SpanBytes(EMPTY.(start := x), [], []) == [0x38] + EncodeVarint(v)
            && SpanBytes(EMPTY.(duration := x), [], []) == [0x40] + EncodeVarint(v)
    ensures var v := if e >= 0 then e else e + 0x1_0000_0000_0000_0000;
            SpanBytes(EMPTY.(error := e), [], []) == [0x48] + EncodeVarint(v)
  {
    Unsigned(x);
    Unsigned(e);
    hide EncodeVarint, StringField, VarintField, ToU64, MetaBytes, MetricsBytes;
    NothingAdded();
    AllAbsent();
    Present(0x38, [], ToU64(x));
    Present(0x40, [], ToU64(x));
    Present(0x48, [], ToU64(e));
  }

  /** An entry of a map is a message of its own, with the key as field 1 and the value as field 2. */
  lemma MapTags(k: Bytes, v: Bytes, bits: U64)
    ensures IsOrder([k], map[k := v].Keys) && IsOrder([k], map[k := bits].Keys)
    ensures var body := [0x0a] + EncodeVarint(|k|) + k + [0x12] + EncodeVarint(|v|) + v;
            SpanBytes(EMPTY.(meta := map[k := v]), [k], []) == [0x52] + EncodeVarint(|body|) + body
    ensures var body := [0x0a] + EncodeVarint(|k|) + k + [0x11] + LittleEndian(bits, 8);
            SpanBytes(EMPTY.(metrics := map[k := bits]), [], [k]) == [0x5a] + EncodeVarint(|body|) + body
  {
    hide EncodeVarint, LittleEndian, StringField, VarintField, ToU64, MetaBytes, MetricsBytes, IsOrder;
    NothingAdded();
    AllAbsent();
    OneKey(k, v, bits);
  }

  lemma OneKey(k: Bytes, v: Bytes, bits: U64)
    ensures IsOrder([k], map[k := v].Keys) && IsOrder([k], map[k := bits].Keys)
    ensures var body := [0x0a] + EncodeVarint(|k|) + k + [0x12] + EncodeVarint(|v|) + v;
            MetaBytes([k], map[k := v]) == [0x52] + EncodeVarint(|body|) + body
    ensures var body := [0x0a] + EncodeVarint(|k|) + k + [0x11] + LittleEndian(bits, 8);
            MetricsBytes([k], map[k := bits]) == [0x5a] + EncodeVarint(|body|) + body
  {
    hide EncodeVarint, LittleEndian;
    OneOrder(k);
    assert [k][1..] == [] && map[k := v].Keys == {k} && map[k := bits].Keys == {k};
    MetaBodyIs(k, v, bits);
    EntryIs(0x52, MetaBody(k, v));
    EntryIs(0x5a, MetricBody(k, bits));
    hide MetaBody, MetricBody, Entry;
    assert Entry(0x52, MetaBody(k, v)) + [] == Entry(0x52, MetaBody(k, v));
    assert Entry(0x5a, MetricBody(k, bits)) + [] == Entry(0x5a, MetricBody(k, bits));
  }

  lemma OneOrder(k: Bytes)
    ensures (set i | 0 <= i < |[k]| :: [k][i]) == {k}
  {
    assert [k][0] == k && 0 <= 0 < |[k]|;
  }

  lemma MetaBodyIs(k: Bytes, v: Bytes, bits: U64)
    ensures MetaBody(k, v) == [0x0a] + EncodeVarint(|k|) + k + [0x12] + EncodeVarint(|v|) + v
    ensures MetricBody(k, bits) == [0x0a] + EncodeVarint(|k|) + k + [0x11] + LittleEndian(bits, 8)
  {
    hide EncodeVarint, LittleEndian;
    Assoc([0x0a], EncodeVarint(|k|), k);
    Assoc([0x0a] + EncodeVarint(|k|) + k + [0x12], EncodeVarint(|v|), v);
  }

  lemma EntryIs(tag: Byte, body: Bytes)
    ensures Entry(tag, body) == [tag] + EncodeVarint(|body|) + body
  {
    hide EncodeVarint;
    assert [tag] + (EncodeVarint(|body|) + body) == [tag] + EncodeVarint(|body|) + body;
  }

  // ---------------------------------------------------------------- announced size

  function SizePrefixed(n: nat): nat {
    SizeVarint(n) + n
  }

  function SizeStringField(s: Bytes): nat {
    if s == [] then 0 else 1 + SizePrefixed(|s|)
  }

  function SizeVarintField(v: U64): nat {
    if v == 0 then 0 else 1 + SizeVarint(v)
  }

  function SizeMetaBody(k: Bytes, v: Bytes): nat {
    1 + SizePrefixed(|k|) + 1 + SizePrefixed(|v|)
  }

  function SizeMetricBody(k: Bytes): nat {
    1 + SizePrefixed(|k|) + 1 + 8
  }

  function SizeEntry(n: nat): nat {
    1 + SizePrefixed(n)
  }

  ghost function SizeMeta(meta: map<Bytes, Bytes>): nat {
    if meta == map[] then 0
    else
      var k :| k in meta;
      SizeEntry(SizeMetaBody(k, meta[k])) + SizeMeta(meta - {k})
  }

  ghost function SizeMetrics(metrics: map<Bytes, U64>): nat {
    if metrics == map[] then 0
    else
      var k :| k in metrics;
      SizeEntry(SizeMetricBody(k)) + SizeMetrics(metrics - {k})
  }

  function SizeHead(m: Span): nat {
    SizeStringField(m.service) + SizeStringField(m.name) + SizeStringField(m.resource) +
    SizeVarintField(m.traceID) + SizeVarintField(m.spanID) + SizeVarintField(m.parentID) +
    SizeVarintField(ToU64(m.start)) + SizeVarintField(ToU64(m.duration)) + SizeVarintField(ToU64(m.error))
  }

  ghost function SizeSpan(m: Span): nat {
    SizeHead(m) + SizeMeta(m.meta) + SizeMetrics(m.metrics) + SizeStringField(m.type_)
  }

  lemma FieldSizes(tag: Byte, s: Bytes, v: U64)
    ensures |StringField(tag, s)| == SizeStringField(s)
    ensures |VarintField(tag, v)| == SizeVarintField(v)
    ensures |Entry(tag, s)| == SizeEntry(|s|)
  {
    VarintSize(v);
    VarintSize(|s|);
  }

  lemma BodySizes(k: Bytes, v: Bytes, bits: U64)
    ensures |MetaBody(k, v)| == SizeMetaBody(k, v) && |MetricBody(k, bits)| == SizeMetricBody(k)
  {
    VarintSize(|k|);
    VarintSize(|v|);
  }

  /** The size of a map does not depend on which entry is counted first. */
  lemma {:induction false} SizeMetaPick(meta: map<Bytes, Bytes>, k: Bytes)
    requires k in meta
    ensures SizeMeta(meta) == SizeEntry(SizeMetaBody(k, meta[k])) + SizeMeta(meta - {k})
    decreases |meta|
  {
    hide SizeEntry, SizeMetaBody;
    var p :| p in meta && SizeMeta(meta) == SizeEntry(SizeMetaBody(p, meta[p])) + SizeMeta(meta - {p});
    if p != k {
      SizeMetaPick(meta - {p}, k);
      SizeMetaPick(meta - {k}, p);
      assert meta - {p} - {k} == meta - {k} - {p};
    }
  }

  lemma {:induction false} SizeMetricsPick(metrics: map<Bytes, U64>, k: Bytes)
    requires k in metrics
    ensures SizeMetrics(metrics) == SizeEntry(SizeMetricBody(k)) + SizeMetrics(metrics - {k})
    decreases |metrics|
  {
    hide SizeEntry, SizeMetricBody;
    var p :| p in metrics && SizeMetrics(metrics) == SizeEntry(SizeMetricBody(p)) + SizeMetrics(metrics - {p});
    if p != k {
      SizeMetricsPick(metrics - {p}, k);
      SizeMetricsPick(metrics - {k}, p);
      assert metrics - {p} - {k} == metrics - {k} - {p};
    }
  }

  lemma OrderTail(order: seq<Bytes>, keys: set<Bytes>)
    requires IsOrder(order, keys) && order != []
    ensures order[0] in keys && IsOrder(order[1..], keys - {order[0]})
  {
    var rest := order[1..];
    assert forall i :: 0 <= i < |rest| ==> rest[i] == order[i + 1];
    forall k | k in keys - {order[0]}
      ensures k in (set i | 0 <= i < |rest| :: rest[i])
    {
      var i :| 0 <= i < |order| && order[i] == k;
      assert rest[i - 1] == k;
    }
  }

  lemma OrderEmpty(order: seq<Bytes>, keys: set<Bytes>)
    requires IsOrder(order, keys)
    ensures order == [] <==> keys == {}
  {
    if order != [] {
      OrderTail(order, keys);
    }
  }

  lemma {:induction false} MetaSize(order: seq<Bytes>, meta: map<Bytes, Bytes>)
    requires IsOrder(order, meta.Keys) && forall k :: k in order ==> k in meta
    ensures |MetaBytes(order, meta)| == SizeMeta(meta)
  {
    OrderEmpty(order, meta.Keys);
    if order != [] {
      var k, rest := order[0], order[1..];
      OrderTail(order, meta.Keys);
      var less := meta - {k};
      assert less.Keys == meta.Keys - {k};
      OrderKeys(rest, less.Keys);
      MetaSize(rest, less);
      MetaSame(rest, less, meta);
      SizeMetaPick(meta, k);
      BodySizes(k, meta[k], 0);
      FieldSizes(0x52, MetaBody(k, meta[k]), 0);
    } else {
      assert meta == map[];
    }
  }

  lemma {:induction false} MetaSame(order: seq<Bytes>, a: map<Bytes, Bytes>, b: map<Bytes, Bytes>)
    requires forall k :: k in order ==> k in a && k in b && a[k] == b[k]
    ensures MetaBytes(order, a) == MetaBytes(order, b)
  {
    if order != [] {
      MetaSame(order[1..], a, b);
    }
  }

  lemma {:induction false} MetricsSize(order: seq<Bytes>, metrics: map<Bytes, U64>)
    requires IsOrder(order, metrics.Keys) && forall k :: k in order ==> k in metrics
    ensures |MetricsBytes(order, metrics)| == SizeMetrics(metrics)
  {
    OrderEmpty(order, metrics.Keys);
    if order != [] {
      var k, rest := order[0], order[1..];
      OrderTail(order, metrics.Keys);
      var less := metrics - {k};
      assert less.Keys == metrics.Keys - {k};
      OrderKeys(rest, less.Keys);
      MetricsSize(rest, less);
      MetricsSame(rest, less, metrics);
      SizeMetricsPick(metrics, k);
      BodySizes(k, [], metrics[k]);
      FieldSizes(0x5a, MetricBody(k, metrics[k]), 0);
    } else {
      assert metrics == map[];
    }
  }

  lemma {:induction false} MetricsSame(order: seq<Bytes>, a: map<Bytes, U64>, b: map<Bytes, U64>)
    requires forall k :: k in order ==> k in a && k in b && a[k] == b[k]
    ensures MetricsBytes(order, a) == MetricsBytes(order, b)
  {
    if order != [] {
      MetricsSame(order[1..], a, b);
    }
  }

  lemma HeadSize(m: Span)
    ensures |HeadBytes(m)| == SizeHead(m)
  {
    hide StringField, VarintField, SizeStringField, SizeVarintField, ToU64;
    FieldSizes(0x0a, m.service, m.traceID);
    FieldSizes(0x12, m.name, m.spanID);
    FieldSizes(0x1a, m.resource, m.parentID);
    FieldSizes(0x20, [], m.traceID);
    FieldSizes(0x28, [], m.spanID);
    FieldSizes(0x30, [], m.parentID);
    FieldSizes(0x38, [], ToU64(m.start));
    FieldSizes(0x40, [], ToU64(m.duration));
    FieldSizes(0x48, [], ToU64(m.error));
  }

  /** `Size` is exactly what `MarshalTo` writes, in whatever order the maps are iterated. */
  lemma SpanSizeIsExact(m: Span, metaOrder: seq<Bytes>, metricsOrder: seq<Bytes>)
    requires IsOrder(metaOrder, m.meta.Keys) && IsOrder(metricsOrder, m.metrics.Keys)
    ensures |SpanBytes(m, metaOrder, metricsOrder)| == SizeSpan(m)
  {
    hide HeadBytes, SizeHead, StringField, SizeStringField, IsOrder;
    OrderKeys(metaOrder, m.meta.Keys);
    OrderKeys(metricsOrder, m.metrics.Keys);
    HeadSize(m);
    MetaSize(metaOrder, m.meta);
    MetricsSize(metricsOrder, m.metrics);
    FieldSizes(0x62, m.type_, 0);
  }

  // ---------------------------------------------------------------- decoding

  function SetString(m: Span, n: int, s: Bytes): Span {
    match n
    case 1 => m.(service := s)
    case 2 => m.(name := s)
    case 3 => m.(resource := s)
    case _ => m.(type_ := s)
  }

  function SetVarint(m: Span, n: int, v: U64): Span {
    match n
    case 4 => m.(traceID := v)
    case 5 => m.(spanID := v)
    case 6 => m.(parentID := v)
    case 7 => m.(start := ToI64(v))
    case 8 => m.(duration := ToI64(v))
    case _ => m.(error := ToI32(v))
  }

  /** The frame of a map entry: where its content begins, and where decoding goes on behind it. */
  function ReadEntry(data: Bytes, i: nat): (r: Result<(nat, int)>)
    ensures r.Ok? ==> i < r.value.0 <= |data| && (r.value.1 < 0 || r.value.0 <= r.value.1 <= |data|)
  {
    var (length, i1) :- ReadVarint(data, i);
    var n := ToI64(length);
    if n < 0 then Err(InvalidLength)
    else if i1 + n >= 0x8000_0000_0000_0000 then Ok((i1, -1))
    else if i1 + n > |data| then Err(UnexpectedEOF)
    else Ok((i1, i1 + n))
  }

  function ReadKey(data: Bytes, i: nat): (r: Result<(Bytes, nat)>)
    ensures r.Ok? ==> i < r.value.1 <= |data|
  {
    var (_, i1) :- ReadVarint(data, i);
    ReadBytes(data, i1)
  }

  function ReadMeta(data: Bytes, i: nat, m: Span): (r: Result<(Span, nat)>)
    ensures r.Ok? ==> i < r.value.1 <= |data|
  {
    var (i1, post) :- ReadEntry(data, i);
    var (k, i2) :- ReadKey(data, i1);
    var v :- if i2 < post then (var p :- ReadKey(data, i2); Ok(p.0)) else Ok([]);
    if post < 0 then Err(SliceOutOfRange) else Ok((m.(meta := m.meta[k := v]), post))
  }

  function ReadMetric(data: Bytes, i: nat, m: Span): (r: Result<(Span, nat)>)
    ensures r.Ok? ==> i < r.value.1 <= |data|
  {
    var (i1, post) :- ReadEntry(data, i);
    var (k, i2) :- ReadKey(data, i1);
    var v :- if i2 < post then
               (var t :- ReadVarint(data, i2); var p :- ReadFixed64(data, t.1); Ok(p.0))
             else Ok(0);
    if post < 0 then Err(SliceOutOfRange) else Ok((m.(metrics := m.metrics[k := v]), post))
  }

  /** One round of the decoding loop: the message after the field at `i`, and the next index. */
  function SpanField(data: Bytes, i: nat, m: Span): (r: Result<(Span, nat)>)
    requires i <= |data|
    ensures r.Ok? ==> i < r.value.1 <= |data|
  {
    var (n, wireType, i1) :- ReadTag(data, i);
    if n in {1, 2, 3, 12} then
      if wireType != 2 then Err(WrongWireType)
      else
        var (s, i2) :- ReadBytes(data, i1);
        Ok((SetString(m, n, s), i2))
    else if 4 <= n <= 9 then
      if wireType != 0 then Err(WrongWireType)
      else
        var (v, i2) :- ReadVarint(data, i1);
        Ok((SetVarint(m, n, v), i2))
    else if n == 10 then
      if wireType != 2 then Err(WrongWireType) else ReadMeta(data, i1, m)
    else if n == 11 then
      if wireType != 2 then Err(WrongWireType) else ReadMetric(data, i1, m)
    else
      var i2 :- SkipField(data, i);
      Ok((m, i2))
  }

  /** A known field of another wire type than its own is refused. */
  lemma WrongTypes(data: Bytes, i: nat, m: Span, n: int, wireType: nat, at: nat)
    requires i <= |data| && ReadTag(data, i) == Ok((n, wireType, at)) && 1 <= n <= 12
    ensures wireType != (if n in {1, 2, 3, 10, 11, 12} then 2 else 0) ==> SpanField(data, i, m) == Err(WrongWireType)
  {
    hide ReadTag, ReadBytes, ReadVarint, ReadMeta, ReadMetric, SkipField;
  }

  function SpanLoop(data: Bytes, i: nat, m: Span): Result<Span>
    requires i <= |data|
    decreases |data| - i
  {
    if i == |data| then Ok(m)
    else
      var (m', i') :- SpanField(data, i, m);
      SpanLoop(data, i', m')
  }

  function ParseSpan(data: Bytes): Result<Span> {
    SpanLoop(data, 0, EMPTY)
  }

  // ---------------------------------------------------------------- round trip, field by field

  /** A field that was written if it has not the default value. */
  function WithString(m: Span, n: int, s: Bytes): Span {
    if s == [] then m else SetString(m, n, s)
  }

  function WithVarint(m: Span, n: int, v: U64): Span {
    if v == 0 then m else SetVarint(m, n, v)
  }

  lemma StringStep(data: Bytes, i: nat, m: Span, n: int, s: Bytes)
    requires Fits(data)
    requires n in {1, 2, 3, 12}
    requires At(data, i, StringField(n * 8 + 2, s))
    ensures i + |StringField(n * 8 + 2, s)| <= |data|
    ensures SpanLoop(data, i, m) ==
            SpanLoop(data, i + |StringField(n * 8 + 2, s)|, WithString(m, n, s))
  {
    hide At, SpanLoop, SetString, SpanField;
    AtEnd(data, i, StringField(n * 8 + 2, s));
    if s != [] {
      WrittenString(data, i, m, n, s);
      LoopStep(data, i, m, SetString(m, n, s), i + 1 + |Prefixed(s)|);
    }
  }

  lemma WrittenString(data: Bytes, i: nat, m: Span, n: int, s: Bytes)
    requires Fits(data) && n in {1, 2, 3, 12} && At(data, i, [n * 8 + 2] + Prefixed(s))
    ensures i < |data| && SpanField(data, i, m) == Ok((SetString(m, n, s), i + 1 + |Prefixed(s)|))
  {
    hide SetString, ReadTag, ReadBytes, Prefixed, At, SpanField;
    AtEnd(data, i, [n * 8 + 2] + Prefixed(s));
    AtSplit(data, i, [n * 8 + 2], Prefixed(s));
    TagRoundTrip(data, i, n * 8 + 2);
    BytesRoundTrip(data, i + 1, s);
    StringFieldRead(data, i, m, n, s, i + 1, i + 1 + |Prefixed(s)|);
  }

  lemma StringFieldRead(data: Bytes, i: nat, m: Span, n: int, s: Bytes, i1: nat, i2: nat)
    requires i <= |data| && n in {1, 2, 3, 12}
    requires ReadTag(data, i) == Ok((n, 2, i1)) && ReadBytes(data, i1) == Ok((s, i2))
    ensures SpanField(data, i, m) == Ok((SetString(m, n, s), i2))
  {
    hide ReadTag, ReadBytes, SetString;
  }

  lemma LoopStep(data: Bytes, i: nat, m: Span, m': Span, i': nat)
    requires i < |data| && SpanField(data, i, m) == Ok((m', i'))
    ensures SpanLoop(data, i, m) == SpanLoop(data, i', m')
  {
  }

  lemma VarintStep(data: Bytes, i: nat, m: Span, n: int, v: U64)
    requires 4 <= n <= 9
    requires At(data, i, VarintField(n * 8, v))
    ensures i + |VarintField(n * 8, v)| <= |data|
    ensures SpanLoop(data, i, m) ==
            SpanLoop(data, i + |VarintField(n * 8, v)|, WithVarint(m, n, v))
  {
    hide At, SpanLoop, SetVarint, SpanField;
    AtEnd(data, i, VarintField(n * 8, v));
    if v != 0 {
      WrittenVarint(data, i, m, n, v);
      LoopStep(data, i, m, SetVarint(m, n, v), i + 1 + |EncodeVarint(v)|);
    }
  }

  lemma WrittenVarint(data: Bytes, i: nat, m: Span, n: int, v: U64)
    requires 4 <= n <= 9 && At(data, i, [n * 8] + EncodeVarint(v))
    ensures i < |data| && SpanField(data, i, m) == Ok((SetVarint(m, n, v), i + 1 + |EncodeVarint(v)|))
  {
    hide SetVarint, ReadTag, ReadVarint, EncodeVarint, At;
    AtEnd(data, i, [n * 8] + EncodeVarint(v));
    AtSplit(data, i, [n * 8], EncodeVarint(v));
    TagRoundTrip(data, i, n * 8);
    VarintRoundTrip(data, i + 1, v);
  }

  lemma EntryFrame(data: Bytes, i: nat, tag: Byte, body: Bytes)
    requires Fits(data) && 8 <= tag < 128 && tag % 8 != 4
    requires At(data, i, Entry(tag, body))
    ensures var i1 := i + 1 + |EncodeVarint(|body|)|;
            && i < |data| && ReadTag(data, i) == Ok((tag / 8, tag % 8, i + 1))
            && ReadEntry(data, i + 1) == Ok((i1, i1 + |body|))
            && At(data, i1, body) && i + |Entry(tag, body)| == i1 + |body| <= |data|
  {
    hide At, ReadTag, ReadVarint, EncodeVarint;
    AtEnd(data, i, Entry(tag, body));
    AtSplit(data, i, [tag], Prefixed(body));
    AtSplit(data, i + 1, EncodeVarint(|body|), body);
    TagRoundTrip(data, i, tag);
    VarintRoundTrip(data, i + 1, |body|);
  }

  lemma KeyRead(data: Bytes, i: nat, tag: Byte, k: Bytes)
    requires Fits(data) && tag < 128
    requires At(data, i, [tag]) && At(data, i + 1, Prefixed(k))
    ensures ReadKey(data, i) == Ok((k, i + 1 + |Prefixed(k)|))
  {
    hide At, Prefixed, ReadBytes, ReadVarint;
    assert EncodeVarint(tag) == [tag];
    VarintRoundTrip(data, i, tag);
    BytesRoundTrip(data, i + 1, k);
  }

  lemma MetaStep(data: Bytes, i: nat, m: Span, k: Bytes, v: Bytes)
    requires Fits(data)
    requires At(data, i, Entry(0x52, MetaBody(k, v)))
    ensures i + |Entry(0x52, MetaBody(k, v))| <= |data|
    ensures SpanLoop(data, i, m) == SpanLoop(data, i + |Entry(0x52, MetaBody(k, v))|, m.(meta := m.meta[k := v]))
  {
    hide At, Prefixed, ReadTag, ReadEntry, ReadKey, Entry, EncodeVarint;
    var body := MetaBody(k, v);
    EntryFrame(data, i, 0x52, body);
    var i1 := i + 1 + |EncodeVarint(|body|)|;
    AtSplit(data, i1, [0x0a] + Prefixed(k), [0x12] + Prefixed(v));
    assert body == ([0x0a] + Prefixed(k)) + ([0x12] + Prefixed(v));
    AtSplit(data, i1, [0x0a], Prefixed(k));
    var i2 := i1 + 1 + |Prefixed(k)|;
    AtSplit(data, i2, [0x12], Prefixed(v));
    KeyRead(data, i1, 0x0a, k);
    KeyRead(data, i2, 0x12, v);
    AtEnd(data, i1, body);
    assert ReadMeta(data, i + 1, m) == Ok((m.(meta := m.meta[k := v]), i1 + |body|));
  }

  lemma MetricStep(data: Bytes, i: nat, m: Span, k: Bytes, v: U64)
    requires Fits(data)
    requires At(data, i, Entry(0x5a, MetricBody(k, v)))
    ensures i + |Entry(0x5a, MetricBody(k, v))| <= |data|
    ensures SpanLoop(data, i, m) == SpanLoop(data, i + |Entry(0x5a, MetricBody(k, v))|, m.(metrics := m.metrics[k := v]))
  {
    hide At, Prefixed, ReadTag, ReadEntry, ReadKey, Entry, LittleEndian, ReadFixed64, ReadVarint;
    var body := MetricBody(k, v);
    EntryFrame(data, i, 0x5a, body);
    var i1 := i + 1 + |EncodeVarint(|body|)|;
    AtSplit(data, i1, [0x0a] + Prefixed(k), [0x11] + LittleEndian(v, 8));
    assert body == ([0x0a] + Prefixed(k)) + ([0x11] + LittleEndian(v, 8));
    AtSplit(data, i1, [0x0a], Prefixed(k));
    var i2 := i1 + 1 + |Prefixed(k)|;
    AtSplit(data, i2, [0x11], LittleEndian(v, 8));
    KeyRead(data, i1, 0x0a, k);
    assert EncodeVarint(0x11) == [0x11];
    VarintRoundTrip(data, i2, 0x11);
    Fixed64RoundTrip(data, i2 + 1, v);
    AtEnd(data, i1, body);
    assert ReadMetric(data, i + 1, m) == Ok((m.(metrics := m.metrics[k := v]), i1 + |body|));
  }

  /** The entries of `meta` listed in `order`, added to `acc`. */
  function AddMeta(acc: map<Bytes, Bytes>, order: seq<Bytes>, meta: map<Bytes, Bytes>): map<Bytes, Bytes>
    requires forall k :: k in order ==> k in meta
    decreases |order|
  {
    if order == [] then acc else AddMeta(acc[order[0] := meta[order[0]]], order[1..], meta)
  }

  function AddMetrics(acc: map<Bytes, U64>, order: seq<Bytes>, metrics: map<Bytes, U64>): map<Bytes, U64>
    requires forall k :: k in order ==> k in metrics
    decreases |order|
  {
    if order == [] then acc else AddMetrics(acc[order[0] := metrics[order[0]]], order[1..], metrics)
  }

  lemma {:induction false} AddMetaAll(acc: map<Bytes, Bytes>, order: seq<Bytes>, meta: map<Bytes, Bytes>)
    requires forall k :: k in order ==> k in meta
    ensures forall k :: k in AddMeta(acc, order, meta) <==> k in acc || k in order
    ensures forall k :: k in AddMeta(acc, order, meta) ==>
              AddMeta(acc, order, meta)[k] == if k in order then meta[k] else acc[k]
    decreases |order|
  {
    if order != [] {
      AddMetaAll(acc[order[0] := meta[order[0]]], order[1..], meta);
      assert order == [order[0]] + order[1..];
    }
  }

  lemma {:induction false} AddMetricsAll(acc: map<Bytes, U64>, order: seq<Bytes>, metrics: map<Bytes, U64>)
    requires forall k :: k in order ==> k in metrics
    ensures forall k :: k in AddMetrics(acc, order, metrics) <==> k in acc || k in order
    ensures forall k :: k in AddMetrics(acc, order, metrics) ==>
              AddMetrics(acc, order, metrics)[k] == if k in order then metrics[k] else acc[k]
    decreases |order|
  {
    if order != [] {
      AddMetricsAll(acc[order[0] := metrics[order[0]]], order[1..], metrics);
      assert order == [order[0]] + order[1..];
    }
  }

  lemma {:induction false} MetaSteps(data: Bytes, i: nat, m: Span, order: seq<Bytes>, meta: map<Bytes, Bytes>)
    requires Fits(data) && (forall k :: k in order ==> k in meta) && At(data, i, MetaBytes(order, meta))
    ensures i + |MetaBytes(order, meta)| <= |data|
    ensures SpanLoop(data, i, m) ==
            SpanLoop(data, i + |MetaBytes(order, meta)|, m.(meta := AddMeta(m.meta, order, meta)))
    decreases |order|
  {
    hide SpanLoop, At, Entry, MetaBody;
    AtEnd(data, i, MetaBytes(order, meta));
    if order != [] {
      var k, rest := order[0], order[1..];
      assert order == [k] + rest;
      var e := Entry(0x52, MetaBody(k, meta[k]));
      AtSplit(data, i, e, MetaBytes(rest, meta));
      MetaStep(data, i, m, k, meta[k]);
      MetaSteps(data, i + |e|, m.(meta := m.meta[k := meta[k]]), rest, meta);
    }
  }

  lemma {:induction false} MetricsSteps(data: Bytes, i: nat, m: Span, order: seq<Bytes>, metrics: map<Bytes, U64>)
    requires Fits(data) && (forall k :: k in order ==> k in metrics) && At(data, i, MetricsBytes(order, metrics))
    ensures i + |MetricsBytes(order, metrics)| <= |data|
    ensures SpanLoop(data, i, m) ==
            SpanLoop(data, i + |MetricsBytes(order, metrics)|, m.(metrics := AddMetrics(m.metrics, order, metrics)))
    decreases |order|
  {
    hide SpanLoop, At, Entry, MetricBody;
    AtEnd(data, i, MetricsBytes(order, metrics));
    if order != [] {
      var k, rest := order[0], order[1..];
      assert order == [k] + rest;
      var e := Entry(0x5a, MetricBody(k, metrics[k]));
      AtSplit(data, i, e, MetricsBytes(rest, metrics));
      MetricStep(data, i, m, k, metrics[k]);
      MetricsSteps(data, i + |e|, m.(metrics := m.metrics[k := metrics[k]]), rest, metrics);
    }
  }

  /** Where the scalar fields stand. */
  lemma HeadParts(data: Bytes, i: nat, f: seq<Bytes>)
    requires |f| == 9 && At(data, i, f[0] + f[1] + f[2] + f[3] + f[4] + f[5] + f[6] + f[7] + f[8])
    ensures At(data, i, f[0])
    ensures At(data, i + |f[0]|, f[1])
    ensures At(data, i + |f[0]| + |f[1]|, f[2])
    ensures var j := i + |f[0]| + |f[1]| + |f[2]|;
            && At(data, j, f[3]) && At(data, j + |f[3]|, f[4]) && At(data, j + |f[3]| + |f[4]|, f[5])
            && At(data, j + |f[3]| + |f[4]| + |f[5]|, f[6]) && At(data, j + |f[3]| + |f[4]| + |f[5]| + |f[6]|, f[7])
            && At(data, j + |f[3]| + |f[4]| + |f[5]| + |f[6]| + |f[7]|, f[8])
  {
    hide At;
    AtSplit(data, i, f[0] + f[1] + f[2] + f[3] + f[4] + f[5] + f[6] + f[7], f[8]);
    AtSplit(data, i, f[0] + f[1] + f[2] + f[3] + f[4] + f[5] + f[6], f[7]);
    AtSplit(data, i, f[0] + f[1] + f[2] + f[3] + f[4] + f[5], f[6]);
    AtSplit(data, i, f[0] + f[1] + f[2] + f[3] + f[4], f[5]);
    AtSplit(data, i, f[0] + f[1] + f[2] + f[3], f[4]);
    AtSplit(data, i, f[0] + f[1] + f[2], f[3]);
    AtSplit(data, i, f[0] + f[1], f[2]);
    AtSplit(data, i, f[0], f[1]);
  }

  /** What a field holds after decoding: fields with the default value are not written. */
  function Newer<T(==)>(before: T, after: T, none: T): T {
    if after == none then before else after
  }

  function WithNames(m0: Span, m: Span): Span {
    WithString(WithString(WithString(m0, 1, m.service), 2, m.name), 3, m.resource)
  }

  function WithIDs(m0: Span, m: Span): Span {
    WithVarint(WithVarint(WithVarint(m0, 4, m.traceID), 5, m.spanID), 6, m.parentID)
  }

  function WithTimes(m0: Span, m: Span): Span {
    WithVarint(WithVarint(WithVarint(m0, 7, ToU64(m.start)), 8, ToU64(m.duration)), 9, ToU64(m.error))
  }

  function WithHead(m0: Span, m: Span): Span {
    WithTimes(WithIDs(WithNames(m0, m), m), m)
  }

  lemma NameFields(m0: Span, m: Span)
    ensures WithNames(m0, m) ==
            m0.(service := Newer(m0.service, m.service, []), name := Newer(m0.name, m.name, []),
                resource := Newer(m0.resource, m.resource, []))
  {
  }

  lemma IDFields(m0: Span, m: Span)
    ensures WithIDs(m0, m) ==
            m0.(traceID := Newer(m0.traceID, m.traceID, 0), spanID := Newer(m0.spanID, m.spanID, 0),
                parentID := Newer(m0.parentID, m.parentID, 0))
  {
  }

  lemma TimeField(m: Span, x: I64)
    ensures WithVarint(m, 7, ToU64(x)) == m.(start := Newer(m.start, x, 0))
    ensures WithVarint(m, 8, ToU64(x)) == m.(duration := Newer(m.duration, x, 0))
  {
    SignedRoundTrip(x);
    ZeroSigned(x);
    hide ToU64, ToI64, ToI32;
  }

  lemma ErrorField(m: Span, x: I32)
    ensures WithVarint(m, 9, ToU64(x)) == m.(error := Newer(m.error, x, 0))
  {
    SignedRoundTrip(x);
    ZeroSigned(x);
    hide ToU64, ToI64, ToI32;
  }

  lemma TimeFields(m0: Span, m: Span)
    ensures WithTimes(m0, m) ==
            m0.(start := Newer(m0.start, m.start, 0), duration := Newer(m0.duration, m.duration, 0),
                error := Newer(m0.error, m.error, 0))
  {
    hide WithVarint, Newer, ToU64;
    TimeField(m0, m.start);
    TimeField(WithVarint(m0, 7, ToU64(m.start)), m.duration);
    ErrorField(WithVarint(WithVarint(m0, 7, ToU64(m.start)), 8, ToU64(m.duration)), m.error);
  }

  lemma MergedFields(m0: Span, m: Span)
    ensures var h := WithHead(m0, m);
            && h.meta == m0.meta && h.metrics == m0.metrics && h.type_ == m0.type_
            && Merged(m0, m) == h.(meta := m0.meta + m.meta, metrics := m0.metrics + m.metrics,
                                   type_ := Newer(m0.type_, m.type_, []))
  {
    hide WithNames, WithIDs, WithTimes, Newer;
    NameFields(m0, m);
    IDFields(WithNames(m0, m), m);
    TimeFields(WithIDs(WithNames(m0, m), m), m);
  }

  /** A message decoded into another: its fields win unless they have the default value, and its map entries
      join the others. */
  function Merged(m0: Span, m: Span): Span {
    Span(Newer(m0.service, m.service, []), Newer(m0.name, m.name, []), Newer(m0.resource, m.resource, []),
         Newer(m0.traceID, m.traceID, 0), Newer(m0.spanID, m.spanID, 0), Newer(m0.parentID, m.parentID, 0),
         Newer(m0.start, m.start, 0), Newer(m0.duration, m.duration, 0), Newer(m0.error, m.error, 0),
         m0.meta + m.meta, m0.metrics + m.metrics, Newer(m0.type_, m.type_, []))
  }

  lemma MergedIntoEmpty(m: Span)
    ensures Merged(EMPTY, m) == m
  {
    assert map[] + m.meta == m.meta && map[] + m.metrics == m.metrics;
  }

  lemma ZeroSigned(x: I64)
    ensures ToU64(x) == 0 <==> x == 0
  {
  }

  /** Decoding the scalar fields. */
  lemma HeadSteps(data: Bytes, i: nat, m0: Span, m: Span)
    requires Fits(data) && At(data, i, HeadBytes(m))
    ensures i + |HeadBytes(m)| <= |data|
    ensures SpanLoop(data, i, m0) == SpanLoop(data, i + |HeadBytes(m)|, WithHead(m0, m))
  {
    hide SpanLoop, At, StringField, VarintField, ToU64, WithString, WithVarint;
    AtEnd(data, i, HeadBytes(m));
    var f := [StringField(0x0a, m.service), StringField(0x12, m.name), StringField(0x1a, m.resource),
              VarintField(0x20, m.traceID), VarintField(0x28, m.spanID), VarintField(0x30, m.parentID),
              VarintField(0x38, ToU64(m.start)), VarintField(0x40, ToU64(m.duration)), VarintField(0x48, ToU64(m.error))];
    HeadParts(data, i, f);
    var m1 := WithString(m0, 1, m.service);
    var m2 := WithString(m1, 2, m.name);
    var m3 := WithNames(m0, m);
    var m4 := WithVarint(m3, 4, m.traceID);
    var m5 := WithVarint(m4, 5, m.spanID);
    var m6 := WithIDs(m3, m);
    var m7 := WithVarint(m6, 7, ToU64(m.start));
    var m8 := WithVarint(m7, 8, ToU64(m.duration));
    StringStep(data, i, m0, 1, m.service);
    var i1 := i + |f[0]|;
    StringStep(data, i1, m1, 2, m.name);
    var i2 := i1 + |f[1]|;
    StringStep(data, i2, m2, 3, m.resource);
    var i3 := i2 + |f[2]|;
    VarintStep(data, i3, m3, 4, m.traceID);
    var i4 := i3 + |f[3]|;
    VarintStep(data, i4, m4, 5, m.spanID);
    var i5 := i4 + |f[4]|;
    VarintStep(data, i5, m5, 6, m.parentID);
    var i6 := i5 + |f[5]|;
    VarintStep(data, i6, m6, 7, ToU64(m.start));
    var i7 := i6 + |f[6]|;
    VarintStep(data, i7, m7, 8, ToU64(m.duration));
    VarintStep(data, i7 + |f[7]|, m8, 9, ToU64(m.error));
  }

  /** Decoding an encoded span into any message, written with any order of its maps, merges the two. */
  lemma SpanMerges(m0: Span, m: Span, metaOrder: seq<Bytes>, metricsOrder: seq<Bytes>)
    requires IsOrder(metaOrder, m.meta.Keys) && IsOrder(metricsOrder, m.metrics.Keys)
    requires Fits(SpanBytes(m, metaOrder, metricsOrder))
    ensures SpanLoop(SpanBytes(m, metaOrder, metricsOrder), 0, m0) == Ok(Merged(m0, m))
  {
    hide SpanLoop, At, StringField, HeadBytes, MetaBytes, MetricsBytes, IsOrder, AddMeta, AddMetrics, WithHead, Merged;
    OrderKeys(metaOrder, m.meta.Keys);
    OrderKeys(metricsOrder, m.metrics.Keys);
    var data := SpanBytes(m, metaOrder, metricsOrder);
    var a, b, c, d := HeadBytes(m), MetaBytes(metaOrder, m.meta), MetricsBytes(metricsOrder, m.metrics),
                      StringField(0x62, m.type_);
    WholeAt(data);
    AtSplit(data, 0, a + b + c, d);
    AtSplit(data, 0, a + b, c);
    AtSplit(data, 0, a, b);
    HeadSteps(data, 0, m0, m);
    MergedFields(m0, m);
    var m1 := WithHead(m0, m);
    MetaSteps(data, |a|, m1, metaOrder, m.meta);
    AddMetaAll(m0.meta, metaOrder, m.meta);
    assert AddMeta(m0.meta, metaOrder, m.meta) == m0.meta + m.meta;
    var m2 := m1.(meta := m0.meta + m.meta);
    MetricsSteps(data, |a| + |b|, m2, metricsOrder, m.metrics);
    AddMetricsAll(m0.metrics, metricsOrder, m.metrics);
    assert AddMetrics(m0.metrics, metricsOrder, m.metrics) == m0.metrics + m.metrics;
    var m3 := m2.(metrics := m0.metrics + m.metrics);
    StringStep(data, |a| + |b| + |c|, m3, 12, m.type_);
    LoopEnd(data, Merged(m0, m));
  }

  /** Decoding an encoded span, written with any order of its maps, gives the span back. */
  lemma SpanRoundTrip(m: Span, metaOrder: seq<Bytes>, metricsOrder: seq<Bytes>)
    requires IsOrder(metaOrder, m.meta.Keys) && IsOrder(metricsOrder, m.metrics.Keys)
    requires Fits(SpanBytes(m, metaOrder, metricsOrder))
    ensures ParseSpan(SpanBytes(m, metaOrder, metricsOrder)) == Ok(m)
  {
    hide SpanLoop, SpanBytes, IsOrder, Merged;
    SpanMerges(EMPTY, m, metaOrder, metricsOrder);
    MergedIntoEmpty(m);
  }

  lemma WholeAt(data: Bytes)
    ensures At(data, 0, data)
  {
  }

  lemma LoopEnd(data: Bytes, m: Span)
    ensures SpanLoop(data, |data|, m) == Ok(m)
  {
  }

  /** A field this version does not know is passed over, whatever it holds, and changes nothing. */
  lemma UnknownFieldIgnored(data: Bytes, i: nat, m: Span, n: I32, wireType: nat, i1: nat, i2: nat)
    requires Fits(data) && i < |data| && ReadTag(data, i) == Ok((n, wireType, i1)) && n > 12
    requires (wireType == 0 && ReadVarint(data, i1).Ok? && i2 == ReadVarint(data, i1).value.1) ||
             (wireType == 2 && ReadBytes(data, i1).Ok? && i2 == ReadBytes(data, i1).value.1) ||
             (wireType == 1 && i2 == i1 + 8 <= |data|) || (wireType == 5 && i2 == i1 + 4 <= |data|)
    ensures i2 <= |data| && SpanLoop(data, i, m) == SpanLoop(data, i2, m)
  {
    hide ReadTag, ReadBytes, ReadVarint, SkipField, SpanLoop;
    SkipMeans(data, i, n, wireType, i1);
    LoopStep(data, i, m, m, i2);
  }

  // ---------------------------------------------------------------- when decoding panics

  /** The key or value at `i` has an overlong length. */
  predicate OverlongKey(data: Bytes, i: nat) {
    ReadVarint(data, i).Ok? && Overlong(data, ReadVarint(data, i).value.1)
  }

  /** A map entry with an overlong length of its own, of its key, or, for strings, of its value. */
  predicate OverlongEntry(data: Bytes, i: nat, strings: bool) {
    var entry := ReadEntry(data, i);
    entry.Ok? &&
    (|| OverlongKey(data, entry.value.0)
     || (var key := ReadKey(data, entry.value.0);
         key.Ok? && if key.value.1 < entry.value.1 then strings && OverlongKey(data, key.value.1) else Overlong(data, i)))
  }

  /** The field at `i` has an overlong length. */
  predicate OverlongField(data: Bytes, i: nat)
    requires i <= |data|
  {
    var tag := ReadTag(data, i);
    tag.Ok? &&
    var (n, wireType, at) := tag.value;
    if n in {1, 2, 3, 12} then wireType == 2 && Overlong(data, at)
    else if 4 <= n <= 9 then false
    else if n == 10 then wireType == 2 && OverlongEntry(data, at, true)
    else if n == 11 then wireType == 2 && OverlongEntry(data, at, false)
    else OverlongGroup(data[i..])
  }

  lemma TagErrors(data: Bytes, i: nat)
    ensures ReadTag(data, i) != Err(SliceOutOfRange)
    ensures ReadVarint(data, i) != Err(SliceOutOfRange)
  {
    VarintErrors(data, i, 0, 0);
    hide DecodeVarint;
  }

  lemma KeyPanics(data: Bytes, i: nat)
    ensures ReadKey(data, i) == Err(SliceOutOfRange) <==> OverlongKey(data, i)
  {
    TagErrors(data, i);
    hide ReadVarint, ReadBytes;
    var v := ReadVarint(data, i);
    if v.Ok? {
      BytesPanic(data, v.value.1);
    }
  }

  lemma EntryPanics(data: Bytes, i: nat)
    ensures ReadEntry(data, i) != Err(SliceOutOfRange)
    ensures ReadEntry(data, i).Ok? ==> (ReadEntry(data, i).value.1 < 0 <==> Overlong(data, i))
  {
    TagErrors(data, i);
    hide ReadVarint;
  }

  lemma MapPanics(data: Bytes, i: nat, m: Span)
    ensures ReadMeta(data, i, m) == Err(SliceOutOfRange) <==> OverlongEntry(data, i, true)
    ensures ReadMetric(data, i, m) == Err(SliceOutOfRange) <==> OverlongEntry(data, i, false)
  {
    EntryPanics(data, i);
    hide ReadEntry, ReadKey, ReadVarint, ReadFixed64, Overlong, OverlongKey;
    var entry := ReadEntry(data, i);
    if entry.Ok? {
      var (i1, post) := entry.value;
      KeyPanics(data, i1);
      var key := ReadKey(data, i1);
      if key.Ok? && key.value.1 < post {
        KeyPanics(data, key.value.1);
        TagErrors(data, key.value.1);
        Fixed64Errors(data, key.value.1);
      }
    }
  }

  lemma Fixed64Errors(data: Bytes, i: nat)
    ensures ReadVarint(data, i).Ok? ==> ReadFixed64(data, ReadVarint(data, i).value.1) != Err(SliceOutOfRange)
  {
    hide ReadVarint;
  }

  lemma SkipFieldPanics(data: Bytes, i: nat)
    requires i <= |data| && Fits(data)
    ensures SkipField(data, i) == Err(SliceOutOfRange) <==> OverlongGroup(data[i..])
  {
    SkipPanics(data[i..]);
    hide Skip, OverlongGroup, Wraps;
  }

  /** A field slices out of range if and only if it has an overlong length, whatever the message holds; and where it
      ends does not depend on the message either. */
  lemma FieldPanics(data: Bytes, i: nat, m: Span)
    requires i <= |data| && Fits(data)
    ensures SpanField(data, i, m) == Err(SliceOutOfRange) <==> OverlongField(data, i)
    ensures SpanField(data, i, m).Ok? <==> SpanField(data, i, EMPTY).Ok?
    ensures SpanField(data, i, m).Ok? ==> SpanField(data, i, m).value.1 == SpanField(data, i, EMPTY).value.1
  {
    TagErrors(data, i);
    SkipFieldPanics(data, i);
    hide ReadBytes, ReadVarint, ReadMeta, ReadMetric, SkipField, Overlong, OverlongEntry, OverlongGroup, ReadTag;
    var tag := ReadTag(data, i);
    if tag.Ok? {
      var at := tag.value.2;
      BytesPanic(data, at);
      MapPanics(data, at, m);
      MapEnds(data, at, m);
      TagErrors(data, at);
    }
  }

  lemma MapEnds(data: Bytes, i: nat, m: Span)
    ensures ReadMeta(data, i, m).Ok? <==> ReadMeta(data, i, EMPTY).Ok?
    ensures ReadMeta(data, i, m).Ok? ==> ReadMeta(data, i, m).value.1 == ReadMeta(data, i, EMPTY).value.1
    ensures ReadMetric(data, i, m).Ok? <==> ReadMetric(data, i, EMPTY).Ok?
    ensures ReadMetric(data, i, m).Ok? ==> ReadMetric(data, i, m).value.1 == ReadMetric(data, i, EMPTY).value.1
  {
    hide ReadEntry, ReadKey, ReadVarint, ReadFixed64;
  }

  /** Decoding from `i` comes to a field at `j`. */
  predicate ComesTo(data: Bytes, i: nat, j: nat)
    requires i <= |data|
    decreases |data| - i
  {
    i == j || (i < |data| && SpanField(data, i, EMPTY).Ok? && ComesTo(data, SpanField(data, i, EMPTY).value.1, j))
  }

  /** Decoding slices out of range, where the generated code panics, if and only if it comes to a field with an
      overlong length. */
  lemma {:induction false} DecodingPanics(data: Bytes, i: nat, m: Span)
    requires i <= |data| && Fits(data)
    ensures SpanLoop(data, i, m) == Err(SliceOutOfRange) <==>
            exists j :: 0 <= j < |data| && ComesTo(data, i, j) && OverlongField(data, j)
    decreases |data| - i
  {
    hide SpanField, OverlongField;
    if i < |data| {
      FieldPanics(data, i, m);
      var f := SpanField(data, i, m);
      if f.Ok? {
        DecodingPanics(data, f.value.1, f.value.0);
        forall j | 0 <= j < |data|
          ensures ComesTo(data, i, j) <==> j == i || ComesTo(data, f.value.1, j)
        {
        }
      } else {
        forall j | 0 <= j < |data|
          ensures ComesTo(data, i, j) <==> j == i
        {
        }
      }
    } else {
      forall j | 0 <= j < |data|
        ensures !ComesTo(data, i, j)
      {
      }
    }
  }

  // ---------------------------------------------------------------- the generated methods

  /** `b` is an encoding of `m`, for some iteration order of its maps. */
  ghost predicate EncodesSpan(m: Span, b: Bytes) {
    exists o1, o2 :: IsOrder(o1, m.meta.Keys) && IsOrder(o2, m.metrics.Keys) && b == SpanBytes(m, o1, o2)
  }

  /** Whatever order was used, the size is as announced and decoding gives the span back. */
  lemma EncodedSpan(m: Span, b: Bytes)
    requires EncodesSpan(m, b)
    ensures |b| == SizeSpan(m)
    ensures Fits(b) ==> ParseSpan(b) == Ok(m) && forall m0 :: SpanLoop(b, 0, m0) == Ok(Merged(m0, m))
  {
    hide SpanBytes, IsOrder, ParseSpan, SizeSpan, SpanLoop, Merged;
    var o1, o2 :| IsOrder(o1, m.meta.Keys) && IsOrder(o2, m.metrics.Keys) && b == SpanBytes(m, o1, o2);
    SpanSizeIsExact(m, o1, o2);
    if Fits(b) {
      SpanRoundTrip(m, o1, o2);
      forall m0
        ensures SpanLoop(b, 0, m0) == Ok(Merged(m0, m))
      {
        SpanMerges(m0, m, o1, o2);
      }
    }
  }

  method PutString(data: array<Byte>, i0: nat, tag: Byte, s: Bytes) returns (i: nat)
    requires i0 + SizeStringField(s) <= data.Length
    modifies data
    ensures i == i0 + SizeStringField(s) && data[..i] == old(data[..i0]) + StringField(tag, s)
  {
    VarintSize(|s|);
    hide EncodeVarint, SizeVarint;
    i := i0;
    if |s| > 0 {
      ghost var before := data[..i];
      i := PutByte(data, i, tag);
      i := PutPrefixed(data, i, s);
      assert before + [tag] + Prefixed(s) == before + ([tag] + Prefixed(s));
    }
  }

  method PutVarintField(data: array<Byte>, i0: nat, tag: Byte, v: U64) returns (i: nat)
    requires i0 + SizeVarintField(v) <= data.Length
    modifies data
    ensures i == i0 + SizeVarintField(v) && data[..i] == old(data[..i0]) + VarintField(tag, v)
  {
    FieldSizes(tag, [], v);
    hide EncodeVarint, SizeVarint;
    i := i0;
    if v != 0 {
      ghost var before := data[..i];
      i := PutByte(data, i, tag);
      i := PutVarint(data, i, v);
      assert before + [tag] + EncodeVarint(v) == before + ([tag] + EncodeVarint(v));
    }
  }

  lemma MetaEntryParts(before: Bytes, k: Bytes, v: Bytes)
    ensures before + [0x52] + EncodeVarint(|MetaBody(k, v)|) + [0x0a] + Prefixed(k) + [0x12] + Prefixed(v) ==
            before + Entry(0x52, MetaBody(k, v))
  {
    hide EncodeVarint;
    var p, q, e := Prefixed(k), Prefixed(v), EncodeVarint(|MetaBody(k, v)|);
    hide Prefixed;
    assert Entry(0x52, MetaBody(k, v)) == [0x52] + (e + ([0x0a] + p + [0x12] + q)) by {
      EntryMeans(0x52, MetaBody(k, v));
    }
  }

  lemma EntryMeans(tag: Byte, body: Bytes)
    ensures Entry(tag, body) == [tag] + (EncodeVarint(|body|) + body)
  {
  }

  lemma MetricEntryParts(before: Bytes, k: Bytes, bits: U64)
    ensures before + [0x5a] + EncodeVarint(|MetricBody(k, bits)|) + [0x0a] + Prefixed(k) + [0x11] + LittleEndian(bits, 8) ==
            before + Entry(0x5a, MetricBody(k, bits))
  {
    hide EncodeVarint, LittleEndian;
    var p, q, e := Prefixed(k), LittleEndian(bits, 8), EncodeVarint(|MetricBody(k, bits)|);
    hide Prefixed;
    assert Entry(0x5a, MetricBody(k, bits)) == [0x5a] + (e + ([0x0a] + p + [0x11] + q)) by {
      EntryMeans(0x5a, MetricBody(k, bits));
    }
  }

  lemma EntrySize(tag: Byte, body: Bytes, n: nat)
    requires |body| == n
    ensures 1 + |EncodeVarint(n)| + n == SizeEntry(n) == |Entry(tag, body)|
  {
    VarintSize(n);
  }

  lemma PrefixedSize(s: Bytes)
    ensures |Prefixed(s)| == SizePrefixed(|s|) == SizeVarint(|s|) + |s|
  {
    VarintSize(|s|);
  }

  method PutMetaEntry(data: array<Byte>, i0: nat, k: Bytes, v: Bytes) returns (i: nat)
    requires i0 + SizeEntry(SizeMetaBody(k, v)) <= data.Length
    modifies data
    ensures i == i0 + SizeEntry(SizeMetaBody(k, v))
    ensures data[..i] == old(data[..i0]) + Entry(0x52, MetaBody(k, v))
  {
    hide EncodeVarint, SizeVarint, Prefixed, SizePrefixed, SizeEntry, Entry, MetaBody;
    BodySizes(k, v, 0);
    PrefixedSize(k);
    PrefixedSize(v);
    EntrySize(0x52, MetaBody(k, v), SizeMetaBody(k, v));
    VarintSize(SizeMetaBody(k, v));
    MetaEntryParts(data[..i0], k, v);
    i := PutByte(data, i0, 0x52);
    var s1 := Sov(|k|);
    var s2 := Sov(|v|);
    var mapSize := 1 + |k| + s1 + 1 + |v| + s2;
    i := PutVarint(data, i, mapSize);
    i := PutByte(data, i, 0x0a);
    i := PutPrefixed(data, i, k);
    i := PutByte(data, i, 0x12);
    i := PutPrefixed(data, i, v);
  }

  method PutMetricEntry(data: array<Byte>, i0: nat, k: Bytes, bits: U64) returns (i: nat)
    requires i0 + SizeEntry(SizeMetricBody(k)) <= data.Length
    modifies data
    ensures i == i0 + SizeEntry(SizeMetricBody(k))
    ensures data[..i] == old(data[..i0]) + Entry(0x5a, MetricBody(k, bits))
  {
    hide EncodeVarint, SizeVarint, Prefixed, SizePrefixed, SizeEntry, Entry, MetricBody, LittleEndian;
    BodySizes(k, [], bits);
    PrefixedSize(k);
    EntrySize(0x5a, MetricBody(k, bits), SizeMetricBody(k));
    VarintSize(SizeMetricBody(k));
    MetricEntryParts(data[..i0], k, bits);
    i := PutByte(data, i0, 0x5a);
    var s1 := Sov(|k|);
    var mapSize := 1 + |k| + s1 + 1 + 8;
    i := PutVarint(data, i, mapSize);
    i := PutByte(data, i, 0x0a);
    i := PutPrefixed(data, i, k);
    i := PutByte(data, i, 0x11);
    i := PutFixed64(data, i, bits);
  }

  lemma MetaAppend(order: seq<Bytes>, k: Bytes, meta: map<Bytes, Bytes>)
    requires k in meta && forall j :: j in order ==> j in meta
    ensures forall j :: j in order + [k] ==> j in meta
    ensures MetaBytes(order + [k], meta) == MetaBytes(order, meta) + Entry(0x52, MetaBody(k, meta[k]))
  {
    hide Entry, MetaBody;
    if order == [] {
      assert [k][1..] == [];
      assert [] + [k] == [k];
    } else {
      MetaAppend(order[1..], k, meta);
      assert (order + [k])[1..] == order[1..] + [k];
      Assoc(Entry(0x52, MetaBody(order[0], meta[order[0]])), MetaBytes(order[1..], meta), Entry(0x52, MetaBody(k, meta[k])));
    }
  }

  lemma MetricsAppend(order: seq<Bytes>, k: Bytes, metrics: map<Bytes, U64>)
    requires k in metrics && forall j :: j in order ==> j in metrics
    ensures forall j :: j in order + [k] ==> j in metrics
    ensures MetricsBytes(order + [k], metrics) == MetricsBytes(order, metrics) + Entry(0x5a, MetricBody(k, metrics[k]))
  {
    hide Entry, MetricBody;
    if order == [] {
      assert [k][1..] == [];
      assert [] + [k] == [k];
    } else {
      MetricsAppend(order[1..], k, metrics);
      assert (order + [k])[1..] == order[1..] + [k];
      Assoc(Entry(0x5a, MetricBody(order[0], metrics[order[0]])), MetricsBytes(order[1..], metrics), Entry(0x5a, MetricBody(k, metrics[k])));
    }
  }

  lemma OrderAppend(order: seq<Bytes>, keys: set<Bytes>, k: Bytes)
    requires IsOrder(order, keys) && k !in keys
    ensures IsOrder(order + [k], keys + {k})
  {
    OrderKeys(order, keys);
    var o := order + [k];
    forall j | j in keys + {k}
      ensures j in (set i | 0 <= i < |o| :: o[i])
    {
      if j == k {
        assert o[|order|] == k;
      } else {
        var i :| 0 <= i < |order| && order[i] == j;
        assert o[i] == j;
      }
    }
  }

  /** The state of a loop over a map: `order` has been visited, `rest` not, and `left` is the map on `rest`. */
  ghost predicate Turn<V>(order: seq<Bytes>, rest: set<Bytes>, left: map<Bytes, V>, whole: map<Bytes, V>) {
    && rest <= whole.Keys && left.Keys == rest && (forall j :: j in left ==> left[j] == whole[j])
    && IsOrder(order, whole.Keys - rest)
  }

  lemma TurnStart<V>(whole: map<Bytes, V>)
    ensures Turn([], whole.Keys, whole, whole)
  {
    assert whole.Keys - whole.Keys == {};
  }

  lemma TurnNext<V>(order: seq<Bytes>, rest: set<Bytes>, left: map<Bytes, V>, whole: map<Bytes, V>, k: Bytes)
    requires Turn(order, rest, left, whole) && k in rest
    ensures Turn(order + [k], rest - {k}, left - {k}, whole)
    ensures k in left && k in whole && left[k] == whole[k]
  {
    hide IsOrder;
    OrderAppend(order, whole.Keys - rest, k);
    assert whole.Keys - rest + {k} == whole.Keys - (rest - {k});
  }

  lemma TurnKeys<V>(order: seq<Bytes>, rest: set<Bytes>, left: map<Bytes, V>, whole: map<Bytes, V>)
    requires Turn(order, rest, left, whole)
    ensures forall j :: j in order ==> j in whole
    ensures rest == {} ==> left == map[] && IsOrder(order, whole.Keys)
  {
    OrderKeys(order, whole.Keys - rest);
    if rest == {} {
      assert whole.Keys - rest == whole.Keys;
    }
  }

  /** The loop over `m.Meta`, in whatever order the keys come. */
  method PutMeta(data: array<Byte>, i0: nat, meta: map<Bytes, Bytes>) returns (i: nat, ghost order: seq<Bytes>)
    requires i0 + SizeMeta(meta) <= data.Length
    modifies data
    ensures IsOrder(order, meta.Keys) && (forall j :: j in order ==> j in meta) && i == i0 + SizeMeta(meta)
    ensures data[..i] == old(data[..i0]) + MetaBytes(order, meta)
  {
    hide Entry, MetaBody, SizeEntry, SizeMetaBody, IsOrder, SizeMeta, MetaBytes, Turn;
    i, order := i0, [];
    var rest := meta.Keys;
    ghost var left := meta;
    ghost var before := data[..i0];
    NothingSizes();
    NothingBytes(meta, map[]);
    TurnStart(meta);
    while rest != {}
      invariant Turn(order, rest, left, meta) && (forall j :: j in order ==> j in meta)
      invariant i + SizeMeta(left) == i0 + SizeMeta(meta)
      invariant i >= i0 && data[..i] == before + MetaBytes(order, meta)
      decreases |rest|
    {
      var k :| k in rest;
      TurnNext(order, rest, left, meta, k);
      SizeMetaPick(left, k);
      MetaAppend(order, k, meta);
      Assoc(before, MetaBytes(order, meta), Entry(0x52, MetaBody(k, meta[k])));
      i := PutMetaEntry(data, i, k, meta[k]);
      rest, left, order := rest - {k}, left - {k}, order + [k];
    }
    TurnKeys(order, rest, left, meta);
  }

  method PutMetrics(data: array<Byte>, i0: nat, metrics: map<Bytes, U64>) returns (i: nat, ghost order: seq<Bytes>)
    requires i0 + SizeMetrics(metrics) <= data.Length
    modifies data
    ensures IsOrder(order, metrics.Keys) && (forall j :: j in order ==> j in metrics) && i == i0 + SizeMetrics(metrics)
    ensures data[..i] == old(data[..i0]) + MetricsBytes(order, metrics)
  {
    hide Entry, MetricBody, SizeEntry, SizeMetricBody, IsOrder, SizeMetrics, MetricsBytes, Turn;
    i, order := i0, [];
    var rest := metrics.Keys;
    ghost var left := metrics;
    ghost var before := data[..i0];
    NothingSizes();
    NothingBytes(map[], metrics);
    TurnStart(metrics);
    while rest != {}
      invariant Turn(order, rest, left, metrics) && (forall j :: j in order ==> j in metrics)
      invariant i + SizeMetrics(left) == i0 + SizeMetrics(metrics)
      invariant i >= i0 && data[..i] == before + MetricsBytes(order, metrics)
      decreases |rest|
    {
      var k :| k in rest;
      TurnNext(order, rest, left, metrics, k);
      SizeMetricsPick(left, k);
      MetricsAppend(order, k, metrics);
      Assoc(before, MetricsBytes(order, metrics), Entry(0x5a, MetricBody(k, metrics[k])));
      i := PutMetricEntry(data, i, k, metrics[k]);
      rest, left, order := rest - {k}, left - {k}, order + [k];
    }
    TurnKeys(order, rest, left, metrics);
  }

  lemma Assoc(a: Bytes, b: Bytes, c: Bytes)
    ensures (a + b) + c == a + (b + c)
  {
  }

  method PutHead(data: array<Byte>, i0: nat, m: Span) returns (i: nat)
    requires i0 + SizeHead(m) <= data.Length
    modifies data
    ensures i == i0 + SizeHead(m) && data[..i] == old(data[..i0]) + HeadBytes(m)
  {
    hide StringField, VarintField, SizeStringField, SizeVarintField, ToU64;
    ghost var before := data[..i0];
    i := PutString(data, i0, 0x0a, m.service);
    ghost var out := StringField(0x0a, m.service);
    i := PutString(data, i, 0x12, m.name);
    Assoc(before, out, StringField(0x12, m.name));
    out := out + StringField(0x12, m.name);
    i := PutString(data, i, 0x1a, m.resource);
    Assoc(before, out, StringField(0x1a, m.resource));
    out := out + StringField(0x1a, m.resource);
    i := PutVarintField(data, i, 0x20, m.traceID);
    Assoc(before, out, VarintField(0x20, m.traceID));
    out := out + VarintField(0x20, m.traceID);
    i := PutVarintField(data, i, 0x28, m.spanID);
    Assoc(before, out, VarintField(0x28, m.spanID));
    out := out + VarintField(0x28, m.spanID);
    i := PutVarintField(data, i, 0x30, m.parentID);
    Assoc(before, out, VarintField(0x30, m.parentID));
    out := out + VarintField(0x30, m.parentID);
    i := PutVarintField(data, i, 0x38, ToU64(m.start));
    Assoc(before, out, VarintField(0x38, ToU64(m.start)));
    out := out + VarintField(0x38, ToU64(m.start));
    i := PutVarintField(data, i, 0x40, ToU64(m.duration));
    Assoc(before, out, VarintField(0x40, ToU64(m.duration)));
    out := out + VarintField(0x40, ToU64(m.duration));
    i := PutVarintField(data, i, 0x48, ToU64(m.error));
    Assoc(before, out, VarintField(0x48, ToU64(m.error)));
  }

  /** MarshalTo: everything before `i0` stays, and an encoding of the span follows it. */
  method SpanMarshalTo(m: Span, data: array<Byte>, i0: nat) returns (i: nat, ghost b: Bytes)
    requires i0 + SizeSpan(m) <= data.Length
    modifies data
    ensures EncodesSpan(m, b) && i == i0 + |b| == i0 + SizeSpan(m)
    ensures data[..i] == old(data[..i0]) + b
  {
    hide HeadBytes, SizeHead, StringField, SizeStringField, MetaBytes, MetricsBytes, SizeMeta, SizeMetrics, IsOrder;
    i := PutHead(data, i0, m);
    ghost var o1, o2;
    i, o1 := PutMeta(data, i, m.meta);
    i, o2 := PutMetrics(data, i, m.metrics);
    i := PutString(data, i, 0x62, m.type_);
    b := SpanBytes(m, o1, o2);
    SpanSizeIsExact(m, o1, o2);
  }

  method SizeOfString(s: Bytes) returns (n: nat)
    ensures n == SizeStringField(s)
  {
    n := 0;
    if |s| > 0 {
      var v := Sov(|s|);
      n := 1 + |s| + v;
    }
  }

  method SizeOfVarint(v: U64) returns (n: nat)
    ensures n == SizeVarintField(v)
  {
    n := 0;
    if v != 0 {
      var s := Sov(v);
      n := 1 + s;
    }
  }

  lemma NothingSizes()
    ensures SizeMeta(map[]) == 0 && SizeMetrics(map[]) == 0
    ensures IsOrder([], {})
  {
  }

  lemma NothingBytes(meta: map<Bytes, Bytes>, metrics: map<Bytes, U64>)
    ensures MetaBytes([], meta) == [] && MetricsBytes([], metrics) == []
  {
  }

  method SizeOfEntry(body: nat) returns (n: nat)
    ensures n == SizeEntry(body)
  {
    var s := Sov(body);
    n := body + 1 + s;
  }

  method SizeOfMeta(meta: map<Bytes, Bytes>) returns (n: nat)
    ensures n == SizeMeta(meta)
  {
    hide SizeVarint, SizeMeta, SizeEntry, IsOrder, Turn;
    NothingSizes();
    n := 0;
    var rest := meta.Keys;
    ghost var left, order := meta, [];
    TurnStart(meta);
    while rest != {}
      invariant Turn(order, rest, left, meta) && n + SizeMeta(left) == SizeMeta(meta)
      decreases |rest|
    {
      var k :| k in rest;
      TurnNext(order, rest, left, meta, k);
      SizeMetaPick(left, k);
      var s1 := Sov(|k|);
      var s2 := Sov(|meta[k]|);
      var mapEntrySize := 1 + |k| + s1 + 1 + |meta[k]| + s2;
      var e := SizeOfEntry(mapEntrySize);
      n := n + e;
      rest, left, order := rest - {k}, left - {k}, order + [k];
    }
    TurnKeys(order, rest, left, meta);
  }

  method SizeOfMetrics(metrics: map<Bytes, U64>) returns (n: nat)
    ensures n == SizeMetrics(metrics)
  {
    hide SizeVarint, SizeMetrics, SizeEntry, IsOrder, Turn;
    NothingSizes();
    n := 0;
    var rest := metrics.Keys;
    ghost var left, order := metrics, [];
    TurnStart(metrics);
    while rest != {}
      invariant Turn(order, rest, left, metrics) && n + SizeMetrics(left) == SizeMetrics(metrics)
      decreases |rest|
    {
      var k :| k in rest;
      TurnNext(order, rest, left, metrics, k);
      SizeMetricsPick(left, k);
      var s1 := Sov(|k|);
      var mapEntrySize := 1 + |k| + s1 + 1 + 8;
      var e := SizeOfEntry(mapEntrySize);
      n := n + e;
      rest, left, order := rest - {k}, left - {k}, order + [k];
    }
    TurnKeys(order, rest, left, metrics);
  }

  /** Size: the number of bytes MarshalTo will write. */
  method SpanSize(m: Span) returns (n: nat)
    ensures n == SizeSpan(m)
    ensures forall b :: EncodesSpan(m, b) ==> |b| == n
  {
    hide SizeStringField, SizeVarintField, SizeMeta, SizeMetrics, EncodesSpan;
    var a1 := SizeOfString(m.service);
    var a2 := SizeOfString(m.name);
    var a3 := SizeOfString(m.resource);
    var a4 := SizeOfVarint(m.traceID);
    var a5 := SizeOfVarint(m.spanID);
    var a6 := SizeOfVarint(m.parentID);
    var a7 := SizeOfVarint(ToU64(m.start));
    var a8 := SizeOfVarint(ToU64(m.duration));
    var a9 := SizeOfVarint(ToU64(m.error));
    var a10 := SizeOfMeta(m.meta);
    var a11 := SizeOfMetrics(m.metrics);
    var a12 := SizeOfString(m.type_);
    n := a1 + a2 + a3 + a4 + a5 + a6 + a7 + a8 + a9 + a10 + a11 + a12;
    forall b | EncodesSpan(m, b)
      ensures |b| == n
    {
      EncodedSpan(m, b);
    }
  }

  /** Marshal: the buffer is exactly filled, and decoding it gives the span back. */
  method SpanMarshal(m: Span) returns (data: array<Byte>)
    ensures fresh(data) && EncodesSpan(m, data[..])
    ensures Fits(data[..]) ==> ParseSpan(data[..]) == Ok(m)
  {
    hide SizeSpan, EncodesSpan, ParseSpan;
    var size := SpanSize(m);
    data := new Byte[size];
    var n;
    ghost var b;
    n, b := SpanMarshalTo(m, data, 0);
    assert data[..] == data[..n] == b;
    EncodedSpan(m, b);
  }

  /** Unmarshal: the decoding loop over the fields, into a message that may hold something already. */
  method SpanUnmarshal(m0: Span, data: Bytes) returns (r: Result<Span>)
    ensures r == SpanLoop(data, 0, m0)
  {
    hide SpanField;
    var i := 0;
    var m := m0;
    while i < |data|
      invariant 0 <= i <= |data|
      invariant SpanLoop(data, i, m) == SpanLoop(data, 0, m0)
      decreases |data| - i
    {
      var f := GetField(data, i, m);
      if f.Err? {
        return Err(f.error);
      }
      m, i := f.value.0, f.value.1;
    }
    return Ok(m);
  }

  /** One round of that loop, with the field assignments as updates of the message. */
  method GetField(data: Bytes, i: nat, m0: Span) returns (r: Result<(Span, nat)>)
    requires i < |data|
    ensures r == SpanField(data, i, m0)
  {
    hide SkipField, ReadTag, ReadBytes, ReadVarint, ReadMeta, ReadMetric;
    var m := m0;
    var tag := GetTag(data, i);
    if tag.Err? {
      return Err(tag.error);
    }
    var (fieldNum, wireType, at) := tag.value;
    match fieldNum {
      case 1 => r := GetStringField(data, at, wireType, m, 1);
      case 2 => r := GetStringField(data, at, wireType, m, 2);
      case 3 => r := GetStringField(data, at, wireType, m, 3);
      case 12 => r := GetStringField(data, at, wireType, m, 12);
      case 4 => r := GetVarintField(data, at, wireType, m, 4);
      case 5 => r := GetVarintField(data, at, wireType, m, 5);
      case 6 => r := GetVarintField(data, at, wireType, m, 6);
      case 7 => r := GetVarintField(data, at, wireType, m, 7);
      case 8 => r := GetVarintField(data, at, wireType, m, 8);
      case 9 => r := GetVarintField(data, at, wireType, m, 9);
      case 10 =>
        if wireType != 2 {
          return Err(WrongWireType);
        }
        r := GetMeta(data, at, m);
      case 11 =>
        if wireType != 2 {
          return Err(WrongWireType);
        }
        r := GetMetric(data, at, m);
      case _ =>
        var next := GetSkip(data, i);
        r := if next.Err? then Err(next.error) else Ok((m, next.value));
    }
  }

  method GetStringField(data: Bytes, at: nat, wireType: nat, m: Span, n: int) returns (r: Result<(Span, nat)>)
    ensures r == if wireType != 2 then Err(WrongWireType)
                 else var b := ReadBytes(data, at); if b.Err? then Err(b.error) else Ok((SetString(m, n, b.value.0), b.value.1))
  {
    if wireType != 2 {
      return Err(WrongWireType);
    }
    var b := GetBytes(data, at);
    if b.Err? {
      return Err(b.error);
    }
    return Ok((SetString(m, n, b.value.0), b.value.1));
  }

  /** The length of a map entry: where its content begins, and where decoding goes on behind it. */
  method GetEntry(data: Bytes, i: nat) returns (r: Result<(nat, int)>)
    ensures r == ReadEntry(data, i)
  {
    hide ReadVarint;
    var length := GetVarint(data, i);
    if length.Err? {
      return Err(length.error);
    }
    var msglen, i1 := ToI64(length.value.0), length.value.1;
    if msglen < 0 {
      return Err(InvalidLength);
    }
    var postIndex := i1 + msglen;
    if postIndex >= 0x8000_0000_0000_0000 {
      postIndex := -1;
    }
    if postIndex > |data| {
      return Err(UnexpectedEOF);
    }
    return Ok((i1, postIndex));
  }

  /** The key or the value of an entry: its tag, which is not looked at, and its bytes. */
  method GetKey(data: Bytes, i: nat) returns (r: Result<(Bytes, nat)>)
    ensures r == ReadKey(data, i)
  {
    hide ReadVarint, ReadBytes;
    var keykey := GetVarint(data, i);
    if keykey.Err? {
      return Err(keykey.error);
    }
    r := GetBytes(data, keykey.value.1);
  }

  method GetMeta(data: Bytes, i: nat, m: Span) returns (r: Result<(Span, nat)>)
    ensures r == ReadMeta(data, i, m)
  {
    hide ReadEntry, ReadKey;
    var entry := GetEntry(data, i);
    if entry.Err? {
      return Err(entry.error);
    }
    var (at, postIndex) := entry.value;
    var key := GetKey(data, at);
    if key.Err? {
      return Err(key.error);
    }
    var mapvalue: Bytes := [];
    if key.value.1 < postIndex {
      var value := GetKey(data, key.value.1);
      if value.Err? {
        return Err(value.error);
      }
      mapvalue := value.value.0;
    }
    if postIndex < 0 {
      return Err(SliceOutOfRange);
    }
    return Ok((m.(meta := m.meta[key.value.0 := mapvalue]), postIndex));
  }

  method GetMetric(data: Bytes, i: nat, m: Span) returns (r: Result<(Span, nat)>)
    ensures r == ReadMetric(data, i, m)
  {
    hide ReadEntry, ReadKey, ReadVarint, ReadFixed64;
    var entry := GetEntry(data, i);
    if entry.Err? {
      return Err(entry.error);
    }
    var (at, postIndex) := entry.value;
    var key := GetKey(data, at);
    if key.Err? {
      return Err(key.error);
    }
    var mapvalue: U64 := 0;
    if key.value.1 < postIndex {
      var valuekey := GetVarint(data, key.value.1);
      if valuekey.Err? {
        return Err(valuekey.error);
      }
      var value := GetFixed64(data, valuekey.value.1);
      if value.Err? {
        return Err(value.error);
      }
      mapvalue := value.value.0;
    }
    if postIndex < 0 {
      return Err(SliceOutOfRange);
    }
    return Ok((m.(metrics := m.metrics[key.value.0 := mapvalue]), postIndex));
  }

  method GetVarintField(data: Bytes, at: nat, wireType: nat, m: Span, n: int) returns (r: Result<(Span, nat)>)
    ensures r == if wireType != 0 then Err(WrongWireType)
                 else var v := ReadVarint(data, at); if v.Err? then Err(v.error) else Ok((SetVarint(m, n, v.value.0), v.value.1))
  {
    if wireType != 0 {
      return Err(WrongWireType);
    }
    var v := GetVarint(data, at);
    if v.Err? {
      return Err(v.error);
    }
    return Ok((SetVarint(m, n, v.value.0), v.value.1));
  }
}
