/** model/statsraw.go, model/stats.go: the bucket that aggregates weighted spans and their sublayers, and its
    export. Weights and values are real numbers; a distribution is the sequence of the values inserted into it;
    tag sets are left out of the counts. */
module StatsRaw {
  import opened RealMaps
  import opened Division
  import G = Grains
  import L = Sublayers
  import W = StatsWriter

  datatype WeightedSpan = WeightedSpan(name: string, resource: string, service: string, start: int, duration: int,
                                       isError: bool, topLevel: bool, weight: real, meta: map<string, string>)

  type SublayerValue = L.SublayerValue

  datatype StatsKey = StatsKey(name: string, aggr: string)

  datatype StatsSubKey = StatsSubKey(name: string, measure: string, aggr: string)

  datatype GroupedStats = GroupedStats(topLevel: real, hits: real, errors: real, duration: real,
                                       durations: seq<int>, errDurations: seq<int>)

  datatype SublayerStats = SublayerStats(topLevel: real, value: int)

  datatype RawBucket = RawBucket(data: map<StatsKey, GroupedStats>, sublayerData: map<StatsSubKey, SublayerStats>)

  const NEW_BUCKET := RawBucket(map[], map[])
  const NEW_GROUP := GroupedStats(0.0, 0.0, 0.0, 0.0, [], [])
  const NEW_SUBLAYER := SublayerStats(0.0, 0)

  // ---------------------------------------------------------------- the precision of durations

  /** Shifting right until at most ten bits are left, and back. */
  function Truncated(ns: int): int {
    if ns > 1024 then 2 * Truncated(ns / 2) else ns
  }

  /** The power of two that has been shifted out. */
  function Unit(ns: int): (unit: int)
    ensures unit > 0
  {
    if ns > 1024 then 2 * Unit(ns / 2) else 1
  }

  /** A duration is rounded down to a multiple of its unit, which is less than one part in 512 of it. */
  lemma {:induction false} TruncatedToUnit(ns: int)
    ensures Truncated(ns) == ns - ns % Unit(ns)
    ensures ns > 1024 ==> 512 * Unit(ns) <= Truncated(ns)
    decreases ns
  {
    if ns > 1024 {
      TruncatedToUnit(ns / 2);
      HalfRemainder(ns, Unit(ns / 2));
    } else {
      NoRemainder(ns);
    }
  }

  lemma NoRemainder(ns: int)
    ensures ns % 1 == 0
  {
  }

  lemma HalfRemainder(ns: nat, unit: nat)
    requires unit > 0
    ensures ns % (2 * unit) == 2 * (ns / 2 % unit) + ns % 2
  {
    var half := ns / 2;
    var q, r, bit := half / unit, half % unit, ns % 2;
    assert half == unit * q + r && ns == 2 * half + bit;
    Doubled(unit, q);
    Quotient(ns, 2 * unit, q, 2 * r + bit);
  }

  lemma Doubled(unit: int, q: int)
    ensures 2 * (unit * q) == 2 * unit * q
  {
  }

  /** A duration loses less than one part in 512. */
  lemma TruncationError(ns: int)
    ensures Truncated(ns) <= ns
    ensures ns > 0 ==> 512 * (ns - Truncated(ns)) < ns
  {
    TruncatedToUnit(ns);
  }

  /** The documented precision of one part in 1024 holds if and only if the remainder is a small enough part of
      the multiple; up to 1024 nothing is lost. */
  lemma TruncationWithin1024(ns: int)
    ensures 1024 * (ns - Truncated(ns)) <= ns <==> 1023 * (ns % Unit(ns)) <= ns - ns % Unit(ns)
    ensures ns <= 1024 ==> Truncated(ns) == ns
  {
    TruncatedToUnit(ns);
  }

  /** It fails for 2051, which loses 3. */
  lemma TruncationCanExceedOneIn1024()
    ensures 1024 * (2051 - Truncated(2051)) > 2051
  {
    assert Truncated(512) == 512 && Truncated(1025) == 1024;
  }

  method NsTimestampToFloat(ns: int) returns (r: int)
    ensures r == Truncated(ns)
  {
    var rest, unit := ns, 1;
    while rest > 1024
      invariant unit > 0 && unit * Truncated(rest) == Truncated(ns)
      decreases rest
    {
      Regroup(unit, Truncated(rest / 2));
      rest, unit := rest / 2, 2 * unit;
    }
    r := rest * unit;
  }

  lemma Regroup(unit: int, x: int)
    ensures unit * (2 * x) == 2 * unit * x
  {
  }

  // ---------------------------------------------------------------- what a bucket counts

  datatype Measure = TopLevel | Hits | Errors | Duration | Sublayer(metric: string) | SublayerTopLevel(metric: string)

  const HITS := "hits"
  const ERRORS := "errors"
  const DURATION := "duration"

  function NameOf(m: Measure): string {
    match m
    case TopLevel => HITS
    case Hits => HITS
    case Errors => ERRORS
    case Duration => DURATION
    case Sublayer(metric) => metric
    case SublayerTopLevel(metric) => metric
  }

  predicate ReadsTopLevel(m: Measure) {
    m.TopLevel? || m.SublayerTopLevel?
  }

  predicate OfSublayers(m: Measure) {
    m.Sublayer? || m.SublayerTopLevel?
  }

  /** A name that is not one of the three measures of spans. */
  predicate Other(name: string) {
    name != HITS && name != ERRORS && name != DURATION
  }

  /** A measure whose name tells whether it is one of spans or of sublayers. */
  predicate Proper(m: Measure) {
    OfSublayers(m) ==> Other(NameOf(m))
  }

  function Of(g: GroupedStats, m: Measure): real {
    match m
    case TopLevel => g.topLevel
    case Hits => g.hits
    case Errors => g.errors
    case Duration => g.duration
    case _ => 0.0
  }

  function OfSub(ss: SublayerStats, m: Measure): real {
    if ReadsTopLevel(m) then ss.topLevel else ss.value as real
  }

  /** What a span adds to a measure by itself. */
  function AddsSpan(s: WeightedSpan, m: Measure): real {
    match m
    case TopLevel => if s.topLevel then s.weight else 0.0
    case Hits => s.weight
    case Errors => if s.isError then s.weight else 0.0
    case Duration => s.duration as real * s.weight
    case _ => 0.0
  }

  /** What one of its sublayers adds. */
  function AddsSub(s: WeightedSpan, sub: SublayerValue, m: Measure): real {
    match m
    case Sublayer(metric) => if sub.metric == metric then ToInt(s.weight * sub.value) as real else 0.0
    case SublayerTopLevel(metric) => if sub.metric == metric && s.topLevel then s.weight else 0.0
    case _ => 0.0
  }

  function AddsSubs(s: WeightedSpan, subs: seq<SublayerValue>, m: Measure): real {
    if subs == [] then 0.0 else AddsSubs(s, subs[..|subs| - 1], m) + AddsSub(s, subs[|subs| - 1], m)
  }

  function Adds(s: WeightedSpan, subs: seq<SublayerValue>, m: Measure): real {
    AddsSpan(s, m) + AddsSubs(s, subs, m)
  }

  function Grouped(g: GroupedStats, s: WeightedSpan): GroupedStats {
    GroupedStats(
      if s.topLevel then g.topLevel + s.weight else g.topLevel,
      g.hits + s.weight,
      if s.isError then g.errors + s.weight else g.errors,
      g.duration + s.duration as real * s.weight,
      g.durations + [Truncated(s.duration)],
      if s.isError then g.errDurations + [Truncated(s.duration)] else g.errDurations)
  }

  function GroupAt(b: RawBucket, key: StatsKey): GroupedStats {
    if key in b.data then b.data[key] else NEW_GROUP
  }

  function SublayerAt(b: RawBucket, key: StatsSubKey): SublayerStats {
    if key in b.sublayerData then b.sublayerData[key] else NEW_SUBLAYER
  }

  function WithSpan(b: RawBucket, s: WeightedSpan, aggr: string): RawBucket {
    var key := StatsKey(s.name, aggr);
    b.(data := b.data[key := Grouped(GroupAt(b, key), s)])
  }

  function SubKeyOf(s: WeightedSpan, aggr: string, sub: SublayerValue): StatsSubKey {
    StatsSubKey(s.name, sub.metric, aggr + "," + sub.tag.name + ":" + sub.tag.value)
  }

  function NextSublayer(ss: SublayerStats, s: WeightedSpan, sub: SublayerValue): SublayerStats {
    SublayerStats(if s.topLevel then ss.topLevel + s.weight else ss.topLevel, ss.value + ToInt(s.weight * sub.value))
  }

  function WithSublayer(b: RawBucket, s: WeightedSpan, aggr: string, sub: SublayerValue): RawBucket {
    var key := SubKeyOf(s, aggr, sub);
    b.(sublayerData := b.sublayerData[key := NextSublayer(SublayerAt(b, key), s, sub)])
  }

  function WithSublayers(b: RawBucket, s: WeightedSpan, aggr: string, subs: seq<SublayerValue>): RawBucket {
    if subs == [] then b
    else WithSublayer(WithSublayers(b, s, aggr, subs[..|subs| - 1]), s, aggr, subs[|subs| - 1])
  }

  /** The aggregation string of a span. */
  ghost function GrainOf(s: WeightedSpan, env: string, aggregators: seq<string>): string {
    G.Grain(env, s.resource, s.service, G.Picked(aggregators, s.meta))
  }

  /** The bucket with one more span and its sublayers. */
  ghost function Handled(b: RawBucket, s: WeightedSpan, env: string, aggregators: seq<string>, subs: seq<SublayerValue>): RawBucket {
    var aggr := GrainOf(s, env, aggregators);
    WithSublayers(WithSpan(b, s, aggr), s, aggr, subs)
  }

  function Column(b: RawBucket, m: Measure): map<StatsKey, real> {
    map key | key in b.data :: Of(b.data[key], m)
  }

  function SubColumn(b: RawBucket, m: Measure): map<StatsSubKey, real> {
    map key | key in b.sublayerData && key.measure == NameOf(m) :: OfSub(b.sublayerData[key], m)
  }

  /** What a bucket holds of a measure. */
  ghost function BucketTotal(b: RawBucket, m: Measure): real {
    if OfSublayers(m) then Total(SubColumn(b, m)) else Total(Column(b, m))
  }

  lemma SpanTotal(b: RawBucket, s: WeightedSpan, aggr: string, m: Measure)
    ensures BucketTotal(WithSpan(b, s, aggr), m) == BucketTotal(b, m) + AddsSpan(s, m)
  {
    var b' := WithSpan(b, s, aggr);
    if OfSublayers(m) {
      assert SubColumn(b', m) == SubColumn(b, m);
    } else {
      var key := StatsKey(s.name, aggr);
      ColumnWith(b, key, b'.data[key], m);
      SpanAdds(GroupAt(b, key), s, m);
      hide Column, AddsSpan, Of;
      TotalAdd(Column(b, m), key, AddsSpan(s, m));
    }
  }

  lemma ColumnWith(b: RawBucket, key: StatsKey, g: GroupedStats, m: Measure)
    ensures Column(b.(data := b.data[key := g]), m) == Column(b, m)[key := Of(g, m)]
    ensures Get(Column(b, m), key) == Of(GroupAt(b, key), m)
  {
    NewGroupHasNone(m);
    hide Of;
  }

  lemma NewGroupHasNone(m: Measure)
    ensures Of(NEW_GROUP, m) == 0.0
  {
  }

  lemma SpanAdds(g: GroupedStats, s: WeightedSpan, m: Measure)
    ensures Of(Grouped(g, s), m) == Of(g, m) + AddsSpan(s, m)
  {
  }

  lemma SubColumnWith(b: RawBucket, key: StatsSubKey, ss: SublayerStats, m: Measure)
    ensures var b' := b.(sublayerData := b.sublayerData[key := ss]);
            && Column(b', m) == Column(b, m)
            && SubColumn(b', m) == if key.measure == NameOf(m) then SubColumn(b, m)[key := OfSub(ss, m)] else SubColumn(b, m)
    ensures key.measure == NameOf(m) ==> Get(SubColumn(b, m), key) == OfSub(SublayerAt(b, key), m)
  {
    hide OfSub, NameOf;
    var b' := b.(sublayerData := b.sublayerData[key := ss]);
    if key.measure == NameOf(m) {
      assert SubColumn(b', m) == SubColumn(b, m)[key := OfSub(ss, m)];
      NothingOf(m);
    } else {
      assert SubColumn(b', m) == SubColumn(b, m);
    }
  }

  lemma NothingOf(m: Measure)
    ensures OfSub(NEW_SUBLAYER, m) == 0.0
  {
  }

  lemma SublayerTotal(b: RawBucket, s: WeightedSpan, aggr: string, sub: SublayerValue, m: Measure)
    ensures BucketTotal(WithSublayer(b, s, aggr, sub), m) == BucketTotal(b, m) + AddsSub(s, sub, m)
  {
    var b', key := WithSublayer(b, s, aggr, sub), SubKeyOf(s, aggr, sub);
    SubColumnWith(b, key, b'.sublayerData[key], m);
    SublayerAdds(b, s, aggr, sub, m);
    hide SubColumn, Column, WithSublayer, ToInt;
    if OfSublayers(m) && sub.metric == NameOf(m) {
      TotalAdd(SubColumn(b, m), key, AddsSub(s, sub, m));
    }
  }

  lemma SublayerAdds(b: RawBucket, s: WeightedSpan, aggr: string, sub: SublayerValue, m: Measure)
    ensures var b', key := WithSublayer(b, s, aggr, sub), SubKeyOf(s, aggr, sub);
            && key in b'.sublayerData && b' == b.(sublayerData := b.sublayerData[key := b'.sublayerData[key]])
            && (OfSublayers(m) && sub.metric == NameOf(m) ==>
                  OfSub(b'.sublayerData[key], m) == OfSub(SublayerAt(b, key), m) + AddsSub(s, sub, m))
            && (!(OfSublayers(m) && sub.metric == NameOf(m)) ==> AddsSub(s, sub, m) == 0.0)
  {
    var key := SubKeyOf(s, aggr, sub);
    var ss, x := SublayerAt(b, key), ToInt(s.weight * sub.value);
    hide ToInt;
    assert (ss.value + x) as real == ss.value as real + x as real;
    assert WithSublayer(b, s, aggr, sub).sublayerData[key] == NextSublayer(ss, s, sub);
  }

  lemma {:induction false} SublayersTotal(b: RawBucket, s: WeightedSpan, aggr: string, subs: seq<SublayerValue>, m: Measure)
    ensures BucketTotal(WithSublayers(b, s, aggr, subs), m) == BucketTotal(b, m) + AddsSubs(s, subs, m)
  {
    hide BucketTotal, WithSublayer, AddsSub;
    if subs != [] {
      var before := subs[..|subs| - 1];
      SublayersTotal(b, s, aggr, before, m);
      SublayerTotal(WithSublayers(b, s, aggr, before), s, aggr, subs[|subs| - 1], m);
    }
  }

  /** A span and its sublayers add exactly what they weigh to a bucket, whichever groups they join. */
  lemma HandledTotal(b: RawBucket, s: WeightedSpan, env: string, aggregators: seq<string>, subs: seq<SublayerValue>, m: Measure)
    ensures BucketTotal(Handled(b, s, env, aggregators, subs), m) == BucketTotal(b, m) + Adds(s, subs, m)
  {
    hide BucketTotal, WithSpan, WithSublayers, AddsSpan, AddsSubs;
    var aggr := GrainOf(s, env, aggregators);
    SpanTotal(b, s, aggr, m);
    SublayersTotal(WithSpan(b, s, aggr), s, aggr, subs, m);
  }

  lemma EmptyTotal(m: Measure)
    ensures BucketTotal(NEW_BUCKET, m) == 0.0
  {
    assert Column(NEW_BUCKET, m) == map[] && SubColumn(NEW_BUCKET, m) == map[];
  }

  // ---------------------------------------------------------------- adding a span

  method AddSpan(b: RawBucket, s: WeightedSpan, aggr: string) returns (b': RawBucket)
    ensures b' == WithSpan(b, s, aggr)
  {
    var key := StatsKey(s.name, aggr);
    var gs := NEW_GROUP;
    if key in b.data {
      gs := b.data[key];
    }
    if s.topLevel {
      gs := gs.(topLevel := gs.topLevel + s.weight);
    }
    gs := gs.(hits := gs.hits + s.weight);
    if s.isError {
      gs := gs.(errors := gs.errors + s.weight);
    }
    gs := gs.(duration := gs.duration + s.duration as real * s.weight);
    var trundur := NsTimestampToFloat(s.duration);
    gs := gs.(durations := gs.durations + [trundur]);
    if s.isError {
      gs := gs.(errDurations := gs.errDurations + [trundur]);
    }
    assert gs == Grouped(GroupAt(b, key), s);
    b' := b.(data := b.data[key := gs]);
  }

  method AddSublayer(b: RawBucket, s: WeightedSpan, aggr: string, sub: SublayerValue) returns (b': RawBucket)
    ensures b' == WithSublayer(b, s, aggr, sub)
  {
    var subAggr := aggr + "," + sub.tag.name + ":" + sub.tag.value;
    var key := StatsSubKey(s.name, sub.metric, subAggr);
    var ss := NEW_SUBLAYER;
    if key in b.sublayerData {
      ss := b.sublayerData[key];
    }
    if s.topLevel {
      ss := ss.(topLevel := ss.topLevel + s.weight);
    }
    ss := ss.(value := ss.value + ToInt(s.weight * sub.value));
    assert key == SubKeyOf(s, aggr, sub) && ss == NextSublayer(SublayerAt(b, key), s, sub);
    b' := b.(sublayerData := b.sublayerData[key := ss]);
  }

  /** Adds the span, and each of its sublayers, under the span's aggregation string. An empty env panics. */
  method HandleSpan(b: RawBucket, s: WeightedSpan, env: string, aggregators: seq<string>, sublayers: seq<SublayerValue>)
    returns (b': RawBucket)
    requires env != ""
    ensures b' == Handled(b, s, env, aggregators, sublayers)
  {
    var m := G.PickTags(aggregators, s.meta);
    var grain, tags := G.AssembleGrain(env, s.resource, s.service, m);
    b' := AddSpan(b, s, grain);
    ghost var b1 := b';
    for i := 0 to |sublayers|
      invariant b' == WithSublayers(b1, s, grain, sublayers[..i])
    {
      assert sublayers[..i + 1][..i] == sublayers[..i];
      b' := AddSublayer(b', s, grain, sublayers[i]);
    }
    assert sublayers[..|sublayers|] == sublayers;
  }

  // ---------------------------------------------------------------- keys of the exported counts

  function GrainKey(name: string, measure: string, aggr: string): string {
    name + "|" + measure + "|" + aggr
  }

  predicate NoBar(s: string) {
    '|' !in s
  }

  /** Two readings of a string around a bar, the first of them with no bar on its left. */
  lemma AfterBar(a: string, x: string, b: string, y: string)
    requires NoBar(a) && a + "|" + x == b + "|" + y
    ensures |a| == |b| ==> a == b && x == y
    ensures |a| != |b| ==> |a| < |b| && x == b[|a| + 1..] + "|" + y && !NoBar(x) && !NoBar(b)
  {
    var s := a + "|" + x;
    assert s[|a|] == '|' && s[|b|] == '|';
    assert forall i :: 0 <= i < |a| ==> s[i] == a[i];
    assert forall i :: 0 <= i < |b| ==> s[i] == b[i];
    assert a == s[..|a|] && b == s[..|b|];
    assert x == s[|a| + 1..] && y == s[|b| + 1..];
    if |a| < |b| {
      assert b[|a|] == '|';
      assert x == b[|a| + 1..] + "|" + y;
      assert x[|b| - |a| - 1] == '|';
    }
  }

  lemma KeyParts(name: string, measure: string, aggr: string)
    ensures GrainKey(name, measure, aggr) == name + "|" + (measure + "|" + aggr)
  {
  }

  /** Keys of names and measures without a bar do not collide. */
  lemma GrainKeyInjective(name: string, measure: string, aggr: string, name': string, measure': string, aggr': string)
    requires NoBar(name) && NoBar(measure) && NoBar(name') && NoBar(measure')
    requires GrainKey(name, measure, aggr) == GrainKey(name', measure', aggr')
    ensures name == name' && measure == measure' && aggr == aggr'
  {
    KeyParts(name, measure, aggr);
    KeyParts(name', measure', aggr');
    AfterBar(name, measure + "|" + aggr, name', measure' + "|" + aggr');
    AfterBar(measure, aggr, measure', aggr');
  }

  ghost predicate SecondReading(name: string, measure: string, aggr: string, name': string, measure': string, aggr': string) {
    && GrainKey(name, measure, aggr) == GrainKey(name', measure', aggr')
    && !(name == name' && measure == measure' && aggr == aggr')
  }

  /** A key can be read in a second way if and only if the name, the measure or the aggregation string has a bar. */
  lemma GrainKeyMisread(name: string, measure: string, aggr: string)
    ensures (exists name', measure', aggr' :: SecondReading(name, measure, aggr, name', measure', aggr')) <==>
            !NoBar(name) || !NoBar(measure) || !NoBar(aggr)
  {
    if !NoBar(name) || !NoBar(measure) || !NoBar(aggr) {
      BarMisleads(name, measure, aggr);
    } else {
      forall name', measure', aggr'
        ensures !SecondReading(name, measure, aggr, name', measure', aggr')
      {
        OnlyReading(name, measure, aggr, name', measure', aggr');
      }
    }
  }

  lemma OnlyReading(name: string, measure: string, aggr: string, name': string, measure': string, aggr': string)
    requires NoBar(name) && NoBar(measure) && NoBar(aggr)
    ensures !SecondReading(name, measure, aggr, name', measure', aggr')
  {
    if GrainKey(name, measure, aggr) == GrainKey(name', measure', aggr') {
      KeyParts(name, measure, aggr);
      KeyParts(name', measure', aggr');
      AfterBar(name, measure + "|" + aggr, name', measure' + "|" + aggr');
      HasBar(measure', aggr');
      if |name| == |name'| {
        AfterBar(measure, aggr, measure', aggr');
      } else {
        AfterBar(measure, aggr, name'[|name| + 1..], measure' + "|" + aggr');
      }
    }
  }

  lemma HasBar(p: string, q: string)
    ensures !NoBar(p + "|" + q)
  {
    assert (p + "|" + q)[|p|] == '|';
  }

  /** The string around its first bar. */
  lemma AtBar(s: string) returns (p: string, q: string)
    requires !NoBar(s)
    ensures s == p + "|" + q
  {
    var i :| 0 <= i < |s| && s[i] == '|';
    p, q := s[..i], s[i + 1..];
    assert s == s[..i] + [s[i]] + s[i + 1..];
  }

  /** A name, measure or aggregation string with a bar always has a colliding name, measure and aggregation string. */
  lemma BarMisleads(name: string, measure: string, aggr: string)
    requires !NoBar(name) || !NoBar(measure) || !NoBar(aggr)
    ensures exists name', measure', aggr' :: SecondReading(name, measure, aggr, name', measure', aggr')
  {
    var name', measure', aggr' := name, measure, aggr;
    if !NoBar(name) {
      var p, q := AtBar(name);
      name', measure', aggr' := p, q, measure + "|" + aggr;
      assert p + "|" + q + "|" + measure + "|" + aggr == p + "|" + q + "|" + (measure + "|" + aggr);
    } else if !NoBar(measure) {
      var p, q := AtBar(measure);
      measure', aggr' := p, q + "|" + aggr;
      assert name + "|" + (p + "|" + q) + "|" + aggr == name + "|" + p + "|" + (q + "|" + aggr);
    } else {
      var p, q := AtBar(aggr);
      name', measure', aggr' := name + "|" + measure, p, q;
      assert name + "|" + measure + "|" + (p + "|" + q) == name + "|" + measure + "|" + p + "|" + q;
    }
    assert SecondReading(name, measure, aggr, name', measure', aggr');
  }

  // ---------------------------------------------------------------- export

  /** How a measure is read off an exported count. */
  function Read(c: W.Count, m: Measure): real {
    if c.measure != NameOf(m) then 0.0 else if ReadsTopLevel(m) then c.topLevel else c.value
  }

  function Reading(m: Measure): W.Count -> real {
    c => Read(c, m)
  }

  /** What the exported counts hold of a measure. */
  function Exported(counts: map<string, W.Count>, m: Measure): map<string, real> {
    map k | k in counts :: Read(counts[k], m)
  }

  ghost function CountTotal(counts: map<string, W.Count>, m: Measure): real {
    Total(Exported(counts, m))
  }

  function CountKey(key: StatsKey, m: Measure): string {
    GrainKey(key.name, NameOf(m), key.aggr)
  }

  function SubCountKey(key: StatsSubKey): string {
    GrainKey(key.name, key.measure, key.aggr)
  }

  function CountFor(key: StatsKey, g: GroupedStats, m: Measure): W.Count {
    W.Count(CountKey(key, m), key.name, NameOf(m), g.topLevel, Of(g, m))
  }

  function SubCountFor(key: StatsSubKey, ss: SublayerStats): W.Count {
    W.Count(SubCountKey(key), key.name, key.measure, ss.topLevel, ss.value as real)
  }

  function DistributionFor(key: StatsKey, g: GroupedStats, summary: seq<int>): W.Distribution {
    W.Distribution(CountKey(key, Duration), key.name, DURATION, g.topLevel, summary)
  }

  lemma NamesDiffer()
    ensures HITS != ERRORS && HITS != DURATION && ERRORS != DURATION
    ensures NoBar(HITS) && NoBar(ERRORS) && NoBar(DURATION)
  {
    assert HITS[0] == 'h' && ERRORS[0] == 'e' && DURATION[0] == 'd';
  }

  lemma OneCount(counts: map<string, W.Count>, c: W.Count, m: Measure)
    requires c.key !in counts
    ensures CountTotal(counts[c.key := c], m) == CountTotal(counts, m) + Read(c, m)
  {
    assert Exported(counts[c.key := c], m) == Exported(counts, m)[c.key := Get(Exported(counts, m), c.key) + Read(c, m)];
    TotalAdd(Exported(counts, m), c.key, Read(c, m));
  }

  /** The export of a bucket with one more group, and with one more sublayer. */
  function WithExport(out: W.StatsBucket, key: StatsKey, g: GroupedStats): W.StatsBucket {
    var hits, errors, duration := CountFor(key, g, Hits), CountFor(key, g, Errors), CountFor(key, g, Duration);
    var d, e := DistributionFor(key, g, g.durations), DistributionFor(key, g, g.errDurations);
    out.(counts := out.counts[hits.key := hits][errors.key := errors][duration.key := duration],
         distributions := out.distributions[d.key := d],
         errDistributions := out.errDistributions[e.key := e])
  }

  function WithSubExport(out: W.StatsBucket, key: StatsSubKey, ss: SublayerStats): W.StatsBucket {
    out.(counts := out.counts[SubCountKey(key) := SubCountFor(key, ss)])
  }

  /** Names without a bar, and sublayer metrics without a bar that are none of the three measures. */
  ghost predicate Clean(b: RawBucket) {
    && (forall key :: key in b.data ==> NoBar(key.name))
    && (forall key :: key in b.sublayerData ==> CleanSubKey(key))
  }

  predicate CleanSubKey(key: StatsSubKey) {
    NoBar(key.name) && NoBar(key.measure) && Other(key.measure)
  }

  /** Every exported key is one of the three of some group, or that of a sublayer. */
  ghost predicate Known(counts: map<string, W.Count>, b: RawBucket) {
    forall k :: k in counts ==>
                  || (exists key, m: Measure :: key in b.data && !OfSublayers(m) && k == CountKey(key, m))
                  || (exists key :: key in b.sublayerData && k == SubCountKey(key))
  }

  /** What is exported for one group, and for one sublayer. */
  ghost predicate HasGroup(out: W.StatsBucket, key: StatsKey, g: GroupedStats) {
    && (forall m: Measure :: m in {Hits, Errors, Duration} ==> CountKey(key, m) in out.counts && out.counts[CountKey(key, m)] == CountFor(key, g, m))
    && CountKey(key, Duration) in out.distributions
    && out.distributions[CountKey(key, Duration)] == DistributionFor(key, g, g.durations)
    && CountKey(key, Duration) in out.errDistributions
    && out.errDistributions[CountKey(key, Duration)] == DistributionFor(key, g, g.errDurations)
  }

  ghost predicate HasSublayer(out: W.StatsBucket, key: StatsSubKey, ss: SublayerStats) {
    SubCountKey(key) in out.counts && out.counts[SubCountKey(key)] == SubCountFor(key, ss)
  }

  /** An exported bucket has exactly the groups and sublayers of the raw bucket and the same totals. */
  ghost predicate IsExport(out: W.StatsBucket, b: RawBucket) {
    && (forall key :: key in b.data ==> HasGroup(out, key, b.data[key]))
    && (forall key :: key in b.sublayerData ==> HasSublayer(out, key, b.sublayerData[key]))
    && Known(out.counts, b) && W.Counted(out)
    && (forall m :: Proper(m) ==> CountTotal(out.counts, m) == BucketTotal(b, m))
  }

  /** The metrics that sublayers are reported under. */
  lemma SublayerMetrics(metric: string)
    requires metric in [L.BY_SERVICE, L.BY_TYPE, L.SPAN_COUNT]
    ensures NoBar(metric) && Other(metric)
  {
    assert metric[0] == '_';
  }

  lemma CountKeysDiffer(key: StatsKey, m: Measure, key': StatsKey, m': Measure)
    requires NoBar(key.name) && NoBar(key'.name) && !OfSublayers(m) && !OfSublayers(m') && CountKey(key, m) == CountKey(key', m')
    ensures key == key' && NameOf(m) == NameOf(m')
  {
    NamesDiffer();
    GrainKeyInjective(key.name, NameOf(m), key.aggr, key'.name, NameOf(m'), key'.aggr);
  }

  lemma SubKeysDiffer(key: StatsSubKey, key': StatsSubKey)
    requires CleanSubKey(key) && CleanSubKey(key') && key != key'
    ensures SubCountKey(key) != SubCountKey(key')
  {
    if SubCountKey(key) == SubCountKey(key') {
      GrainKeyInjective(key.name, key.measure, key.aggr, key'.name, key'.measure, key'.aggr);
    }
  }

  lemma GroupIsNoSublayer(key: StatsKey, m: Measure, sub: StatsSubKey)
    requires NoBar(key.name) && !OfSublayers(m) && CleanSubKey(sub)
    ensures CountKey(key, m) != SubCountKey(sub)
  {
    NamesDiffer();
    if CountKey(key, m) == SubCountKey(sub) {
      GrainKeyInjective(key.name, NameOf(m), key.aggr, sub.name, sub.measure, sub.aggr);
    }
  }

  /** The keys of a new group are not in use, nor is that of a new sublayer. */
  lemma FreshKey(counts: map<string, W.Count>, b: RawBucket, key: StatsKey, m: Measure)
    requires Known(counts, b) && Clean(b) && key !in b.data && NoBar(key.name) && !OfSublayers(m)
    ensures CountKey(key, m) !in counts
  {
    hide CountKey, SubCountKey;
    if CountKey(key, m) in counts {
      if key', m' :| key' in b.data && !OfSublayers(m') && CountKey(key, m) == CountKey(key', m') {
        CountKeysDiffer(key, m, key', m');
      } else {
        var sub :| sub in b.sublayerData && CountKey(key, m) == SubCountKey(sub);
        GroupIsNoSublayer(key, m, sub);
      }
    }
  }

  lemma FreshSubKey(counts: map<string, W.Count>, b: RawBucket, key: StatsSubKey)
    requires Known(counts, b) && Clean(b) && key !in b.sublayerData && CleanSubKey(key)
    ensures SubCountKey(key) !in counts
  {
    hide CountKey, SubCountKey;
    if SubCountKey(key) in counts {
      if key', m' :| key' in b.data && !OfSublayers(m') && SubCountKey(key) == CountKey(key', m') {
        GroupIsNoSublayer(key', m', key);
      } else {
        var sub :| sub in b.sublayerData && SubCountKey(key) == SubCountKey(sub);
        SubKeysDiffer(key, sub);
      }
    }
  }

  lemma ThreeKeys(key: StatsKey)
    requires NoBar(key.name)
    ensures CountKey(key, Hits) != CountKey(key, Errors) && CountKey(key, Hits) != CountKey(key, Duration)
    ensures CountKey(key, Errors) != CountKey(key, Duration)
  {
    NamesDiffer();
    if CountKey(key, Hits) == CountKey(key, Errors) {
      CountKeysDiffer(key, Hits, key, Errors);
    }
    if CountKey(key, Hits) == CountKey(key, Duration) {
      CountKeysDiffer(key, Hits, key, Duration);
    }
    if CountKey(key, Errors) == CountKey(key, Duration) {
      CountKeysDiffer(key, Errors, key, Duration);
    }
  }

  lemma WithGroupTotal(out: W.StatsBucket, b: RawBucket, key: StatsKey, g: GroupedStats, m: Measure)
    requires Known(out.counts, b) && Clean(b) && key !in b.data && NoBar(key.name) && Proper(m)
    ensures CountTotal(WithExport(out, key, g).counts, m) == CountTotal(out.counts, m) + Of(g, m)
  {
    FreshKey(out.counts, b, key, Hits);
    FreshKey(out.counts, b, key, Errors);
    FreshKey(out.counts, b, key, Duration);
    ThreeKeys(key);
    NamesDiffer();
    hide CountKey, CountTotal, Known, Clean;
    var hits, errors, duration := CountFor(key, g, Hits), CountFor(key, g, Errors), CountFor(key, g, Duration);
    var counts1 := out.counts[hits.key := hits];
    var counts2 := counts1[errors.key := errors];
    OneCount(out.counts, hits, m);
    OneCount(counts1, errors, m);
    OneCount(counts2, duration, m);
  }

  lemma GroupTotal(b: RawBucket, key: StatsKey, g: GroupedStats, m: Measure)
    requires key !in b.data
    ensures BucketTotal(b.(data := b.data[key := g]), m) == BucketTotal(b, m) + Of(g, m)
  {
    var b' := b.(data := b.data[key := g]);
    if OfSublayers(m) {
      assert SubColumn(b', m) == SubColumn(b, m);
    } else {
      TotalAdd(Column(b, m), key, Of(g, m));
      assert Column(b', m) == Column(b, m)[key := Get(Column(b, m), key) + Of(g, m)];
    }
  }

  lemma SubTotal(b: RawBucket, key: StatsSubKey, ss: SublayerStats, m: Measure)
    requires key !in b.sublayerData && Proper(m) && CleanSubKey(key)
    ensures BucketTotal(b.(sublayerData := b.sublayerData[key := ss]), m) == BucketTotal(b, m) + Read(SubCountFor(key, ss), m)
  {
    SubColumnWith(b, key, ss, m);
    NothingOf(m);
    SubCountRead(key, ss, m);
    hide SubColumn, Column, SubCountFor, Read;
    if OfSublayers(m) && key.measure == NameOf(m) {
      TotalAdd(SubColumn(b, m), key, OfSub(ss, m));
    }
  }

  lemma SubCountRead(key: StatsSubKey, ss: SublayerStats, m: Measure)
    requires Proper(m) && CleanSubKey(key)
    ensures Read(SubCountFor(key, ss), m) == if OfSublayers(m) && key.measure == NameOf(m) then OfSub(ss, m) else 0.0
  {
  }

  /** Apart from the group or sublayer exported the bucket is the same, and distributions still come with counts. */
  lemma SameBucket(out: W.StatsBucket, key: StatsKey, g: GroupedStats)
    ensures var out' := WithExport(out, key, g);
            out'.start == out.start && out'.duration == out.duration && (W.Counted(out) ==> W.Counted(out'))
  {
    hide CountKey;
  }

  lemma OldGroupStays(out: W.StatsBucket, key: StatsKey, g: GroupedStats, k: StatsKey, gk: GroupedStats)
    requires HasGroup(out, k, gk) && k != key && NoBar(k.name) && NoBar(key.name)
    ensures HasGroup(WithExport(out, key, g), k, gk)
  {
    forall m: Measure, m': Measure | !OfSublayers(m) && !OfSublayers(m')
      ensures CountKey(k, m) != CountKey(key, m')
    {
      if CountKey(k, m) == CountKey(key, m') {
        CountKeysDiffer(k, m, key, m');
      }
    }
    hide CountKey;
  }

  lemma NewGroupIsThere(out: W.StatsBucket, key: StatsKey, g: GroupedStats)
    requires NoBar(key.name)
    ensures HasGroup(WithExport(out, key, g), key, g)
  {
    ThreeKeys(key);
    hide CountKey;
  }

  lemma KnownWithGroup(out: W.StatsBucket, b: RawBucket, key: StatsKey, g: GroupedStats)
    requires Known(out.counts, b)
    ensures Known(WithExport(out, key, g).counts, b.(data := b.data[key := g]))
  {
    hide CountKey, SubCountKey;
    var counts', b' := WithExport(out, key, g).counts, b.(data := b.data[key := g]);
    forall k | k in counts'
      ensures (exists key', m: Measure :: key' in b'.data && !OfSublayers(m) && k == CountKey(key', m)) ||
              (exists sub :: sub in b'.sublayerData && k == SubCountKey(sub))
    {
      if k in out.counts {
        if key', m :| key' in b.data && !OfSublayers(m) && k == CountKey(key', m) {
          assert key' in b'.data;
        } else {
          var sub :| sub in b.sublayerData && k == SubCountKey(sub);
          assert sub in b'.sublayerData;
        }
      } else {
        assert key in b'.data && (k == CountKey(key, Hits) || k == CountKey(key, Errors) || k == CountKey(key, Duration));
      }
    }
  }

  lemma KnownWithSub(out: W.StatsBucket, b: RawBucket, key: StatsSubKey, ss: SublayerStats)
    requires Known(out.counts, b)
    ensures Known(WithSubExport(out, key, ss).counts, b.(sublayerData := b.sublayerData[key := ss]))
  {
    hide CountKey, SubCountKey;
    var counts', b' := WithSubExport(out, key, ss).counts, b.(sublayerData := b.sublayerData[key := ss]);
    forall k | k in counts'
      ensures (exists key', m: Measure :: key' in b'.data && !OfSublayers(m) && k == CountKey(key', m)) ||
              (exists sub :: sub in b'.sublayerData && k == SubCountKey(sub))
    {
      if k == SubCountKey(key) {
        assert key in b'.sublayerData;
      } else {
        if key', m :| key' in b.data && !OfSublayers(m) && k == CountKey(key', m) {
          assert key' in b'.data;
        } else {
          var sub :| sub in b.sublayerData && k == SubCountKey(sub);
          assert sub in b'.sublayerData;
        }
      }
    }
  }

  /** Exporting one more group overwrites none of the earlier ones and adds its totals. */
  lemma ExportNext(out: W.StatsBucket, b: RawBucket, key: StatsKey, g: GroupedStats)
    requires IsExport(out, b) && key !in b.data && NoBar(key.name) && Clean(b) && b.sublayerData == map[]
    ensures IsExport(WithExport(out, key, g), b.(data := b.data[key := g]))
  {
    hide CountKey, CountTotal, BucketTotal, Of, WithExport, HasGroup, Known, W.Counted, Proper;
    var out', b' := WithExport(out, key, g), b.(data := b.data[key := g]);
    forall m | Proper(m)
      ensures CountTotal(out'.counts, m) == BucketTotal(b', m)
    {
      WithGroupTotal(out, b, key, g, m);
      GroupTotal(b, key, g, m);
    }
    NewGroupIsThere(out, key, g);
    forall k | k in b.data
      ensures HasGroup(out', k, b.data[k])
    {
      OldGroupStays(out, key, g, k, b.data[k]);
    }
    KnownWithGroup(out, b, key, g);
    SameBucket(out, key, g);
  }

  /** Exporting one more sublayer overwrites nothing and adds its values. */
  lemma ExportSubNext(out: W.StatsBucket, b: RawBucket, key: StatsSubKey, ss: SublayerStats)
    requires IsExport(out, b) && key !in b.sublayerData && CleanSubKey(key) && Clean(b)
    ensures IsExport(WithSubExport(out, key, ss), b.(sublayerData := b.sublayerData[key := ss]))
  {
    hide CountTotal, BucketTotal, Known, Proper, Clean, CleanSubKey, HasGroup, HasSublayer, WithSubExport, W.Counted;
    var out', b' := WithSubExport(out, key, ss), b.(sublayerData := b.sublayerData[key := ss]);
    FreshSubKey(out.counts, b, key);
    KnownWithSub(out, b, key, ss);
    OneSubExport(out, key, ss, Hits);
    forall m | Proper(m)
      ensures CountTotal(out'.counts, m) == BucketTotal(b', m)
    {
      OneSubExport(out, key, ss, m);
      SubTotal(b, key, ss, m);
    }
    forall k | k in b.data
      ensures HasGroup(out', k, b.data[k])
    {
      GroupUntouched(out, key, ss, k, b.data[k]);
    }
    forall k | k in b'.sublayerData
      ensures HasSublayer(out', k, b'.sublayerData[k])
    {
      if k != key {
        SublayerUntouched(out, key, ss, k, b.sublayerData[k]);
      }
    }
  }

  lemma OneSubExport(out: W.StatsBucket, key: StatsSubKey, ss: SublayerStats, m: Measure)
    requires SubCountKey(key) !in out.counts
    ensures CountTotal(WithSubExport(out, key, ss).counts, m) == CountTotal(out.counts, m) + Read(SubCountFor(key, ss), m)
    ensures HasSublayer(WithSubExport(out, key, ss), key, ss)
    ensures W.Counted(out) ==> W.Counted(WithSubExport(out, key, ss))
  {
    hide SubCountKey, CountTotal;
    OneCount(out.counts, SubCountFor(key, ss), m);
  }

  lemma SublayerUntouched(out: W.StatsBucket, key: StatsSubKey, ss: SublayerStats, k: StatsSubKey, sk: SublayerStats)
    requires HasSublayer(out, k, sk) && SubCountKey(key) !in out.counts
    ensures HasSublayer(WithSubExport(out, key, ss), k, sk)
  {
    hide SubCountKey;
  }

  lemma GroupUntouched(out: W.StatsBucket, key: StatsSubKey, ss: SublayerStats, k: StatsKey, g: GroupedStats)
    requires HasGroup(out, k, g) && SubCountKey(key) !in out.counts
    ensures HasGroup(WithSubExport(out, key, ss), k, g)
  {
    hide CountKey, SubCountKey;
  }

  lemma NothingExported(out: W.StatsBucket)
    requires out.counts == map[] && out.distributions == map[] && out.errDistributions == map[]
    ensures IsExport(out, NEW_BUCKET)
  {
    forall m | Proper(m)
      ensures CountTotal(out.counts, m) == BucketTotal(NEW_BUCKET, m)
    {
      EmptyTotal(m);
      assert Exported(out.counts, m) == map[];
    }
  }

  /** One group: its three counts and its two distributions. */
  method ExportGroup(out: W.StatsBucket, key: StatsKey, v: GroupedStats) returns (out': W.StatsBucket)
    ensures out' == WithExport(out, key, v)
  {
    hide GrainKey;
    var hitsKey := GrainKey(key.name, HITS, key.aggr);
    out' := out.(counts := out.counts[hitsKey := W.Count(hitsKey, key.name, HITS, v.topLevel, v.hits)]);
    var errorsKey := GrainKey(key.name, ERRORS, key.aggr);
    out' := out'.(counts := out'.counts[errorsKey := W.Count(errorsKey, key.name, ERRORS, v.topLevel, v.errors)]);
    var durationKey := GrainKey(key.name, DURATION, key.aggr);
    out' := out'.(counts := out'.counts[durationKey := W.Count(durationKey, key.name, DURATION, v.topLevel, v.duration)],
                  distributions := out'.distributions[durationKey :=
                    W.Distribution(durationKey, key.name, DURATION, v.topLevel, v.durations)],
                  errDistributions := out'.errDistributions[durationKey :=
                    W.Distribution(durationKey, key.name, DURATION, v.topLevel, v.errDurations)]);
  }

  /** Exporting a bucket: no two groups or sublayers meet under one key, and nothing is lost. */
  method Export(b: RawBucket, start: int, duration: int) returns (out: W.StatsBucket)
    requires Clean(b)
    ensures out.start == start && out.duration == duration && IsExport(out, b)
  {
    hide IsExport, WithExport, Clean;
    out := W.StatsBucket(start, duration, map[], map[], map[]);
    NothingExported(out);
    var rest := b.data.Keys;
    ghost var done := NEW_BUCKET;
    while |rest| > 0
      invariant out.start == start && out.duration == duration && IsExport(out, done)
      invariant Covers(b.data, done.data, rest) && done.sublayerData == map[]
      decreases |rest|
    {
      ghost var member := HasMember(rest);
      var key :| key in rest;
      CoversNext(b.data, done.data, rest, key);
      CleanPart(b, done);
      CleanGroup(b, key);
      ExportNext(out, done, key, b.data[key]);
      SameBucket(out, key, b.data[key]);
      out := ExportGroup(out, key, b.data[key]);
      done := done.(data := done.data[key := b.data[key]]);
      rest := rest - {key};
    }
    CoversAll(b.data, done.data, rest);
    out := ExportSublayers(b, out, done);
  }

  method ExportSublayer(out: W.StatsBucket, key: StatsSubKey, v: SublayerStats) returns (out': W.StatsBucket)
    ensures out' == WithSubExport(out, key, v) && out'.start == out.start && out'.duration == out.duration
  {
    hide GrainKey;
    var subKey := GrainKey(key.name, key.measure, key.aggr);
    out' := out.(counts := out.counts[subKey := W.Count(subKey, key.name, key.measure, v.topLevel, v.value as real)]);
  }

  /** The second loop. */
  method ExportSublayers(b: RawBucket, before: W.StatsBucket, ghost done0: RawBucket) returns (out: W.StatsBucket)
    requires Clean(b) && IsExport(before, done0) && done0 == RawBucket(b.data, map[])
    ensures out.start == before.start && out.duration == before.duration && IsExport(out, b)
  {
    hide IsExport, Clean, Covers, WithSubExport;
    out := before;
    NoneCovered(b.sublayerData);
    var rest := b.sublayerData.Keys;
    ghost var done := done0;
    while |rest| > 0
      invariant out.start == before.start && out.duration == before.duration && IsExport(out, done)
      invariant Covers(b.sublayerData, done.sublayerData, rest) && done.data == b.data
      decreases |rest|
    {
      ghost var member := HasMember(rest);
      var key :| key in rest;
      CoversNext(b.sublayerData, done.sublayerData, rest, key);
      CleanPart(b, done);
      CleanSubAt(b, key);
      var v := b.sublayerData[key];
      ExportSubNext(out, done, key, v);
      out := ExportSublayer(out, key, v);
      done := done.(sublayerData := done.sublayerData[key := v]);
      rest := rest - {key};
    }
    CoversAll(b.sublayerData, done.sublayerData, rest);
    assert done == RawBucket(b.data, b.sublayerData);
  }

  /** `done` is the map without the keys in `rest`. */
  ghost predicate Covers<K, V>(m: map<K, V>, done: map<K, V>, rest: set<K>) {
    done.Keys !! rest && done.Keys + rest == m.Keys && forall key :: key in done ==> done[key] == m[key]
  }

  lemma NoneCovered<K, V>(m: map<K, V>)
    ensures Covers(m, map[], m.Keys)
  {
  }

  lemma CoversNext<K, V>(m: map<K, V>, done: map<K, V>, rest: set<K>, key: K)
    requires Covers(m, done, rest) && key in rest
    ensures key in m && key !in done && Covers(m, done[key := m[key]], rest - {key})
    ensures done.Keys <= m.Keys
  {
    assert key in m.Keys;
  }

  lemma CoversAll<K, V>(m: map<K, V>, done: map<K, V>, rest: set<K>)
    requires Covers(m, done, rest) && |rest| == 0
    ensures done == m
  {
    assert rest == {};
    assert done.Keys == m.Keys;
  }

  lemma CleanPart(b: RawBucket, part: RawBucket)
    requires Clean(b) && part.data.Keys <= b.data.Keys && part.sublayerData.Keys <= b.sublayerData.Keys
    ensures Clean(part)
  {
    assert forall key :: key in part.data ==> key in b.data.Keys;
    assert forall key :: key in part.sublayerData ==> key in b.sublayerData.Keys;
  }

  lemma CleanGroup(b: RawBucket, key: StatsKey)
    requires Clean(b) && key in b.data
    ensures NoBar(key.name)
  {
  }

  lemma CleanSubAt(b: RawBucket, key: StatsSubKey)
    requires Clean(b) && key in b.sublayerData
    ensures CleanSubKey(key)
  {
  }
}
