/** cmd/trace-agent/concentrator.go: the weighted spans of processed traces, aggregated by the time bucket of
    their end, and flushed to the stats writer. Raw buckets are values in the concentrator's map. */
module Concentrators {
  import opened RealMaps
  import opened Division
  import opened StatsRaw
  import opened StatsGroups
  import W = StatsWriter

  /** A bucket starts at a timestamp. */
  datatype Slot = Slot(ts: int)

  /** The spans of a trace, its environment, and the sublayer values of some of its spans. */
  datatype ProcessedTrace = ProcessedTrace(spans: seq<WeightedSpan>, env: string, sublayers: map<nat, seq<SublayerValue>>)

  // ---------------------------------------------------------------- buckets in time

  /** The remainder truncates toward zero. */
  function Rem(a: int, b: int): int
    requires b > 0
  {
    if a >= 0 then a % b else -((-a) % b)
  }

  function BucketStart(end: int, bsize: int): int
    requires bsize > 0
  {
    end - Rem(end, bsize)
  }

  function End(s: WeightedSpan): int {
    s.start + s.duration
  }

  lemma MultipleOf(q: int, b: int)
    requires b > 0
    ensures (q * b) % b == 0
  {
    var k, r := q * b / b, (q * b) % b;
    assert q * b == k * b + r;
    assert b * (q - k) == r;
    Multiple(b, q - k);
  }

  /** A span's bucket starts on a multiple of the bucket size and holds its end, exactly unless the end is
      negative and off the grid. */
  lemma BucketHoldsEnd(end: int, bsize: int)
    requires bsize > 0
    ensures BucketStart(end, bsize) % bsize == 0
    ensures BucketStart(end, bsize) <= end < BucketStart(end, bsize) + bsize <==> end >= 0 || end % bsize == 0
  {
    if end >= 0 {
      assert BucketStart(end, bsize) == end / bsize * bsize;
      MultipleOf(end / bsize, bsize);
    } else {
      var m := -end;
      assert BucketStart(end, bsize) == -(m / bsize) * bsize;
      MultipleOf(-(m / bsize), bsize);
      MultipleOf(-(m / bsize), bsize);
      NegativeRemainder(m, bsize);
    }
  }

  lemma NegativeRemainder(m: int, b: int)
    requires b > 0 && m >= 0
    ensures m % b == 0 <==> (-m) % b == 0
  {
    var q, q' := m / b, (-m) / b;
    assert m == q * b + m % b && -m == q' * b + (-m) % b;
    if m % b == 0 {
      MultipleOf(-q, b);
      assert -m == -q * b;
    }
    if (-m) % b == 0 {
      MultipleOf(-q', b);
      assert m == -q' * b;
    }
  }

  /** The bucket starting at `ts` holds this end: it is a multiple of the bucket size, and the end lies in the bucket,
      or in the one before it if it is negative. */
  predicate InBucket(end: int, ts: int, bsize: int)
    requires bsize > 0
  {
    ts % bsize == 0 && if end >= 0 then ts <= end < ts + bsize else ts - bsize < end <= ts
  }

  /** A span ending then goes to that bucket and to no other. */
  lemma BucketIs(end: int, ts: int, bsize: int)
    requires bsize > 0
    ensures ts == BucketStart(end, bsize) <==> InBucket(end, ts, bsize)
  {
    var start := BucketStart(end, bsize);
    BucketHoldsEnd(end, bsize);
    if end < 0 {
      assert -end % bsize >= 0 && -end % bsize < bsize;
    }
    if InBucket(end, ts, bsize) {
      SameMultiple(start, ts, bsize);
    }
  }

  lemma SameMultiple(a: int, b: int, m: int)
    requires m > 0 && a % m == 0 && b % m == 0 && -m < a - b < m
    ensures a == b
  {
    var q, q' := a / m, b / m;
    assert a == m * q && b == m * q';
    Apart(m, q, q');
    Multiple(m, q - q');
  }

  lemma Apart(m: int, q: int, q': int)
    ensures m * (q - q') == m * q - m * q'
  {
  }

  // ---------------------------------------------------------------- the concentrator

  /** The buckets' totals of a measure. */
  ghost function Totals(buckets: map<Slot, RawBucket>, m: Measure): map<Slot, real> {
    map slot | slot in buckets :: BucketTotal(buckets[slot], m)
  }

  ghost function Resident(buckets: map<Slot, RawBucket>, m: Measure): real {
    Total(Totals(buckets, m))
  }

  function BucketAt(buckets: map<Slot, RawBucket>, slot: Slot): RawBucket {
    if slot in buckets then buckets[slot] else NEW_BUCKET
  }

  lemma NothingResident(m: Measure)
    ensures Resident(map[], m) == 0.0
  {
    assert Totals(map[], m) == map[];
  }

  function SlotOf(s: WeightedSpan, bsize: int): Slot
    requires bsize > 0
  {
    Slot(BucketStart(End(s), bsize))
  }

  /** The samples that go to a bucket. */
  function InSlot(xs: seq<Sample>, slot: Slot, bsize: int): seq<Sample>
    requires bsize > 0
  {
    if xs == [] then []
    else
      var x := xs[|xs| - 1];
      InSlot(xs[..|xs| - 1], slot, bsize) +
      if InBucket(x.span.start + x.span.duration, slot.ts, bsize) then [x] else []
  }

  /** The samples left when the buckets up to `limit` are gone. */
  function After(xs: seq<Sample>, limit: int, bsize: int): seq<Sample>
    requires bsize > 0
  {
    if xs == [] then []
    else
      var x := xs[|xs| - 1];
      After(xs[..|xs| - 1], limit, bsize) + if SlotOf(x.span, bsize).ts > limit then [x] else []
  }

  /** Each bucket has the groups of the samples that go to it, and there is one exactly where some do. */
  ghost predicate Holds(buckets: map<Slot, RawBucket>, xs: seq<Sample>, bsize: int, aggregators: seq<string>)
    requires bsize > 0
  {
    forall slot: Slot :: (slot in buckets <==> InSlot(xs, slot, bsize) != []) &&
                         Describes(BucketAt(buckets, slot), InSlot(xs, slot, bsize), aggregators)
  }

  lemma HoldsNothing(bsize: int, aggregators: seq<string>)
    requires bsize > 0
    ensures Holds(map[], [], bsize, aggregators)
  {
    NothingToTell(aggregators);
  }

  lemma TakenHolds(buckets: map<Slot, RawBucket>, xs: seq<Sample>, x: Sample, bsize: int, aggregators: seq<string>)
    requires bsize > 0 && Holds(buckets, xs, bsize, aggregators)
    ensures Holds(Taken(buckets, x, bsize, aggregators), xs + [x], bsize, aggregators)
  {
    hide Describes, Handled, BucketStart, InBucket, InSlot, SlotOf;
    var slot0, buckets' := SlotOf(x.span, bsize), Taken(buckets, x, bsize, aggregators);
    forall slot: Slot
      ensures slot in buckets' <==> InSlot(xs + [x], slot, bsize) != []
      ensures Describes(BucketAt(buckets', slot), InSlot(xs + [x], slot, bsize), aggregators)
    {
      SlotNext(xs, x, slot, bsize);
      if slot == slot0 {
        HandledDescribed(BucketAt(buckets, slot), InSlot(xs, slot, bsize), x, aggregators);
      }
    }
  }

  lemma SlotNext(xs: seq<Sample>, x: Sample, slot: Slot, bsize: int)
    requires bsize > 0
    ensures InSlot(xs + [x], slot, bsize) ==
            if slot == SlotOf(x.span, bsize) then InSlot(xs, slot, bsize) + [x] else InSlot(xs, slot, bsize)
  {
    hide BucketStart, InBucket;
    BucketIs(x.span.start + x.span.duration, slot.ts, bsize);
    assert (xs + [x])[..|xs|] == xs;
    assert InSlot(xs, slot, bsize) + [] == InSlot(xs, slot, bsize);
  }

  lemma NoSamples(slot: Slot, limit: int, bsize: int)
    requires bsize > 0
    ensures InSlot([], slot, bsize) == [] && After([], limit, bsize) == []
  {
  }

  lemma AfterLast(xs: seq<Sample>, limit: int, bsize: int)
    requires bsize > 0 && xs != []
    ensures var front, x := xs[..|xs| - 1], xs[|xs| - 1];
            After(xs, limit, bsize) ==
            if SlotOf(x.span, bsize).ts > limit then After(front, limit, bsize) + [x] else After(front, limit, bsize)
  {
    hide BucketStart;
  }

  lemma {:induction false} SlotAfter(xs: seq<Sample>, limit: int, slot: Slot, bsize: int)
    requires bsize > 0
    ensures InSlot(After(xs, limit, bsize), slot, bsize) == if slot.ts > limit then InSlot(xs, slot, bsize) else []
  {
    hide BucketStart, InBucket, InSlot, After, SlotOf;
    NoSamples(slot, limit, bsize);
    if xs != [] {
      var front, x := xs[..|xs| - 1], xs[|xs| - 1];
      assert xs == front + [x];
      SlotAfter(front, limit, slot, bsize);
      AfterLast(xs, limit, bsize);
      SlotNext(front, x, slot, bsize);
      SlotNext(After(front, limit, bsize), x, slot, bsize);
    }
  }

  /** What a flush leaves holds what is left of the samples. */
  lemma AfterHolds(buckets: map<Slot, RawBucket>, buckets': map<Slot, RawBucket>, xs: seq<Sample>, limit: int, bsize: int,
                   aggregators: seq<string>)
    requires bsize > 0 && Holds(buckets, xs, bsize, aggregators)
    requires forall slot :: slot in buckets' <==> slot in buckets && slot.ts > limit
    requires forall slot :: slot in buckets' ==> buckets'[slot] == buckets[slot]
    ensures Holds(buckets', After(xs, limit, bsize), bsize, aggregators)
  {
    hide Describes, InSlot, After;
    NothingToTell(aggregators);
    forall slot: Slot
      ensures slot in buckets' <==> InSlot(After(xs, limit, bsize), slot, bsize) != []
      ensures Describes(BucketAt(buckets', slot), InSlot(After(xs, limit, bsize), slot, bsize), aggregators)
    {
      SlotAfter(xs, limit, slot, bsize);
    }
  }

  /** One sample more, in the bucket of its end. */
  ghost function Taken(buckets: map<Slot, RawBucket>, x: Sample, bsize: int, aggregators: seq<string>): map<Slot, RawBucket>
    requires bsize > 0
  {
    var slot := SlotOf(x.span, bsize);
    buckets[slot := Handled(BucketAt(buckets, slot), x.span, x.env, aggregators, x.sublayers)]
  }

  ghost function TakenAll(buckets: map<Slot, RawBucket>, xs: seq<Sample>, bsize: int, aggregators: seq<string>): map<Slot, RawBucket>
    requires bsize > 0
  {
    if xs == [] then buckets
    else Taken(TakenAll(buckets, xs[..|xs| - 1], bsize, aggregators), xs[|xs| - 1], bsize, aggregators)
  }

  lemma NoneTaken(t: ProcessedTrace, buckets: map<Slot, RawBucket>, bsize: int, aggregators: seq<string>)
    requires bsize > 0
    ensures Samples(t, 0) == [] && TakenAll(buckets, [], bsize, aggregators) == buckets
  {
  }

  lemma TakenNext(buckets: map<Slot, RawBucket>, xs: seq<Sample>, x: Sample, bsize: int, aggregators: seq<string>)
    requires bsize > 0
    ensures TakenAll(buckets, xs + [x], bsize, aggregators) ==
            Taken(TakenAll(buckets, xs, bsize, aggregators), x, bsize, aggregators)
  {
    hide Taken;
    assert (xs + [x])[..|xs|] == xs;
  }

  /** A sample joins one bucket, and the buckets together hold more by exactly what it weighs. */
  lemma TakenResident(buckets: map<Slot, RawBucket>, x: Sample, bsize: int, aggregators: seq<string>, m: Measure)
    requires bsize > 0
    ensures Resident(Taken(buckets, x, bsize, aggregators), m) == Resident(buckets, m) + Adds(x.span, x.sublayers, m)
  {
    hide BucketTotal, Handled, Adds, BucketStart;
    var slot := SlotOf(x.span, bsize);
    var b := BucketAt(buckets, slot);
    EmptyTotal(m);
    HandledTotal(b, x.span, x.env, aggregators, x.sublayers, m);
    TotalAdd(Totals(buckets, m), slot, Adds(x.span, x.sublayers, m));
    assert Totals(Taken(buckets, x, bsize, aggregators), m) ==
           Totals(buckets, m)[slot := Get(Totals(buckets, m), slot) + Adds(x.span, x.sublayers, m)];
  }

  lemma RemovedResident(buckets: map<Slot, RawBucket>, slot: Slot, m: Measure)
    requires slot in buckets
    ensures Resident(buckets - {slot}, m) == Resident(buckets, m) - BucketTotal(buckets[slot], m)
  {
    hide BucketTotal;
    TotalRemove(Totals(buckets, m), slot);
    assert Totals(buckets - {slot}, m) == Totals(buckets, m) - {slot};
  }

  /** The samples of the first n spans of a trace: its top-level spans. */
  function Samples(t: ProcessedTrace, n: nat): seq<Sample>
    requires n <= |t.spans|
  {
    if n == 0 then []
    else Samples(t, n - 1) + if t.spans[n - 1].topLevel then [SampleOf(t, n - 1)] else []
  }

  function SampleOf(t: ProcessedTrace, i: nat): Sample
    requires i < |t.spans|
  {
    Sample(t.spans[i], t.env, if i in t.sublayers then t.sublayers[i] else [])
  }

  /** The samples are the top-level spans in trace order, each with the environment of the trace and the sublayers of the
      span. */
  lemma {:induction false} SamplesAre(t: ProcessedTrace, n: nat) returns (indices: seq<nat>)
    requires n <= |t.spans|
    ensures |Samples(t, n)| == |indices| && forall i, j :: 0 <= i < j < |indices| ==> indices[i] < indices[j]
    ensures forall i: nat :: i in indices <==> i < n && t.spans[i].topLevel
    ensures forall j :: 0 <= j < |indices| && indices[j] < |t.spans| ==>
              var i := indices[j];
              Samples(t, n)[j] == Sample(t.spans[i], t.env, if i in t.sublayers then t.sublayers[i] else [])
  {
    indices := [];
    if n > 0 {
      indices := SamplesAre(t, n - 1);
      if t.spans[n - 1].topLevel {
        assert forall j :: 0 <= j < |indices| ==> indices[j] in indices;
        indices := indices + [n - 1];
      }
    }
  }

  lemma SamplesNext(t: ProcessedTrace, i: nat)
    requires i < |t.spans|
    ensures if t.spans[i].topLevel
            then Samples(t, i + 1) == Samples(t, i) + [SampleOf(t, i)] && Samples(t, i + 1)[..|Samples(t, i)|] == Samples(t, i)
            else Samples(t, i + 1) == Samples(t, i)
    ensures SampleOf(t, i).env == t.env && SampleOf(t, i).span == t.spans[i]
  {
  }

  ghost function AcceptedTotal(accepted: seq<Sample>, m: Measure): real {
    if accepted == [] then 0.0
    else
      var x := accepted[|accepted| - 1];
      AcceptedTotal(accepted[..|accepted| - 1], m) + Adds(x.span, x.sublayers, m)
  }

  ghost function FlushedTotal(flushed: seq<W.StatsBucket>, m: Measure): real {
    if flushed == [] then 0.0
    else FlushedTotal(flushed[..|flushed| - 1], m) + CountTotal(flushed[|flushed| - 1].counts, m)
  }

  /** Everything accepted is resident or flushed, measure by measure. */
  ghost predicate Conserved(buckets: map<Slot, RawBucket>, flushed: seq<W.StatsBucket>, accepted: seq<Sample>) {
    forall m :: Proper(m) ==> Resident(buckets, m) + FlushedTotal(flushed, m) == AcceptedTotal(accepted, m)
  }

  ghost predicate AllClean(buckets: map<Slot, RawBucket>) {
    forall slot :: slot in buckets ==> Clean(buckets[slot])
  }

  /** A sample with names as the normalizer leaves them and metrics as ComputeSublayers makes them. */
  predicate CleanSample(x: Sample) {
    NoBar(x.span.name) && forall sub :: sub in x.sublayers ==> NoBar(sub.metric) && Other(sub.metric)
  }

  predicate CleanTrace(t: ProcessedTrace) {
    forall i :: 0 <= i < |t.spans| && t.spans[i].topLevel ==> CleanSample(SampleOf(t, i))
  }

  lemma TakeConserves(buckets: map<Slot, RawBucket>, flushed: seq<W.StatsBucket>, accepted: seq<Sample>,
                      x: Sample, bsize: int, aggregators: seq<string>)
    requires Conserved(buckets, flushed, accepted) && bsize > 0
    ensures Conserved(Taken(buckets, x, bsize, aggregators), flushed, accepted + [x])
  {
    hide Resident, FlushedTotal, Taken, Adds, Proper;
    assert (accepted + [x])[..|accepted|] == accepted;
    forall m | Proper(m)
      ensures Resident(Taken(buckets, x, bsize, aggregators), m) + FlushedTotal(flushed, m) == AcceptedTotal(accepted + [x], m)
    {
      TakenResident(buckets, x, bsize, aggregators, m);
    }
  }

  lemma FlushConserves(buckets: map<Slot, RawBucket>, flushed: seq<W.StatsBucket>, accepted: seq<Sample>,
                       slot: Slot, out: W.StatsBucket)
    requires Conserved(buckets, flushed, accepted) && slot in buckets && IsExport(out, buckets[slot])
    ensures Conserved(buckets - {slot}, flushed + [out], accepted)
  {
    hide Resident, AcceptedTotal, BucketTotal, CountTotal, Proper;
    assert (flushed + [out])[..|flushed|] == flushed;
    forall m | Proper(m)
      ensures Resident(buckets - {slot}, m) + FlushedTotal(flushed + [out], m) == AcceptedTotal(accepted, m)
    {
      RemovedResident(buckets, slot, m);
    }
  }

  lemma {:induction false} SublayersClean(b: RawBucket, s: WeightedSpan, aggr: string, subs: seq<SublayerValue>)
    requires Clean(b) && NoBar(s.name) && forall sub :: sub in subs ==> NoBar(sub.metric) && Other(sub.metric)
    ensures Clean(WithSublayers(b, s, aggr, subs))
  {
    hide NextSublayer;
    if subs != [] {
      SublayersClean(b, s, aggr, subs[..|subs| - 1]);
      assert subs[|subs| - 1] in subs;
    }
  }

  lemma HandledClean(b: RawBucket, s: WeightedSpan, env: string, aggregators: seq<string>, subs: seq<SublayerValue>)
    requires Clean(b) && NoBar(s.name) && forall sub :: sub in subs ==> NoBar(sub.metric) && Other(sub.metric)
    ensures Clean(Handled(b, s, env, aggregators, subs))
  {
    SublayersClean(WithSpan(b, s, GrainOf(s, env, aggregators)), s, GrainOf(s, env, aggregators), subs);
  }

  lemma TakenClean(buckets: map<Slot, RawBucket>, x: Sample, bsize: int, aggregators: seq<string>)
    requires AllClean(buckets) && CleanSample(x) && bsize > 0
    ensures AllClean(Taken(buckets, x, bsize, aggregators))
  {
    hide Handled, BucketStart;
    HandledClean(BucketAt(buckets, SlotOf(x.span, bsize)), x.span, x.env, aggregators, x.sublayers);
  }

  class Concentrator {
    const aggregators: seq<string>
    const bsize: int
    var buckets: map<Slot, RawBucket>
    ghost var accepted: seq<Sample>
    ghost var pending: seq<Sample>
    ghost var flushed: seq<W.StatsBucket>

    ghost predicate Valid()
      reads this
    {
      && bsize > 0 && AllClean(buckets) && Conserved(buckets, flushed, accepted)
      && Holds(buckets, pending, bsize, aggregators)
    }

    constructor (aggregators: seq<string>, bsize: int)
      requires bsize > 0
      ensures Valid() && this.bsize == bsize && this.aggregators == aggregators
      ensures accepted == [] && pending == [] && flushed == [] && buckets == map[]
    {
      this.aggregators, this.bsize := aggregators, bsize;
      buckets, accepted, pending, flushed := map[], [], [], [];
      new;
      HoldsNothing(bsize, aggregators);
      forall m: Measure
        ensures Resident(buckets, m) == 0.0
      {
        NothingResident(m);
      }
    }

    /** Each top-level span goes to the bucket of its end, with its sublayers; the others are skipped. */
    method Add(t: ProcessedTrace)
      requires Valid() && CleanTrace(t) && ((exists s :: s in t.spans && s.topLevel) ==> t.env != "")
      modifies this
      ensures Valid() && buckets == TakenAll(old(buckets), Samples(t, |t.spans|), bsize, aggregators)
      ensures accepted == old(accepted) + Samples(t, |t.spans|) && flushed == old(flushed)
      ensures pending == old(pending) + Samples(t, |t.spans|)
    {
      hide Conserved, Taken, AllClean, CleanSample, SampleOf, Holds, TakenAll, Samples;
      NoneTaken(t, buckets, bsize, aggregators);
      for i := 0 to |t.spans|
        invariant Valid() && flushed == old(flushed)
        invariant buckets == TakenAll(old(buckets), Samples(t, i), bsize, aggregators)
        invariant accepted == old(accepted) + Samples(t, i) && pending == old(pending) + Samples(t, i)
      {
        SamplesNext(t, i);
        if !t.spans[i].topLevel {
          continue;
        }
        assert t.spans[i] in t.spans;
        TakenNext(old(buckets), Samples(t, i), SampleOf(t, i), bsize, aggregators);
        AddSample(SampleOf(t, i));
      }
    }

    method AddSample(x: Sample)
      requires Valid() && CleanSample(x) && x.env != ""
      modifies this
      ensures Valid() && buckets == Taken(old(buckets), x, bsize, aggregators)
      ensures accepted == old(accepted) + [x] && pending == old(pending) + [x] && flushed == old(flushed)
    {
      hide Conserved, Handled, BucketStart, AllClean, CleanSample, Holds;
      TakenHolds(buckets, pending, x, bsize, aggregators);
      TakeConserves(buckets, flushed, accepted, x, bsize, aggregators);
      TakenClean(buckets, x, bsize, aggregators);
      var btime := Slot(BucketStart(End(x.span), bsize));
      var b := NEW_BUCKET;
      if btime in buckets {
        b := buckets[btime];
      }
      b := HandleSpan(b, x.span, x.env, aggregators, x.sublayers);
      buckets := buckets[btime := b];
      accepted := accepted + [x];
      pending := pending + [x];
    }

    /** Flushes the buckets that are at least two bucket lengths old: each once, exported. */
    method Flush(now: int) returns (sb: seq<W.StatsBucket>)
      requires Valid()
      modifies this
      ensures Valid() && accepted == old(accepted) && flushed == old(flushed) + sb
      ensures forall slot :: slot in buckets <==> slot in old(buckets) && slot.ts > now - 2 * bsize
      ensures forall slot :: slot in buckets ==> buckets[slot] == old(buckets)[slot]
      ensures W.DistinctWindows(sb) && forall b :: b in sb ==> W.Counted(b)
      ensures forall b :: b in sb ==> b.duration == bsize && Slot(b.start) in old(buckets) && b.start <= now - 2 * bsize
      ensures forall b :: b in sb ==> IsExport(b, old(buckets)[Slot(b.start)])
      ensures pending == After(old(pending), now - 2 * bsize, bsize)
      ensures forall b :: b in sb ==> Reports(b, InSlot(old(pending), Slot(b.start), bsize), aggregators)
    {
      hide Holds, Reports, Describes;
      hide Conserved, IsExport, Clean, AllClean, W.Counted, FlushedFrom, Remaining, W.DistinctWindows;
      sb := [];
      NothingFlushed(buckets, now, bsize);
      var rest := buckets.Keys;
      while |rest| > 0
        invariant rest <= old(buckets).Keys && bsize > 0 && AllClean(buckets) && Conserved(buckets, flushed, accepted)
        invariant accepted == old(accepted) && pending == old(pending) && flushed == old(flushed) + sb
        invariant Remaining(old(buckets), buckets, rest, now, bsize)
        invariant FlushedFrom(old(buckets), sb, rest, now, bsize)
        decreases |rest|
      {
        ghost var member := HasMember(rest);
        var slot :| slot in rest;
        FlushNext(old(buckets), buckets, sb, rest, slot, now, bsize);
        rest := rest - {slot};
        CleanAt(buckets, slot);
        var bucket := Export(buckets[slot], slot.ts, bsize);
        if slot.ts > now - 2 * bsize {
          continue;
        }
        FlushOne(old(buckets), sb, rest, slot, bucket, now, bsize);
        FlushConserves(buckets, flushed, accepted, slot, bucket);
        CleanWithout(buckets, slot);
        sb := sb + [bucket];
        flushed := flushed + [bucket];
        buckets := buckets - {slot};
      }
      assert rest == {};
      FlushEnds(old(buckets), buckets, sb, rest, now, bsize);
      pending := After(pending, now - 2 * bsize, bsize);
      AfterHolds(old(buckets), buckets, old(pending), now - 2 * bsize, bsize, aggregators);
      FlushReports(old(buckets), old(pending), sb, bsize, aggregators);
    }
  }

  /** The buckets that are left once those not in `rest` have been looked at. */
  ghost predicate Remaining(before: map<Slot, RawBucket>, buckets: map<Slot, RawBucket>, rest: set<Slot>, now: int, bsize: int) {
    && (forall slot :: slot in buckets <==> slot in before && (slot in rest || slot.ts > now - 2 * bsize))
    && (forall slot :: slot in buckets ==> buckets[slot] == before[slot])
  }

  /** The exports of old buckets not in `rest`, each once. */
  ghost predicate FlushedFrom(before: map<Slot, RawBucket>, sb: seq<W.StatsBucket>, rest: set<Slot>, now: int, bsize: int) {
    && (forall i :: 0 <= i < |sb| ==> Slot(sb[i].start) in before && Slot(sb[i].start) !in rest)
    && (forall i :: 0 <= i < |sb| ==> sb[i].duration == bsize && sb[i].start <= now - 2 * bsize)
    && (forall i :: 0 <= i < |sb| ==> IsExport(sb[i], before[Slot(sb[i].start)]))
    && (forall i, j :: 0 <= i < j < |sb| ==> sb[i].start != sb[j].start)
  }

  lemma NothingFlushed(buckets: map<Slot, RawBucket>, now: int, bsize: int)
    ensures FlushedFrom(buckets, [], buckets.Keys, now, bsize) && Remaining(buckets, buckets, buckets.Keys, now, bsize)
  {
  }

  lemma FlushNext(before: map<Slot, RawBucket>, buckets: map<Slot, RawBucket>, sb: seq<W.StatsBucket>, rest: set<Slot>,
                  slot: Slot, now: int, bsize: int)
    requires Remaining(before, buckets, rest, now, bsize) && FlushedFrom(before, sb, rest, now, bsize)
    requires slot in rest && rest <= before.Keys
    ensures slot in buckets && buckets[slot] == before[slot] && FlushedFrom(before, sb, rest - {slot}, now, bsize)
    ensures slot.ts > now - 2 * bsize ==> Remaining(before, buckets, rest - {slot}, now, bsize)
    ensures slot.ts <= now - 2 * bsize ==> Remaining(before, buckets - {slot}, rest - {slot}, now, bsize)
    ensures forall i :: 0 <= i < |sb| ==> Slot(sb[i].start) != slot
  {
    hide IsExport;
    assert slot in before.Keys;
  }

  lemma FlushOne(before: map<Slot, RawBucket>, sb: seq<W.StatsBucket>, rest: set<Slot>, slot: Slot, out: W.StatsBucket,
                 now: int, bsize: int)
    requires FlushedFrom(before, sb, rest, now, bsize) && slot in before && slot !in rest && slot.ts <= now - 2 * bsize
    requires out.start == slot.ts && out.duration == bsize && IsExport(out, before[slot])
    requires forall i :: 0 <= i < |sb| ==> Slot(sb[i].start) != slot
    ensures FlushedFrom(before, sb + [out], rest, now, bsize)
  {
    hide IsExport;
    assert Slot(out.start) == slot;
  }

  lemma FlushEnds(before: map<Slot, RawBucket>, buckets: map<Slot, RawBucket>, sb: seq<W.StatsBucket>, rest: set<Slot>,
                  now: int, bsize: int)
    requires Remaining(before, buckets, rest, now, bsize) && FlushedFrom(before, sb, rest, now, bsize) && rest == {}
    ensures forall slot :: slot in buckets <==> slot in before && slot.ts > now - 2 * bsize
    ensures forall slot :: slot in buckets ==> buckets[slot] == before[slot]
    ensures W.DistinctWindows(sb) && forall b :: b in sb ==> W.Counted(b)
    ensures forall b :: b in sb ==> b.duration == bsize && Slot(b.start) in before && b.start <= now - 2 * bsize
    ensures forall b :: b in sb ==> IsExport(b, before[Slot(b.start)])
  {
    hide IsExport, W.Counted;
    forall b | b in sb
      ensures W.Counted(b)
    {
      ExportCounted(b, before[Slot(b.start)]);
    }
  }

  lemma FlushReports(buckets: map<Slot, RawBucket>, xs: seq<Sample>, sb: seq<W.StatsBucket>, bsize: int,
                     aggregators: seq<string>)
    requires bsize > 0 && Holds(buckets, xs, bsize, aggregators)
    requires forall b :: b in sb ==> Slot(b.start) in buckets && IsExport(b, buckets[Slot(b.start)])
    ensures forall b :: b in sb ==> Reports(b, InSlot(xs, Slot(b.start), bsize), aggregators)
  {
    hide Describes, IsExport, InSlot, Reports;
    forall b | b in sb
      ensures Reports(b, InSlot(xs, Slot(b.start), bsize), aggregators)
    {
      assert Describes(BucketAt(buckets, Slot(b.start)), InSlot(xs, Slot(b.start), bsize), aggregators);
      ExportReports(b, buckets[Slot(b.start)], InSlot(xs, Slot(b.start), bsize), aggregators);
    }
  }

  lemma ExportCounted(out: W.StatsBucket, b: RawBucket)
    requires IsExport(out, b)
    ensures W.Counted(out)
  {
  }

  lemma CleanAt(buckets: map<Slot, RawBucket>, slot: Slot)
    requires AllClean(buckets) && slot in buckets
    ensures Clean(buckets[slot])
  {
  }

  lemma CleanWithout(buckets: map<Slot, RawBucket>, slot: Slot)
    requires AllClean(buckets)
    ensures AllClean(buckets - {slot})
  {
  }

  // ---------------------------------------------------------------- from spans to payloads

  /** What is read off the counts of a bucket is what it holds of the measure. */
  lemma {:induction false} BucketReading(b: W.StatsBucket, m: Measure)
    ensures Total(W.BucketValues(b, Reading(m))) == CountTotal(b.counts, m)
    decreases |b.counts|
  {
    if b.counts == map[] {
      assert W.BucketValues(b, Reading(m)) == map[] && Exported(b.counts, m) == map[];
    } else {
      var k :| k in b.counts;
      BucketReading(b.(counts := b.counts - {k}), m);
      BucketValuesWithout(b, k, m);
      ExportedWithout(b.counts, k, m);
      hide Exported, W.BucketValues, Reading, Read, Total;
      TotalRemove(Exported(b.counts, m), k);
      TotalRemove(W.BucketValues(b, Reading(m)), W.Entry(W.Window(b), k));
    }
  }

  lemma ExportedWithout(counts: map<string, W.Count>, k: string, m: Measure)
    requires k in counts
    ensures k in Exported(counts, m) && Exported(counts, m)[k] == Read(counts[k], m)
    ensures Exported(counts, m) - {k} == Exported(counts - {k}, m)
  {
  }

  lemma BucketValuesWithout(b: W.StatsBucket, k: string, m: Measure)
    requires k in b.counts
    ensures var e, values := W.Entry(W.Window(b), k), W.BucketValues(b, Reading(m));
            && e in values && values[e] == Read(b.counts[k], m)
            && values - {e} == W.BucketValues(b.(counts := b.counts - {k}), Reading(m))
  {
    var b' := b.(counts := b.counts - {k});
    var values, values' := W.BucketValues(b, Reading(m)), W.BucketValues(b', Reading(m));
    forall x
      ensures x in values <==> x.window == W.Window(b) && x.key in b.counts
      ensures x in values' <==> x.window == W.Window(b) && x.key in b.counts && x.key != k
    {
      W.EntryInBucket(b, x);
      W.EntryInBucket(b', x);
    }
  }

  lemma {:induction false} StatsReading(sb: seq<W.StatsBucket>, n: nat, m: Measure)
    requires n <= |sb|
    ensures W.BucketsTotal(sb, n, Reading(m)) == FlushedTotal(sb[..n], m)
  {
    hide CountTotal, W.BucketValues, Reading;
    if n > 0 {
      StatsReading(sb, n - 1, m);
      BucketReading(sb[n - 1], m);
      assert sb[..n][..n - 1] == sb[..n - 1];
    }
  }

  lemma {:induction false} FlushedConcat(a: seq<W.StatsBucket>, b: seq<W.StatsBucket>, m: Measure)
    ensures FlushedTotal(a + b, m) == FlushedTotal(a, m) + FlushedTotal(b, m)
    decreases |b|
  {
    if b == [] {
      assert a + b == a;
    } else {
      FlushedConcat(a, b[..|b| - 1], m);
      assert (a + b)[..|a + b| - 1] == a + b[..|b| - 1];
    }
  }

  /** What the payloads hold of a measure. */
  ghost function SentTotal(payloads: seq<seq<W.StatsBucket>>, m: Measure): real {
    W.PayloadsTotal(payloads, |payloads|, Reading(m))
  }

  lemma PayloadsReading(sb: seq<W.StatsBucket>, payloads: seq<seq<W.StatsBucket>>, max: int, m: Measure)
    requires W.DistinctWindows(sb) && W.Split(sb, payloads, max)
    ensures SentTotal(payloads, m) == FlushedTotal(sb, m)
  {
    W.SplitKeepsTotals(sb, payloads, max, Reading(m));
    StatsReading(sb, |sb|, m);
    assert sb[..|sb|] == sb;
  }

  lemma {:induction false} SentConcat(a: seq<seq<W.StatsBucket>>, b: seq<seq<W.StatsBucket>>, n: nat, m: Measure)
    requires n <= |b|
    ensures W.PayloadsTotal(a + b, |a| + n, Reading(m)) == SentTotal(a, m) + W.PayloadsTotal(b, n, Reading(m))
  {
    if n == 0 {
      SentPrefix(a, b, |a|, m);
    } else {
      SentConcat(a, b, n - 1, m);
      assert (a + b)[|a| + n - 1] == b[n - 1];
    }
  }

  lemma {:induction false} SentPrefix(a: seq<seq<W.StatsBucket>>, b: seq<seq<W.StatsBucket>>, n: nat, m: Measure)
    requires n <= |a|
    ensures W.PayloadsTotal(a + b, n, Reading(m)) == W.PayloadsTotal(a, n, Reading(m))
  {
    if n > 0 {
      SentPrefix(a, b, n - 1, m);
      assert (a + b)[n - 1] == a[n - 1];
    }
  }

  /** A flush and the split of what it exports: the payloads hold of every measure exactly what was flushed, and
      every entry leaves in one of them. */
  method FlushToPayloads(c: Concentrator, now: int, maxEntriesPerPayload: int) returns (payloads: seq<seq<W.StatsBucket>>)
    requires c.Valid()
    modifies c
    ensures c.Valid() && c.accepted == old(c.accepted) && c.pending == After(old(c.pending), now - 2 * c.bsize, c.bsize)
    ensures exists sb :: c.flushed == old(c.flushed) + sb && W.Split(sb, payloads, maxEntriesPerPayload) &&
              forall b :: b in sb ==> Reports(b, InSlot(old(c.pending), Slot(b.start), c.bsize), c.aggregators)
    ensures forall m: Measure :: FlushedTotal(c.flushed, m) == FlushedTotal(old(c.flushed), m) + SentTotal(payloads, m)
  {
    hide W.Split, W.DistinctWindows, Conserved, AllClean, IsExport, W.Counted, W.SameKeys, Reports, Holds, InSlot, After;
    var sb := c.Flush(now);
    DistinctAgree(sb);
    payloads := W.BuildPayloads(sb, maxEntriesPerPayload);
    forall m: Measure
      ensures FlushedTotal(c.flushed, m) == FlushedTotal(old(c.flushed), m) + SentTotal(payloads, m)
    {
      PayloadsReading(sb, payloads, maxEntriesPerPayload, m);
      FlushedConcat(old(c.flushed), sb, m);
    }
  }

  lemma DistinctAgree(sb: seq<W.StatsBucket>)
    requires W.DistinctWindows(sb)
    ensures W.SameKeys(sb)
  {
  }

  datatype Input = AddTrace(trace: ProcessedTrace) | FlushAt(now: int)

  /** The samples of all the traces added. */
  function AllSamples(inputs: seq<Input>): seq<Sample> {
    if inputs == [] then []
    else
      var e := inputs[|inputs| - 1];
      AllSamples(inputs[..|inputs| - 1]) + if e.AddTrace? then Samples(e.trace, |e.trace.spans|) else []
  }

  /** The samples that no flush has taken along. */
  function Pending(inputs: seq<Input>, bsize: int): seq<Sample>
    requires bsize > 0
  {
    if inputs == [] then []
    else
      var before := Pending(inputs[..|inputs| - 1], bsize);
      match inputs[|inputs| - 1]
      case AddTrace(trace) => before + Samples(trace, |trace.spans|)
      case FlushAt(now) => After(before, now - 2 * bsize, bsize)
  }

  predicate CleanInput(e: Input) {
    e.AddTrace? ==> CleanTrace(e.trace) && ((exists s :: s in e.trace.spans && s.topLevel) ==> e.trace.env != "")
  }

  lemma SentMore(sent: seq<seq<W.StatsBucket>>, payloads: seq<seq<W.StatsBucket>>)
    ensures forall m: Measure :: SentTotal(sent + payloads, m) == SentTotal(sent, m) + SentTotal(payloads, m)
  {
    hide W.PayloadsTotal;
    forall m: Measure
      ensures SentTotal(sent + payloads, m) == SentTotal(sent, m) + SentTotal(payloads, m)
    {
      SentConcat(sent, payloads, |payloads|, m);
    }
  }

  lemma NothingSent(sent: seq<seq<W.StatsBucket>>, flushed: seq<W.StatsBucket>)
    requires sent == [] && flushed == []
    ensures forall m: Measure :: FlushedTotal(flushed, m) == SentTotal(sent, m)
  {
  }

  lemma ConservedReading(buckets: map<Slot, RawBucket>, flushed: seq<W.StatsBucket>, accepted: seq<Sample>)
    requires Conserved(buckets, flushed, accepted)
    ensures forall m :: Proper(m) ==> FlushedTotal(flushed, m) + Resident(buckets, m) == AcceptedTotal(accepted, m)
  {
  }

  /** Over every run of adds and flushes, of each measure what the accepted spans and sublayers add up to is what
      the payloads hold plus what is resident. */
  method RunConcentrator(aggregators: seq<string>, bsize: int, inputs: seq<Input>, maxEntriesPerPayload: int)
    returns (c: Concentrator, sent: seq<seq<W.StatsBucket>>)
    requires bsize > 0 && forall e :: e in inputs ==> CleanInput(e)
    ensures fresh(c) && c.Valid() && c.bsize == bsize && c.aggregators == aggregators
    ensures c.pending == Pending(inputs, bsize)
    ensures forall m :: Proper(m) ==>
                          SentTotal(sent, m) + Resident(c.buckets, m) == AcceptedTotal(AllSamples(inputs), m)
  {
    hide Conserved, CleanTrace, Samples, W.Split, AllClean, SentTotal, FlushedTotal, Proper, Holds, After, InSlot, Reports;
    c := new Concentrator(aggregators, bsize);
    sent := [];
    NothingSent(sent, c.flushed);
    for i := 0 to |inputs|
      invariant fresh(c) && c.Valid() && c.accepted == AllSamples(inputs[..i])
      invariant c.bsize == bsize && c.aggregators == aggregators && c.pending == Pending(inputs[..i], bsize)
      invariant forall m: Measure :: FlushedTotal(c.flushed, m) == SentTotal(sent, m)
    {
      assert inputs[..i + 1][..i] == inputs[..i] && inputs[i] in inputs;
      match inputs[i] {
        case AddTrace(trace) => c.Add(trace);
        case FlushAt(now) =>
          var payloads := FlushToPayloads(c, now, maxEntriesPerPayload);
          SentMore(sent, payloads);
          sent := sent + payloads;
          assert AllSamples(inputs[..i]) + [] == AllSamples(inputs[..i]);
      }
    }
    assert inputs[..|inputs|] == inputs;
    ConservedReading(c.buckets, c.flushed, c.accepted);
  }
}
