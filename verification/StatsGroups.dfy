/** cmd/trace-agent/concentrator.go and model/statsraw.go: what each group of a bucket counts, read off the samples
    that belong to it. */
module StatsGroups {
  import opened RealMaps
  import opened StatsRaw
  import G = Grains
  import W = StatsWriter

  /** What the concentrator takes in for a span. */
  datatype Sample = Sample(span: WeightedSpan, env: string, sublayers: seq<SublayerValue>)

  // ---------------------------------------------------------------- groups

  /** The sample has this name, and the environment, resource, service and tags of this aggregation string. */
  ghost predicate InGroup(x: Sample, key: StatsKey, aggregators: seq<string>) {
    && x.span.name == key.name
    && G.Grain(x.env, x.span.resource, x.span.service, G.Picked(aggregators, x.span.meta)) == key.aggr
  }

  ghost function Group(xs: seq<Sample>, key: StatsKey, aggregators: seq<string>): seq<Sample> {
    if xs == [] then []
    else
      var x := xs[|xs| - 1];
      Group(xs[..|xs| - 1], key, aggregators) + if InGroup(x, key, aggregators) then [x] else []
  }

  function TopLevels(xs: seq<Sample>): seq<Sample> {
    if xs == [] then []
    else TopLevels(xs[..|xs| - 1]) + if xs[|xs| - 1].span.topLevel then [xs[|xs| - 1]] else []
  }

  function Failing(xs: seq<Sample>): seq<Sample> {
    if xs == [] then []
    else Failing(xs[..|xs| - 1]) + if xs[|xs| - 1].span.isError then [xs[|xs| - 1]] else []
  }

  function Weights(xs: seq<Sample>): real {
    if xs == [] then 0.0 else Weights(xs[..|xs| - 1]) + xs[|xs| - 1].span.weight
  }

  function WeightedTime(xs: seq<Sample>): real {
    if xs == [] then 0.0
    else WeightedTime(xs[..|xs| - 1]) + xs[|xs| - 1].span.duration as real * xs[|xs| - 1].span.weight
  }

  function Durations(xs: seq<Sample>): seq<int> {
    if xs == [] then [] else Durations(xs[..|xs| - 1]) + [Truncated(xs[|xs| - 1].span.duration)]
  }

  /** The group holds exactly what its samples add up to. */
  predicate Tells(g: GroupedStats, xs: seq<Sample>) {
    && g.hits == Weights(xs) && g.errors == Weights(Failing(xs)) && g.topLevel == Weights(TopLevels(xs))
    && g.duration == WeightedTime(xs)
    && g.durations == Durations(xs) && g.errDurations == Durations(Failing(xs))
  }

  // ---------------------------------------------------------------- groups of sublayers

  /** One sublayer value of a sample. */
  datatype Piece = Piece(sample: Sample, sub: SublayerValue)

  ghost predicate InSubGroup(p: Piece, key: StatsSubKey, aggregators: seq<string>) {
    && p.sample.span.name == key.name && p.sub.metric == key.measure
    && key.aggr == G.Grain(p.sample.env, p.sample.span.resource, p.sample.span.service,
                           G.Picked(aggregators, p.sample.span.meta))
                   + "," + p.sub.tag.name + ":" + p.sub.tag.value
  }

  ghost function PiecesOf(x: Sample, n: nat, key: StatsSubKey, aggregators: seq<string>): seq<Piece>
    requires n <= |x.sublayers|
  {
    if n == 0 then []
    else
      var p := Piece(x, x.sublayers[n - 1]);
      PiecesOf(x, n - 1, key, aggregators) + if InSubGroup(p, key, aggregators) then [p] else []
  }

  ghost function Pieces(xs: seq<Sample>, key: StatsSubKey, aggregators: seq<string>): seq<Piece> {
    if xs == [] then []
    else
      var x := xs[|xs| - 1];
      Pieces(xs[..|xs| - 1], key, aggregators) + PiecesOf(x, |x.sublayers|, key, aggregators)
  }

  /** Values are cut to whole numbers one by one. */
  function SubValues(ps: seq<Piece>): int {
    if ps == [] then 0
    else
      var p := ps[|ps| - 1];
      SubValues(ps[..|ps| - 1]) + ToInt(p.sample.span.weight * p.sub.value)
  }

  function SubWeights(ps: seq<Piece>): real {
    if ps == [] then 0.0
    else
      var p := ps[|ps| - 1];
      SubWeights(ps[..|ps| - 1]) + if p.sample.span.topLevel then p.sample.span.weight else 0.0
  }

  predicate TellsSub(ss: SublayerStats, ps: seq<Piece>) {
    ss.value == SubValues(ps) && ss.topLevel == SubWeights(ps)
  }

  // ---------------------------------------------------------------- a bucket and its samples

  ghost predicate DescribesSpans(b: RawBucket, xs: seq<Sample>, aggregators: seq<string>) {
    forall key :: (key in b.data <==> Group(xs, key, aggregators) != []) &&
                  Tells(GroupAt(b, key), Group(xs, key, aggregators))
  }

  ghost predicate DescribesSubs(b: RawBucket, xs: seq<Sample>, aggregators: seq<string>) {
    forall key :: (key in b.sublayerData <==> Pieces(xs, key, aggregators) != []) &&
                  TellsSub(SublayerAt(b, key), Pieces(xs, key, aggregators))
  }

  /** The bucket has a group for each name and aggregation string of the samples, and one for each name, metric and
      extended string of their sublayers, and they hold exactly what those samples and sublayers add up to. */
  ghost predicate Describes(b: RawBucket, xs: seq<Sample>, aggregators: seq<string>) {
    DescribesSpans(b, xs, aggregators) && DescribesSubs(b, xs, aggregators)
  }

  lemma NothingToTell(aggregators: seq<string>)
    ensures Describes(NEW_BUCKET, [], aggregators)
  {
  }

  lemma TellsNext(g: GroupedStats, xs: seq<Sample>, x: Sample)
    requires Tells(g, xs)
    ensures Tells(Grouped(g, x.span), xs + [x])
  {
    SumsNext(xs, x);
    SumsNext(Failing(xs), x);
    SumsNext(TopLevels(xs), x);
    hide Weights, Failing, TopLevels, WeightedTime, Durations, Truncated;
  }

  lemma SumsNext(xs: seq<Sample>, x: Sample)
    ensures Weights(xs + [x]) == Weights(xs) + x.span.weight
    ensures WeightedTime(xs + [x]) == WeightedTime(xs) + x.span.duration as real * x.span.weight
    ensures Durations(xs + [x]) == Durations(xs) + [Truncated(x.span.duration)]
    ensures Failing(xs + [x]) == if x.span.isError then Failing(xs) + [x] else Failing(xs)
    ensures TopLevels(xs + [x]) == if x.span.topLevel then TopLevels(xs) + [x] else TopLevels(xs)
  {
    hide Truncated;
    assert (xs + [x])[..|xs|] == xs;
  }

  lemma GroupNext(xs: seq<Sample>, x: Sample, key: StatsKey, aggregators: seq<string>)
    ensures Group(xs + [x], key, aggregators) ==
            Group(xs, key, aggregators) + if InGroup(x, key, aggregators) then [x] else []
  {
    assert (xs + [x])[..|xs|] == xs;
  }

  /** A span joins the one group that it belongs to. */
  lemma SpanDescribed(b: RawBucket, xs: seq<Sample>, x: Sample, aggregators: seq<string>)
    requires DescribesSpans(b, xs, aggregators)
    ensures DescribesSpans(WithSpan(b, x.span, GrainOf(x.span, x.env, aggregators)), xs + [x], aggregators)
  {
    hide Tells, Group, Grouped;
    var aggr := GrainOf(x.span, x.env, aggregators);
    var b', key0 := WithSpan(b, x.span, aggr), StatsKey(x.span.name, aggr);
    forall key
      ensures key in b'.data <==> Group(xs + [x], key, aggregators) != []
      ensures Tells(GroupAt(b', key), Group(xs + [x], key, aggregators))
    {
      GroupNext(xs, x, key, aggregators);
      assert InGroup(x, key, aggregators) <==> key == key0;
      if key == key0 {
        TellsNext(GroupAt(b, key), Group(xs, key, aggregators), x);
      } else {
        assert Group(xs, key, aggregators) + [] == Group(xs, key, aggregators);
      }
    }
  }

  lemma TellsSubNext(ss: SublayerStats, ps: seq<Piece>, p: Piece)
    requires TellsSub(ss, ps)
    ensures TellsSub(NextSublayer(ss, p.sample.span, p.sub), ps + [p])
  {
    assert (ps + [p])[..|ps|] == ps;
  }

  /** The bucket describes the samples, and the first n sublayers of one more. */
  ghost predicate DescribesPieces(b: RawBucket, xs: seq<Sample>, x: Sample, n: nat, aggregators: seq<string>)
    requires n <= |x.sublayers|
  {
    forall key :: var ps := Pieces(xs, key, aggregators) + PiecesOf(x, n, key, aggregators);
                  (key in b.sublayerData <==> ps != []) && TellsSub(SublayerAt(b, key), ps)
  }

  lemma SublayerDescribed(b: RawBucket, xs: seq<Sample>, x: Sample, n: nat, aggregators: seq<string>)
    requires n < |x.sublayers| && DescribesPieces(b, xs, x, n, aggregators)
    ensures DescribesPieces(WithSublayer(b, x.span, GrainOf(x.span, x.env, aggregators), x.sublayers[n]),
                            xs, x, n + 1, aggregators)
  {
    hide TellsSub, Pieces, NextSublayer;
    var aggr, sub := GrainOf(x.span, x.env, aggregators), x.sublayers[n];
    var b', key0, p := WithSublayer(b, x.span, aggr, sub), SubKeyOf(x.span, aggr, sub), Piece(x, sub);
    forall key
      ensures var ps := Pieces(xs, key, aggregators) + PiecesOf(x, n + 1, key, aggregators);
              (key in b'.sublayerData <==> ps != []) && TellsSub(SublayerAt(b', key), ps)
    {
      var before := Pieces(xs, key, aggregators) + PiecesOf(x, n, key, aggregators);
      assert InSubGroup(p, key, aggregators) <==> key == key0;
      if key == key0 {
        TellsSubNext(SublayerAt(b, key), before, p);
        assert Pieces(xs, key, aggregators) + PiecesOf(x, n + 1, key, aggregators) == before + [p];
      } else {
        assert PiecesOf(x, n, key, aggregators) + [] == PiecesOf(x, n, key, aggregators);
      }
    }
  }

  lemma {:induction false} SublayersDescribed(b: RawBucket, xs: seq<Sample>, x: Sample, n: nat, aggregators: seq<string>)
    requires n <= |x.sublayers| && DescribesPieces(b, xs, x, 0, aggregators)
    ensures DescribesPieces(WithSublayers(b, x.span, GrainOf(x.span, x.env, aggregators), x.sublayers[..n]),
                            xs, x, n, aggregators)
  {
    hide DescribesPieces, WithSublayer, GrainOf;
    if n > 0 {
      SublayersDescribed(b, xs, x, n - 1, aggregators);
      assert x.sublayers[..n][..n - 1] == x.sublayers[..n - 1];
      SublayerDescribed(WithSublayers(b, x.span, GrainOf(x.span, x.env, aggregators), x.sublayers[..n - 1]),
                        xs, x, n - 1, aggregators);
    }
  }

  /** Handling a sample's span and sublayers keeps every group what its samples add up to. */
  lemma HandledDescribed(b: RawBucket, xs: seq<Sample>, x: Sample, aggregators: seq<string>)
    requires Describes(b, xs, aggregators)
    ensures Describes(Handled(b, x.span, x.env, aggregators, x.sublayers), xs + [x], aggregators)
  {
    hide DescribesSpans, WithSpan, WithSublayers, GrainOf;
    var aggr := GrainOf(x.span, x.env, aggregators);
    var b1 := WithSpan(b, x.span, aggr);
    SpanDescribed(b, xs, x, aggregators);
    FirstPieces(b, b1, xs, x, aggregators);
    SublayersDescribed(b1, xs, x, |x.sublayers|, aggregators);
    assert x.sublayers[..|x.sublayers|] == x.sublayers;
    LastPieces(Handled(b, x.span, x.env, aggregators, x.sublayers), xs, x, aggregators);
    SublayersLeaveSpans(b1, x, aggr, x.sublayers);
    SameSpans(b1, Handled(b, x.span, x.env, aggregators, x.sublayers), xs + [x], aggregators);
  }

  lemma FirstPieces(b: RawBucket, b1: RawBucket, xs: seq<Sample>, x: Sample, aggregators: seq<string>)
    requires DescribesSubs(b, xs, aggregators) && b1 == WithSpan(b, x.span, GrainOf(x.span, x.env, aggregators))
    ensures DescribesPieces(b1, xs, x, 0, aggregators)
  {
    hide TellsSub, Pieces;
    assert forall key :: Pieces(xs, key, aggregators) + [] == Pieces(xs, key, aggregators);
  }

  lemma LastPieces(b: RawBucket, xs: seq<Sample>, x: Sample, aggregators: seq<string>)
    requires DescribesPieces(b, xs, x, |x.sublayers|, aggregators)
    ensures DescribesSubs(b, xs + [x], aggregators)
  {
    hide TellsSub;
    assert (xs + [x])[..|xs|] == xs;
  }

  lemma {:induction false} SublayersLeaveSpans(b: RawBucket, x: Sample, aggr: string, subs: seq<SublayerValue>)
    ensures WithSublayers(b, x.span, aggr, subs).data == b.data
  {
    if subs != [] {
      SublayersLeaveSpans(b, x, aggr, subs[..|subs| - 1]);
    }
  }

  lemma SameSpans(b: RawBucket, b': RawBucket, xs: seq<Sample>, aggregators: seq<string>)
    requires DescribesSpans(b, xs, aggregators) && b'.data == b.data
    ensures DescribesSpans(b', xs, aggregators)
  {
    hide Tells, Group;
  }

  // ---------------------------------------------------------------- exported

  /** The counts and distributions of a group, under the keys that they are reported by. */
  ghost predicate ReportsGroup(out: W.StatsBucket, key: StatsKey, xs: seq<Sample>) {
    var top := Weights(TopLevels(xs));
    var hits, errors, duration :=
      key.name + "|" + "hits" + "|" + key.aggr, key.name + "|" + "errors" + "|" + key.aggr,
      key.name + "|" + "duration" + "|" + key.aggr;
    && hits in out.counts && out.counts[hits] == W.Count(hits, key.name, "hits", top, Weights(xs))
    && errors in out.counts && out.counts[errors] == W.Count(errors, key.name, "errors", top, Weights(Failing(xs)))
    && duration in out.counts && out.counts[duration] == W.Count(duration, key.name, "duration", top, WeightedTime(xs))
    && duration in out.distributions
    && out.distributions[duration] == W.Distribution(duration, key.name, "duration", top, Durations(xs))
    && duration in out.errDistributions
    && out.errDistributions[duration] == W.Distribution(duration, key.name, "duration", top, Durations(Failing(xs)))
  }

  ghost predicate ReportsSubGroup(out: W.StatsBucket, key: StatsSubKey, ps: seq<Piece>) {
    var k := key.name + "|" + key.measure + "|" + key.aggr;
    k in out.counts && out.counts[k] == W.Count(k, key.name, key.measure, SubWeights(ps), SubValues(ps) as real)
  }

  /** The exported bucket reports exactly the groups of the samples. */
  ghost predicate Reports(out: W.StatsBucket, xs: seq<Sample>, aggregators: seq<string>) {
    && (forall key :: Group(xs, key, aggregators) != [] ==> ReportsGroup(out, key, Group(xs, key, aggregators)))
    && (forall key :: Pieces(xs, key, aggregators) != [] ==> ReportsSubGroup(out, key, Pieces(xs, key, aggregators)))
    && (forall k :: k in out.counts ==>
          || (exists key: StatsKey, measure :: OfGroup(k, key, measure) && Group(xs, key, aggregators) != [])
          || (exists key: StatsSubKey :: k == key.name + "|" + key.measure + "|" + key.aggr && Pieces(xs, key, aggregators) != []))
  }

  predicate OfGroup(k: string, key: StatsKey, measure: string) {
    measure in ["hits", "errors", "duration"] && k == key.name + "|" + measure + "|" + key.aggr
  }

  lemma GroupReported(out: W.StatsBucket, key: StatsKey, g: GroupedStats, xs: seq<Sample>)
    requires HasGroup(out, key, g) && Tells(g, xs)
    ensures ReportsGroup(out, key, xs)
  {
    hide Weights, Failing, TopLevels, WeightedTime, Durations;
    assert out.counts[CountKey(key, Hits)] == CountFor(key, g, Hits);
    assert out.counts[CountKey(key, Errors)] == CountFor(key, g, Errors);
    assert out.counts[CountKey(key, Duration)] == CountFor(key, g, Duration);
  }

  lemma OnlyKnown(out: W.StatsBucket, b: RawBucket, k: string)
    requires Known(out.counts, b) && k in out.counts
    ensures (exists key: StatsKey, measure :: OfGroup(k, key, measure) && key in b.data)
            || exists key: StatsSubKey :: k == key.name + "|" + key.measure + "|" + key.aggr && key in b.sublayerData
  {
    if key, m: Measure :| key in b.data && !OfSublayers(m) && k == CountKey(key, m) {
      assert OfGroup(k, key, NameOf(m));
    }
  }

  lemma ExportReports(out: W.StatsBucket, b: RawBucket, xs: seq<Sample>, aggregators: seq<string>)
    requires IsExport(out, b) && Describes(b, xs, aggregators)
    ensures Reports(out, xs, aggregators)
  {
    hide Group, Pieces, Weights, Failing, TopLevels, WeightedTime, Durations, SubWeights, SubValues, CountTotal, Known;
    hide BucketTotal, Proper, W.Counted;
    forall key | Group(xs, key, aggregators) != []
      ensures ReportsGroup(out, key, Group(xs, key, aggregators))
    {
      GroupReported(out, key, b.data[key], Group(xs, key, aggregators));
    }
    forall key | Pieces(xs, key, aggregators) != []
      ensures ReportsSubGroup(out, key, Pieces(xs, key, aggregators))
    {
      assert HasSublayer(out, key, b.sublayerData[key]);
    }
    forall k | k in out.counts
      ensures (exists key: StatsKey, measure :: OfGroup(k, key, measure) && Group(xs, key, aggregators) != [])
              || exists key: StatsSubKey ::
                   k == key.name + "|" + key.measure + "|" + key.aggr && Pieces(xs, key, aggregators) != []
    {
      OnlyKnown(out, b, k);
    }
  }

  // ---------------------------------------------------------------- which samples share a group

  /** No comma in what the aggregation string is made of, and no colon in its tag names. */
  predicate PlainSample(x: Sample, aggregators: seq<string>) {
    && G.NoComma(x.env) && G.NoComma(x.span.resource) && G.NoComma(x.span.service)
    && G.Plain(G.Picked(aggregators, x.span.meta))
  }

  /** The samples agree on every aggregator but the three that always count. */
  predicate SameTags(x: Sample, y: Sample, aggregators: seq<string>) {
    forall a :: a in aggregators && a != "env" && a != "resource" && a != "service" ==>
      (a in x.span.meta <==> a in y.span.meta) && (a in x.span.meta ==> x.span.meta[a] == y.span.meta[a])
  }

  /** Two samples are counted in one group if and only if they agree in name, environment, resource, service and
      tags. */
  lemma SameGroup(x: Sample, y: Sample, aggregators: seq<string>)
    requires PlainSample(x, aggregators) && PlainSample(y, aggregators)
    ensures (exists key :: InGroup(x, key, aggregators) && InGroup(y, key, aggregators)) <==>
            && x.span.name == y.span.name && x.env == y.env && x.span.resource == y.span.resource
            && x.span.service == y.span.service && SameTags(x, y, aggregators)
  {
    hide G.FixedGrain, G.Rendered, G.Plain, G.NoComma;
    var m, m' := G.Picked(aggregators, x.span.meta), G.Picked(aggregators, y.span.meta);
    var keys, keys' := G.Listed(m.Keys), G.Listed(m'.Keys);
    if m == m' {
      assert keys == keys';
    }
    SamePicked(x, y, aggregators);
    if key :| InGroup(x, key, aggregators) && InGroup(y, key, aggregators) {
      G.GrainInjective(x.env, x.span.resource, x.span.service, keys, m,
                       y.env, y.span.resource, y.span.service, keys', m');
    }
    if x.span.name == y.span.name && x.env == y.env && x.span.resource == y.span.resource
       && x.span.service == y.span.service && m == m' {
      var key := StatsKey(x.span.name, G.Grain(x.env, x.span.resource, x.span.service, m));
      assert InGroup(x, key, aggregators) && InGroup(y, key, aggregators);
    }
  }

  lemma SamePicked(x: Sample, y: Sample, aggregators: seq<string>)
    ensures G.Picked(aggregators, x.span.meta) == G.Picked(aggregators, y.span.meta) <==> SameTags(x, y, aggregators)
  {
    var m, m' := G.Picked(aggregators, x.span.meta), G.Picked(aggregators, y.span.meta);
    forall a
      ensures a in m <==> a in aggregators && a != "env" && a != "resource" && a != "service" && a in x.span.meta
      ensures a in m' <==> a in aggregators && a != "env" && a != "resource" && a != "service" && a in y.span.meta
    {
    }
    if m == m' {
      forall a | a in aggregators && a != "env" && a != "resource" && a != "service"
        ensures a in x.span.meta <==> a in y.span.meta
        ensures a in x.span.meta ==> x.span.meta[a] == y.span.meta[a]
      {
        assert a in m <==> a in m';
        assert a in m ==> m[a] == m'[a];
      }
    }
  }
}
