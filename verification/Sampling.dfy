/** sampler/score.go, scoresampler.go, memory_backend.go, presampler.go: sampling by rate, chained sampling,
    and the decaying counters behind it. Rates and counters are real numbers. */
module Sampling {
  import opened RealMaps

  // ---------------------------------------------------------------- hashing trace IDs

  const M := 0x1_0000_0000_0000_0000

  const SAMPLER_HASHER := 1111111111111111111

  /** The inverse of the hasher modulo 2^64. */
  const INVERSE := 3396998997810348023

  function Hash(id: nat): nat {
    id * SAMPLER_HASHER % M
  }

  function Unhash(h: nat): nat {
    h * INVERSE % M
  }

  lemma ModOf(a: nat, q: int, r: nat)
    requires a == M * q + r && r < M
    ensures a % M == r
  {
  }

  /** Multiplying by the hasher permutes the 64-bit IDs. */
  lemma UnhashHash(id: nat)
    requires id < M
    ensures Hash(id) < M && Unhash(Hash(id)) == id
  {
    var a, h := id * SAMPLER_HASHER / M, Hash(id);
    assert id * SAMPLER_HASHER == M * a + h;
    assert SAMPLER_HASHER * INVERSE == 1 + M * 204612982964281147;
    assert h * INVERSE == M * (id * 204612982964281147 - a * INVERSE) + id;
    ModOf(h * INVERSE, id * 204612982964281147 - a * INVERSE, id);
  }

  lemma HashUnhash(h: nat)
    requires h < M
    ensures Unhash(h) < M && Hash(Unhash(h)) == h
  {
    var a, id := h * INVERSE / M, Unhash(h);
    assert h * INVERSE == M * a + id;
    assert id * SAMPLER_HASHER == M * (h * 204612982964281147 - a * SAMPLER_HASHER) + h;
    ModOf(id * SAMPLER_HASHER, h * 204612982964281147 - a * SAMPLER_HASHER, h);
  }

  /** The IDs whose hash lies below a threshold. */
  ghost function Kept(threshold: nat): set<nat> {
    set id: nat | id < M && Hash(id) < threshold
  }

  /** A threshold keeps exactly as many IDs as it says. */
  lemma {:induction false} KeptCount(threshold: nat)
    requires threshold <= M
    ensures |Kept(threshold)| == threshold
  {
    if threshold == 0 {
      assert Kept(0) == {};
    } else {
      var h := threshold - 1;
      KeptCount(h);
      HashUnhash(h);
      KeptStep(h);
      hide Kept;
    }
  }

  lemma KeptStep(h: nat)
    requires h < M
    ensures Kept(h + 1) == Kept(h) + {Unhash(h)} && Unhash(h) !in Kept(h)
  {
    hide Hash, Unhash;
    HashUnhash(h);
    forall id: nat | id < M && Hash(id) == h
      ensures id == Unhash(h)
    {
      UnhashHash(id);
    }
  }

  // ---------------------------------------------------------------- sampling by rate

  /** `float64(2^64 - 1)` is 2^64, and a rate below 1 cannot reach it, so the conversion back does not overflow. */
  function Threshold(rate: real): int {
    (rate * M as real).Floor
  }

  predicate SampleByRate(id: nat, rate: real) {
    if rate < 1.0 then Hash(id) < Threshold(rate) else true
  }

  ghost function Sampled(rate: real): set<nat> {
    set id: nat | id < M && SampleByRate(id, rate)
  }

  /** A rate keeps its share of all the IDs, rounded down to a whole one. */
  lemma SampledShare(rate: real)
    requires 0.0 <= rate <= 1.0
    ensures |Sampled(rate)| == (rate * M as real).Floor
  {
    hide Hash;
    var t := Threshold(rate);
    ThresholdBounds(rate);
    if rate < 1.0 {
      assert Sampled(rate) == Kept(t);
    } else {
      forall id: nat | id < M ensures Hash(id) < M { UnhashHash(id); }
      assert Sampled(rate) == Kept(M);
    }
    KeptCount(t);
  }

  lemma ThresholdBounds(rate: real)
    requires 0.0 <= rate <= 1.0
    ensures 0 <= Threshold(rate) <= M
    ensures rate == 1.0 ==> Threshold(rate) == M
  {
  }

  /** A trace kept at some rate is kept at every higher rate. */
  lemma SampledIsMonotone(id: nat, low: real, high: real)
    requires low <= high && SampleByRate(id, low)
    ensures SampleByRate(id, high)
  {
    hide Hash;
    assert low * M as real <= high * M as real;
  }

  // ---------------------------------------------------------------- the backend's counters

  const MIN_SIGNATURE_SCORE_OFFSET := 0.01

  datatype SpanSignature = SpanSignature(hash: nat)

  datatype Counters = Counters(scores: map<SpanSignature, real>, total: real, sampled: real)

  function CountSignature(b: Counters, signature: SpanSignature): Counters {
    b.(scores := b.scores[signature := Get(b.scores, signature) + 1.0], total := b.total + 1.0)
  }

  function CountSample(b: Counters): Counters {
    b.(sampled := b.sampled + 1.0)
  }

  /** Scores are divided, and dropped when they have become small. */
  function Decayed(scores: map<SpanSignature, real>, factor: real): map<SpanSignature, real>
    requires factor > 1.0
  {
    map sig | sig in scores && scores[sig] > factor * MIN_SIGNATURE_SCORE_OFFSET :: scores[sig] / factor
  }

  function Decay(b: Counters, factor: real): Counters
    requires factor > 1.0
  {
    Counters(Decayed(b.scores, factor), b.total / factor, b.sampled / factor)
  }

  /** A score is kept by a decay if more than a hundredth of it would be left, and dropped otherwise. */
  lemma DecayTable(scores: map<SpanSignature, real>, factor: real, sig: SpanSignature)
    requires factor > 1.0
    ensures sig in Decayed(scores, factor) <==> sig in scores && scores[sig] / factor > 0.01
    ensures sig in Decayed(scores, factor) ==> Decayed(scores, factor)[sig] * factor == scores[sig]
  {
    if sig in scores {
      var q := scores[sig] / factor;
      assert q * factor == scores[sig];
      if q > 0.01 {
        assert (q - 0.01) * factor > 0.0;
      } else {
        NotNegativeProduct(0.01 - q, factor);
      }
      assert (q - 0.01) * factor == q * factor - 0.01 * factor;
    }
  }

  function Occurrences(events: seq<BackendEvent>, e: BackendEvent): nat {
    if events == [] then 0
    else Occurrences(events[..|events| - 1], e) + if events[|events| - 1] == e then 1 else 0
  }

  function Signatures(events: seq<BackendEvent>): nat {
    if events == [] then 0
    else Signatures(events[..|events| - 1]) + if events[|events| - 1].Signature? then 1 else 0
  }

  /** Until the first decay the scores count the signatures, the total all of them, and the sampled score the samples. */
  lemma {:induction false} CountsBeforeDecay(events: seq<BackendEvent>, factor: real, sig: SpanSignature)
    requires factor > 1.0 && Tick !in events
    ensures var b := BackendRun(events, factor);
            && Get(b.scores, sig) == Occurrences(events, Signature(sig)) as real
            && b.total == Signatures(events) as real && b.sampled == Occurrences(events, Sample) as real
  {
    if events != [] {
      assert events == events[..|events| - 1] + [events[|events| - 1]];
      CountsBeforeDecay(events[..|events| - 1], factor, sig);
    }
  }

  lemma {:induction false} DecayedTotal(scores: map<SpanSignature, real>, factor: real)
    requires factor > 1.0 && forall sig :: sig in scores ==> scores[sig] >= 0.0
    ensures Total(Decayed(scores, factor)) <= Total(scores) / factor
    decreases |scores|
  {
    hide Total, Decayed;
    if scores == map[] {
      NothingDecays(factor);
    } else {
      var sig := HasMember(scores.Keys);
      var rest := scores - {sig};
      DecayedTotal(rest, factor);
      TotalRemove(scores, sig);
      Divide(scores[sig], Total(rest), factor);
      DecayedWithout(scores, sig, factor);
      if sig in Decayed(scores, factor) {
        TotalRemove(Decayed(scores, factor), sig);
      }
    }
  }

  lemma NothingDecays(factor: real)
    requires factor > 1.0
    ensures Total(Decayed(map[], factor)) == 0.0 && Total<SpanSignature>(map[]) / factor == 0.0
  {
    assert Decayed(map[], factor) == map[];
  }

  lemma DecayedWithout(scores: map<SpanSignature, real>, sig: SpanSignature, factor: real)
    requires factor > 1.0 && sig in scores
    ensures var m := Decayed(scores, factor);
            && (sig in m ==> m[sig] == scores[sig] / factor && m - {sig} == Decayed(scores - {sig}, factor))
            && (sig !in m ==> m == Decayed(scores - {sig}, factor))
  {
  }

  lemma Divide(x: real, y: real, f: real)
    requires f > 1.0 && x >= 0.0
    ensures (x + y) / f == x / f + y / f && x / f >= 0.0
  {
  }

  datatype BackendEvent = Signature(signature: SpanSignature) | Sample | Tick

  function BackendStep(b: Counters, e: BackendEvent, factor: real): Counters
    requires factor > 1.0
  {
    match e
    case Signature(sig) => CountSignature(b, sig)
    case Sample => CountSample(b)
    case Tick => Decay(b, factor)
  }

  function BackendRun(events: seq<BackendEvent>, factor: real): Counters
    requires factor > 1.0
  {
    if events == [] then Counters(map[], 0.0, 0.0)
    else BackendStep(BackendRun(events[..|events| - 1], factor), events[|events| - 1], factor)
  }

  /** Signatures counted since the last decay. */
  function SinceTick(events: seq<BackendEvent>): nat {
    if events == [] || events[|events| - 1].Tick? then 0
    else SinceTick(events[..|events| - 1]) + if events[|events| - 1].Signature? then 1 else 0
  }

  /** No period counts more than `k` signatures. */
  ghost predicate AtMost(events: seq<BackendEvent>, k: nat) {
    forall i :: 0 <= i <= |events| ==> SinceTick(events[..i]) <= k
  }

  /** Over every run the scores stay positive and add up to no more than the total. */
  lemma {:induction false} ScoresBelowTotal(events: seq<BackendEvent>, factor: real)
    requires factor > 1.0
    ensures var b := BackendRun(events, factor);
            && (forall sig :: sig in b.scores ==> b.scores[sig] > 0.0)
            && 0.0 <= Total(b.scores) <= b.total && b.sampled >= 0.0
    decreases |events|
  {
    hide Total;
    if events == [] {
      EmptyTotal();
    } else {
      var before, e := events[..|events| - 1], events[|events| - 1];
      ScoresBelowTotal(before, factor);
      var b := BackendRun(before, factor);
      match e
      case Signature(sig) => TotalAdd(b.scores, sig, 1.0);
      case Sample =>
      case Tick =>
        DecayedTotal(b.scores, factor);
        Quotients(Total(b.scores), b.total, factor);
        Quotients(0.0, b.sampled, factor);
        forall sig | sig in Decayed(b.scores, factor)
          ensures b.scores[sig] / factor > 0.0
        {
          PositiveQuotient(b.scores[sig], factor);
        }
        PositiveTotal(Decayed(b.scores, factor));
    }
  }

  lemma EmptyTotal()
    ensures Total<SpanSignature>(map[]) == 0.0
  {
  }

  lemma FractionNotNegative(k: real, f: real)
    requires k >= 0.0 && f > 0.0
    ensures k / f >= 0.0
  {
    var q := k / f;
    assert q * f == k;
    if q < 0.0 {
      assert false;
    }
  }

  lemma Quotients(x: real, y: real, f: real)
    requires 0.0 <= x <= y && f > 1.0
    ensures 0.0 <= x / f <= y / f <= y
  {
    FractionNotNegative(x, f);
    FractionNotNegative(y, f);
    FractionNotNegative(y - x, f);
    var q := y / f;
    assert (y - x) / f == q - x / f;
    assert y - q == q * (f - 1.0);
    NotNegativeProduct(q, f - 1.0);
  }

  lemma NotNegativeProduct(x: real, y: real)
    requires x >= 0.0 && y >= 0.0
    ensures x * y >= 0.0
  {
  }

  lemma PositiveQuotient(x: real, f: real)
    requires x > 0.0 && f > 0.0
    ensures x / f > 0.0
  {
    var q := x / f;
    assert q * f == x;
  }

  lemma {:induction false} PositiveTotal(m: map<SpanSignature, real>)
    requires forall k :: k in m ==> m[k] >= 0.0
    ensures Total(m) >= 0.0
    decreases |m|
  {
    if m != map[] {
      var k := HasMember(m.Keys);
      TotalRemove(m, k);
      PositiveTotal(m - {k});
    }
  }

  function CountScale(factor: real, period: real): real
    requires factor > 1.0
  {
    factor / (factor - 1.0) * period
  }

  lemma {:induction false} TotalBounded(events: seq<BackendEvent>, factor: real, k: nat)
    requires factor > 1.0 && AtMost(events, k)
    ensures BackendRun(events, factor).total <= SinceTick(events) as real + k as real / (factor - 1.0)
    decreases |events|
  {
    if events == [] {
      FractionNotNegative(k as real, factor - 1.0);
    } else {
      var before, e := events[..|events| - 1], events[|events| - 1];
      forall i | 0 <= i <= |before| ensures SinceTick(before[..i]) <= k {
        assert before[..i] == events[..i];
      }
      assert before[..|before|] == before;
      TotalBounded(before, factor, k);
      var b := BackendRun(before, factor);
      if e.Tick? {
        AfterDecay(b.total, k as real, factor);
      }
    }
  }

  lemma AfterDecay(total: real, k: real, f: real)
    requires f > 1.0 && k >= 0.0 && total <= k + k / (f - 1.0)
    ensures total / f <= k / (f - 1.0)
  {
    var q := k / (f - 1.0);
    assert q * (f - 1.0) == k;
    assert k + q == q * f;
    assert total / f <= q * f / f;
  }

  /** With at most k signatures in every period, the score reported is at most k per period: the counter never
      overestimates a bounded throughput. */
  lemma ReportedScoreBounded(events: seq<BackendEvent>, factor: real, period: real, k: nat)
    requires factor > 1.0 && period > 0.0 && AtMost(events, k)
    ensures CountScale(factor, period) > 0.0
    ensures BackendRun(events, factor).total / CountScale(factor, period) <= k as real / period
  {
    TotalBounded(events, factor, k);
    assert events[..|events|] == events;
    assert SinceTick(events) <= k;
    ScaleBound(BackendRun(events, factor).total, k as real, factor, period);
  }

  lemma ScaleBound(total: real, k: real, f: real, p: real)
    requires f > 1.0 && p > 0.0 && k >= 0.0 && total <= k + k / (f - 1.0)
    ensures CountScale(f, p) > 0.0 && total / CountScale(f, p) <= k / p
  {
    var s := f / (f - 1.0);
    var q := k / (f - 1.0);
    assert q * (f - 1.0) == k;
    assert k + q == q * f;
    assert s * (f - 1.0) == f && s > 0.0;
    assert q * f == s * k;
    var c := s * p;
    assert c > 0.0 && CountScale(f, p) == c;
    var r := k / p;
    assert r * p == k;
    assert total <= r * c;
  }

  /** What the sampled counter reports, overestimated by the bias of the decay. */
  function UpperScore(sampledScore: real, factor: real, period: real): real
    requires factor > 1.0 && period > 0.0
  {
    ScaleIsPositive(factor, period);
    sampledScore / CountScale(factor, period) * factor
  }

  /** The upper score is the counter times f - 1 by the period. A counter that is just decayed stands, with k samples in
      each of many periods, at k / (f - 1), and higher before; so the upper score is at least the throughput of k by the
      period. */
  lemma UpperScoreMeans(sampledScore: real, k: real, f: real, p: real)
    requires f > 1.0 && p > 0.0
    ensures UpperScore(sampledScore, f, p) * p == sampledScore * (f - 1.0)
    ensures sampledScore >= k / (f - 1.0) ==> UpperScore(sampledScore, f, p) >= k / p
  {
    ScaleIsPositive(f, p);
    var c, u := CountScale(f, p), UpperScore(sampledScore, f, p);
    UpperTimesPeriod(sampledScore, f, p);
    hide UpperScore, CountScale;
    if sampledScore >= k / (f - 1.0) {
      var q, r := k / (f - 1.0), k / p;
      assert q * (f - 1.0) == k && r * p == k;
      NotNegativeProduct(sampledScore - q, f - 1.0);
      assert (sampledScore - q) * (f - 1.0) == sampledScore * (f - 1.0) - k;
      AtLeast(u, r, p);
    }
  }

  lemma UpperTimesPeriod(s: real, f: real, p: real)
    requires f > 1.0 && p > 0.0
    ensures UpperScore(s, f, p) * p == s * (f - 1.0)
  {
    ScaleIsPositive(f, p);
    var g := f / (f - 1.0);
    assert g * (f - 1.0) == f;
    PositiveQuotient(f, f - 1.0);
    var c := g * p;
    assert CountScale(f, p) == c && c > 0.0;
    var q := s / c;
    assert q * c == s;
    assert q * f * p == q * (g * (f - 1.0)) * p;
    assert q * (g * (f - 1.0)) * p == (q * (g * p)) * (f - 1.0);
  }

  lemma AtLeast(x: real, y: real, p: real)
    requires p > 0.0 && x * p >= y * p
    ensures x >= y
  {
    var d := (x - y) * p;
    assert d == x * p - y * p;
    FractionNotNegative(d, p);
    assert d / p == x - y;
  }

  lemma SameMap(m: map<SpanSignature, real>, d: map<SpanSignature, real>)
    requires forall k :: k in m <==> k in d
    requires forall k :: k in m ==> m[k] == d[k]
    ensures m == d
  {
  }

  class MemoryBackend {
    const factor: real
    const period: real
    var scores: map<SpanSignature, real>
    var totalScore: real
    var sampledScore: real

    ghost function View(): Counters
      reads this
    {
      Counters(scores, totalScore, sampledScore)
    }

    constructor (period: real, factor: real)
      requires factor > 1.0 && period > 0.0
      ensures View() == Counters(map[], 0.0, 0.0) && this.factor == factor && this.period == period
    {
      this.factor, this.period := factor, period;
      scores, totalScore, sampledScore := map[], 0.0, 0.0;
    }

    method Count(signature: SpanSignature)
      modifies this
      ensures View() == CountSignature(old(View()), signature)
    {
      scores := scores[signature := Get(scores, signature) + 1.0];
      totalScore := totalScore + 1.0;
    }

    method CountSampled()
      modifies this
      ensures View() == CountSample(old(View()))
    {
      sampledScore := sampledScore + 1.0;
    }

    method DecayScore()
      requires factor > 1.0
      modifies this
      ensures View() == Decay(old(View()), factor)
    {
      var rest := scores.Keys;
      while |rest| > 0
        invariant rest <= old(scores).Keys && rest <= scores.Keys
        invariant totalScore == old(totalScore) && sampledScore == old(sampledScore)
        invariant forall sig :: sig in rest ==> scores[sig] == old(scores)[sig]
        invariant forall sig :: sig !in rest ==>
                    (sig in scores <==> sig in Decayed(old(scores), factor)) &&
                    (sig in scores ==> scores[sig] == Decayed(old(scores), factor)[sig])
        decreases |rest|
      {
        ghost var member := HasMember(rest);
        var sig :| sig in rest;
        rest := rest - {sig};
        if scores[sig] > factor * MIN_SIGNATURE_SCORE_OFFSET {
          scores := scores[sig := scores[sig] / factor];
        } else {
          scores := scores - {sig};
        }
      }
      SameMap(scores, Decayed(old(scores), factor));
      totalScore := totalScore / factor;
      sampledScore := sampledScore / factor;
    }

    function UpperSampledScore(): real
      requires factor > 1.0 && period > 0.0
      reads this
    {
      UpperScore(sampledScore, factor, period)
    }
  }

  lemma ScaleIsPositive(f: real, p: real)
    requires f > 1.0 && p > 0.0
    ensures CountScale(f, p) > 0.0
  {
    PositiveQuotient(f, f - 1.0);
    ProductPositive(f / (f - 1.0), p);
  }

  lemma ProductPositive(a: real, b: real)
    requires a > 0.0 && b > 0.0
    ensures a * b > 0.0
  {
  }

  // ---------------------------------------------------------------- chained sampling

  datatype MaybeRate = NoRate | Rate(rate: real)

  /** The root span: its trace ID and the sample rate recorded in its metrics. */
  class Root {
    const traceID: nat
    var applied: MaybeRate

    constructor (traceID: nat, applied: MaybeRate)
      ensures this.traceID == traceID && this.applied == applied
    {
      this.traceID, this.applied := traceID, applied;
    }

    function AppliedRate(): real
      reads this
    {
      if applied.Rate? then applied.rate else 1.0
    }
  }

  function Combined(rate: real, further: real): real {
    rate * further
  }

  method ApplySampleRate(root: Root, sampleRate: real) returns (sampled: bool)
    modifies root
    ensures root.applied == Rate(Combined(old(root.AppliedRate()), sampleRate))
    ensures root.applied == Rate(if old(root.applied).Rate? then old(root.applied.rate) * sampleRate else sampleRate)
    ensures sampled == SampleByRate(root.traceID, root.applied.rate)
  {
    var newRate := Combined(root.AppliedRate(), sampleRate);
    root.applied := Rate(newRate);
    sampled := SampleByRate(root.traceID, newRate);
  }

  /** The extra rate that keeps the sampled throughput under `maxTPS`; a limit of 0 is no limit. */
  function MaxTPSRate(maxTPS: real, upperSampledScore: real): real {
    if maxTPS > 0.0 && upperSampledScore > maxTPS then maxTPS / upperSampledScore else 1.0
  }

  lemma MaxTPSRateIsARate(maxTPS: real, upperSampledScore: real)
    ensures 0.0 < MaxTPSRate(maxTPS, upperSampledScore) <= 1.0
  {
    if maxTPS > 0.0 && upperSampledScore > maxTPS {
      var q := maxTPS / upperSampledScore;
      assert q * upperSampledScore == maxTPS;
    }
  }

  /** With a limit the throughput that the rate leaves is the lesser of the limit and what it is anyway. */
  lemma MaxTPSRateMeans(maxTPS: real, upperSampledScore: real)
    ensures maxTPS <= 0.0 ==> MaxTPSRate(maxTPS, upperSampledScore) == 1.0
    ensures maxTPS > 0.0 ==> MaxTPSRate(maxTPS, upperSampledScore) * upperSampledScore ==
                             if upperSampledScore > maxTPS then maxTPS else upperSampledScore
  {
    if maxTPS > 0.0 && upperSampledScore > maxTPS {
      var q := maxTPS / upperSampledScore;
      assert q * upperSampledScore == maxTPS;
    }
  }

  /** Sampling at two rates in turn keeps what sampling once at their product keeps. */
  lemma ChainIsProduct(id: nat, first: real, second: real)
    requires first >= 0.0 && 0.0 <= second <= 1.0
    ensures SampleByRate(id, first) && SampleByRate(id, Combined(first, second)) <==> SampleByRate(id, Combined(first, second))
    ensures second == 1.0 ==> Combined(first, second) == first
  {
    if SampleByRate(id, first * second) {
      assert first * second <= first;
      SampledIsMonotone(id, first * second, first);
    }
  }

  /** Counts the trace, of so many spans, and decides whether to keep it. The decision is that of a single
      sampling at the product of the initial rate, the signature's rate and, as computed after counting a trace
      kept so far, the max-TPS rate. An empty trace is neither counted nor kept. `sampleRate` is the rate of the
      trace's signature. */
  method SampleTrace(backend: MemoryBackend, root: Root, spans: nat, signature: SpanSignature, sampleRate: real, maxTPS: real)
    returns (sampled: bool)
    requires backend.factor > 1.0 && backend.period > 0.0
    requires Combined(root.AppliedRate(), sampleRate) >= 0.0
    modifies backend, root
    ensures spans == 0 ==> !sampled && backend.View() == old(backend.View()) && root.applied == old(root.applied)
    ensures var counted := CountSignature(old(backend.View()), signature);
            var first := Combined(old(root.AppliedRate()), sampleRate);
            var tps := MaxTPSRate(maxTPS, UpperScore(CountSample(counted).sampled, backend.factor, backend.period));
            spans > 0 ==>
              && sampled == SampleByRate(root.traceID, Combined(first, tps))
              && root.applied == Rate(if SampleByRate(root.traceID, first) && tps < 1.0 then Combined(first, tps) else first)
              && backend.View() == if SampleByRate(root.traceID, first) then CountSample(counted) else counted
  {
    hide CountScale, SampleByRate, MaxTPSRate, UpperScore, Combined;
    if spans == 0 {
      return false;
    }
    ghost var first := Combined(root.AppliedRate(), sampleRate);
    ScaleIsPositive(backend.factor, backend.period);
    backend.Count(signature);
    sampled := ApplySampleRate(root, sampleRate);
    ghost var tps := MaxTPSRate(maxTPS, UpperScore(CountSample(backend.View()).sampled, backend.factor, backend.period));
    MaxTPSRateIsARate(maxTPS, UpperScore(CountSample(backend.View()).sampled, backend.factor, backend.period));
    ChainIsProduct(root.traceID, first, tps);
    if sampled {
      backend.CountSampled();
      var maxTPSrate := MaxTPSRate(maxTPS, backend.UpperSampledScore());
      if maxTPSrate < 1.0 {
        sampled := ApplySampleRate(root, maxTPSrate);
      }
    }
  }

  // ---------------------------------------------------------------- the pre-sampler

  datatype PreStats = PreStats(payloads: real, seen: real, dropped: real)

  datatype PreEvent = Payload(traceCount: int) | PreTick

  const PRE_DECAY_FACTOR := 1.125

  function RealRate(s: PreStats, rate: real): real {
    if s.seen <= 0.0 then rate else 1.0 - s.dropped / s.seen
  }

  function PreStep(s: PreStats, e: PreEvent, rate: real): PreStats {
    match e
    case Payload(n) =>
      if n <= 0 then s
      else
        PreStats(s.payloads + 1.0, s.seen + n as real, if RealRate(s, rate) > rate then s.dropped + n as real else s.dropped)
    case PreTick => PreStats(s.payloads / PRE_DECAY_FACTOR, s.seen / PRE_DECAY_FACTOR, s.dropped / PRE_DECAY_FACTOR)
  }

  function PreRun(events: seq<PreEvent>, rate: real): PreStats {
    if events == [] then PreStats(0.0, 0.0, 0.0)
    else PreStep(PreRun(events[..|events| - 1], rate), events[|events| - 1], rate)
  }

  function Part(rate: real, amount: real): real {
    rate * amount
  }

  /** What was kept stays within one largest payload of the target share of what was seen. */
  ghost predicate OnTarget(s: PreStats, rate: real, largest: real) {
    && 0.0 <= s.dropped <= s.seen
    && s.seen - s.dropped <= Part(rate, s.seen) + Part(1.0 - rate, largest)
    && s.seen - s.dropped >= Part(rate, s.seen) - Part(rate, largest)
  }

  lemma RealRateMeans(s: PreStats, rate: real)
    requires 0.0 <= s.dropped <= s.seen
    ensures RealRate(s, rate) > rate <==> s.seen - s.dropped > Part(rate, s.seen)
  {
    if s.seen > 0.0 {
      var q := s.dropped / s.seen;
      assert q * s.seen == s.dropped;
      assert (1.0 - q) * s.seen == s.seen - s.dropped;
      Compare(1.0 - q, rate, s.seen);
    }
  }

  lemma Compare(x: real, y: real, z: real)
    requires z > 0.0
    ensures x > y <==> x * z > y * z
  {
    assert (x - y) * z == x * z - y * z;
  }

  lemma PayloadOnTarget(s: PreStats, n: int, rate: real, largest: real)
    requires OnTarget(s, rate, largest) && 0.0 <= rate <= 1.0 && 0 < n && n as real <= largest
    ensures OnTarget(PreStep(s, Payload(n), rate), rate, largest)
  {
    hide Part, RealRate;
    var x := n as real;
    RealRateMeans(s, rate);
    PayloadParts(rate, s.seen, x, largest);
    Shifted(Part(rate, s.seen), Part(rate, x), Part(rate, largest), Part(1.0 - rate, largest), s.seen - s.dropped, x);
  }

  lemma PayloadParts(rate: real, seen: real, x: real, largest: real)
    requires 0.0 <= rate <= 1.0 && 0.0 <= x <= largest
    ensures Part(rate, seen + x) == Part(rate, seen) + Part(rate, x)
    ensures 0.0 <= Part(rate, x) <= Part(rate, largest) && 0.0 <= x - Part(rate, x) <= Part(1.0 - rate, largest)
  {
    NotNegativeProduct(rate, largest - x);
    NotNegativeProduct(1.0 - rate, largest - x);
    NotNegativeProduct(rate, x);
    NotNegativeProduct(1.0 - rate, x);
  }

  lemma Shifted(share: real, mine: real, most: real, rest: real, kept: real, x: real)
    requires share - most <= kept <= share + rest && 0.0 <= mine <= most && 0.0 <= x - mine <= rest
    ensures kept > share ==> share + mine - most <= kept <= share + mine + rest
    ensures kept <= share ==> share + mine - most <= kept + x <= share + mine + rest
  {
  }

  lemma TickOnTarget(s: PreStats, rate: real, largest: real)
    requires OnTarget(s, rate, largest) && 0.0 <= rate <= 1.0 && largest >= 0.0
    ensures OnTarget(PreStep(s, PreTick, rate), rate, largest)
  {
    assert rate * (s.seen / PRE_DECAY_FACTOR) == rate * s.seen / PRE_DECAY_FACTOR;
    NotNegativeProduct(rate, largest);
    NotNegativeProduct(1.0 - rate, largest);
  }

  /** What a payload and a decay do to the counters. */
  lemma PreStepTable(s: PreStats, n: int, rate: real)
    ensures var s' := PreStep(s, PreTick, rate);
            s'.payloads * 1.125 == s.payloads && s'.seen * 1.125 == s.seen && s'.dropped * 1.125 == s.dropped
    ensures n > 0 ==> var s' := PreStep(s, Payload(n), rate);
                      && s'.payloads == s.payloads + 1.0 && s'.seen == s.seen + n as real
                      && (s'.dropped == s.dropped || s'.dropped == s.dropped + n as real)
    ensures n <= 0 ==> PreStep(s, Payload(n), rate) == s
  {
    hide RealRate;
  }

  /** Over every run with a fixed rate: the pre-sampler drops no more than it sees, and what it keeps is the
      target share of what it sees, give or take one largest payload. */
  lemma {:induction false} PreSamplerOnTarget(events: seq<PreEvent>, rate: real, largest: int)
    requires 0.0 <= rate <= 1.0 && largest >= 0
    requires forall e :: e in events && e.Payload? ==> e.traceCount <= largest
    ensures OnTarget(PreRun(events, rate), rate, largest as real)
    decreases |events|
  {
    if events == [] {
      NotNegativeProduct(rate, largest as real);
      NotNegativeProduct(1.0 - rate, largest as real);
    } else {
      var before, e := events[..|events| - 1], events[|events| - 1];
      assert e in events && forall x :: x in before ==> x in events;
      PreSamplerOnTarget(before, rate, largest);
      hide OnTarget;
      if e.PreTick? {
        TickOnTarget(PreRun(before, rate), rate, largest as real);
      } else if e.traceCount > 0 {
        PayloadOnTarget(PreRun(before, rate), e.traceCount, rate, largest as real);
      }
    }
  }

  class PreSampler {
    var rate: real
    var recentPayloadsSeen: real
    var recentTracesSeen: real
    var recentTracesDropped: real

    ghost function View(): PreStats
      reads this
    {
      PreStats(recentPayloadsSeen, recentTracesSeen, recentTracesDropped)
    }

    constructor (rate: real)
      ensures this.rate == rate && View() == PreStats(0.0, 0.0, 0.0)
    {
      this.rate := rate;
      recentPayloadsSeen, recentTracesSeen, recentTracesDropped := 0.0, 0.0, 0.0;
    }

    /** Dropping a payload counts its traces as dropped. */
    method SampleWithCount(traceCount: int) returns (keep: bool)
      modifies this
      ensures rate == old(rate) && View() == PreStep(old(View()), Payload(traceCount), rate)
      ensures keep <==> View().dropped == old(View()).dropped
    {
      if traceCount <= 0 {
        return true;
      }
      keep := true;
      if RealRate(PreStats(recentPayloadsSeen, recentTracesSeen, recentTracesDropped), rate) > rate {
        keep := false;
        recentTracesDropped := recentTracesDropped + traceCount as real;
      }
      recentPayloadsSeen := recentPayloadsSeen + 1.0;
      recentTracesSeen := recentTracesSeen + traceCount as real;
    }

    method DecayScore()
      modifies this
      ensures rate == old(rate) && View() == PreStep(old(View()), PreTick, rate)
    {
      recentPayloadsSeen := recentPayloadsSeen / PRE_DECAY_FACTOR;
      recentTracesSeen := recentTracesSeen / PRE_DECAY_FACTOR;
      recentTracesDropped := recentTracesDropped / PRE_DECAY_FACTOR;
    }
  }
}
