/** The worst history a summary can stand for. The entries alone give, for every value `x`, the largest number
    of inserted values below `x`, and one history reaches it for all `x` at once; so a promise on the upper side
    of a rank holds for every history exactly when it holds for that one. */
module GKBounds {
  import opened GKEntries
  import opened GKMerge

  function Min(a: int, b: int): int {
    if a < b then a else b
  }

  /** The latest rank at which the value of entry `i` can have its first occurrence among `n` values. */
  function Latest(es: seq<Entry>, n: nat, i: nat): int
    requires i < |es|
    decreases |es| - i
  {
    if i == |es| - 1 then n
    else Min(RMin(es, i) + es[i].Delta, Latest(es, n, i + 1) - (if es[i].V < es[i + 1].V then 1 else 0))
  }

  /** Bounds on the values below `x`, and on those at most `x`, given that the entries before `i` are. */
  function CeilingFrom(es: seq<Entry>, n: nat, x: real, i: nat): int
    requires i <= |es|
    decreases |es| - i
  {
    if i == |es| then n else if x <= es[i].V then Latest(es, n, i) - 1 else CeilingFrom(es, n, x, i + 1)
  }

  function AtMostFrom(es: seq<Entry>, n: nat, x: real, i: nat): int
    requires i <= |es|
    decreases |es| - i
  {
    if i == |es| then n else if x < es[i].V then Latest(es, n, i) - 1 else AtMostFrom(es, n, x, i + 1)
  }

  /** The most values below `x` among `n` that the entries allow. */
  function Ceiling(es: seq<Entry>, n: nat, x: real): int {
    CeilingFrom(es, n, x, 0)
  }

  function Repeat(v: real, k: nat): seq<real> {
    if k == 0 then [] else Repeat(v, k - 1) + [v]
  }

  /** Every value as late as the entries allow, from entry `i` on. */
  function WorstFrom(es: seq<Entry>, n: nat, i: nat): seq<real>
    requires i <= |es|
    decreases |es| - i
  {
    if i == |es| then []
    else if i == |es| - 1 then [es[i].V]
    else
      Repeat(es[i].V, Max(0, Latest(es, n, i + 1) - Latest(es, n, i))) + WorstFrom(es, n, i + 1)
  }

  function Worst(es: seq<Entry>, n: nat): seq<real> {
    WorstFrom(es, n, 0)
  }

  /** The histories of length `n` that the entries can stand for. */
  ghost predicate StandsFor(es: seq<Entry>, n: nat, vs: seq<real>) {
    Sound(es, vs) && |vs| == n
  }

  lemma {:induction false} RepeatCounts(v: real, k: nat, x: real)
    ensures |Repeat(v, k)| == k
    ensures CountLt(Repeat(v, k), x) == if v < x then k else 0
    ensures CountLe(Repeat(v, k), x) == if v <= x then k else 0
  {
    if k > 0 {
      RepeatCounts(v, k - 1, x);
      CountAppend(Repeat(v, k - 1), v, x);
    }
  }

  lemma CountOne(v: real, x: real)
    ensures CountLt([v], x) == (if v < x then 1 else 0) && CountLe([v], x) == if v <= x then 1 else 0
  {
    assert [v][..0] == [];
  }

  lemma {:induction false} LatestBounds(es: seq<Entry>, n: nat, vs: seq<real>, i: nat)
    requires Shape(es, n) && StandsFor(es, n, vs) && i < |es|
    ensures CountLt(vs, es[i].V) < Latest(es, n, i)
    decreases |es| - i
  {
    assert WithinAt(es, vs, i, 0);
    CountBounds(vs, es[i].V);
    if i + 1 < |es| {
      LatestBounds(es, n, vs, i + 1);
      CountMonotone(vs, es[i].V, es[i + 1].V);
    }
  }

  lemma {:induction false} CeilingBounds(es: seq<Entry>, n: nat, vs: seq<real>, x: real, i: nat)
    requires Shape(es, n) && StandsFor(es, n, vs) && i <= |es|
    ensures CountLt(vs, x) <= CeilingFrom(es, n, x, i)
    ensures CountLe(vs, x) <= AtMostFrom(es, n, x, i)
    decreases |es| - i
  {
    CountBounds(vs, x);
    if i < |es| {
      LatestBounds(es, n, vs, i);
      if x <= es[i].V {
        CountMonotone(vs, x, es[i].V);
      }
      if x >= es[i].V {
        CeilingBounds(es, n, vs, x, i + 1);
      }
    }
  }

  lemma LatestRises(es: seq<Entry>, n: nat, i: nat)
    requires i + 1 < |es|
    ensures Latest(es, n, i) <= Latest(es, n, i + 1)
  {
  }

  lemma WorstStep(es: seq<Entry>, n: nat, i: nat, x: real)
    requires i + 1 < |es|
    ensures var k := Latest(es, n, i + 1) - Latest(es, n, i);
            && k >= 0
            && |WorstFrom(es, n, i)| == k + |WorstFrom(es, n, i + 1)|
            && CountLt(WorstFrom(es, n, i), x) == (if es[i].V < x then k else 0) + CountLt(WorstFrom(es, n, i + 1), x)
            && CountLe(WorstFrom(es, n, i), x) == (if es[i].V <= x then k else 0) + CountLe(WorstFrom(es, n, i + 1), x)
  {
    LatestRises(es, n, i);
    hide Latest, Repeat, CountLt, CountLe;
    var k := Latest(es, n, i + 1) - Latest(es, n, i);
    RepeatCounts(es[i].V, k, x);
    CountConcat(Repeat(es[i].V, k), WorstFrom(es, n, i + 1), x);
  }

  /** How many values the worst history has below `x` and up to `x`. */
  lemma {:induction false} WorstCounts(es: seq<Entry>, n: nat, x: real, i: nat)
    requires Sorted(es) && i < |es|
    ensures |WorstFrom(es, n, i)| == n + 1 - Latest(es, n, i)
    ensures CountLt(WorstFrom(es, n, i), x) == CeilingFrom(es, n, x, i) - (Latest(es, n, i) - 1)
    ensures CountLe(WorstFrom(es, n, i), x) == AtMostFrom(es, n, x, i) - (Latest(es, n, i) - 1)
    decreases |es| - i
  {
    if i == |es| - 1 {
      CountOne(es[i].V, x);
    } else {
      assert es[i].V <= es[i + 1].V;
      WorstCounts(es, n, x, i + 1);
      WorstStep(es, n, i, x);
    }
  }

  lemma {:induction false} LatestMonotone(es: seq<Entry>, n: nat, i: nat, j: nat)
    requires i <= j < |es|
    ensures Latest(es, n, i) <= Latest(es, n, j) <= n
    decreases |es| - i
  {
    if i + 1 < |es| {
      LatestMonotone(es, n, i + 1, if i == j then i + 1 else j);
    }
  }

  /** The bounds at the value of entry `k` itself. */
  lemma {:induction false} CeilingAtEntry(es: seq<Entry>, n: nat, k: nat, i: nat)
    requires Sorted(es) && k < |es|
    ensures i <= k ==> CeilingFrom(es, n, es[k].V, i) <= Latest(es, n, k) - 1
    ensures i <= |es| ==> AtMostFrom(es, n, es[k].V, i) >= Latest(es, n, k) || (i < |es| && es[k].V < es[i].V && i <= k)
    decreases |es| - i
  {
    LatestMonotone(es, n, k, k);
    if i < |es| {
      CeilingAtEntry(es, n, k, i + 1);
      if i <= k {
        LatestMonotone(es, n, i, k);
      } else if es[k].V < es[i].V {
        AboveLatest(es, n, k, i);
      }
    }
  }

  lemma {:induction false} AboveLatest(es: seq<Entry>, n: nat, k: nat, i: nat)
    requires Sorted(es) && k < i < |es| && es[k].V < es[i].V
    ensures Latest(es, n, k) < Latest(es, n, i)
    decreases i - k
  {
    if es[k].V < es[k + 1].V {
      LatestMonotone(es, n, k + 1, i);
    } else {
      AboveLatest(es, n, k + 1, i);
    }
  }

  lemma StartsAtOne(es: seq<Entry>, n: nat, vs: seq<real>)
    requires Shape(es, n) && es != [] && StandsFor(es, n, vs)
    ensures Latest(es, n, 0) == 1
  {
    LatestBounds(es, n, vs, 0);
    RMinFirst(es);
    if |es| == 1 {
      assert es[..1] == es;
    }
  }

  lemma WorstSoundAt(es: seq<Entry>, n: nat, vs: seq<real>, k: nat)
    requires Shape(es, n) && StandsFor(es, n, vs) && k < |es| && Latest(es, n, 0) == 1
    ensures WithinAt(es, Worst(es, n), k, 0)
  {
    var x := es[k].V;
    WorstCounts(es, n, x, 0);
    CeilingAtEntry(es, n, k, 0);
    CeilingBounds(es, n, vs, x, 0);
    assert WithinAt(es, vs, k, 0);
    CountBounds(Worst(es, n), x);
    if k == |es| - 1 {
      assert es[..k + 1] == es;
    }
  }

  /** The entries can stand for the worst history, and it has as many values below every `x` as any history the
      entries can stand for. */
  lemma WorstIsReached(es: seq<Entry>, n: nat, vs: seq<real>)
    requires Shape(es, n) && es != [] && StandsFor(es, n, vs)
    ensures StandsFor(es, n, Worst(es, n))
    ensures forall x :: CountLt(vs, x) <= CountLt(Worst(es, n), x) == Ceiling(es, n, x)
  {
    StartsAtOne(es, n, vs);
    WorstCounts(es, n, 0.0, 0);
    forall k | 0 <= k < |es|
      ensures WithinAt(es, Worst(es, n), k, 0)
    {
      WorstSoundAt(es, n, vs, k);
    }
    forall x
      ensures CountLt(vs, x) <= CountLt(Worst(es, n), x) == Ceiling(es, n, x)
    {
      WorstCounts(es, n, x, 0);
      CeilingBounds(es, n, vs, x, 0);
    }
  }

  // ---------------------------------------------------------------- queries

  /** Some occurrence of `v` has a rank from `lo` to `hi`. */
  ghost predicate RankWithin(vs: seq<real>, v: real, lo: int, hi: int) {
    exists rho :: HasRank(vs, v, rho) && lo <= rho <= hi
  }

  /** The answer to rank `r` is never more than floor(EPSILON * N) + 1 below it. Its rank is at most `hi`, for
      every history the entries can stand for, if and only if the entries allow fewer than `hi` values below it. */
  lemma QuantileAccurateExactly(es: seq<Entry>, n: nat, vs: seq<real>, r: int, hi: int)
    requires Shape(es, n) && es != [] && StandsFor(es, n, vs) && 0 <= r <= n && r - n / 100 - 1 <= hi
    ensures (forall us :: StandsFor(es, n, us) ==> RankWithin(us, Answer(es, n, r), r - n / 100 - 1, hi)) <==>
            Ceiling(es, n, Answer(es, n, r)) < hi
  {
    var v := Answer(es, n, r);
    var lo := r - n / 100 - 1;
    WorstIsReached(es, n, vs);
    hide Shape, Sound, Worst, Answer, Ceiling, QuantileFrom;
    if Ceiling(es, n, v) < hi {
      forall us | StandsFor(es, n, us)
        ensures RankWithin(us, v, lo, hi)
      {
        WorstIsReached(es, n, us);
        var rho := QuantileAccuracy(es, n, us, r, 0);
        var sigma := if rho <= hi then rho else Max(lo, CountLt(us, v) + 1);
        assert HasRank(us, v, sigma) && lo <= sigma <= hi;
      }
    }
    if RankWithin(Worst(es, n), v, lo, hi) {
      var rho :| HasRank(Worst(es, n), v, rho) && lo <= rho <= hi;
    }
  }

  /** Enough for it: the interval of the answering entry ends in time. */
  lemma QuantileGuard(es: seq<Entry>, n: nat, vs: seq<real>, r: int, hi: int)
    requires Shape(es, n) && es != [] && StandsFor(es, n, vs) && 0 <= r <= n
    requires var a := QuantileFrom(es, 0, r + n / 100); RMin(es, a) + es[a].Delta <= hi
    ensures Ceiling(es, n, Answer(es, n, r)) < hi
  {
    var a := QuantileFrom(es, 0, r + n / 100);
    CeilingAtEntry(es, n, a, 0);
    if a == |es| - 1 {
      assert es[..a + 1] == es;
    }
  }

  // ---------------------------------------------------------------- merges

  /** Merging leaves a sound summary, whichever histories the two summaries stand for, if and only if no
      remaining entry's interval ends before the most values that both lists together allow below its value. */
  lemma MergeSoundExactly(a: seq<Entry>, m: nat, us: seq<real>, b: seq<Entry>, n: nat, vs: seq<real>)
    requires Shape(a, m) && StandsFor(a, m, us) && a != []
    requires Shape(b, n) && StandsFor(b, n, vs) && b != []
    ensures var es := AfterMerge(a, m, b, n);
            (forall us', vs' :: StandsFor(a, m, us') && StandsFor(b, n, vs') ==> Sound(es, us' + vs')) <==>
            (forall k :: 0 <= k < |es| ==> FitsBoth(es, k, a, m, b, n))
  {
    var es := AfterMerge(a, m, b, n);
    var wa, wb := Worst(a, m), Worst(b, n);
    WorstIsReached(a, m, us);
    WorstIsReached(b, n, vs);
    hide Shape, Extremes, Sound, Worst, Ceiling, AfterMerge, StandsFor;
    if forall us', vs' :: StandsFor(a, m, us') && StandsFor(b, n, vs') ==> Sound(es, us' + vs') {
      forall k | 0 <= k < |es|
        ensures FitsBoth(es, k, a, m, b, n)
      {
        SoundUpper(es, wa, wb, k);
      }
    }
    if forall k :: 0 <= k < |es| ==> FitsBoth(es, k, a, m, b, n) {
      forall us', vs' | StandsFor(a, m, us') && StandsFor(b, n, vs')
        ensures Sound(es, us' + vs')
      {
        MergeSoundFor(a, m, us', b, n, vs');
      }
    }
  }

  /** The interval of entry `k` of a merged list reaches as far as both lists together can push its value. */
  ghost predicate FitsBoth(es: seq<Entry>, k: nat, a: seq<Entry>, m: nat, b: seq<Entry>, n: nat)
    requires k < |es|
  {
    Ceiling(a, m, es[k].V) + Ceiling(b, n, es[k].V) < RMin(es, k) + es[k].Delta
  }

  lemma SoundUpper(es: seq<Entry>, us: seq<real>, vs: seq<real>, k: nat)
    requires Sound(es, us + vs) && k < |es|
    ensures CountLt(us, es[k].V) + CountLt(vs, es[k].V) < RMin(es, k) + es[k].Delta
  {
    assert WithinAt(es, us + vs, k, 0);
    CountConcat(us, vs, es[k].V);
  }

  lemma MergeSoundFor(a: seq<Entry>, m: nat, us: seq<real>, b: seq<Entry>, n: nat, vs: seq<real>)
    requires Shape(a, m) && StandsFor(a, m, us) && a != []
    requires Shape(b, n) && StandsFor(b, n, vs) && b != []
    requires var es := AfterMerge(a, m, b, n); forall k :: 0 <= k < |es| ==> FitsBoth(es, k, a, m, b, n)
    ensures Sound(AfterMerge(a, m, b, n), us + vs)
  {
    var es, l := AfterMerge(a, m, b, n), Max(m, n) / 50;
    SoundExtremes(a, m, us);
    SoundExtremes(b, n, vs);
    hide Shape, Extremes, Worst, Ceiling, AfterMerge, RMin, Within;
    MergeWithin(a, m, us, 0, b, n, vs, 0);
    forall k | 0 <= k < |es|
      ensures WithinAt(es, us + vs, k, 0)
    {
      assert FitsBoth(es, k, a, m, b, n);
      WithinEach(es, us + vs, k, l);
      FitsBothSound(es, k, a, m, us, b, n, vs);
    }
    AllWithin(es, us + vs, 0);
  }

  lemma WithinEach(es: seq<Entry>, vs: seq<real>, k: nat, l: nat)
    requires Within(es, vs, l) && k < |es|
    ensures WithinAt(es, vs, k, l)
  {
  }

  lemma FitsBothSound(es: seq<Entry>, k: nat, a: seq<Entry>, m: nat, us: seq<real>, b: seq<Entry>, n: nat, vs: seq<real>)
    requires Shape(a, m) && StandsFor(a, m, us) && a != []
    requires Shape(b, n) && StandsFor(b, n, vs) && b != []
    requires k < |es| && FitsBoth(es, k, a, m, b, n)
    ensures CountLt(us + vs, es[k].V) < RMin(es, k) + es[k].Delta
  {
    WorstIsReached(a, m, us);
    WorstIsReached(b, n, vs);
    hide Shape, Sound, Worst, Ceiling, RMin, CountLt;
    CountConcat(us, vs, es[k].V);
  }

  /** A sound summary holds both extremes. */
  lemma SoundExtremes(es: seq<Entry>, n: nat, vs: seq<real>)
    requires Shape(es, n) && StandsFor(es, n, vs) && es != []
    ensures Extremes(es, vs)
  {
    var lo, hi := es[0].V, es[|es| - 1].V;
    assert WithinAt(es, vs, 0, 0) && WithinAt(es, vs, |es| - 1, 0);
    RMinFirst(es);
    assert es[..|es|] == es;
    CountBounds(vs, hi);
    NoneBelow(vs, lo);
    NoneAbove(vs, hi);
  }

  lemma {:induction false} NoneBelow(vs: seq<real>, v: real)
    requires CountLt(vs, v) == 0
    ensures forall x :: x in vs ==> v <= x
  {
    if vs != [] {
      NoneBelow(vs[..|vs| - 1], v);
      assert vs == vs[..|vs| - 1] + [vs[|vs| - 1]];
    }
  }

  lemma {:induction false} NoneAbove(vs: seq<real>, v: real)
    requires CountLe(vs, v) == |vs|
    ensures forall x :: x in vs ==> x <= v
  {
    if vs != [] {
      CountBounds(vs[..|vs| - 1], v);
      NoneAbove(vs[..|vs| - 1], v);
      assert vs == vs[..|vs| - 1] + [vs[|vs| - 1]];
    }
  }
}
