/** Two things the sketch does not promise, each shown by a concrete history: a query can miss its rank
    by more than EPSILON * N, and a merge can leave an entry whose rank interval misses every true rank. */
module GKLimits {
  import opened GKEntries

  /** The values 1, 2, ..., n. */
  function Ascending(n: nat): seq<real> {
    seq(n, i requires 0 <= i < n => (i + 1) as real)
  }

  function Units(n: nat): seq<Entry> {
    seq(n, i requires 0 <= i < n => Entry((i + 1) as real, 1, 0))
  }

  /** Entries 1 and 2, then every even value up to `n` standing for itself and its predecessor. */
  function Paired(n: nat): seq<Entry>
    requires n >= 2 && n % 2 == 0
  {
    if n == 2 then Units(2) else Paired(n - 2) + [Entry(n as real, 2, 0)]
  }

  lemma PlacedAtEnd(es: seq<Entry>, n: nat, v: real)
    requires forall k :: 0 <= k < |es| ==> es[k].V <= v
    ensures Placed(es, n, v) == es + [Entry(v, 1, 0)]
  {
    assert Position(es, v) == |es|;
  }

  lemma AscendingStep(n: nat)
    requires 0 < n < 150
    ensures AfterInsert(Units(n - 1), n - 1, n as real) == Units(n)
  {
    PlacedAtEnd(Units(n - 1), n - 1, n as real);
    assert Units(n - 1) + [Entry(n as real, 1, 0)] == Units(n);
    TightIsFixed(Units(n), n - 1, n / 50);
  }

  lemma {:induction false} AscendingRun(n: nat)
    requires n < 150
    ensures Run(Ascending(n)) == Units(n)
  {
    if n == 0 {
      assert Ascending(0) == [] && Units(0) == [];
    } else {
      AscendingRun(n - 1);
      AscendingStep(n);
      RunLast(Ascending(n - 1), n as real);
      assert Ascending(n) == Ascending(n - 1) + [n as real];
    }
  }

  lemma PairStep(n: nat, tail: seq<Entry>)
    requires n >= 4
    ensures var es, i := Units(n) + tail, n - 1;
            MergeStart(es, i, i - 1, 3) == i - 1 &&
            Collapse(es, i - 1, i) == Units(n - 2) + ([Entry(n as real, 2, 0)] + tail)
  {
    var es, i := Units(n) + tail, n - 1;
    assert es[i - 1..i] == [es[i - 1]];
    SumGOne(es[i - 1]);
    assert es[i - 2..i] == [es[i - 2]] + [es[i - 1]];
    SumGConcat([es[i - 2]], [es[i - 1]]);
    SumGOne(es[i - 2]);
    assert MergeStart(es, i, i - 2, 3) == i - 1;
  }

  lemma {:induction false} PairUp(n: nat, tail: seq<Entry>)
    requires n >= 2 && n % 2 == 0
    ensures CompressFrom(Units(n) + tail, n - 1, 3) == Paired(n) + tail
  {
    hide MergeStart, Collapse;
    if n > 2 {
      PairStep(n, tail);
      var folded := [Entry(n as real, 2, 0)] + tail;
      PairUp(n - 2, folded);
      assert Paired(n - 2) + folded == Paired(n) + tail;
    }
  }

  lemma AscendingRun150()
    ensures Run(Ascending(150)) == Paired(150)
  {
    AscendingRun(149);
    assert Ascending(150)[..149] == Ascending(149);
    PlacedAtEnd(Units(149), 149, 150.0);
    assert Units(149) + [Entry(150.0, 1, 0)] == Units(150);
    PairUp(150, []);
    assert Units(150) + [] == Units(150) && Paired(150) + [] == Paired(150);
  }

  lemma {:induction false} PairedStart(n: nat)
    requires n >= 6 && n % 2 == 0
    ensures |Paired(n)| == n / 2 + 1
    ensures Paired(n)[0] == Entry(1.0, 1, 0) && Paired(n)[1] == Entry(2.0, 1, 0)
    ensures Paired(n)[2] == Entry(4.0, 2, 0) && Paired(n)[3] == Entry(6.0, 2, 0)
    ensures forall k :: 3 <= k < |Paired(n)| ==> Paired(n)[k].V > 5.5 && Paired(n)[k].G == 2 && Paired(n)[k].Delta == 0
  {
    if n == 6 {
      assert Paired(4) == Units(2) + [Entry(4.0, 2, 0)];
    } else {
      PairedStart(n - 2);
    }
  }

  lemma {:induction false} AscendingCounts(n: nat)
    ensures CountLt(Ascending(n), 5.5) == if n < 5 then n else 5
    ensures CountLe(Ascending(n), 5.5) == if n < 5 then n else 5
  {
    if n > 0 {
      AscendingCounts(n - 1);
      assert Ascending(n)[..n - 1] == Ascending(n - 1);
    }
  }

  lemma SumOfFirst(es: seq<Entry>, k: nat)
    requires 3 <= |es| && k < 3
    ensures RMin(es, 0) == es[0].G && RMin(es, 1) == es[0].G + es[1].G
    ensures RMin(es, 2) == es[0].G + es[1].G + es[2].G
  {
    RMinStep(es, 0);
    RMinStep(es, 1);
    RMinStep(es, 2);
    assert es[..0] == [] && es[..0 + 1] == es[..1] && es[..1 + 1] == es[..2];
  }

  /** The values 1 to 150 and then 5.5. */
  function History(): seq<real> {
    Ascending(150) + [5.5]
  }

  lemma HistoryEntries(vs: seq<real>, n: nat)
    requires vs == Ascending(n) + [5.5] && n == 150
    ensures var es := Run(vs);
            && |es| > 4
            && es[0] == Entry(1.0, 1, 0) && es[1] == Entry(2.0, 1, 0) && es[2] == Entry(4.0, 2, 0) && es[3] == Entry(5.5, 1, 3)
    ensures CountLt(vs, 5.5) == 5 && CountLe(vs, 5.5) == 6
  {
    hide Run, Paired, CountLt, CountLe;
    AscendingRun150();
    PairedStart(n);
    RunLast(Ascending(n), 5.5);
    assert Position(Run(Ascending(n)), 5.5) == 3;
    AscendingCounts(n);
    CountAppend(Ascending(n), 5.5, 5.5);
  }

  lemma AnswerAtFive(es: seq<Entry>)
    requires |es| > 4
    requires es[0] == Entry(1.0, 1, 0) && es[1] == Entry(2.0, 1, 0) && es[2] == Entry(4.0, 2, 0) && es[3] == Entry(5.5, 1, 3)
    ensures QuantileFrom(es, 0, 5) == 3
  {
    SumOfFirst(es, 0);
    assert QuantileFrom(es, 2, 5) == 3;
    assert QuantileFrom(es, 1, 5) == 3;
  }

  /** The comment on `Quantile` promises an EPSILON estimate; it is not one. After inserting 1 to 150 and
      5.5, the query at q = 4 / 151 asks for rank 4 and is answered with the value of rank 6. */
  lemma QuantileCanMissByMoreThanEpsilon(vs: seq<real>)
    requires vs == History()
    ensures var r := QuantileRank(|vs|, 4.0 / 151.0);
            && r == 4
            && Answer(Run(vs), |vs|, r) == 5.5
            && (forall rho :: HasRank(vs, Answer(Run(vs), |vs|, r), rho) ==> (rho - r) as real > 0.01 * |vs| as real)
  {
    hide Run, CountLt, CountLe;
    HistoryEntries(vs, 150);
    hide QuantileFrom;
    AnswerAtFive(Run(vs));
  }

  lemma InterleaveSkips(e: Entry, b: seq<Entry>, k: nat)
    requires k <= |b| && (forall i :: 0 <= i < k ==> b[i].V <= e.V) && (k < |b| ==> b[k].V > e.V)
    ensures Interleave([e], b) == b[..k] + [e] + b[k..]
    decreases k
  {
    if k == 0 {
      assert [e][1..] == [];
    } else {
      InterleaveSkips(e, b[1..], k - 1);
      assert b[..k] == [b[0]] + b[1..][..k - 1];
    }
  }

  lemma MergedUnsound(es: seq<Entry>, b: seq<Entry>, vs: seq<real>)
    requires 4 <= |b| && es == b[..3] + [Entry(5.5, 1, 0)] + b[3..]
    requires b[0] == Entry(1.0, 1, 0) && b[1] == Entry(2.0, 1, 0) && b[2] == Entry(4.0, 2, 0)
    requires forall k :: 3 <= k < |b| ==> b[k].G == 2 && b[k].Delta == 0
    requires CountLt(vs, 5.5) == 5
    ensures CompressFrom(es, |es| - 1, 3) == es && !Sound(es, vs)
  {
    assert forall k :: 4 <= k < |es| ==> es[k] == b[k - 1];
    TightIsFixed(es, |es| - 1, 3);
    SumOfFirst(es, 0);
    RMinStep(es, 3);
    assert es[..2 + 1] == es[..3];
    assert !WithinAt(es, vs, 3, 0);
  }

  lemma MergedEntries(b: seq<Entry>)
    requires 4 <= |b| && b[0].V == 1.0 && b[1].V == 2.0 && b[2].V == 4.0 && b[3].V == 6.0
    ensures Run([5.5]) == [Entry(5.5, 1, 0)]
    ensures Interleave(Run([5.5]), b) == b[..3] + [Entry(5.5, 1, 0)] + b[3..]
  {
    assert [5.5][..0] == [];
    PlacedAtEnd([], 0, 5.5);
    InterleaveSkips(Entry(5.5, 1, 0), b, 3);
  }

  /** Merging the history 1 to 150 into a summary holding only 5.5 leaves an entry for 5.5 whose interval
      holds no true rank: `Merge` does not widen `Delta`. */
  lemma MergeCanLoseRankSoundness(n: nat)
    requires n == 150
    ensures Sound(Run([5.5]), [5.5])
    ensures Sound(Run(Ascending(n)), Ascending(n))
    ensures !Sound(AfterMerge(Run([5.5]), 1, Run(Ascending(n)), n), [5.5] + Ascending(n))
  {
    RunKeeps([5.5]);
    RunKeeps(Ascending(n));
    AscendingRun150();
    PairedStart(n);
    MergedEntries(Paired(n));
    MergedCounts(n);
    MergedUnsound(Interleave(Run([5.5]), Paired(n)), Paired(n), [5.5] + Ascending(n));
  }

  lemma {:induction false} MergedCounts(n: nat)
    ensures CountLt([5.5] + Ascending(n), 5.5) == if n < 5 then n else 5
  {
    var vs := [5.5] + Ascending(n);
    if n > 0 {
      MergedCounts(n - 1);
      assert vs[..|vs| - 1] == [5.5] + Ascending(n - 1);
    } else {
      assert vs[..0] == [];
    }
  }
}
