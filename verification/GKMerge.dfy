/** What merging two sketches does to their rank intervals: the lower side always survives, and the upper side
    is out by at most the uncertainty of the neighbour from the other list. */
module GKMerge {
  import opened GKEntries

  lemma {:induction false} CountConcat(us: seq<real>, vs: seq<real>, v: real)
    ensures CountLt(us + vs, v) == CountLt(us, v) + CountLt(vs, v)
    ensures CountLe(us + vs, v) == CountLe(us, v) + CountLe(vs, v)
    decreases |vs|
  {
    if vs == [] {
      assert us + vs == us;
    } else {
      var vs', x := vs[..|vs| - 1], vs[|vs| - 1];
      CountConcat(us, vs', v);
      assert us + vs == us + vs' + [x] && vs == vs' + [x];
      CountAppend(us + vs', x, v);
      CountAppend(vs', x, v);
    }
  }

  /** What the interval of an entry can lose to its right neighbour from the other list. */
  function Uncertainty(next: seq<Entry>): int {
    if next == [] then 0 else next[0].G + next[0].Delta - 1
  }

  /** The loss of the k-th entry of the merged list. */
  function Loss(a: seq<Entry>, b: seq<Entry>, k: nat): int
    requires k < |Interleave(a, b)|
    decreases |a| + |b|
  {
    if a == [] || b == [] then 0
    else if b[0].V > a[0].V then (if k == 0 then Uncertainty(b) else Loss(a[1..], b, k - 1))
    else if k == 0 then Uncertainty(a) else Loss(a, b[1..], k - 1)
  }

  /** `WithinAt` for a list that continues one of weight `base`. */
  ghost predicate Follows(es: seq<Entry>, base: int, vs: seq<real>, k: nat, l: int)
    requires k < |es|
  {
    && es[k].V in vs
    && base + RMin(es, k) <= CountLe(vs, es[k].V)
    && CountLt(vs, es[k].V) < base + RMin(es, k) + es[k].Delta + l
  }

  /** The rest `es` of a list, of which `base` has been merged, against its history, and against the rest of
      the other list. */
  ghost predicate Ready(es: seq<Entry>, base: int, vs: seq<real>, l: nat, other: seq<Entry>) {
    && Sorted(es) && base + SumG(es) == |vs|
    && (forall i :: 0 <= i < |es| ==> Follows(es, base, vs, i, l))
    && (forall e :: e in other ==> base <= CountLe(vs, e.V))
  }

  lemma RMinTail(es: seq<Entry>, k: nat)
    requires 0 < k < |es|
    ensures RMin(es, k) == es[0].G + RMin(es[1..], k - 1)
  {
    assert es[..k + 1] == [es[0]] + es[1..][..k];
    SumGConcat([es[0]], es[1..][..k]);
    SumGOne(es[0]);
  }

  lemma RMinFirst(es: seq<Entry>)
    requires es != []
    ensures RMin(es, 0) == es[0].G
  {
    assert es[..1] == [es[0]];
    SumGOne(es[0]);
  }

  lemma ReadyTail(es: seq<Entry>, base: int, vs: seq<real>, l: nat, other: seq<Entry>)
    requires Ready(es, base, vs, l, other) && es != [] && forall e :: e in other ==> es[0].V <= e.V
    ensures Ready(es[1..], base + es[0].G, vs, l, other)
  {
    RMinFirst(es);
    assert es == [es[0]] + es[1..];
    SumGConcat([es[0]], es[1..]);
    SumGOne(es[0]);
    var tail, base' := es[1..], base + es[0].G;
    forall i | 0 <= i < |tail|
      ensures Follows(tail, base', vs, i, l)
    {
      assert Follows(es, base, vs, i + 1, l);
      RMinTail(es, i + 1);
    }
    assert Follows(es, base, vs, 0, l);
    forall e | e in other
      ensures base + es[0].G <= CountLe(vs, e.V)
    {
      CountMonotone(vs, es[0].V, e.V);
    }
  }

  lemma ReadyLess(es: seq<Entry>, base: int, vs: seq<real>, l: nat, other: seq<Entry>)
    requires Ready(es, base, vs, l, other) && other != []
    ensures Ready(es, base, vs, l, other[1..])
  {
  }

  /** The first entry of the merged list, taken from `es`, when the other list is at `other`. */
  lemma HeadFollows(es: seq<Entry>, base: int, vs: seq<real>, l: nat, other: seq<Entry>, base': int, vs': seq<real>, l': nat)
    requires Ready(es, base, vs, l, other) && Ready(other, base', vs', l', es)
    requires es != [] && (other != [] ==> es[0].V <= other[0].V)
    ensures var v := es[0].V;
            && v in vs
            && base + base' + es[0].G <= CountLe(vs, v) + CountLe(vs', v)
            && CountLt(vs, v) + CountLt(vs', v) < base + base' + es[0].G + es[0].Delta + Uncertainty(other) + l + l'
  {
    var v := es[0].V;
    RMinFirst(es);
    assert Follows(es, base, vs, 0, l);
    assert es[0] in es;
    if other == [] {
      CountBounds(vs', v);
    } else {
      RMinFirst(other);
      assert Follows(other, base', vs', 0, l');
      CountMonotone(vs', v, other[0].V);
    }
  }

  /** Behind its first entry the merged list follows the rest. */
  lemma ConsFollows(e: Entry, es: seq<Entry>, base: int, vs: seq<real>, k: nat, l: int)
    requires 0 < k <= |es| && Follows(es, base + e.G, vs, k - 1, l)
    ensures Follows([e] + es, base, vs, k, l)
  {
    RMinTail([e] + es, k);
    assert ([e] + es)[1..] == es;
  }

  lemma FirstFollows(e: Entry, es: seq<Entry>, base: int, us: seq<real>, vs: seq<real>, l: int)
    requires e.V in us + vs
    requires base + e.G <= CountLe(us, e.V) + CountLe(vs, e.V)
    requires CountLt(us, e.V) + CountLt(vs, e.V) < base + e.G + e.Delta + l
    ensures Follows([e] + es, base, us + vs, 0, l)
  {
    RMinFirst([e] + es);
    CountConcat(us, vs, e.V);
  }

  lemma {:induction false} InterleaveFollows(a: seq<Entry>, p: int, us: seq<real>, la: nat,
                                             b: seq<Entry>, q: int, vs: seq<real>, lb: nat, k: nat)
    requires Ready(a, p, us, la, b) && Ready(b, q, vs, lb, a) && k < |Interleave(a, b)|
    ensures Follows(Interleave(a, b), p + q, us + vs, k, Loss(a, b, k) + la + lb)
    decreases |a| + |b|
  {
    hide Ready, Follows;
    if b == [] || a == [] {
      OneSide(a, p, us, la, b, q, vs, lb, k);
    } else if b[0].V > a[0].V {
      HeadReady(a, p, us, la, b, q, vs, lb);
      if k == 0 {
        HeadFollows(a, p, us, la, b, q, vs, lb);
        FirstFollows(a[0], Interleave(a[1..], b), p + q, us, vs, Uncertainty(b) + la + lb);
      } else {
        InterleaveFollows(a[1..], p + a[0].G, us, la, b, q, vs, lb, k - 1);
        ConsFollows(a[0], Interleave(a[1..], b), p + q, us + vs, k, Loss(a[1..], b, k - 1) + la + lb);
      }
    } else {
      HeadReady(b, q, vs, lb, a, p, us, la);
      if k == 0 {
        HeadFollows(b, q, vs, lb, a, p, us, la);
        FirstFollows(b[0], Interleave(a, b[1..]), p + q, us, vs, Uncertainty(a) + la + lb);
      } else {
        InterleaveFollows(a, p, us, la, b[1..], q + b[0].G, vs, lb, k - 1);
        ConsFollows(b[0], Interleave(a, b[1..]), p + q, us + vs, k, Loss(a, b[1..], k - 1) + la + lb);
      }
    }
  }

  lemma HeadReady(es: seq<Entry>, base: int, vs: seq<real>, l: nat, other: seq<Entry>, base': int, vs': seq<real>, l': nat)
    requires Ready(es, base, vs, l, other) && Ready(other, base', vs', l', es)
    requires es != [] && other != [] && es[0].V <= other[0].V
    ensures Ready(es[1..], base + es[0].G, vs, l, other) && Ready(other, base', vs', l', es[1..])
    ensures es[0].V in vs
  {
    assert Follows(es, base, vs, 0, l);
    forall e | e in other
      ensures es[0].V <= e.V
    {
      var i :| 0 <= i < |other| && other[i] == e;
    }
    ReadyTail(es, base, vs, l, other);
    ReadyLess(other, base', vs', l', es);
  }

  lemma OneSide(a: seq<Entry>, p: int, us: seq<real>, la: nat, b: seq<Entry>, q: int, vs: seq<real>, lb: nat, k: nat)
    requires Ready(a, p, us, la, b) && Ready(b, q, vs, lb, a) && (a == [] || b == []) && k < |Interleave(a, b)|
    ensures Follows(Interleave(a, b), p + q, us + vs, k, la + lb)
  {
    var es := Interleave(a, b);
    var v := es[k].V;
    CountConcat(us, vs, v);
    if b == [] {
      assert Follows(a, p, us, k, la) && a[k] in a;
      CountBounds(vs, v);
    } else {
      assert Follows(b, q, vs, k, lb) && b[k] in b;
      CountBounds(us, v);
    }
  }

  lemma StartReady(es: seq<Entry>, n: nat, vs: seq<real>, l: nat, other: seq<Entry>)
    requires Shape(es, n) && Within(es, vs, l) && |vs| == n
    ensures Ready(es, 0, vs, l, other)
  {
    forall i | 0 <= i < |es|
      ensures Follows(es, 0, vs, i, l)
    {
      assert WithinAt(es, vs, i, l);
    }
  }

  /** Every entry of the merged list keeps the lower side of its interval, and its upper side is out by at most
      what both lists were out before and the uncertainty of its right neighbour from the other list. */
  lemma MergedEntryWithin(a: seq<Entry>, m: nat, us: seq<real>, la: nat, b: seq<Entry>, n: nat, vs: seq<real>, lb: nat, k: nat)
    requires Shape(a, m) && Within(a, us, la) && |us| == m
    requires Shape(b, n) && Within(b, vs, lb) && |vs| == n
    requires k < |Interleave(a, b)|
    ensures Follows(Interleave(a, b), 0, us + vs, k, Loss(a, b, k) + la + lb)
  {
    StartReady(a, m, us, la, b);
    StartReady(b, n, vs, lb, a);
    InterleaveFollows(a, 0, us, la, b, 0, vs, lb, k);
  }

  lemma {:induction false} LossBounded(a: seq<Entry>, b: seq<Entry>, c: int, k: nat)
    requires k < |Interleave(a, b)| && c >= 0
    requires (forall e :: e in a ==> 1 <= e.G + e.Delta <= 1 + c) && (forall e :: e in b ==> 1 <= e.G + e.Delta <= 1 + c)
    ensures 0 <= Loss(a, b, k) <= c
    decreases |a| + |b|
  {
    if a != [] && b != [] {
      assert a[0] in a && b[0] in b;
      if k > 0 {
        if b[0].V > a[0].V {
          LossBounded(a[1..], b, c, k - 1);
        } else {
          LossBounded(a, b[1..], c, k - 1);
        }
      }
    }
  }

  lemma Capacity(es: seq<Entry>, n: nat, c: int)
    requires Shape(es, n) && n / 50 <= c
    ensures forall e :: e in es ==> 1 <= e.G + e.Delta <= 1 + c
  {
  }

  lemma MergeLoss(a: seq<Entry>, m: nat, b: seq<Entry>, n: nat, c: nat)
    requires Shape(a, m) && Shape(b, n) && m / 50 <= c && n / 50 <= c
    ensures forall k :: 0 <= k < |Interleave(a, b)| ==> 0 <= Loss(a, b, k) <= c
  {
    Capacity(a, m, c);
    Capacity(b, n, c);
    hide Shape, Interleave, Loss;
    forall k | 0 <= k < |Interleave(a, b)|
      ensures 0 <= Loss(a, b, k) <= c
    {
      LossBounded(a, b, c, k);
    }
  }

  lemma InterleaveKeeps(a: seq<Entry>, m: nat, us: seq<real>, b: seq<Entry>, n: nat, vs: seq<real>)
    requires Shape(a, m) && Extremes(a, us) && Shape(b, n) && Extremes(b, vs)
    ensures Shape(Interleave(a, b), m + n) && Extremes(Interleave(a, b), us + vs)
  {
    InterleaveShape(a, m, b, n);
    InterleaveExtremes(a, us, b, vs);
  }

  lemma InterleaveWithin(a: seq<Entry>, m: nat, us: seq<real>, la: nat, b: seq<Entry>, n: nat, vs: seq<real>, lb: nat, l: nat)
    requires Shape(a, m) && Within(a, us, la) && |us| == m
    requires Shape(b, n) && Within(b, vs, lb) && |vs| == n
    requires forall k :: 0 <= k < |Interleave(a, b)| ==> Loss(a, b, k) + la + lb <= l
    ensures Within(Interleave(a, b), us + vs, l)
  {
    hide Shape, Interleave, Loss, Within;
    var es, ws := Interleave(a, b), us + vs;
    forall k | 0 <= k < |es|
      ensures WithinAt(es, ws, k, l)
    {
      MergedEntryWithin(a, m, us, la, b, n, vs, lb, k);
    }
    AllWithin(es, ws, l);
  }

  lemma AllWithin(es: seq<Entry>, vs: seq<real>, l: nat)
    requires forall k :: 0 <= k < |es| ==> WithinAt(es, vs, k, l)
    ensures Within(es, vs, l)
  {
  }

  lemma MergedWithin(a: seq<Entry>, m: nat, us: seq<real>, la: nat, b: seq<Entry>, n: nat, vs: seq<real>, lb: nat)
    requires Shape(a, m) && Within(a, us, la) && |us| == m
    requires Shape(b, n) && Within(b, vs, lb) && |vs| == n
    ensures Within(Interleave(a, b), us + vs, la + lb + Max(m, n) / 50)
  {
    var c := Max(m, n) / 50;
    MergeLoss(a, m, b, n, c);
    hide Shape, Interleave, Loss, Within, Max;
    InterleaveWithin(a, m, us, la, b, n, vs, lb, la + lb + c);
  }

  /** After a merge of summaries out by `la` and `lb`, every interval is out by at most
      `la + lb + floor(2 * EPSILON * max(m, n))`, compression included. */
  lemma MergeWithin(a: seq<Entry>, m: nat, us: seq<real>, la: nat, b: seq<Entry>, n: nat, vs: seq<real>, lb: nat)
    requires Shape(a, m) && Extremes(a, us) && Within(a, us, la) && |us| == m
    requires Shape(b, n) && Extremes(b, vs) && Within(b, vs, lb) && |vs| == n
    ensures Within(AfterMerge(a, m, b, n), us + vs, la + lb + Max(m, n) / 50)
  {
    hide Shape, Extremes, Interleave, Within, Compressed;
    MergedWithin(a, m, us, la, b, n, vs, lb);
    InterleaveKeeps(a, m, us, b, n, vs);
    CompressKeeps(Interleave(a, b), m + n, us + vs, la + lb + Max(m, n) / 50);
  }

  /** A merge of sound summaries is sound if the right neighbour from the other list, of every entry that has
      one, stands for a single value at a known rank. */
  lemma MergeIsSound(a: seq<Entry>, m: nat, us: seq<real>, b: seq<Entry>, n: nat, vs: seq<real>)
    requires Shape(a, m) && Extremes(a, us) && Sound(a, us) && |us| == m
    requires Shape(b, n) && Extremes(b, vs) && Sound(b, vs) && |vs| == n
    requires forall k :: 0 <= k < |Interleave(a, b)| ==> Loss(a, b, k) == 0
    ensures Sound(Interleave(a, b), us + vs) && Sound(AfterMerge(a, m, b, n), us + vs)
  {
    hide Shape, Extremes, Interleave, Loss, Within, Compressed;
    InterleaveWithin(a, m, us, 0, b, n, vs, 0, 0);
    InterleaveKeeps(a, m, us, b, n, vs);
    CompressKeeps(Interleave(a, b), m + n, us + vs, 0);
  }

  lemma NotEmpty(a: seq<Entry>, us: seq<real>, vs: seq<real>)
    requires Extremes(a, us) && a != []
    ensures us + vs != []
  {
    assert us != [];
  }

  lemma ExtremesSame(es: seq<Entry>, vs: seq<real>)
    requires Extremes(es, vs)
    ensures es == [] <==> vs == []
  {
  }

  /** A query on a merged summary: at most floor(EPSILON * N) + 1 below the asked rank, and above it at most
      3 * floor(EPSILON * N) + 1 and what the summary is out by. */
  lemma MergedQuantile(a: seq<Entry>, m: nat, us: seq<real>, la: nat, b: seq<Entry>, n: nat, vs: seq<real>, lb: nat, r: int)
    returns (rho: int)
    requires Shape(a, m) && Extremes(a, us) && Within(a, us, la) && |us| == m
    requires Shape(b, n) && Extremes(b, vs) && Within(b, vs, lb) && |vs| == n
    requires a != [] && b != [] && 0 <= r <= m + n
    ensures HasRank(us + vs, Answer(AfterMerge(a, m, b, n), m + n, r), rho)
    ensures r - (m + n) / 100 - 1 <= rho <= r + 3 * ((m + n) / 100) + 1 + la + lb + Max(m, n) / 50
  {
    NotEmpty(a, us, vs);
    hide Shape, Extremes, Within, Compressed, Interleave, AfterMerge, Answer, QuantileFrom, Max;
    MergeWithin(a, m, us, la, b, n, vs, lb);
    MergeKeeps(a, m, us, b, n, vs);
    ExtremesSame(AfterMerge(a, m, b, n), us + vs);
    var es, l := AfterMerge(a, m, b, n), la + lb + Max(m, n) / 50;
    rho := QuantileAccuracy(es, m + n, us + vs, r, l);
  }
}
