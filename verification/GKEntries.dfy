/** The algebra of entry lists behind the Greenwald-Khanna sketch of quantile/slice_summary.go: what an
    insertion, a compression and a merge do to a list, and which facts about true ranks survive them. */
module GKEntries {

  /** A group of inserted values: `G` of them end at `V`, with rank uncertainty `Delta`. */
  datatype Entry = Entry(V: real, G: int, Delta: int)

  datatype Slice = Slice(Start: real, End: real, Weight: int)

  // ---------------------------------------------------------------- weights and minimum ranks

  function SumG(es: seq<Entry>): int {
    if es == [] then 0 else SumG(es[..|es| - 1]) + es[|es| - 1].G
  }

  /** The smallest rank the value of entry `i` can have. */
  function RMin(es: seq<Entry>, i: nat): int
    requires i < |es|
  {
    SumG(es[..i + 1])
  }

  lemma {:induction false} SumGConcat(a: seq<Entry>, b: seq<Entry>)
    ensures SumG(a + b) == SumG(a) + SumG(b)
  {
    if b == [] {
      assert a + b == a;
    } else {
      var b' := b[..|b| - 1];
      SumGConcat(a, b');
      assert (a + b)[..|a + b| - 1] == a + b';
    }
  }

  lemma SumGSplit(es: seq<Entry>, lo: nat, mid: nat, hi: nat)
    requires lo <= mid <= hi <= |es|
    ensures SumG(es[lo..hi]) == SumG(es[lo..mid]) + SumG(es[mid..hi])
  {
    SumGConcat(es[lo..mid], es[mid..hi]);
    assert es[lo..mid] + es[mid..hi] == es[lo..hi];
  }

  lemma SumGOne(e: Entry)
    ensures SumG([e]) == e.G
  {
    assert [e][..0] == [];
  }

  lemma RMinStep(es: seq<Entry>, i: nat)
    requires i < |es|
    ensures RMin(es, i) == SumG(es[..i]) + es[i].G
  {
    assert es[..i + 1][..i] == es[..i];
  }

  // ---------------------------------------------------------------- true ranks

  /** How many of the inserted values are below `v`. */
  function CountLt(vs: seq<real>, v: real): nat {
    if vs == [] then 0 else CountLt(vs[..|vs| - 1], v) + (if vs[|vs| - 1] < v then 1 else 0)
  }

  /** How many of the inserted values are at most `v`. */
  function CountLe(vs: seq<real>, v: real): nat {
    if vs == [] then 0 else CountLe(vs[..|vs| - 1], v) + (if vs[|vs| - 1] <= v then 1 else 0)
  }

  /** Some occurrence of `v` has rank `rho` when the inserted values are put in order. */
  ghost predicate HasRank(vs: seq<real>, v: real, rho: int) {
    CountLt(vs, v) < rho <= CountLe(vs, v)
  }

  lemma {:induction false} CountBounds(vs: seq<real>, v: real)
    ensures CountLt(vs, v) <= CountLe(vs, v) <= |vs|
    ensures v in vs <==> CountLt(vs, v) < CountLe(vs, v)
  {
    if vs != [] {
      var vs', x := vs[..|vs| - 1], vs[|vs| - 1];
      CountBounds(vs', v);
      assert vs == vs' + [x];
    }
  }

  lemma {:induction false} CountMonotone(vs: seq<real>, v: real, w: real)
    requires v <= w
    ensures CountLt(vs, v) <= CountLt(vs, w)
    ensures CountLe(vs, v) <= CountLe(vs, w)
    ensures v < w ==> CountLe(vs, v) <= CountLt(vs, w)
  {
    if vs != [] {
      CountMonotone(vs[..|vs| - 1], v, w);
    }
  }

  lemma {:induction false} CountExtreme(vs: seq<real>, v: real)
    ensures (forall x :: x in vs ==> v <= x) ==> CountLt(vs, v) == 0
    ensures (forall x :: x in vs ==> x <= v) ==> CountLe(vs, v) == |vs|
  {
    if vs != [] {
      var vs', x := vs[..|vs| - 1], vs[|vs| - 1];
      assert x in vs;
      assert forall y :: y in vs' ==> y in vs;
      CountExtreme(vs', v);
    }
  }

  lemma CountAppend(vs: seq<real>, x: real, v: real)
    ensures CountLt(vs + [x], v) == CountLt(vs, v) + (if x < v then 1 else 0)
    ensures CountLe(vs + [x], v) == CountLe(vs, v) + (if x <= v then 1 else 0)
  {
    assert (vs + [x])[..|vs|] == vs;
  }

  // ---------------------------------------------------------------- what a summary keeps

  ghost predicate Sorted(es: seq<Entry>) {
    forall i, j :: 0 <= i < j < |es| ==> es[i].V <= es[j].V
  }

  /** Order, weights and the capacity bound `G + Delta <= 1 + floor(2 * EPSILON * N)`. */
  ghost predicate Shape(es: seq<Entry>, n: nat) {
    && Sorted(es)
    && SumG(es) == n
    && (forall i :: 0 <= i < |es| ==> es[i].G >= 1 && es[i].Delta >= 0 && es[i].G + es[i].Delta <= 1 + n / 50)
    && (es != [] ==> es[0].G == 1 && es[0].Delta == 0)
  }

  /** The first and the last entry hold the smallest and the largest inserted value. */
  ghost predicate Extremes(es: seq<Entry>, vs: seq<real>) {
    && (es == [] <==> vs == [])
    && (es != [] ==>
          && es[0].V in vs && (forall x :: x in vs ==> es[0].V <= x)
          && es[|es| - 1].V in vs && (forall x :: x in vs ==> x <= es[|es| - 1].V))
  }

  /** The Greenwald-Khanna invariant at entry `i`, with its upper side out by at most `l`: the rank interval
      `[RMin, RMin + Delta + l]` meets the true ranks of the entry's value. */
  ghost predicate WithinAt(es: seq<Entry>, vs: seq<real>, i: nat, l: nat)
    requires i < |es|
  {
    && es[i].V in vs
    && RMin(es, i) <= CountLe(vs, es[i].V)
    && CountLt(vs, es[i].V) < RMin(es, i) + es[i].Delta + l
  }

  ghost predicate Within(es: seq<Entry>, vs: seq<real>, l: nat) {
    forall i :: 0 <= i < |es| ==> WithinAt(es, vs, i, l)
  }

  /** Nothing is out: the invariant itself. */
  ghost predicate Sound(es: seq<Entry>, vs: seq<real>) {
    Within(es, vs, 0)
  }

  /** An entry's interval contains the rank of an occurrence of its value. */
  lemma WithinHasRank(es: seq<Entry>, vs: seq<real>, i: nat, l: nat) returns (rho: int)
    requires i < |es| && WithinAt(es, vs, i, l) && es[i].Delta >= 0
    ensures HasRank(vs, es[i].V, rho)
    ensures RMin(es, i) <= rho <= RMin(es, i) + es[i].Delta + l
  {
    CountBounds(vs, es[i].V);
    rho := if RMin(es, i) <= CountLt(vs, es[i].V) then CountLt(vs, es[i].V) + 1 else RMin(es, i);
  }

  // ---------------------------------------------------------------- insertion

  /** The first index whose value is above `v`. */
  function Position(es: seq<Entry>, v: real): (i: nat)
    ensures i <= |es|
    ensures forall k :: 0 <= k < i ==> es[k].V <= v
    ensures i < |es| ==> v < es[i].V
  {
    if es == [] || v < es[0].V then 0 else 1 + Position(es[1..], v)
  }

  function Placed(es: seq<Entry>, n: nat, v: real): seq<Entry> {
    var i := Position(es, v);
    es[..i] + [Entry(v, 1, if i == 0 || i == |es| then 0 else n / 50)] + es[i..]
  }

  lemma PlacedRMin(es: seq<Entry>, n: nat, v: real, k: nat)
    requires k <= |es|
    ensures var i := Position(es, v);
            RMin(Placed(es, n, v), k) ==
              if k < i then RMin(es, k)
              else if k == i then SumG(es[..i]) + 1
              else RMin(es, k - 1) + 1
  {
    var i := Position(es, v);
    var es' := Placed(es, n, v);
    if k < i {
      assert es'[..k + 1] == es[..k + 1];
    } else {
      SumGOne(es'[i]);
      SumGConcat(es[..i], [es'[i]]);
      if k == i {
        assert es'[..k + 1] == es[..i] + [es'[i]];
      } else {
        assert es'[..k + 1] == es[..i] + [es'[i]] + es[i..k];
        SumGConcat(es[..i] + [es'[i]], es[i..k]);
        SumGSplit(es, 0, i, k);
        assert es[0..i] == es[..i] && es[0..k] == es[..k];
      }
    }
  }

  lemma PlacedSorted(es: seq<Entry>, n: nat, v: real)
    requires Sorted(es)
    ensures Sorted(Placed(es, n, v))
  {
    var i := Position(es, v);
    var es' := Placed(es, n, v);
    forall a, b | 0 <= a < b < |es'|
      ensures es'[a].V <= es'[b].V
    {
      assert es'[a].V == if a < i then es[a].V else if a == i then v else es[a - 1].V;
      assert es'[b].V == if b < i then es[b].V else if b == i then v else es[b - 1].V;
      assert i < b ==> es[i].V <= es[b - 1].V;
    }
  }

  lemma PlacedShape(es: seq<Entry>, n: nat, v: real)
    requires Shape(es, n)
    ensures Shape(Placed(es, n, v), n + 1)
  {
    var i := Position(es, v);
    var es' := Placed(es, n, v);
    PlacedSorted(es, n, v);
    assert SumG(es') == n + 1 by {
      PlacedRMin(es, n, v, |es|);
      assert es'[..|es| + 1] == es';
      assert es[..|es|] == es;
    }
    assert n / 50 <= (n + 1) / 50;
    forall k | 0 <= k < |es'|
      ensures es'[k].G >= 1 && es'[k].Delta >= 0 && es'[k].G + es'[k].Delta <= 1 + (n + 1) / 50
    {
      if k < i {
        assert es'[k] == es[k];
      } else if k > i {
        assert es'[k] == es[k - 1];
      }
    }
  }

  lemma PlacedExtremes(es: seq<Entry>, n: nat, vs: seq<real>, v: real)
    requires Shape(es, n) && Extremes(es, vs)
    ensures Extremes(Placed(es, n, v), vs + [v])
  {
  }

  /** The heart of the sketch: an insertion keeps every rank interval as good as it was, because the new
      entry's right neighbour has `G + Delta <= 1 + floor(2 * EPSILON * N)`. */
  lemma PlacedWithin(es: seq<Entry>, n: nat, vs: seq<real>, v: real, l: nat)
    requires Shape(es, n) && Extremes(es, vs) && Within(es, vs, l) && |vs| == n
    ensures Within(Placed(es, n, v), vs + [v], l)
  {
    var i := Position(es, v);
    var es' := Placed(es, n, v);
    forall k | 0 <= k < |es'|
      ensures WithinAt(es', vs + [v], k, l)
    {
      PlacedRMin(es, n, v, k);
      CountAppend(vs, v, es'[k].V);
      if k < i {
        assert es'[k] == es[k] && WithinAt(es, vs, k, l);
      } else if k > i {
        assert es'[k] == es[k - 1] && WithinAt(es, vs, k - 1, l);
        assert v < es[k - 1].V;
      } else {
        PlacedNewEntry(es, n, vs, v, l);
      }
    }
  }

  lemma PlacedNewEntry(es: seq<Entry>, n: nat, vs: seq<real>, v: real, l: nat)
    requires Shape(es, n) && Extremes(es, vs) && Within(es, vs, l) && |vs| == n
    ensures var i := Position(es, v);
            SumG(es[..i]) <= CountLe(vs, v) &&
            CountLt(vs, v) <= SumG(es[..i]) + (if i == 0 || i == |es| then 0 else n / 50 + l)
  {
    var i := Position(es, v);
    if i > 0 {
      assert WithinAt(es, vs, i - 1, l);
      CountMonotone(vs, es[i - 1].V, v);
    } else {
      assert es[..i] == [];
    }
    if i == |es| {
      assert es[..i] == es;
      CountBounds(vs, v);
    } else if i == 0 {
      CountExtreme(vs, v);
    } else {
      assert WithinAt(es, vs, i, l);
      RMinStep(es, i);
      CountMonotone(vs, v, es[i].V);
    }
  }

  // ---------------------------------------------------------------- compression

  /** Entries `j..i` folded into entry `i`. */
  function Collapse(es: seq<Entry>, j: nat, i: nat): seq<Entry>
    requires j <= i < |es|
  {
    es[..j] + [Entry(es[i].V, SumG(es[j..i]) + es[i].G, es[i].Delta)] + es[i + 1..]
  }

  /** Where the leftward search for foldable entries stops, having accepted everything right of `j`. */
  function MergeStart(es: seq<Entry>, i: nat, j: nat, epsN: int): nat
    requires j < i < |es|
  {
    if j >= 1 && SumG(es[j..i]) + es[i].G + es[i].Delta < epsN
    then MergeStart(es, i, j - 1, epsN)
    else j + 1
  }

  lemma {:induction false} MergeStartBounds(es: seq<Entry>, i: nat, j: nat, epsN: int)
    requires j < i < |es|
    requires j + 1 < i ==> SumG(es[j + 1..i]) + es[i].G + es[i].Delta < epsN
    ensures var r := MergeStart(es, i, j, epsN);
            && 1 <= r <= i
            && (r < i ==> SumG(es[r..i]) + es[i].G + es[i].Delta < epsN)
            && (r > 1 ==> SumG(es[r - 1..i]) + es[i].G + es[i].Delta >= epsN)
  {
    if j >= 1 && SumG(es[j..i]) + es[i].G + es[i].Delta < epsN {
      MergeStartBounds(es, i, j - 1, epsN);
    }
  }

  function CompressFrom(es: seq<Entry>, i: int, epsN: int): seq<Entry>
    requires i < |es|
    decreases i
  {
    if i < 2 then es
    else
      MergeStartBounds(es, i, i - 1, epsN);
      var j := MergeStart(es, i, i - 1, epsN);
      CompressFrom(Collapse(es, j, i), j - 1, epsN)
  }

  function Compressed(es: seq<Entry>, n: nat): seq<Entry> {
    CompressFrom(es, |es| - 1, n / 50)
  }

  lemma SumGAround(a: seq<Entry>, e: Entry, b: seq<Entry>)
    ensures SumG(a + [e] + b) == SumG(a) + e.G + SumG(b)
  {
    SumGOne(e);
    SumGConcat(a, [e]);
    SumGConcat(a + [e], b);
  }

  lemma CollapseRMin(es: seq<Entry>, j: nat, i: nat, k: nat)
    requires j <= i < |es| && k < |es| - (i - j)
    ensures RMin(Collapse(es, j, i), k) == RMin(es, if k < j then k else k + (i - j))
  {
    var es' := Collapse(es, j, i);
    if k < j {
      assert es'[..k + 1] == es[..k + 1];
    } else {
      CollapsePrefix(es, j, i, k);
      SumGAround(es[..j], es'[j], es[i + 1..k + (i - j) + 1]);
    }
  }

  lemma CollapsePrefix(es: seq<Entry>, j: nat, i: nat, k: nat)
    requires j <= i < |es| && j <= k < |es| - (i - j)
    ensures Collapse(es, j, i)[..k + 1] == es[..j] + [Collapse(es, j, i)[j]] + es[i + 1..k + (i - j) + 1]
    ensures SumG(es[..k + (i - j) + 1]) == SumG(es[..j]) + SumG(es[j..i]) + es[i].G + SumG(es[i + 1..k + (i - j) + 1])
  {
    var m := k + (i - j);
    assert es[..m + 1] == (es[..j] + es[j..i]) + [es[i]] + es[i + 1..m + 1];
    SumGAround(es[..j] + es[j..i], es[i], es[i + 1..m + 1]);
    SumGConcat(es[..j], es[j..i]);
  }

  lemma {:induction false} SumGPositive(es: seq<Entry>)
    requires forall i :: 0 <= i < |es| ==> es[i].G >= 1
    ensures SumG(es) >= |es|
  {
    if es != [] {
      SumGPositive(es[..|es| - 1]);
    }
  }

  lemma CollapseShape(es: seq<Entry>, j: nat, i: nat, n: nat)
    requires Shape(es, n) && 1 <= j <= i < |es|
    requires j < i ==> SumG(es[j..i]) + es[i].G + es[i].Delta < n / 50
    ensures Shape(Collapse(es, j, i), n)
  {
    var es' := Collapse(es, j, i);
    CollapseRMin(es, j, i, |es'| - 1);
    assert es'[..|es'|] == es' && es[..|es|] == es;
    SumGPositive(es[j..i]);
    if j == i {
      assert es[j..i] == [];
    }
    forall k | 0 <= k < |es'|
      ensures es'[k].V == es[if k < j then k else k + (i - j)].V
      ensures es'[k].G >= 1 && es'[k].Delta >= 0 && es'[k].G + es'[k].Delta <= 1 + n / 50
    {
      assert k != j ==> es'[k] == es[if k < j then k else k + (i - j)];
    }
  }

  lemma CollapseWithin(es: seq<Entry>, j: nat, i: nat, vs: seq<real>, l: nat)
    requires j <= i < |es| && Within(es, vs, l)
    ensures Within(Collapse(es, j, i), vs, l)
  {
    var es' := Collapse(es, j, i);
    forall k | 0 <= k < |es'|
      ensures WithinAt(es', vs, k, l)
    {
      var m := if k < j then k else k + (i - j);
      CollapseRMin(es, j, i, k);
      assert es'[k].V == es[m].V && es'[k].Delta == es[m].Delta;
      assert WithinAt(es, vs, m, l);
    }
  }

  lemma {:induction false} CompressFromKeeps(es: seq<Entry>, i: int, n: nat, vs: seq<real>, l: nat)
    requires i < |es| && Shape(es, n) && Extremes(es, vs)
    ensures Shape(CompressFrom(es, i, n / 50), n)
    ensures Extremes(CompressFrom(es, i, n / 50), vs)
    ensures Within(es, vs, l) ==> Within(CompressFrom(es, i, n / 50), vs, l)
    decreases i
  {
    if i >= 2 {
      MergeStartBounds(es, i, i - 1, n / 50);
      var j := MergeStart(es, i, i - 1, n / 50);
      CollapseShape(es, j, i, n);
      if Within(es, vs, l) {
        CollapseWithin(es, j, i, vs, l);
      }
      CompressFromKeeps(Collapse(es, j, i), j - 1, n, vs, l);
    }
  }

  /** Compression keeps order, weights, the capacity bound, the extremes and the rank intervals. */
  lemma CompressKeeps(es: seq<Entry>, n: nat, vs: seq<real>, l: nat)
    requires Shape(es, n) && Extremes(es, vs)
    ensures Shape(Compressed(es, n), n) && Extremes(Compressed(es, n), vs)
    ensures Within(es, vs, l) ==> Within(Compressed(es, n), vs, l)
  {
    CompressFromKeeps(es, |es| - 1, n, vs, l);
  }

  /** No two neighbours right of `from` could still be folded together. */
  ghost predicate TightFrom(es: seq<Entry>, from: int, epsN: int) {
    forall k :: 2 <= k < |es| && from < k ==> es[k - 1].G + es[k].G + es[k].Delta >= epsN
  }

  lemma CollapseTight(es: seq<Entry>, j: nat, i: nat, epsN: int)
    requires 1 <= j <= i < |es| && TightFrom(es, i, epsN)
    requires forall k :: 0 <= k < |es| ==> es[k].G >= 1
    requires j > 1 ==> SumG(es[j - 1..i]) + es[i].G + es[i].Delta >= epsN
    ensures TightFrom(Collapse(es, j, i), j - 1, epsN)
    ensures var es' := Collapse(es, j, i); forall k :: 0 <= k < |es'| ==> es'[k].G >= 1
  {
    var es' := Collapse(es, j, i);
    SumGPositive(es[j..i]);
    assert forall k :: 0 <= k < |es'| && k != j ==> es'[k] == es[if k < j then k else k + (i - j)];
    forall k | 2 <= k < |es'| && j - 1 < k
      ensures es'[k - 1].G + es'[k].G + es'[k].Delta >= epsN
    {
      if k > j {
        assert es'[k - 1].G >= es[k - 1 + (i - j)].G;
      } else {
        SumGSplit(es, j - 1, j, i);
        assert es[j - 1..j] == [es[j - 1]];
        SumGOne(es[j - 1]);
      }
    }
  }

  lemma {:induction false} CompressFromTight(es: seq<Entry>, i: int, epsN: int)
    requires i < |es| && TightFrom(es, i, epsN)
    requires forall k :: 0 <= k < |es| ==> es[k].G >= 1
    ensures TightFrom(CompressFrom(es, i, epsN), 0, epsN)
    decreases i
  {
    if i >= 2 {
      MergeStartBounds(es, i, i - 1, epsN);
      var j := MergeStart(es, i, i - 1, epsN);
      CollapseTight(es, j, i, epsN);
      CompressFromTight(Collapse(es, j, i), j - 1, epsN);
    }
  }

  /** Compression is exhaustive: afterwards no entry past the first two could absorb its left neighbour. */
  lemma CompressIsMaximal(es: seq<Entry>, n: nat)
    requires forall k :: 0 <= k < |es| ==> es[k].G >= 1
    ensures TightFrom(Compressed(es, n), 0, n / 50)
  {
    CompressFromTight(es, |es| - 1, n / 50);
  }

  // ---------------------------------------------------------------- whole insertion runs

  /** What `Insert` leaves behind: the value placed, then compressed on every 50th insertion. */
  function AfterInsert(es: seq<Entry>, n: nat, v: real): seq<Entry> {
    if (n + 1) % 50 == 0 then Compressed(Placed(es, n, v), n + 1) else Placed(es, n, v)
  }

  lemma InsertKeeps(es: seq<Entry>, n: nat, vs: seq<real>, v: real, l: nat)
    requires Shape(es, n) && Extremes(es, vs) && |vs| == n
    ensures Shape(AfterInsert(es, n, v), n + 1) && Extremes(AfterInsert(es, n, v), vs + [v])
    ensures Within(es, vs, l) ==> Within(AfterInsert(es, n, v), vs + [v], l)
  {
    PlacedShape(es, n, v);
    PlacedExtremes(es, n, vs, v);
    if Within(es, vs, l) {
      PlacedWithin(es, n, vs, v, l);
    }
    CompressKeeps(Placed(es, n, v), n + 1, vs + [v], l);
  }

  /** The entries of a fresh summary after the values `vs`, in this order. */
  function Run(vs: seq<real>): seq<Entry> {
    if vs == [] then [] else AfterInsert(Run(vs[..|vs| - 1]), |vs| - 1, vs[|vs| - 1])
  }

  lemma RunLast(vs: seq<real>, v: real)
    ensures Run(vs + [v]) == AfterInsert(Run(vs), |vs|, v)
  {
    assert (vs + [v])[..|vs|] == vs;
  }

  lemma RunEmpty()
    ensures Shape(Run([]), 0) && Extremes(Run([]), []) && Sound(Run([]), [])
  {
  }

  /** After any insertions at all, the summary is sorted, weighs N, respects the capacity bound, holds
      both extremes, and every entry's rank interval contains a true rank of its value. */
  lemma {:induction false} RunKeeps(vs: seq<real>)
    ensures Shape(Run(vs), |vs|) && Extremes(Run(vs), vs) && Sound(Run(vs), vs)
  {
    hide Shape, Extremes, Within, Run, AfterInsert;
    if vs == [] {
      RunEmpty();
    } else {
      var vs', v := vs[..|vs| - 1], vs[|vs| - 1];
      assert vs == vs' + [v];
      RunKeeps(vs');
      InsertKeeps(Run(vs'), |vs'|, vs', v, 0);
      RunLast(vs', v);
    }
  }

  // ---------------------------------------------------------------- quantile queries

  /** The entry a query with rank target `t` (= rank + floor(EPSILON * N)) answers with, from entry `i` on. */
  function QuantileFrom(es: seq<Entry>, i: nat, t: int): (a: nat)
    requires i < |es|
    ensures a < |es|
    decreases |es| - i
  {
    if i == |es| - 1 then i
    else if t < RMin(es, i) + es[i + 1].G + es[i + 1].Delta then
      if t < RMin(es, i) + es[i + 1].G then i else i + 1
    else QuantileFrom(es, i + 1, t)
  }

  /** Rank interval of the answering entry, against the target. */
  lemma {:induction false} QuantileFromBounds(es: seq<Entry>, i: nat, t: int, n: nat)
    requires i < |es| && Shape(es, n) && t >= 0
    requires i > 0 ==> RMin(es, i) + es[i].Delta <= t
    ensures var a := QuantileFrom(es, i, t);
            && (RMin(es, a) + es[a].Delta <= t + es[a].Delta || (a == 0 && RMin(es, a) + es[a].Delta == 1))
            && (a == |es| - 1 || t < RMin(es, a) + 1 + n / 50)
    decreases |es| - i
  {
    RMinStep(es, i);
    assert es[..0] == [];
    if i + 1 < |es| {
      RMinStep(es, i + 1);
      assert es[..i + 1] == es[..i + 1];
      if t >= RMin(es, i) + es[i + 1].G + es[i + 1].Delta {
        QuantileFromBounds(es, i + 1, t, n);
      }
    }
  }

  function QuantileRank(n: nat, q: real): int {
    (q * n as real + 0.5).Floor
  }

  /** What the summary answers for rank `r`. */
  function Answer(es: seq<Entry>, n: nat, r: int): real {
    if es == [] then 0.0 else es[QuantileFrom(es, 0, r + n / 100)].V
  }

  function Max(a: int, b: int): (r: int)
    ensures a <= r && b <= r
  {
    if a < b then b else a
  }

  /** Accuracy of a query on any summary whose intervals are out by at most `l`: the answer has an occurrence
      whose rank is at most floor(EPSILON * N) + 1 below the asked rank, and above it by no more than
      floor(EPSILON * N) plus `l` plus the answering entry's own uncertainty (or one), hence by at most
      3 * floor(EPSILON * N) + 1 + l. */
  lemma QuantileAccuracy(es: seq<Entry>, n: nat, vs: seq<real>, r: int, l: nat) returns (rho: int)
    requires Shape(es, n) && Within(es, vs, l) && |vs| == n
    requires es != [] && 0 <= r <= n
    ensures HasRank(vs, Answer(es, n, r), rho)
    ensures r - n / 100 - 1 <= rho
    ensures rho <= r + n / 100 + Max(1, es[QuantileFrom(es, 0, r + n / 100)].Delta) + l <= r + 3 * (n / 100) + 1 + l
  {
    var t := r + n / 100;
    QuantileFromBounds(es, 0, t, n);
    var a := QuantileFrom(es, 0, t);
    assert WithinAt(es, vs, a, l) && es[a].Delta <= n / 50;
    if a == |es| - 1 {
      assert es[..a + 1] == es;
    }
    hide QuantileFrom, Within, Shape, HasRank;
    rho := WithinHasRank(es, vs, a, l);
    assert n / 50 <= 2 * (n / 100) + 1;
  }

  // ---------------------------------------------------------------- repeated compression

  lemma {:induction false} TightIsFixed(es: seq<Entry>, i: int, epsN: int)
    requires i < |es|
    requires forall k :: 2 <= k <= i ==> es[k - 1].G + es[k].G + es[k].Delta >= epsN
    ensures CompressFrom(es, i, epsN) == es
    decreases i
  {
    if i >= 2 {
      assert es[i - 1..i] == [es[i - 1]];
      SumGOne(es[i - 1]);
      assert Collapse(es, i, i) == es by {
        assert es[i..i] == [];
      }
      TightIsFixed(es, i - 1, epsN);
    }
  }

  /** Compressing twice changes nothing more than compressing once. */
  lemma CompressIdempotent(es: seq<Entry>, n: nat)
    requires forall k :: 0 <= k < |es| ==> es[k].G >= 1
    ensures Compressed(Compressed(es, n), n) == Compressed(es, n)
  {
    CompressIsMaximal(es, n);
    TightIsFixed(Compressed(es, n), |Compressed(es, n)| - 1, n / 50);
  }

  // ---------------------------------------------------------------- merging

  /** Two lists merged by value; on equal values the second list's entry goes first. */
  function Interleave(a: seq<Entry>, b: seq<Entry>): seq<Entry> {
    if b == [] then a
    else if a == [] then b
    else if b[0].V > a[0].V then [a[0]] + Interleave(a[1..], b)
    else [b[0]] + Interleave(a, b[1..])
  }

  lemma InterleaveHead(a: seq<Entry>, b: seq<Entry>)
    requires a != [] && b != []
    ensures Interleave(a, b)[0] == if b[0].V > a[0].V then a[0] else b[0]
  {
  }

  lemma {:induction false} InterleaveMember(a: seq<Entry>, b: seq<Entry>, e: Entry)
    ensures e in Interleave(a, b) <==> e in a || e in b
    decreases |a| + |b|
  {
    if a != [] && b != [] {
      if b[0].V > a[0].V {
        InterleaveMember(a[1..], b, e);
        assert a == [a[0]] + a[1..];
      } else {
        InterleaveMember(a, b[1..], e);
        assert b == [b[0]] + b[1..];
      }
    }
  }

  lemma {:induction false} InterleaveSum(a: seq<Entry>, b: seq<Entry>)
    ensures SumG(Interleave(a, b)) == SumG(a) + SumG(b)
    decreases |a| + |b|
  {
    if a != [] && b != [] {
      if b[0].V > a[0].V {
        InterleaveSum(a[1..], b);
        assert a == [a[0]] + a[1..];
        SumGConcat([a[0]], a[1..]);
        SumGConcat([a[0]], Interleave(a[1..], b));
      } else {
        InterleaveSum(a, b[1..]);
        assert b == [b[0]] + b[1..];
        SumGConcat([b[0]], b[1..]);
        SumGConcat([b[0]], Interleave(a, b[1..]));
      }
    }
  }

  lemma SortedCons(e: Entry, es: seq<Entry>)
    requires Sorted(es) && (es != [] ==> e.V <= es[0].V)
    ensures Sorted([e] + es)
  {
  }

  lemma {:induction false} InterleaveSorted(a: seq<Entry>, b: seq<Entry>)
    requires Sorted(a) && Sorted(b)
    ensures Sorted(Interleave(a, b))
    decreases |a| + |b|
  {
    if a != [] && b != [] {
      if b[0].V > a[0].V {
        InterleaveSorted(a[1..], b);
        if a[1..] != [] {
          InterleaveHead(a[1..], b);
        }
        SortedCons(a[0], Interleave(a[1..], b));
      } else {
        InterleaveSorted(a, b[1..]);
        if b[1..] != [] {
          InterleaveHead(a, b[1..]);
        }
        SortedCons(b[0], Interleave(a, b[1..]));
      }
    }
  }

  lemma InterleaveShape(a: seq<Entry>, m: nat, b: seq<Entry>, n: nat)
    requires Shape(a, m) && Shape(b, n)
    ensures Shape(Interleave(a, b), m + n)
  {
    InterleaveSum(a, b);
    InterleaveSorted(a, b);
    if a != [] && b != [] {
      InterleaveHead(a, b);
    }
    var es := Interleave(a, b);
    assert m / 50 <= (m + n) / 50 && n / 50 <= (m + n) / 50;
    forall k | 0 <= k < |es|
      ensures es[k].G >= 1 && es[k].Delta >= 0 && es[k].G + es[k].Delta <= 1 + (m + n) / 50
    {
      InterleaveMember(a, b, es[k]);
    }
  }

  lemma InterleaveExtremes(a: seq<Entry>, us: seq<real>, b: seq<Entry>, vs: seq<real>)
    requires Sorted(a) && Sorted(b) && Extremes(a, us) && Extremes(b, vs)
    ensures Extremes(Interleave(a, b), us + vs)
  {
    var es := Interleave(a, b);
    if a != [] && b != [] {
      InterleaveHead(a, b);
      assert es[0].V in us + vs && forall x :: x in us + vs ==> es[0].V <= x;
      InterleaveLast(a, b);
      var lo, hi := a[|a| - 1].V, b[|b| - 1].V;
      assert es[|es| - 1].V == if lo <= hi then hi else lo;
      forall x | x in us + vs
        ensures x <= es[|es| - 1].V
      {
        assert x in us || x in vs;
      }
    } else {
      assert us + vs == if a == [] then vs else us;
    }
  }

  lemma InterleaveLast(a: seq<Entry>, b: seq<Entry>)
    requires Sorted(a) && Sorted(b) && a != [] && b != []
    ensures var es := Interleave(a, b);
            es != [] && es[|es| - 1].V == if a[|a| - 1].V <= b[|b| - 1].V then b[|b| - 1].V else a[|a| - 1].V
  {
    hide Interleave, Sorted;
    var es := Interleave(a, b);
    InterleaveSorted(a, b);
    InterleaveMember(a, b, a[|a| - 1]);
    InterleaveMember(a, b, b[|b| - 1]);
    InterleaveMember(a, b, es[|es| - 1]);
    LastOfUnion(es, a, b);
  }

  lemma LastOfUnion(es: seq<Entry>, a: seq<Entry>, b: seq<Entry>)
    requires Sorted(a) && Sorted(b) && Sorted(es) && a != [] && b != [] && es != []
    requires a[|a| - 1] in es && b[|b| - 1] in es
    requires es[|es| - 1] in a || es[|es| - 1] in b
    ensures es[|es| - 1].V == if a[|a| - 1].V <= b[|b| - 1].V then b[|b| - 1].V else a[|a| - 1].V
  {
  }

  /** What `Merge` leaves behind when neither summary is empty. */
  function AfterMerge(a: seq<Entry>, m: nat, b: seq<Entry>, n: nat): seq<Entry> {
    Compressed(Interleave(a, b), m + n)
  }

  lemma MergeKeeps(a: seq<Entry>, m: nat, us: seq<real>, b: seq<Entry>, n: nat, vs: seq<real>)
    requires Shape(a, m) && Extremes(a, us) && Shape(b, n) && Extremes(b, vs)
    ensures Shape(AfterMerge(a, m, b, n), m + n)
    ensures Extremes(AfterMerge(a, m, b, n), us + vs)
  {
    InterleaveShape(a, m, b, n);
    InterleaveExtremes(a, us, b, vs);
    CompressKeeps(Interleave(a, b), m + n, us + vs, 0);
  }
}
