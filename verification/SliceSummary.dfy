/** quantile/slice_summary.go: the summary object, updated in place.

    Values are reals, so NaN and the infinities are outside the model. `Values` is the ghost history of
    everything inserted, and `Slack` says how far merges may have put the upper sides of the rank intervals
    out; the source keeps neither. */
module SliceSummaries {
  import opened GKEntries
  import opened GKMerge

  class SliceSummary {
    var Entries: seq<Entry>
    var N: nat
    ghost var Values: seq<real>
    ghost var Slack: nat

    /** What every reachable summary satisfies, merges included. */
    ghost predicate Valid()
      reads this
    {
      Shape(Entries, N) && Extremes(Entries, Values) && |Values| == N && Within(Entries, Values, Slack)
    }

    constructor ()
      ensures Valid() && Entries == [] && Values == [] && Slack == 0
    {
      Entries, N, Values, Slack := [], 0, [], 0;
    }

    /** sort.Search with the test `v < s.Entries[i].V`: binary search for the first index passing it. */
    method Search(v: real) returns (i: nat)
      requires Sorted(Entries)
      ensures i == Position(Entries, v)
    {
      i := 0;
      var j := |Entries|;
      while i < j
        invariant 0 <= i <= j <= |Entries|
        invariant forall k :: 0 <= k < i ==> Entries[k].V <= v
        invariant forall k :: j <= k < |Entries| ==> v < Entries[k].V
      {
        var h := (i + j) / 2;
        if v < Entries[h].V {
          j := h;
        } else {
          i := h + 1;
        }
      }
      PositionUnique(Entries, v, i);
    }

    /** Inserting a value records it and puts no rank interval further out; a sound summary stays sound. */
    method Insert(v: real)
      requires Valid()
      modifies this
      ensures Valid()
      ensures N == old(N) + 1 && Values == old(Values) + [v] && Slack == old(Slack)
      ensures Entries == AfterInsert(old(Entries), old(N), v)
      ensures old(Sound(Entries, Values)) ==> Sound(Entries, Values)
      ensures N % 50 == 0 ==> TightFrom(Entries, 0, N / 50)
      ensures N % 50 != 0 ==> exists i :: EntersAt(old(Entries), Entries, Entry(v, 1, old(N) / 50), i)
    {
      hide Shape, Extremes, Within, Sorted, Placed, Compressed, TightFrom, EntersAt;
      PlacedKeeps(Entries, N, Values, v, Slack);
      InsertKeeps(Entries, N, Values, v, 0);
      InsertEntry(v);
      N := N + 1;
      Values := Values + [v];
      if N % 50 == 0 {
        Compress();
      }
    }

    /** The shift that makes room for the new entry. */
    method InsertEntry(v: real)
      requires Sorted(Entries)
      modifies this`Entries
      ensures Entries == Placed(old(Entries), N, v)
      ensures exists i :: EntersAt(old(Entries), Entries, Entry(v, 1, N / 50), i)
    {
      var newEntry := Entry(v, 1, N / 50);
      var i := Search(v);
      if i == 0 || i == |Entries| {
        newEntry := newEntry.(Delta := 0);
      }
      // grow by one, shift the tail right by one, and store
      Entries := Entries + [Entry(0.0, 0, 0)];
      Entries := Entries[..i + 1] + Entries[i..|Entries| - 1];
      Entries := Entries[i := newEntry];
      assert EntersAt(old(Entries), Entries, Entry(v, 1, N / 50), i);
    }

    /** Fold entries leftwards, from the last one down, while the fold stays under 2 * EPSILON * N. */
    method Compress()
      requires Valid()
      modifies this`Entries
      ensures Valid()
      ensures Entries == Compressed(old(Entries), N)
      ensures TightFrom(Entries, 0, N / 50)
    {
      CompressKeeps(Entries, N, Values, Slack);
      CompressIsMaximal(Entries, N);
      var epsN := N / 50;
      var i := |Entries| - 1;
      while i >= 2
        invariant -1 <= i < |Entries|
        invariant CompressFrom(Entries, i, epsN) == Compressed(old(Entries), N)
        decreases i
      {
        MergeStartBounds(Entries, i, i - 1, epsN);
        var j, sum := FoldRange(i, epsN);
        Fold(j, i, sum);
        i := j - 1;
      }
    }

    method Fold(j: nat, i: nat, sum: int)
      requires j <= i < |Entries| && sum == SumG(Entries[j..i])
      modifies this`Entries
      ensures Entries == Collapse(old(Entries), j, i)
    {
      if j < i {
        Entries := Entries[j := Entry(Entries[i].V, sum + Entries[i].G, Entries[i].Delta)];
        // shift the rest left and truncate
        Entries := Entries[..j + 1] + Entries[i + 1..];
      } else {
        assert Entries[i..i] == [];
      }
    }

    /** The inner search of the compression: how far left entry `i` may absorb, and the weight absorbed. */
    method FoldRange(i: int, epsN: int) returns (j: nat, sum: int)
      requires 2 <= i < |Entries|
      ensures j == MergeStart(Entries, i, i - 1, epsN) && 1 <= j <= i
      ensures sum == SumG(Entries[j..i])
    {
      hide MergeStart, SumG;
      MergeStartBounds(Entries, i, i - 1, epsN);
      j := i - 1;
      sum := Entries[j].G;
      FoldStep(Entries, i, j, epsN);
      while j >= 1 && sum + Entries[i].G + Entries[i].Delta < epsN
        invariant 0 <= j < i
        invariant sum == SumG(Entries[j..i])
        invariant MergeStart(Entries, i, j, epsN) == MergeStart(Entries, i, i - 1, epsN)
      {
        FoldStep(Entries, i, j, epsN);
        j := j - 1;
        FoldStep(Entries, i, j, epsN);
        sum := sum + Entries[j].G;
      }
      FoldStep(Entries, i, j, epsN);
      sum := sum - Entries[j].G;
      j := j + 1;
    }

    /** The value reported for quantile `q` sits close to the asked rank, as far as the summary is not out. */
    method Quantile(q: real) returns (v: real)
      requires Valid() && 0.0 <= q <= 1.0
      ensures v == Answer(Entries, N, QuantileRank(N, q))
      ensures Entries == [] ==> v == 0.0
      ensures Entries != [] ==>
                exists r: int, rho :: Nearest(r, q, N) &&
                  HasRank(Values, v, rho) && r - N / 100 - 1 <= rho <= r + 3 * (N / 100) + 1 + Slack
    {
      if |Entries| == 0 {
        return 0.0;
      }
      var r := (q * N as real + 0.5).Floor;
      RankInRange(N, q);
      RankIsNearest(N, q, r);
      var rho := QuantileAccuracy(Entries, N, Values, r, Slack);
      assert Nearest(r, q, N) && HasRank(Values, Answer(Entries, N, r), rho);
      v := ValueAtRank(r);
    }

    /** The scan over neighbouring entries. */
    method ValueAtRank(r: int) returns (v: real)
      requires Entries != []
      ensures v == Answer(Entries, N, r)
    {
      var rmin := 0;
      var epsN := N / 100;
      var i := 0;
      while i < |Entries| - 1
        invariant 0 <= i < |Entries|
        invariant rmin == SumG(Entries[..i])
        invariant QuantileFrom(Entries, i, r + epsN) == QuantileFrom(Entries, 0, r + epsN)
      {
        var t, n := Entries[i], Entries[i + 1];
        RMinStep(Entries, i);
        rmin := rmin + t.G;
        if r + epsN < rmin + n.G + n.Delta {
          if r + epsN < rmin + n.G {
            return t.V;
          }
          return n.V;
        }
        i := i + 1;
      }
      return Entries[|Entries| - 1].V;
    }

    /** Merging keeps order, total weight and both extremes, and puts the rank intervals out by no more than
        both summaries were out and floor(2 * EPSILON * N) of the larger one. */
    method Merge(s2: SliceSummary)
      requires Valid() && s2.Valid() && s2 != this
      modifies this
      ensures Valid()
      ensures N == old(N) + s2.N && Values == old(Values) + s2.Values
      ensures Slack ==
                if s2.N == 0 then old(Slack)
                else if old(N) == 0 then s2.Slack
                else old(Slack) + s2.Slack + Max(old(N), s2.N) / 50
      ensures Entries ==
                if s2.N == 0 then old(Entries)
                else if old(N) == 0 then s2.Entries
                else AfterMerge(old(Entries), old(N), s2.Entries, s2.N)
      ensures s2.N > 0 && old(N) > 0 ==> TightFrom(Entries, 0, N / 50)
    {
      EmptyAtZero(s2.Entries, s2.N);
      ghost var all := Values + s2.Values;
      hide Shape, Extremes, Within, Max, TightFrom;
      if s2.N == 0 {
        assert Values == all;
        return;
      }
      if N == 0 {
        assert s2.Values == all;
        N, Entries, Values, Slack := s2.N, s2.Entries, s2.Values, s2.Slack;
        return;
      }
      MergeNonEmpty(s2);
    }

    /** Both sides hold something. */
    method MergeNonEmpty(s2: SliceSummary)
      requires Valid() && s2.Valid() && s2 != this && N > 0 && s2.N > 0
      modifies this
      ensures Valid()
      ensures N == old(N) + s2.N && Values == old(Values) + s2.Values
      ensures Slack == old(Slack) + s2.Slack + Max(old(N), s2.N) / 50
      ensures Entries == AfterMerge(old(Entries), old(N), s2.Entries, s2.N)
      ensures TightFrom(Entries, 0, N / 50)
    {
      hide Shape, Extremes, Within, Interleave, Compressed, Max, TightFrom;
      MergeReady(Entries, N, Values, Slack, s2.Entries, s2.N, s2.Values, s2.Slack);
      ghost var all, out: nat := Values + s2.Values, Slack + s2.Slack + Max(N, s2.N) / 50;
      MergeEntries(s2.Entries);
      N := N + s2.N;
      Values, Slack := all, out;
      Compress();
    }

    /** The merging loop: every entry of `other` shifted into place, from left to right. */
    method MergeEntries(other: seq<Entry>)
      requires |Entries| > 0
      modifies this`Entries
      ensures Entries == Interleave(old(Entries), other)
    {
      hide Interleave;
      var pos: nat := 0;
      var end := |Entries| - 1;
      var empties := seq(|other|, _ => Entry(0.0, 0, 0));
      Entries := Entries + empties;
      ghost var live := end + 1;
      var k := 0;
      assert Entries[..live] == old(Entries) && other[0..] == other;
      while k < |other|
        invariant 0 <= k <= |other| && live + |other| - k == |Entries|
        invariant Cursor(pos, end, live)
        invariant Entries[..pos] + Interleave(Entries[pos..live], other[k..]) == Interleave(old(Entries), other)
      {
        pos, end := MergeOne(other, k, pos, end, live);
        live := live + 1;
        k := k + 1;
      }
      assert other[k..] == [];
      InterleaveNone(Entries[pos..live]);
      assert Entries[..pos] + Entries[pos..live] == Entries;
    }

    /** One entry of `other` put in place among the `live` entries merged so far. */
    method MergeOne(other: seq<Entry>, k: nat, pos0: nat, end0: int, ghost live: nat) returns (pos: nat, end: int)
      requires k < |other| && live < |Entries|
      requires Cursor(pos0, end0, live)
      modifies this`Entries
      ensures |Entries| == old(|Entries|) && Cursor(pos, end, live + 1)
      ensures Entries[..pos] + Interleave(Entries[pos..live + 1], other[k + 1..]) ==
              old(Entries)[..pos0] + Interleave(old(Entries)[pos0..live], other[k..])
    {
      hide Interleave;
      var e := other[k];
      pos, end := pos0, end0;
      ghost var es := Entries;
      while pos <= end && e.V > Entries[pos].V
        invariant pos0 <= pos && Cursor(pos, end, live) && end == end0 && Entries == es
        invariant es[..pos] + Interleave(es[pos..live], other[k..]) == es[..pos0] + Interleave(es[pos0..live], other[k..])
        decreases end - pos
      {
        InterleaveKeep(es, pos, live, other, k);
        pos := pos + 1;
      }
      InterleaveTake(es, pos, live, other, k);
      end := Store(e, pos, end, live);
      pos := pos + 1;
    }

    /** Writes `e` at `pos`, shifting the unmerged original entries right when there are any. */
    method Store(e: Entry, pos: nat, end0: int, ghost live: nat) returns (end: int)
      requires live < |Entries| && Cursor(pos, end0, live)
      modifies this`Entries
      ensures |Entries| == old(|Entries|) && Cursor(pos + 1, end, live + 1)
      ensures Entries[..pos + 1] == old(Entries)[..pos] + [e]
      ensures Entries[pos + 1..live + 1] == old(Entries)[pos..live]
    {
      end := end0;
      if pos <= end {
        Entries := Entries[..pos + 1] + Entries[pos..end + 1] + Entries[end + 2..];
        end := end + 1;
      }
      Entries := Entries[pos := e];
    }

    /** The histogram of the summary: intervals running from the smallest to the largest inserted value,
        each starting where the previous one ends or being a point, and weighing N together. */
    method BySlices() returns (slices: seq<Slice>)
      requires Valid()
      ensures SumWeights(slices) == N
      ensures Entries == [] <==> slices == []
      ensures slices != [] ==> Tiling(slices, Entries[0].V, Entries[|Entries| - 1].V)
      ensures StandFor(slices, Entries)
    {
      hide StandFor, Tiling, SumWeights, SumG, Extremes, Within, WithEntry;
      if |Entries| == 0 {
        NoSlices(Entries, N);
        return [];
      }
      slices := [Slice(Entries[0].V, Entries[0].V, 1)];
      StandFirst(Entries[0]);
      var last := slices[0].End;
      var i := 1;
      assert Entries[..1] == [Entries[0]];
      while i < |Entries|
        invariant 1 <= i <= |Entries| && slices != []
        invariant SumWeights(slices) == SumG(Entries[..i])
        invariant Tiling(slices, Entries[0].V, last)
        invariant last == Entries[i - 1].V
        invariant StandFor(slices, Entries[..i])
      {
        RMinStep(Entries, i);
        StandNext(slices, Entries, i);
        slices, last := AddSlice(slices, last, Entries[i], Entries[0].V);
        i := i + 1;
      }
      assert Entries[..i] == Entries;
    }

    /** A copy has the same contents and shares nothing with the original. */
    method Copy() returns (s2: SliceSummary)
      requires Valid()
      ensures fresh(s2) && s2.Valid() && s2.Entries == Entries && s2.N == N && s2.Values == Values
      ensures s2.Slack == Slack
    {
      s2 := new SliceSummary();
      s2.Entries, s2.N, s2.Values, s2.Slack := Entries, N, Values, Slack;
    }
  }

  /** One step of the histogram: entry `cur` widens the last interval when that is the point it sits on,
      and opens a new interval otherwise. */
  method AddSlice(slices: seq<Slice>, last: real, cur: Entry, ghost lo: real) returns (r: seq<Slice>, last': real)
    requires slices != [] && Tiling(slices, lo, last) && last <= cur.V && cur.G >= 1
    ensures r != [] && Tiling(r, lo, last') && last' == cur.V
    ensures SumWeights(r) == SumWeights(slices) + cur.G
    ensures r == WithEntry(slices, last, cur)
  {
    hide SumWeights;
    last' := last;
    var lastSlice := slices[|slices| - 1];
    if cur.V == lastSlice.Start && cur.V == lastSlice.End {
      GrowLast(slices, lo, cur.G);
      r := slices[|slices| - 1 := lastSlice.(Weight := lastSlice.Weight + cur.G)];
    } else {
      if cur.G == 1 {
        last' := cur.V;
      }
      TilingAppend(slices, lo, Slice(last', cur.V, cur.G));
      r := slices + [Slice(last', cur.V, cur.G)];
      last' := cur.V;
    }
  }

  function WithEntry(slices: seq<Slice>, last: real, cur: Entry): seq<Slice>
    requires slices != []
  {
    var n := |slices| - 1;
    if slices[n].Start == cur.V == slices[n].End then slices[n := slices[n].(Weight := slices[n].Weight + cur.G)]
    else slices + [Slice(if cur.G == 1 then cur.V else last, cur.V, cur.G)]
  }

  /** Each slice stands for a run of entries of one value: for all of them if it is a point, else for a single entry
      of more than one value, which lie between the entry before and it. */
  ghost predicate StandFor(slices: seq<Slice>, es: seq<Entry>) {
    if slices == [] then es == []
    else exists a: nat :: LastStands(slices, es, a) && StandFor(slices[..|slices| - 1], es[..a])
  }

  /** The last slice stands for the entries from `a` on. */
  ghost predicate LastStands(slices: seq<Slice>, es: seq<Entry>, a: nat)
    requires slices != []
    ensures LastStands(slices, es, a) ==> a < |es|
  {
    var n := |slices| - 1;
    var s := slices[n];
    && a < |es| && s.Weight == SumG(es[a..]) && (forall i :: a <= i < |es| ==> es[i].V == s.End)
    && s.Start == (if a == 0 || es[a].G == 1 then s.End else es[a - 1].V)
    && (s.Start != s.End ==> a == |es| - 1)
    && (n > 0 && slices[n - 1].Start == slices[n - 1].End ==> slices[n - 1].End != s.End)
  }

  lemma StandNext(slices: seq<Slice>, es: seq<Entry>, i: nat)
    requires slices != [] && 0 < i < |es| && StandFor(slices, es[..i])
    ensures StandFor(WithEntry(slices, es[i - 1].V, es[i]), es[..i + 1])
  {
    hide SumG;
    var n, cur := |slices| - 1, es[i];
    var slices' := WithEntry(slices, es[i - 1].V, cur);
    SumGOne(cur);
    if slices[n].Start == cur.V == slices[n].End {
      var a: nat :| LastStands(slices, es[..i], a) && StandFor(slices[..n], es[..i][..a]);
      assert es[..i + 1][a..] == es[..i][a..] + [cur];
      SumGConcat(es[..i][a..], [cur]);
      assert es[..i + 1][..a] == es[..i][..a] && slices'[..n] == slices[..n];
      assert LastStands(slices', es[..i + 1], a);
    } else {
      assert es[..i + 1][i..] == [cur] && es[..i + 1][..i] == es[..i] && slices'[..n + 1] == slices;
      assert LastStands(slices', es[..i + 1], i);
    }
  }

  lemma NoSlices(es: seq<Entry>, n: nat)
    requires Shape(es, n) && es == []
    ensures StandFor([], es) && SumWeights([]) == n
  {
  }

  lemma StandFirst(e: Entry)
    requires e.G == 1
    ensures var slices := [Slice(e.V, e.V, 1)];
            StandFor(slices, [e]) && Tiling(slices, e.V, e.V) && SumWeights(slices) == SumG([e])
  {
    SumWeightsAppend([], Slice(e.V, e.V, 1));
    assert [] + [Slice(e.V, e.V, 1)] == [Slice(e.V, e.V, 1)];
    SumGOne(e);
    var slices := [Slice(e.V, e.V, 1)];
    assert [e][0..] == [e] && [e][..0] == [] && slices[..0] == [];
    assert StandFor([], []);
    assert LastStands(slices, [e], 0);
  }

  function SumWeights(slices: seq<Slice>): int {
    if slices == [] then 0 else SumWeights(slices[..|slices| - 1]) + slices[|slices| - 1].Weight
  }

  lemma SumWeightsAppend(slices: seq<Slice>, s: Slice)
    ensures SumWeights(slices + [s]) == SumWeights(slices) + s.Weight
  {
    assert (slices + [s])[..|slices|] == slices;
  }

  ghost predicate Tiling(slices: seq<Slice>, lo: real, hi: real)
    requires slices != []
  {
    && slices[0].Start == slices[0].End == lo
    && slices[|slices| - 1].End == hi
    && (forall k :: 0 <= k < |slices| ==> slices[k].Start <= slices[k].End && slices[k].Weight >= 1)
    && (forall k :: 0 < k < |slices| ==>
          slices[k - 1].End <= slices[k].Start &&
          (slices[k].Start == slices[k - 1].End || slices[k].Start == slices[k].End))
  }

  lemma GrowLast(slices: seq<Slice>, lo: real, w: int)
    requires slices != [] && w >= 0 && Tiling(slices, lo, slices[|slices| - 1].End)
    ensures var s := slices[|slices| - 1];
            var slices' := slices[|slices| - 1 := s.(Weight := s.Weight + w)];
            SumWeights(slices') == SumWeights(slices) + w && Tiling(slices', lo, s.End)
  {
    var n := |slices| - 1;
    var s := slices[n];
    assert slices[n := s.(Weight := s.Weight + w)][..n] == slices[..n];
  }

  lemma TilingAppend(slices: seq<Slice>, lo: real, s: Slice)
    requires slices != [] && s.Start <= s.End && s.Weight >= 1
    requires Tiling(slices, lo, slices[|slices| - 1].End)
    requires slices[|slices| - 1].End <= s.Start && (s.Start == slices[|slices| - 1].End || s.Start == s.End)
    ensures Tiling(slices + [s], lo, s.End)
    ensures SumWeights(slices + [s]) == SumWeights(slices) + s.Weight
  {
    SumWeightsAppend(slices, s);
    hide SumWeights;
  }

  lemma MergeReady(a: seq<Entry>, m: nat, us: seq<real>, la: nat, b: seq<Entry>, n: nat, vs: seq<real>, lb: nat)
    requires Shape(a, m) && Extremes(a, us) && Within(a, us, la) && |us| == m && m > 0
    requires Shape(b, n) && Extremes(b, vs) && Within(b, vs, lb) && |vs| == n
    ensures a != [] && |us + vs| == m + n
    ensures Shape(Interleave(a, b), m + n) && Extremes(Interleave(a, b), us + vs)
    ensures Within(Interleave(a, b), us + vs, la + lb + Max(m, n) / 50)
  {
    EmptyAtZero(a, m);
    hide Shape, Extremes, Within, Interleave;
    InterleaveKeeps(a, m, us, b, n, vs);
    MergedWithin(a, m, us, la, b, n, vs, lb);
  }

  lemma EmptyAtZero(es: seq<Entry>, n: nat)
    requires Shape(es, n)
    ensures n > 0 ==> es != []
  {
  }

  lemma PlacedKeeps(es: seq<Entry>, n: nat, vs: seq<real>, v: real, l: nat)
    requires Shape(es, n) && Extremes(es, vs) && Within(es, vs, l) && |vs| == n
    ensures Sorted(es)
    ensures Shape(Placed(es, n, v), n + 1) && Extremes(Placed(es, n, v), vs + [v])
    ensures Within(Placed(es, n, v), vs + [v], l)
  {
    PlacedShape(es, n, v);
    PlacedExtremes(es, n, vs, v);
    PlacedWithin(es, n, vs, v, l);
  }

  lemma PositionUnique(es: seq<Entry>, v: real, i: nat)
    requires i <= |es|
    requires forall k :: 0 <= k < i ==> es[k].V <= v
    requires i < |es| ==> v < es[i].V
    ensures i == Position(es, v)
  {
  }

  lemma FoldStep(es: seq<Entry>, i: nat, j: nat, epsN: int)
    requires j < i < |es|
    ensures SumG(es[j..i]) == es[j].G + SumG(es[j + 1..i])
    ensures j + 1 == i ==> SumG(es[j..i]) == es[j].G
    ensures MergeStart(es, i, j, epsN) ==
            if j >= 1 && SumG(es[j..i]) + es[i].G + es[i].Delta < epsN then MergeStart(es, i, j - 1, epsN) else j + 1
  {
    assert es[j..i] == [] + [es[j]] + es[j + 1..i];
    SumGAround([], es[j], es[j + 1..i]);
  }

  /** The new entry stands behind all values up to its own, exact if that is at an end of the list. */
  ghost predicate EntersAt(es: seq<Entry>, es': seq<Entry>, e: Entry, i: nat) {
    && i <= |es| && es' == es[..i] + [if i == 0 || i == |es| then e.(Delta := 0) else e] + es[i..]
    && (forall k :: 0 <= k < i ==> es[k].V <= e.V) && (forall k :: i <= k < |es| ==> e.V < es[k].V)
  }

  /** The whole number nearest to q * n, the larger one of two. */
  ghost predicate Nearest(r: int, q: real, n: nat) {
    q * n as real - 0.5 < r as real <= q * n as real + 0.5
  }

  /** Quantile q of n values is the value of rank q * n, rounded to the nearest whole number. */
  lemma RankIsNearest(n: nat, q: real, r: int)
    ensures r == QuantileRank(n, q) <==> Nearest(r, q, n)
  {
    var x := q * n as real;
    if Nearest(r, q, n) {
      assert r as real <= x + 0.5 < (r + 1) as real;
    }
  }

  lemma RankInRange(n: nat, q: real)
    requires 0.0 <= q <= 1.0
    ensures 0 <= QuantileRank(n, q) <= n
  {
    assert 0.0 <= q * n as real <= n as real;
  }

  /** Where `Merge` stands: the next entry goes at `pos`; `end` is the last unmerged original entry until
      `pos` has passed it, and `live` counts the entries in use. */
  ghost predicate Cursor(pos: nat, end: int, live: nat) {
    pos <= live && (pos <= end ==> live == end + 1) && (pos > end ==> pos == live)
  }

  lemma InterleaveNone(es: seq<Entry>)
    ensures Interleave(es, []) == es
  {
  }

  lemma InterleaveKeep(es: seq<Entry>, pos: nat, live: nat, other: seq<Entry>, k: nat)
    requires pos < live <= |es| && k < |other| && other[k].V > es[pos].V
    ensures es[..pos] + Interleave(es[pos..live], other[k..]) ==
            es[..pos + 1] + Interleave(es[pos + 1..live], other[k..])
  {
    var rest := es[pos..live];
    assert rest[1..] == es[pos + 1..live];
    assert Interleave(rest, other[k..]) == [es[pos]] + Interleave(es[pos + 1..live], other[k..]);
    assert es[..pos + 1] == es[..pos] + [es[pos]];
  }

  lemma InterleaveTake(es: seq<Entry>, pos: nat, live: nat, other: seq<Entry>, k: nat)
    requires pos <= live <= |es| && k < |other| && (pos < live ==> other[k].V <= es[pos].V)
    ensures es[..pos] + Interleave(es[pos..live], other[k..]) ==
            (es[..pos] + [other[k]]) + Interleave(es[pos..live], other[k + 1..])
  {
    var rest := es[pos..live];
    assert other[k..][1..] == other[k + 1..] && other[k..] == [other[k]] + other[k + 1..];
    assert Interleave(rest, other[k..]) == [other[k]] + Interleave(rest, other[k + 1..]);
  }

  // ---------------------------------------------------------------- merging a summary into itself

  /** Every entry of the grown list is its first one, and the `n` it began with stand behind. */
  ghost predicate Flooded(all: seq<Entry>, es: seq<Entry>, k: nat)
    requires es != [] && k + |es| <= |all|
  {
    (forall i :: 0 <= i < k ==> all[i] == es[0]) && all[k..k + |es|] == es
  }

  /** The loop of `Merge` when both summaries are the same non-empty one: the list it ranges over is the one it
      fills. `backing` is the array behind `Entries` once that has grown from `n` to 2 * n entries; its length is
      the capacity, which the bounds of a slice may not pass. The list ends as 2 * n copies of its first entry if
      the array holds 3 * n entries, and `copy` is handed a bound out of range otherwise. */
  method MergeIntoItself(backing: array<Entry>, n: nat) returns (ok: bool)
    requires 0 < n && 2 * n <= backing.Length
    modifies backing
    ensures ok <==> 3 * n <= backing.Length
    ensures ok ==> Flooded(backing[..], old(backing[..n]), 2 * n)
  {
    ghost var es := backing[..n];
    var pos, end: int := 0, n - 1;
    var k := 0;
    while k < 2 * n
      invariant 0 <= k <= 2 * n && pos == k && end == n - 1 + k && k + n <= backing.Length
      invariant Flooded(backing[..], es, k)
    {
      assert backing[..][k..k + n][0] == es[0];
      var e := backing[k];
      var placed := false;
      while pos <= end && !placed
        invariant !placed ==> pos == k && end == n - 1 + k && k + n <= backing.Length && Flooded(backing[..], es, k)
        invariant placed ==>
                    pos == k + 1 && end == n + k && k + 1 + n <= backing.Length && Flooded(backing[..], es, k + 1)
        decreases if placed then 0 else 1
      {
        if e.V > backing[pos].V {
          pos := pos + 1;
        } else {
          if end + 2 > backing.Length {
            return false;
          }
          ghost var before := backing[..];
          forall i | pos < i < end + 2 {
            backing[i] := backing[i - 1];
          }
          backing[pos] := e;
          FloodedNext(before, backing[..], es, k);
          pos, end, placed := pos + 1, end + 1, true;
        }
      }
      k := k + 1;
    }
    return true;
  }

  lemma FloodedNext(all: seq<Entry>, all': seq<Entry>, es: seq<Entry>, k: nat)
    requires es != [] && k + 1 + |es| <= |all| == |all'| && Flooded(all, es, k)
    requires forall i :: 0 <= i <= k ==> all'[i] == all[i]
    requires forall i :: k < i <= k + |es| ==> all'[i] == all[i - 1]
    ensures Flooded(all', es, k + 1)
  {
    assert all[k] == all[k..k + |es|][0];
    forall i | 0 <= i < |es|
      ensures all'[k + 1 + i] == es[i]
    {
      assert all[k + i] == all[k..k + |es|][i];
    }
    assert all'[k + 1..k + 1 + |es|] == es;
  }

  /** A summary that survives being merged into itself has lost its values: its entries weigh twice their number,
      not the 2 * N values it then claims to hold. */
  lemma SelfMergeLosesWeight(all: seq<Entry>, es: seq<Entry>, n: nat)
    requires es != [] && Shape(es, n) && 3 * |es| <= |all| && Flooded(all, es, 2 * |es|)
    ensures SumG(all[..2 * |es|]) == 2 * |es| <= 2 * n
    ensures SumG(all[..2 * |es|]) == 2 * n <==> forall i :: 0 <= i < |es| ==> es[i].G == 1
  {
    SumGFromUnits(all[..2 * |es|]);
    SumGFromUnits(es);
  }

  /** Weights of at least one add up to the number of entries exactly when all are one. */
  lemma {:induction false} SumGFromUnits(es: seq<Entry>)
    requires forall i :: 0 <= i < |es| ==> es[i].G >= 1
    ensures |es| <= SumG(es)
    ensures SumG(es) == |es| <==> forall i :: 0 <= i < |es| ==> es[i].G == 1
  {
    if es != [] {
      var n := |es| - 1;
      SumGFromUnits(es[..n]);
      assert es[n].G >= 1;
      assert forall i :: 0 <= i < n ==> es[..n][i] == es[i];
    }
  }
}
