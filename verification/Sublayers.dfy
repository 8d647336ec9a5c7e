/** model/sublayers.go: how much of a trace's time goes to each service or type.

    The reference is instant by instant: at every instant the spans that run and have no child running share
    the instant equally. The code sweeps over the intervals between timestamps instead; the methods are
    proved to compute the same thing, and the attributed time is compared with the time the trace covers. */
module Sublayers {
  import opened RealMaps
  import opened Traces
  import G = Grains

  datatype SublayerValue = SublayerValue(metric: string, tag: G.Tag, value: real)

  const BY_SERVICE := "_sublayers.duration.by_service"
  const BY_TYPE := "_sublayers.duration.by_type"
  const SPAN_COUNT := "_sublayers.span_count"

  // ---------------------------------------------------------------- the reference, per instant

  predicate Running(s: Span, t: int) {
    s.start <= t < End(s)
  }

  predicate ChildRunning(trace: Trace, s: Span, t: int) {
    exists c :: c in trace && IsChild(c, s.spanID) && Running(c, t)
  }

  predicate Active(trace: Trace, s: Span, t: int) {
    Running(s, t) && !ChildRunning(trace, s, t)
  }

  predicate Covered(trace: Trace, t: int) {
    exists s :: s in trace && Running(s, t)
  }

  /** The active ones among the first n spans, in trace order. */
  function ActiveAmong(trace: Trace, n: nat, t: int): Trace
    requires n <= |trace|
  {
    if n == 0 then []
    else ActiveAmong(trace, n - 1, t) + (if Active(trace, trace[n - 1], t) then [trace[n - 1]] else [])
  }

  function ActiveAt(trace: Trace, t: int): Trace {
    ActiveAmong(trace, |trace|, t)
  }

  /** How many of the spans carry the attribute `key`. */
  function Carrying(spans: Trace, sel: Span -> string, key: string): nat {
    if spans == [] then 0
    else Carrying(spans[..|spans| - 1], sel, key) + (if sel(Last(spans)) == key then 1 else 0)
  }

  /** The part of one instant that goes to `key`. */
  function Share(spans: Trace, sel: Span -> string, key: string): real {
    if spans == [] then 0.0 else Carrying(spans, sel, key) as real / |spans| as real
  }

  /** The time that goes to `key` from `lo` up to but not including `hi`. */
  function TimeOf(trace: Trace, sel: Span -> string, key: string, lo: int, hi: int): real
    decreases hi - lo
  {
    if hi <= lo then 0.0 else TimeOf(trace, sel, key, lo, hi - 1) + Share(ActiveAt(trace, hi - 1), sel, key)
  }

  /** The number of instants in a range at which some span is active. */
  function ActiveTime(trace: Trace, lo: int, hi: int): nat
    decreases hi - lo
  {
    if hi <= lo then 0 else ActiveTime(trace, lo, hi - 1) + (if ActiveAt(trace, hi - 1) == [] then 0 else 1)
  }

  /** The number of instants in a range at which some span runs: the length of the union of the spans. */
  function CoveredTime(trace: Trace, lo: int, hi: int): nat
    decreases hi - lo
  {
    if hi <= lo then 0 else CoveredTime(trace, lo, hi - 1) + (if Covered(trace, hi - 1) then 1 else 0)
  }

  /** Active are the spans that run while no span runs that names them as its parent. */
  lemma ActiveMeans(trace: Trace, s: Span, t: int)
    ensures s in ActiveAt(trace, t) <==>
            && s in trace && s.start <= t < s.start + s.duration
            && !exists c :: c in trace && c.parentID == s.spanID && s.spanID != 0 && c.start <= t < c.start + c.duration
  {
    ActiveAmongAre(trace, |trace|, t, s);
    assert trace[..|trace|] == trace;
    assert forall c :: c in trace && IsChild(c, s.spanID) && Running(c, t) <==>
      c in trace && c.parentID == s.spanID && s.spanID != 0 && c.start <= t < c.start + c.duration;
  }

  lemma {:induction false} ActiveAmongAre(trace: Trace, n: nat, t: int, s: Span)
    requires n <= |trace|
    ensures s in ActiveAmong(trace, n, t) <==> s in trace[..n] && Active(trace, s, t)
  {
    if n > 0 {
      ActiveAmongAre(trace, n - 1, t, s);
      assert trace[..n] == trace[..n - 1] + [trace[n - 1]];
    }
  }

  lemma ActiveAtAre(trace: Trace, t: int, s: Span)
    ensures s in ActiveAt(trace, t) <==> s in trace && Active(trace, s, t)
  {
    ActiveAmongAre(trace, |trace|, t, s);
    assert trace[..|trace|] == trace;
  }

  // ---------------------------------------------------------------- timestamps

  predicate Increasing(ts: seq<int>) {
    forall i, j :: 0 <= i < j < |ts| ==> ts[i] < ts[j]
  }

  /** Exactly the start and end times of the spans, each once, in order. */
  ghost predicate IsTimestamps(trace: Trace, ts: seq<int>) {
    Increasing(ts) && forall t :: t in ts <==> exists s :: s in trace && (s.start == t || End(s) == t)
  }

  /** Between two neighbouring timestamps nothing starts or ends. */
  lemma {:induction false} SteadyAmong(trace: Trace, ts: seq<int>, i: nat, t: int, n: nat)
    requires IsTimestamps(trace, ts) && i + 1 < |ts| && ts[i] <= t < ts[i + 1] && n <= |trace|
    ensures ActiveAmong(trace, n, t) == ActiveAmong(trace, n, ts[i])
  {
    if n > 0 {
      SteadyAmong(trace, ts, i, t, n - 1);
      forall s | s in trace
        ensures Running(s, t) == Running(s, ts[i])
      {
        SteadySpan(trace, ts, i, t, s);
      }
    }
  }

  lemma SteadySpan(trace: Trace, ts: seq<int>, i: nat, t: int, s: Span)
    requires IsTimestamps(trace, ts) && i + 1 < |ts| && ts[i] <= t < ts[i + 1] && s in trace
    ensures Running(s, t) == Running(s, ts[i])
  {
    assert s.start in ts && End(s) in ts;
    var a :| 0 <= a < |ts| && ts[a] == s.start;
    var b :| 0 <= b < |ts| && ts[b] == End(s);
  }

  /** Over an interval between neighbouring timestamps every instant is shared alike. */
  lemma {:induction false} SteadyTime(trace: Trace, sel: Span -> string, key: string, ts: seq<int>, i: nat, hi: int)
    requires IsTimestamps(trace, ts) && i + 1 < |ts| && ts[i] <= hi <= ts[i + 1]
    ensures TimeOf(trace, sel, key, ts[0], hi) ==
            TimeOf(trace, sel, key, ts[0], ts[i]) + Times(hi - ts[i], Share(ActiveAt(trace, ts[i]), sel, key))
    decreases hi - ts[i]
  {
    hide Share, ActiveAmong, Times;
    TimesStep(hi - ts[i], Share(ActiveAt(trace, ts[i]), sel, key));
    if hi > ts[i] {
      assert ts[0] <= ts[i];
      SteadyTime(trace, sel, key, ts, i, hi - 1);
      SteadyAmong(trace, ts, i, hi - 1, |trace|);
    }
  }

  function Times(n: int, x: real): real {
    n as real * x
  }

  lemma TimesStep(n: int, x: real)
    ensures Times(n, x) == Times(n - 1, x) + x && Times(0, x) == 0.0
  {
  }

  // ---------------------------------------------------------------- the code

  method BuildTraceTimestamps(trace: Trace) returns (ts: seq<int>)
    ensures IsTimestamps(trace, ts)
  {
    var tsSet: set<int> := {};
    for i := 0 to |trace|
      invariant forall t :: t in tsSet <==> exists s :: s in trace[..i] && (s.start == t || End(s) == t)
    {
      assert trace[..i + 1] == trace[..i] + [trace[i]];
      tsSet := tsSet + {trace[i].start, End(trace[i])};
    }
    assert trace[..|trace|] == trace;
    ts := SortedSlice(tsSet);
  }

  /** The elements of a set in increasing order. */
  method SortedSlice(elements: set<int>) returns (ts: seq<int>)
    ensures Increasing(ts) && forall t :: t in ts <==> t in elements
  {
    ts := [];
    var rest := elements;
    while |rest| > 0
      invariant Increasing(ts) && rest <= elements && forall t :: t in ts <==> t in elements - rest
      decreases |rest|
    {
      ghost var member := HasMember(rest);
      var x :| x in rest;
      rest := rest - {x};
      ts := InsertSorted(ts, x);
    }
  }

  method InsertSorted(ts: seq<int>, x: int) returns (ts': seq<int>)
    requires Increasing(ts) && x !in ts
    ensures Increasing(ts') && forall t :: t in ts' <==> t in ts || t == x
  {
    var i := 0;
    while i < |ts| && ts[i] < x
      invariant 0 <= i <= |ts| && forall j :: 0 <= j < i ==> ts[j] < x
    {
      i := i + 1;
    }
    InsertedAt(ts, i, x);
    ts' := ts[..i] + [x] + ts[i..];
  }

  lemma InsertedAt(ts: seq<int>, i: nat, x: int)
    requires Increasing(ts) && x !in ts && i <= |ts|
    requires (i < |ts| ==> ts[i] >= x) && forall j :: 0 <= j < i ==> ts[j] < x
    ensures Increasing(ts[..i] + [x] + ts[i..])
    ensures forall t :: t in ts[..i] + [x] + ts[i..] <==> t in ts || t == x
  {
    assert i < |ts| ==> ts[i] in ts && ts[i] > x;
    InsertedIncreases(ts, i, x);
    InsertedMembers(ts, i, x);
  }

  lemma InsertedMembers(ts: seq<int>, i: nat, x: int)
    requires i <= |ts|
    ensures forall t :: t in ts[..i] + [x] + ts[i..] <==> t in ts || t == x
  {
    assert ts == ts[..i] + ts[i..];
  }

  lemma InsertedIncreases(ts: seq<int>, i: nat, x: int)
    requires Increasing(ts) && i <= |ts|
    requires (i < |ts| ==> ts[i] > x) && forall j :: 0 <= j < i ==> ts[j] < x
    ensures Increasing(ts[..i] + [x] + ts[i..])
  {
    var out := ts[..i] + [x] + ts[i..];
    forall j, k | 0 <= j < k < |out|
      ensures out[j] < out[k]
    {
      assert out[j] == (if j < i then ts[j] else if j == i then x else ts[j - 1]);
      assert out[k] == (if k < i then ts[k] else if k == i then x else ts[k - 1]);
    }
  }

  function ActiveSpans(m: map<int, Trace>, t: int): Trace {
    if t in m then m[t] else []
  }

  /** At every timestamp the map holds the spans running there with no child running there, in trace order. */
  method BuildTraceActiveSpansMapping(trace: Trace, ts: seq<int>) returns (active: map<int, Trace>)
    requires IsTimestamps(trace, ts)
    ensures forall j :: 0 <= j < |ts| ==> ActiveSpans(active, ts[j]) == ActiveAt(trace, ts[j])
  {
    active := map[];
    var tsToIdx: map<int, nat> := map[];
    for i := 0 to |ts|
      invariant forall t :: t in tsToIdx <==> t in ts[..i]
      invariant forall t :: t in tsToIdx ==> tsToIdx[t] < i && ts[tsToIdx[t]] == t
    {
      tsToIdx := tsToIdx[ts[i] := i];
    }
    var spanChildren := ChildrenMap(trace);
    for sIdx := 0 to |trace|
      invariant forall j :: 0 <= j < |ts| ==> ActiveSpans(active, ts[j]) == ActiveAmong(trace, sIdx, ts[j])
    {
      var span := trace[sIdx];
      assert ts[..|ts|] == ts && span in trace;
      assert span.start in ts && End(span) in ts;
      active := AddSpan(trace, ts, active, sIdx, tsToIdx[span.start], tsToIdx[End(span)], Lookup(spanChildren, span.spanID));
    }
  }

  /** The inner loop of the mapping: one span is added to the timestamps at which it is active. */
  method AddSpan(trace: Trace, ts: seq<int>, before: map<int, Trace>, sIdx: nat, first: nat, last: nat, children: Trace)
    returns (active: map<int, Trace>)
    requires Increasing(ts) && sIdx < |trace| && first < |ts| && last < |ts|
    requires ts[first] == trace[sIdx].start && ts[last] == End(trace[sIdx])
    requires children == Children(trace, trace[sIdx].spanID)
    requires forall j :: 0 <= j < |ts| ==> ActiveSpans(before, ts[j]) == ActiveAmong(trace, sIdx, ts[j])
    ensures forall j :: 0 <= j < |ts| ==> ActiveSpans(active, ts[j]) == ActiveAmong(trace, sIdx + 1, ts[j])
  {
    hide ChildRunning, ActiveAmong, AddedBelow, Running, Increasing, Children;
    var span := trace[sIdx];
    active := before;
    var tsIdx := first;
    AddedBounds(trace, ts, before, sIdx, first, last, first);
    while tsIdx < last
      invariant first <= tsIdx && (tsIdx <= last || tsIdx == first)
      invariant AddedBelow(trace, ts, active, sIdx, tsIdx)
    {
      var t := ts[tsIdx];
      var hasChild := AnyRunning(children, t);
      ChildRunningMeans(trace, span, t);
      AddedStep(trace, ts, active, sIdx, first, last, tsIdx, hasChild);
      if !hasChild {
        active := active[t := ActiveSpans(active, t) + [span]];
      }
      tsIdx := tsIdx + 1;
    }
    AddedBounds(trace, ts, active, sIdx, first, last, tsIdx);
  }

  /** The mapping once the span at `sIdx` has been added to the timestamps before the k-th. */
  ghost predicate AddedBelow(trace: Trace, ts: seq<int>, active: map<int, Trace>, sIdx: nat, k: int)
    requires sIdx < |trace|
  {
    forall j :: 0 <= j < |ts| ==>
      ActiveSpans(active, ts[j]) == ActiveAmong(trace, if j < k then sIdx + 1 else sIdx, ts[j])
  }

  lemma AddedStep(trace: Trace, ts: seq<int>, active: map<int, Trace>, sIdx: nat, first: nat, last: nat, k: nat, hasChild: bool)
    requires Increasing(ts) && sIdx < |trace| && first <= k < last < |ts|
    requires ts[first] == trace[sIdx].start && ts[last] == End(trace[sIdx])
    requires hasChild == ChildRunning(trace, trace[sIdx], ts[k])
    requires AddedBelow(trace, ts, active, sIdx, k)
    ensures hasChild ==> AddedBelow(trace, ts, active, sIdx, k + 1)
    ensures !hasChild ==>
              AddedBelow(trace, ts, active[ts[k] := ActiveSpans(active, ts[k]) + [trace[sIdx]]], sIdx, k + 1)
  {
    hide ChildRunning, ActiveAmong;
    assert ts[first] <= ts[k] < ts[last];
    AddedHere(trace, sIdx, ts[k], hasChild);
    var active' := if hasChild then active else active[ts[k] := ActiveSpans(active, ts[k]) + [trace[sIdx]]];
    forall j | 0 <= j < |ts|
      ensures ActiveSpans(active', ts[j]) == ActiveAmong(trace, if j < k + 1 then sIdx + 1 else sIdx, ts[j])
    {
      if j == k {
        assert ActiveSpans(active, ts[k]) == ActiveAmong(trace, sIdx, ts[k]);
      } else {
        assert ts[j] != ts[k];
      }
    }
  }

  lemma AddedBounds(trace: Trace, ts: seq<int>, active: map<int, Trace>, sIdx: nat, first: nat, last: nat, k: nat)
    requires Increasing(ts) && sIdx < |trace| && first < |ts| && last < |ts|
    requires ts[first] == trace[sIdx].start && ts[last] == End(trace[sIdx])
    ensures (forall j :: 0 <= j < |ts| ==> ActiveSpans(active, ts[j]) == ActiveAmong(trace, sIdx, ts[j])) ==>
              AddedBelow(trace, ts, active, sIdx, first)
    ensures first <= k && (k == last || (k == first && last <= first)) && AddedBelow(trace, ts, active, sIdx, k) ==>
              forall j :: 0 <= j < |ts| ==> ActiveSpans(active, ts[j]) == ActiveAmong(trace, sIdx + 1, ts[j])
  {
    hide ActiveAmong;
    AddedNowhere(trace, ts, sIdx, first, last);
  }

  lemma AddedNowhere(trace: Trace, ts: seq<int>, sIdx: nat, first: nat, last: nat)
    requires Increasing(ts) && sIdx < |trace| && first < |ts| && last < |ts|
    requires ts[first] == trace[sIdx].start && ts[last] == End(trace[sIdx])
    ensures forall j :: 0 <= j < |ts| && !(first <= j < last) ==>
              ActiveAmong(trace, sIdx + 1, ts[j]) == ActiveAmong(trace, sIdx, ts[j])
  {
    hide ActiveAmong, Increasing;
    forall j | 0 <= j < |ts| && !(first <= j < last)
      ensures ActiveAmong(trace, sIdx + 1, ts[j]) == ActiveAmong(trace, sIdx, ts[j])
    {
      AddedNotHere(trace, ts, sIdx, first, last, j);
    }
  }

  lemma AddedNotHere(trace: Trace, ts: seq<int>, sIdx: nat, first: nat, last: nat, j: nat)
    requires Increasing(ts) && sIdx < |trace| && first < |ts| && last < |ts| && j < |ts| && !(first <= j < last)
    requires ts[first] == trace[sIdx].start && ts[last] == End(trace[sIdx])
    ensures ActiveAmong(trace, sIdx + 1, ts[j]) == ActiveAmong(trace, sIdx, ts[j])
  {
    hide ChildRunning;
    assert j < first ==> ts[j] < ts[first];
    assert last < j ==> ts[last] < ts[j];
    assert !Running(trace[sIdx], ts[j]);
  }

  lemma AddedHere(trace: Trace, sIdx: nat, t: int, hasChild: bool)
    requires sIdx < |trace| && Running(trace[sIdx], t) && hasChild == ChildRunning(trace, trace[sIdx], t)
    ensures ActiveAmong(trace, sIdx + 1, t) == ActiveAmong(trace, sIdx, t) + if hasChild then [] else [trace[sIdx]]
  {
    hide ChildRunning;
  }

  method AnyRunning(children: Trace, t: int) returns (found: bool)
    ensures found <==> exists c :: c in children && Running(c, t)
  {
    for i := 0 to |children|
      invariant forall c :: c in children[..i] ==> !Running(c, t)
    {
      if children[i].start <= t && End(children[i]) > t {
        assert children[i] in children;
        return true;
      }
    }
    return false;
  }

  lemma ChildRunningMeans(trace: Trace, s: Span, t: int)
    ensures ChildRunning(trace, s, t) <==> exists c :: c in Children(trace, s.spanID) && Running(c, t)
  {
    forall c ensures c in Children(trace, s.spanID) <==> c in trace && IsChild(c, s.spanID) {
      ChildrenAre(trace, s.spanID, c);
    }
  }

  /** One interval: every active span that has the attribute gets a portion. */
  method Apportion(before: map<string, real>, spans: Trace, sel: Span -> string, portion: real)
    returns (durations: map<string, real>)
    requires "" !in before && portion > 0.0 && forall key :: key in before ==> before[key] > 0.0
    ensures "" !in durations && forall key :: key in durations ==> durations[key] > 0.0
    ensures forall key :: key != "" ==>
              Get(durations, key) == Get(before, key) + Times(Carrying(spans, sel, key), portion)
    ensures Total(durations) == Total(before) + Times(|spans| - Carrying(spans, sel, ""), portion)
  {
    hide Times, Total;
    durations := before;
    TimesStep(0, portion);
    for j := 0 to |spans|
      invariant "" !in durations && forall key :: key in durations ==> durations[key] > 0.0
      invariant forall key :: key != "" ==>
                  Get(durations, key) == Get(before, key) + Times(Carrying(spans[..j], sel, key), portion)
      invariant Total(durations) == Total(before) + Times(j - Carrying(spans[..j], sel, ""), portion)
    {
      assert spans[..j + 1][..j] == spans[..j] && Last(spans[..j + 1]) == spans[j];
      var key := sel(spans[j]);
      TimesStep(Carrying(spans[..j + 1], sel, key), portion);
      TimesStep(j + 1 - Carrying(spans[..j + 1], sel, ""), portion);
      if key == "" {
        continue;
      }
      TotalAdd(durations, key, portion);
      durations := durations[key := Get(durations, key) + portion];
    }
    assert spans[..|spans|] == spans;
  }

  /** The time each attribute gets is its share of every instant of the trace. In total this is the time at
      which some span is active, less what falls to spans without the attribute. */
  method ComputeDurationByAttr(trace: Trace, ts: seq<int>, active: map<int, Trace>, sel: Span -> string)
    returns (durations: map<string, real>)
    requires IsTimestamps(trace, ts)
    requires forall j :: 0 <= j < |ts| ==> ActiveSpans(active, ts[j]) == ActiveAt(trace, ts[j])
    ensures "" !in durations && forall key :: key in durations ==> durations[key] > 0.0
    ensures ts == [] ==> durations == map[]
    ensures forall key :: ts != [] && key != "" ==>
              Get(durations, key) == TimeOf(trace, sel, key, ts[0], ts[|ts| - 1])
    ensures ts != [] ==>
              Total(durations) == ActiveTime(trace, ts[0], ts[|ts| - 1]) as real - TimeOf(trace, sel, "", ts[0], ts[|ts| - 1])
  {
    hide ActiveAt, Carrying, Share, Times, Total, TimeOf, ActiveTime;
    NothingYet(trace, sel, ts);
    durations := map[];
    var i := 0;
    while i < |ts| - 1
      invariant 0 <= i && (ts == [] ==> i == 0) && (ts != [] ==> i < |ts|)
      invariant "" !in durations && (ts == [] ==> durations == map[])
      invariant forall key :: key in durations ==> durations[key] > 0.0
      invariant forall key :: ts != [] && key != "" ==> Get(durations, key) == TimeOf(trace, sel, key, ts[0], ts[i])
      invariant ts != [] ==>
                  Total(durations) == ActiveTime(trace, ts[0], ts[i]) as real - TimeOf(trace, sel, "", ts[0], ts[i])
    {
      var start, end := ts[i], ts[i + 1];
      var activeSpans := ActiveSpans(active, start);
      forall key
        ensures TimeOf(trace, sel, key, ts[0], end) ==
                TimeOf(trace, sel, key, ts[0], start) + Times(end - start, Share(activeSpans, sel, key))
      {
        SteadyTime(trace, sel, key, ts, i, end);
      }
      SteadyActive(trace, ts, i, end);
      i := i + 1;
      if |activeSpans| == 0 {
        NothingShared(activeSpans, sel);
        continue;
      }
      var durationPortion := (end - start) as real / |activeSpans| as real;
      ghost var before := durations;
      durations := Apportion(durations, activeSpans, sel, durationPortion);
      forall key
        ensures Times(Carrying(activeSpans, sel, key), durationPortion) == Times(end - start, Share(activeSpans, sel, key))
      {
        IntervalShare(activeSpans, sel, key, end - start);
      }
      IntervalTotal(activeSpans, sel, end - start);
    }
  }

  lemma NothingYet(trace: Trace, sel: Span -> string, ts: seq<int>)
    ensures Total<string>(map[]) == 0.0
    ensures ts != [] ==> ActiveTime(trace, ts[0], ts[0]) == 0 && forall key :: TimeOf(trace, sel, key, ts[0], ts[0]) == 0.0
  {
  }

  lemma NothingShared(spans: Trace, sel: Span -> string)
    requires spans == []
    ensures forall key, n :: Times(n, Share(spans, sel, key)) == 0.0
  {
  }

  lemma IntervalShare(spans: Trace, sel: Span -> string, key: string, len: int)
    requires spans != []
    ensures Times(Carrying(spans, sel, key), len as real / |spans| as real) == Times(len, Share(spans, sel, key))
  {
  }

  lemma IntervalTotal(spans: Trace, sel: Span -> string, len: int)
    requires spans != []
    ensures Times(|spans| - Carrying(spans, sel, ""), len as real / |spans| as real) ==
            len as real - Times(len, Share(spans, sel, ""))
  {
    WholeLessPart(|spans| as real, Carrying(spans, sel, "") as real, len as real);
  }

  lemma WholeLessPart(n: real, c: real, len: real)
    requires n > 0.0
    ensures (n - c) * (len / n) == len - len * (c / n)
  {
    var q, r := len / n, c / n;
    assert q * n == len && r * n == c;
    assert c * q == r * (n * q);
  }

  /** The number of active instants grows by a whole interval or by nothing. */
  lemma {:induction false} SteadyActive(trace: Trace, ts: seq<int>, i: nat, hi: int)
    requires IsTimestamps(trace, ts) && i + 1 < |ts| && ts[i] <= hi <= ts[i + 1]
    ensures ActiveTime(trace, ts[0], hi) ==
            ActiveTime(trace, ts[0], ts[i]) + (if ActiveAt(trace, ts[i]) == [] then 0 else hi - ts[i])
    decreases hi - ts[i]
  {
    hide ActiveAmong;
    if hi > ts[i] {
      assert ts[0] <= ts[i];
      SteadyActive(trace, ts, i, hi - 1);
      SteadyAmong(trace, ts, i, hi - 1, |trace|);
    }
  }

  // ---------------------------------------------------------------- conservation of time

  /** Below every running span there is an active one. */
  lemma {:induction false} RunningHasActive(trace: Trace, height: nat -> nat, s: Span, t: int) returns (a: Span)
    requires Acyclic(trace, height) && s in trace && Running(s, t)
    ensures a in trace && Active(trace, a, t)
    decreases height(s.spanID)
  {
    if ChildRunning(trace, s, t) {
      var c :| c in trace && IsChild(c, s.spanID) && Running(c, t);
      a := RunningHasActive(trace, height, c, t);
    } else {
      a := s;
    }
  }

  /** An instant none of whose time is lost: if anything runs then something is active, with the attribute. */
  ghost predicate Attributed(trace: Trace, sel: Span -> string, t: int) {
    && (Covered(trace, t) ==> exists s :: s in trace && Active(trace, s, t))
    && forall s :: s in trace && Active(trace, s, t) ==> sel(s) != ""
  }

  lemma ActiveIsCovered(trace: Trace, t: int)
    ensures ActiveAt(trace, t) != [] <==> exists s :: s in trace && Active(trace, s, t)
    ensures ActiveAt(trace, t) != [] ==> Covered(trace, t)
  {
    hide ActiveAt, ChildRunning;
    forall s ensures s in ActiveAt(trace, t) <==> s in trace && Active(trace, s, t) {
      ActiveAtAre(trace, t, s);
    }
    if ActiveAt(trace, t) != [] {
      assert Last(ActiveAt(trace, t)) in ActiveAt(trace, t);
    }
  }

  lemma {:induction false} CarryingNone(spans: Trace, sel: Span -> string, key: string)
    ensures Carrying(spans, sel, key) == 0 <==> forall s :: s in spans ==> sel(s) != key
  {
    if spans != [] {
      CarryingNone(spans[..|spans| - 1], sel, key);
      assert spans == spans[..|spans| - 1] + [Last(spans)];
    }
  }

  lemma ShareIsLost(trace: Trace, sel: Span -> string, t: int)
    ensures Share(ActiveAt(trace, t), sel, "") >= 0.0
    ensures Share(ActiveAt(trace, t), sel, "") == 0.0 <==> forall s :: s in trace && Active(trace, s, t) ==> sel(s) != ""
  {
    hide ActiveAt, ChildRunning, Carrying;
    var spans := ActiveAt(trace, t);
    CarryingNone(spans, sel, "");
    forall s ensures s in spans <==> s in trace && Active(trace, s, t) {
      ActiveAtAre(trace, t, s);
    }
    if spans != [] {
      QuotientZero(Carrying(spans, sel, "") as real, |spans| as real);
    }
  }

  lemma QuotientZero(c: real, n: real)
    requires c >= 0.0 && n > 0.0
    ensures c / n >= 0.0 && (c / n == 0.0 <==> c == 0.0)
  {
    assert c / n * n == c;
  }

  function AttributedTime(trace: Trace, sel: Span -> string, lo: int, hi: int): real {
    ActiveTime(trace, lo, hi) as real - TimeOf(trace, sel, "", lo, hi)
  }

  lemma InstantLoss(trace: Trace, sel: Span -> string, t: int)
    ensures var attributed := (if ActiveAt(trace, t) == [] then 0.0 else 1.0) - Share(ActiveAt(trace, t), sel, "");
            var covered := if Covered(trace, t) then 1.0 else 0.0;
            attributed <= covered && (attributed == covered <==> Attributed(trace, sel, t))
  {
    hide ActiveAt, Share, Covered, Active;
    ActiveIsCovered(trace, t);
    ShareIsLost(trace, sel, t);
    if ActiveAt(trace, t) == [] {
      NothingShared(ActiveAt(trace, t), sel);
    }
  }

  /** All covered time is attributed exactly when no instant loses any. */
  lemma {:induction false} TimeIsConservedExactly(trace: Trace, sel: Span -> string, lo: int, hi: int)
    requires lo <= hi
    ensures AttributedTime(trace, sel, lo, hi) <= CoveredTime(trace, lo, hi) as real
    ensures AttributedTime(trace, sel, lo, hi) == CoveredTime(trace, lo, hi) as real <==>
            forall t :: lo <= t < hi ==> Attributed(trace, sel, t)
    decreases hi - lo
  {
    if lo < hi {
      hide ActiveAt, Share, Covered, Attributed;
      TimeIsConservedExactly(trace, sel, lo, hi - 1);
      InstantLoss(trace, sel, hi - 1);
      assert (forall t :: lo <= t < hi ==> Attributed(trace, sel, t)) <==>
             (forall t :: lo <= t < hi - 1 ==> Attributed(trace, sel, t)) && Attributed(trace, sel, hi - 1);
    }
  }

  /** With acyclic parent links, and the attribute on every span, the attributed time is the length of the
      union of the spans. */
  lemma TimeIsConserved(trace: Trace, sel: Span -> string, height: nat -> nat, lo: int, hi: int)
    requires Acyclic(trace, height) && lo <= hi
    requires forall s :: s in trace ==> sel(s) != ""
    ensures AttributedTime(trace, sel, lo, hi) == CoveredTime(trace, lo, hi) as real
  {
    forall t | lo <= t < hi
      ensures Attributed(trace, sel, t)
    {
      if Covered(trace, t) {
        var s :| s in trace && Running(s, t);
        var a := RunningHasActive(trace, height, s, t);
      }
    }
    TimeIsConservedExactly(trace, sel, lo, hi);
  }

  /** Two spans that name each other as parents lose all their time. */
  lemma CycleLosesTime(a: Span, b: Span, sel: Span -> string)
    requires a.spanID != 0 && b.spanID != 0 && a.parentID == b.spanID && b.parentID == a.spanID
    requires a.start == b.start && a.duration == b.duration > 0
    ensures AttributedTime([a, b], sel, a.start, End(a)) < CoveredTime([a, b], a.start, End(a)) as real
  {
    var trace, t := [a, b], a.start;
    assert a in trace && b in trace;
    assert Running(a, t) && Covered(trace, t);
    assert IsChild(a, b.spanID) && IsChild(b, a.spanID) && Running(b, t);
    assert ChildRunning(trace, a, t) && ChildRunning(trace, b, t);
    assert !Attributed(trace, sel, t);
    TimeIsConservedExactly(trace, sel, t, End(a));
  }

  // ---------------------------------------------------------------- the whole computation

  /** Every start and end lies between `lo` and `hi`. */
  ghost predicate Within(trace: Trace, lo: int, hi: int) {
    lo <= hi && forall s :: s in trace ==> lo <= s.start <= hi && lo <= End(s) <= hi
  }

  lemma {:induction false} IdleTime(trace: Trace, sel: Span -> string, key: string, lo: int, hi: int)
    requires forall t, s :: lo <= t < hi && s in trace ==> !Running(s, t)
    ensures TimeOf(trace, sel, key, lo, hi) == 0.0 && ActiveTime(trace, lo, hi) == 0
    decreases hi - lo
  {
    if lo < hi {
      IdleTime(trace, sel, key, lo, hi - 1);
      ActiveIsCovered(trace, hi - 1);
    }
  }

  lemma {:induction false} TimeSplits(trace: Trace, sel: Span -> string, key: string, lo: int, mid: int, hi: int)
    requires lo <= mid <= hi
    ensures TimeOf(trace, sel, key, lo, hi) == TimeOf(trace, sel, key, lo, mid) + TimeOf(trace, sel, key, mid, hi)
    ensures ActiveTime(trace, lo, hi) == ActiveTime(trace, lo, mid) + ActiveTime(trace, mid, hi)
    decreases hi - mid
  {
    hide Share, ActiveAt;
    if mid < hi {
      TimeSplits(trace, sel, key, lo, mid, hi - 1);
    }
  }

  lemma HasTimestamps(trace: Trace, ts: seq<int>)
    requires IsTimestamps(trace, ts)
    ensures trace != [] ==> ts != []
  {
    if trace != [] {
      assert trace[0].start in ts;
    }
  }

  /** Nothing runs outside the timestamps, so any range around them holds the same time. */
  lemma TimeOutside(trace: Trace, sel: Span -> string, key: string, ts: seq<int>, lo: int, hi: int)
    requires IsTimestamps(trace, ts) && Within(trace, lo, hi)
    ensures ts != [] ==> TimeOf(trace, sel, key, lo, hi) == TimeOf(trace, sel, key, ts[0], ts[|ts| - 1])
    ensures ts != [] ==> ActiveTime(trace, lo, hi) == ActiveTime(trace, ts[0], ts[|ts| - 1])
    ensures ts == [] ==> TimeOf(trace, sel, key, lo, hi) == 0.0 && ActiveTime(trace, lo, hi) == 0
  {
    hide TimeOf, ActiveTime;
    if ts == [] {
      HasTimestamps(trace, ts);
      IdleTime(trace, sel, key, lo, hi);
    } else {
      var first, last := ts[0], ts[|ts| - 1];
      assert first in ts && last in ts && first <= last;
      forall s | s in trace
        ensures first <= s.start && End(s) <= last
      {
        assert s.start in ts && End(s) in ts;
      }
      IdleTime(trace, sel, key, lo, first);
      IdleTime(trace, sel, key, last, hi);
      TimeSplits(trace, sel, key, lo, first, hi);
      TimeSplits(trace, sel, key, first, last, hi);
    }
  }

  /** What `ComputeSublayers` does for one attribute: each value of the attribute gets its share of every
      instant, and the total is the attributed time. */
  method DurationsByAttr(trace: Trace, sel: Span -> string, ghost lo: int, ghost hi: int)
    returns (durations: map<string, real>)
    requires Within(trace, lo, hi)
    ensures AreDurations(durations, trace, sel, lo, hi)
  {
    hide TimeOf, ActiveTime;
    var ts := BuildTraceTimestamps(trace);
    var active := BuildTraceActiveSpansMapping(trace, ts);
    durations := ComputeDurationByAttr(trace, ts, active, sel);
    forall key
      ensures ts != [] ==> TimeOf(trace, sel, key, lo, hi) == TimeOf(trace, sel, key, ts[0], ts[|ts| - 1])
      ensures ts == [] ==> TimeOf(trace, sel, key, lo, hi) == 0.0
    {
      TimeOutside(trace, sel, key, ts, lo, hi);
    }
    TimeOutside(trace, sel, "", ts, lo, hi);
  }

  // ---------------------------------------------------------------- the values reported

  /** The durations of an attribute: each of its values has its share of every instant. */
  ghost predicate AreDurations(durations: map<string, real>, trace: Trace, sel: Span -> string, lo: int, hi: int) {
    && "" !in durations && (forall key :: key in durations ==> durations[key] > 0.0)
    && (forall key :: key != "" ==> Get(durations, key) == TimeOf(trace, sel, key, lo, hi))
    && Total(durations) == AttributedTime(trace, sel, lo, hi)
  }

  lemma {:induction false} TimeNotNegative(trace: Trace, sel: Span -> string, key: string, lo: int, hi: int)
    ensures TimeOf(trace, sel, key, lo, hi) >= 0.0
    decreases hi - lo
  {
    hide ActiveAt;
    if lo < hi {
      TimeNotNegative(trace, sel, key, lo, hi - 1);
      ShareNotNegative(ActiveAt(trace, hi - 1), sel, key);
    }
  }

  lemma ShareNotNegative(spans: Trace, sel: Span -> string, key: string)
    ensures Share(spans, sel, key) >= 0.0
  {
  }

  /** One value for each key, its duration cut to whole nanoseconds. */
  ghost predicate ListsDurations(values: seq<SublayerValue>, keys: seq<string>, metric: string, tag: string,
                                 durations: map<string, real>) {
    && |values| == |keys| == |durations|
    && (forall i, j :: 0 <= i < j < |keys| ==> keys[i] != keys[j])
    && (forall i :: 0 <= i < |keys| ==>
          keys[i] in durations && values[i] == SublayerValue(metric, G.Tag(tag, keys[i]), ToInt(durations[keys[i]]) as real))
  }

  method ValuesOf(durations: map<string, real>, metric: string, tag: string)
    returns (values: seq<SublayerValue>, ghost keys: seq<string>)
    ensures ListsDurations(values, keys, metric, tag, durations)
  {
    values, keys := [], [];
    var rest := durations.Keys;
    while |rest| > 0
      invariant rest <= durations.Keys && |values| == |keys| && |keys| + |rest| == |durations|
      invariant forall i, j :: 0 <= i < j < |keys| ==> keys[i] != keys[j]
      invariant forall i :: 0 <= i < |keys| ==> keys[i] in durations && keys[i] !in rest
      invariant forall i :: 0 <= i < |keys| ==>
                  values[i] == SublayerValue(metric, G.Tag(tag, keys[i]), ToInt(durations[keys[i]]) as real)
      decreases |rest|
    {
      ghost var member := HasMember(rest);
      var key :| key in rest;
      values := values + [SublayerValue(metric, G.Tag(tag, key), ToInt(durations[key]) as real)];
      keys := keys + [key];
      rest := rest - {key};
    }
  }

  ghost function SumOf(values: seq<SublayerValue>): real {
    if values == [] then 0.0 else SumOf(values[..|values| - 1]) + values[|values| - 1].value
  }

  /** Cutting loses less than a nanosecond for each value. */
  lemma {:induction false} ListedSum(values: seq<SublayerValue>, keys: seq<string>, metric: string, tag: string,
                                     durations: map<string, real>)
    requires ListsDurations(values, keys, metric, tag, durations) && forall key :: key in durations ==> durations[key] >= 0.0
    ensures SumOf(values) <= Total(durations) <= SumOf(values) + |values| as real
    ensures values != [] ==> Total(durations) < SumOf(values) + |values| as real
    decreases |values|
  {
    if values == [] {
      assert durations == map[];
    } else {
      var n := |values| - 1;
      var key := keys[n];
      hide SumOf, Total, ToInt;
      ListedSum(values[..n], keys[..n], metric, tag, durations - {key});
      TotalRemove(durations, key);
      SumLast(values);
      CutBounds(durations[key]);
    }
  }

  lemma SumLast(values: seq<SublayerValue>)
    requires values != []
    ensures SumOf(values) == SumOf(values[..|values| - 1]) + values[|values| - 1].value
  {
  }

  /** Values are cut towards zero. */
  lemma CutBounds(x: real)
    ensures x >= 0.0 ==> ToInt(x) as real <= x < ToInt(x) as real + 1.0
    ensures x < 0.0 ==> ToInt(x) as real - 1.0 < x <= ToInt(x) as real
  {
  }

  /** The time of an attribute depends on what is read off the spans of the trace only. */
  lemma {:induction false} SameTime(trace: Trace, f: Span -> string, g: Span -> string, key: string, lo: int, hi: int)
    requires forall s :: s in trace ==> f(s) == g(s)
    ensures TimeOf(trace, f, key, lo, hi) == TimeOf(trace, g, key, lo, hi)
    decreases hi - lo
  {
    if lo < hi {
      SameTime(trace, f, g, key, lo, hi - 1);
      forall s | s in ActiveAt(trace, hi - 1)
        ensures s in trace
      {
        ActiveAmongAre(trace, |trace|, hi - 1, s);
      }
      SameCarrying(ActiveAt(trace, hi - 1), f, g, key);
    }
  }

  lemma {:induction false} SameCarrying(spans: Trace, f: Span -> string, g: Span -> string, key: string)
    requires forall s :: s in spans ==> f(s) == g(s)
    ensures Carrying(spans, f, key) == Carrying(spans, g, key)
  {
    if spans != [] {
      SameCarrying(spans[..|spans| - 1], f, g, key);
    }
  }

  lemma SameDurations(durations: map<string, real>, trace: Trace, f: Span -> string, g: Span -> string, lo: int, hi: int)
    requires AreDurations(durations, trace, f, lo, hi) && forall s :: s in trace ==> f(s) == g(s)
    ensures AreDurations(durations, trace, g, lo, hi)
  {
    hide TimeOf, ActiveTime;
    forall key
      ensures TimeOf(trace, f, key, lo, hi) == TimeOf(trace, g, key, lo, hi)
    {
      SameTime(trace, f, g, key, lo, hi);
    }
  }

  /** Each span's time goes to its service. */
  ghost predicate ByService(durations: map<string, real>, trace: Trace, lo: int, hi: int) {
    forall sel: Span -> string :: (forall s :: s in trace ==> sel(s) == s.service) ==>
      AreDurations(durations, trace, sel, lo, hi)
  }

  /** Each span's time goes to its type. */
  ghost predicate ByType(durations: map<string, real>, trace: Trace, lo: int, hi: int) {
    forall sel: Span -> string :: (forall s :: s in trace ==> sel(s) == s.kind) ==>
      AreDurations(durations, trace, sel, lo, hi)
  }

  /** The values of a trace: its durations by service and by type, and its number of spans. */
  method ComputeSublayers(trace: Trace, ghost lo: int, ghost hi: int)
    returns (values: seq<SublayerValue>, ghost byService: seq<SublayerValue>, ghost byType: seq<SublayerValue>,
             ghost services: map<string, real>, ghost types: map<string, real>)
    requires Within(trace, lo, hi)
    ensures values == byService + byType + [SublayerValue("_sublayers.span_count", G.Tag("", ""), |trace| as real)]
    ensures ByService(services, trace, lo, hi) && ByType(types, trace, lo, hi)
    ensures exists keys :: ListsDurations(byService, keys, "_sublayers.duration.by_service", "sublayer_service", services)
    ensures exists keys :: ListsDurations(byType, keys, "_sublayers.duration.by_type", "sublayer_type", types)
  {
    hide TimeOf, ActiveTime, AttributedTime, Within, AreDurations, ListsDurations;
    var service, kind := (s: Span) => s.service, (s: Span) => s.kind;
    var durationsByService := DurationsByAttr(trace, service, lo, hi);
    var durationsByType := DurationsByAttr(trace, kind, lo, hi);
    ghost var keys1, keys2;
    var values1, values2;
    values1, keys1 := ValuesOf(durationsByService, BY_SERVICE, "sublayer_service");
    values2, keys2 := ValuesOf(durationsByType, BY_TYPE, "sublayer_type");
    values := values1 + values2 + [SublayerValue(SPAN_COUNT, G.Tag("", ""), |trace| as real)];
    byService, byType, services, types := values1, values2, durationsByService, durationsByType;
    forall sel: Span -> string | forall s :: s in trace ==> sel(s) == s.service
      ensures AreDurations(services, trace, sel, lo, hi)
    {
      SameDurations(services, trace, service, sel, lo, hi);
    }
    forall sel: Span -> string | forall s :: s in trace ==> sel(s) == s.kind
      ensures AreDurations(types, trace, sel, lo, hi)
    {
      SameDurations(types, trace, kind, sel, lo, hi);
    }
  }

  /** A value with a duration is the attribute of a span that was active, and of every instant of such a span it has
      a share. */
  lemma KeysAreActive(durations: map<string, real>, trace: Trace, sel: Span -> string, lo: int, hi: int, key: string)
    requires AreDurations(durations, trace, sel, lo, hi) && key != ""
    ensures key in durations <==>
            exists s, t :: s in trace && lo <= t < hi && Active(trace, s, t) && sel(s) == key
  {
    hide TimeOf, ActiveTime, Active;
    TimeIsActive(trace, sel, key, lo, hi);
  }

  lemma {:induction false} TimeIsActive(trace: Trace, sel: Span -> string, key: string, lo: int, hi: int)
    ensures TimeOf(trace, sel, key, lo, hi) >= 0.0
    ensures TimeOf(trace, sel, key, lo, hi) > 0.0 <==>
            exists s, t :: s in trace && lo <= t < hi && Active(trace, s, t) && sel(s) == key
    decreases hi - lo
  {
    hide ActiveAt, Active, Share;
    if lo < hi {
      TimeIsActive(trace, sel, key, lo, hi - 1);
      ShareIsActive(trace, sel, key, hi - 1);
    }
  }

  lemma ShareIsActive(trace: Trace, sel: Span -> string, key: string, t: int)
    ensures Share(ActiveAt(trace, t), sel, key) >= 0.0
    ensures Share(ActiveAt(trace, t), sel, key) > 0.0 <==> exists s :: s in trace && Active(trace, s, t) && sel(s) == key
  {
    forall s
      ensures s in ActiveAt(trace, t) <==> s in trace && Active(trace, s, t)
    {
      ActiveAmongAre(trace, |trace|, t, s);
      assert trace[..|trace|] == trace;
    }
    hide ActiveAt, Active;
    CarryingSome(ActiveAt(trace, t), sel, key);
  }

  lemma {:induction false} CarryingSome(spans: Trace, sel: Span -> string, key: string)
    ensures Carrying(spans, sel, key) > 0 <==> exists s :: s in spans && sel(s) == key
  {
    if spans != [] {
      CarryingSome(spans[..|spans| - 1], sel, key);
      assert spans == spans[..|spans| - 1] + [Last(spans)];
    }
  }

  /** What is reported for an attribute adds up to the attributed time, but for less than a nanosecond for each
      value reported; without cycles and empty attributes that is the time the trace covers. */
  lemma ReportedTime(values: seq<SublayerValue>, keys: seq<string>, metric: string, tag: string, durations: map<string, real>,
                     trace: Trace, sel: Span -> string, height: nat -> nat, lo: int, hi: int)
    requires ListsDurations(values, keys, metric, tag, durations) && AreDurations(durations, trace, sel, lo, hi) && lo <= hi
    ensures SumOf(values) <= AttributedTime(trace, sel, lo, hi) <= SumOf(values) + |values| as real
    ensures Acyclic(trace, height) && (forall s :: s in trace ==> sel(s) != "") ==>
              SumOf(values) <= CoveredTime(trace, lo, hi) as real <= SumOf(values) + |values| as real
  {
    forall key | key in durations
      ensures durations[key] >= 0.0
    {
      TimeNotNegative(trace, sel, key, lo, hi);
      assert key != "" && Get(durations, key) == durations[key];
    }
    hide TimeOf, AttributedTime, CoveredTime, SumOf, ToInt;
    ListedSum(values, keys, metric, tag, durations);
    if Acyclic(trace, height) && forall s :: s in trace ==> sel(s) != "" {
      TimeIsConserved(trace, sel, height, lo, hi);
    }
  }
}
