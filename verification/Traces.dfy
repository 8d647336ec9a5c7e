/** model/trace.go, model/span.go: the part of a trace its algorithms read, and the map from a span ID to
    the spans that name it as their parent. */
module Traces {

  datatype Span = Span(spanID: nat, parentID: nat, service: string, kind: string, start: int, duration: int, topLevel: bool)

  type Trace = seq<Span>

  function End(s: Span): int {
    s.start + s.duration
  }

  function Last(trace: Trace): Span
    requires trace != []
  {
    trace[|trace| - 1]
  }

  /** A parent ID of 0 says that there is no parent. */
  predicate IsChild(c: Span, id: nat) {
    id != 0 && c.parentID == id
  }

  /** The spans naming `id` as their parent, in trace order. */
  function Children(trace: Trace, id: nat): Trace {
    if trace == [] then []
    else Children(trace[..|trace| - 1], id) + (if IsChild(Last(trace), id) then [Last(trace)] else [])
  }

  lemma {:induction false} ChildrenAre(trace: Trace, id: nat, c: Span)
    ensures c in Children(trace, id) <==> c in trace && IsChild(c, id)
    ensures IsChild(c, id) <==> c.parentID == id && id != 0
  {
    if trace != [] {
      ChildrenAre(trace[..|trace| - 1], id, c);
      assert trace == trace[..|trace| - 1] + [Last(trace)];
    }
  }

  /** Parent links without a cycle: a height that drops from a span to each of its children. */
  ghost predicate Acyclic(trace: Trace, height: nat -> nat) {
    forall s, c :: s in trace && c in trace && IsChild(c, s.spanID) ==> height(c.spanID) < height(s.spanID)
  }

  function Lookup(m: map<nat, Trace>, id: nat): Trace {
    if id in m then m[id] else []
  }

  /** Looking an ID up in the map gives its children in trace order. */
  method ChildrenMap(trace: Trace) returns (m: map<nat, Trace>)
    ensures forall id: nat :: Lookup(m, id) == Children(trace, id)
  {
    m := map[];
    for i := 0 to |trace|
      invariant forall id: nat :: Lookup(m, id) == Children(trace[..i], id)
    {
      var span := trace[i];
      ghost var before := m;
      assert trace[..i + 1][..i] == trace[..i] && Last(trace[..i + 1]) == span;
      if span.parentID == 0 {
        continue;
      }
      if span.spanID !in m {
        m := m[span.spanID := []];
      }
      assert forall id: nat :: Lookup(m, id) == Lookup(before, id);
      if span.parentID in m {
        m := m[span.parentID := m[span.parentID] + [span]];
      } else {
        m := m[span.parentID := [span]];
      }
    }
    assert trace[..|trace|] == trace;
  }
}
