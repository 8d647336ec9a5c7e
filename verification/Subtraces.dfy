/** model/trace.go: extracting the subtraces of top-level spans by an iterative depth-first search.

    The ancestor lists of the search are slices: appending to one writes into its backing array when there is
    room, and an array may be shared by the ancestor lists of sibling spans. The search is proved correct with
    this sharing. Span IDs are distinct, so a span is identified by its value. */
module Subtraces {
  import opened RealMaps
  import opened Traces
  import opened Options

  datatype Subtrace = Subtrace(root: Span, trace: Trace)

  /** The top-level spans that get a subtrace. */
  predicate Worthy(trace: Trace, s: Span) {
    s.topLevel && |Children(trace, s.spanID)| > 0
  }

  /** These are the top-level spans that some span names as its parent. */
  lemma WorthyMeans(trace: Trace, s: Span)
    ensures Worthy(trace, s) <==> s.topLevel && s.spanID != 0 && exists c :: c in trace && c.parentID == s.spanID
  {
    var children := Children(trace, s.spanID);
    if children != [] {
      ChildrenAre(trace, s.spanID, children[0]);
    }
    forall c | c in trace && c.parentID == s.spanID && s.spanID != 0
      ensures children != []
    {
      ChildrenAre(trace, s.spanID, c);
    }
  }

  predicate DistinctIDs(trace: Trace) {
    forall i, j :: 0 <= i < j < |trace| ==> trace[i].spanID != trace[j].spanID
  }

  predicate NoRepeats(spans: Trace) {
    forall i, j :: 0 <= i < j < |spans| ==> spans[i] != spans[j]
  }

  /** A descent from `from`: each span is a child of the one before. */
  ghost predicate Chain(trace: Trace, p: Trace) {
    p != [] && p[0] in trace && forall i :: 0 < i < |p| ==> p[i] in trace && IsChild(p[i], p[i - 1].spanID)
  }

  /** A descent from the root that does not come back to it. */
  ghost predicate Route(trace: Trace, root: Span, p: Trace) {
    Chain(trace, p) && p[0] == root && forall i :: 0 < i < |p| ==> p[i] != root
  }

  function Front(p: Trace): Trace
    requires p != []
  {
    p[..|p| - 1]
  }

  lemma SameSpan(trace: Trace, a: Span, b: Span)
    requires DistinctIDs(trace) && a in trace && b in trace && a.spanID == b.spanID
    ensures a == b
  {
  }

  /** A span is reached along one route only. */
  lemma {:induction false} RouteUnique(trace: Trace, root: Span, p: Trace, q: Trace)
    requires DistinctIDs(trace) && Route(trace, root, p) && Route(trace, root, q) && Last(p) == Last(q)
    ensures p == q
    decreases |p|
  {
    if |p| == 1 || |q| == 1 {
      assert Last(p) == root;
    } else {
      var p', q' := Front(p), Front(q);
      assert IsChild(Last(p), Last(p').spanID) && IsChild(Last(q), Last(q').spanID);
      assert Last(p') in trace && Last(q') in trace;
      SameSpan(trace, Last(p'), Last(q'));
      RouteUnique(trace, root, p', q');
      assert p == p' + [Last(p)] && q == q' + [Last(q)];
    }
  }

  /** The spans of a route that get a subtrace, from the root down. */
  function Worthies(trace: Trace, p: Trace): Trace {
    if p == [] then [] else Worthies(trace, Front(p)) + (if Worthy(trace, Last(p)) then [Last(p)] else [])
  }

  lemma {:induction false} WorthiesAre(trace: Trace, p: Trace, s: Span)
    ensures s in Worthies(trace, p) <==> s in p && Worthy(trace, s)
  {
    if p != [] {
      WorthiesAre(trace, Front(p), s);
      assert p == Front(p) + [Last(p)];
    }
  }

  lemma {:induction false} WorthiesNoRepeats(trace: Trace, p: Trace)
    requires NoRepeats(p)
    ensures NoRepeats(Worthies(trace, p))
  {
    if p != [] {
      WorthiesNoRepeats(trace, Front(p));
      assert Last(p) !in Front(p);
      WorthiesAre(trace, Front(p), Last(p));
    }
  }

  // ---------------------------------------------------------------- the state of the search

  /** Exactly the spans on the stack and the visited ones have a route, and no span is both. */
  ghost predicate Located(stack: Trace, visited: set<Span>, routes: map<Span, Trace>) {
    && (forall x :: x in stack ==> x !in visited)
    && (forall x :: x in routes <==> x in stack || x in visited)
  }

  /** The routes lead to their spans through visited ones. */
  ghost predicate Routed(trace: Trace, root: Span, visited: set<Span>, routes: map<Span, Trace>) {
    && root in routes
    && (forall x :: x in routes ==> routes[x] != [] && Route(trace, root, routes[x]) && Last(routes[x]) == x && NoRepeats(routes[x]))
    && (forall x, y :: x in routes && y in Front(routes[x]) ==> y in visited)
  }

  /** The children of visited spans have been pushed. */
  ghost predicate Closed(trace: Trace, root: Span, visited: set<Span>, routes: map<Span, Trace>) {
    forall x, c :: x in visited && c in trace && IsChild(c, x.spanID) && c != root ==> c in routes
  }

  /** The search, with `stack` still to explore. */
  ghost predicate Explored(trace: Trace, root: Span, stack: Trace, visited: set<Span>, routes: map<Span, Trace>) {
    && NoRepeats(stack) && Located(stack, visited, routes)
    && Routed(trace, root, visited, routes) && Closed(trace, root, visited, routes)
  }

  /** What the subtraces map holds once `visited` has been visited. */
  ghost predicate Tabulated(trace: Trace, visited: set<Span>, routes: map<Span, Trace>, m: map<Span, Trace>) {
    && (forall top :: top in m ==> m[top] != [] && NoRepeats(m[top]))
    && (forall x :: x in visited ==> x in routes)
    && (forall top, x :: x in Listed(m, top) <==> x in visited && top in routes[x] && Worthy(trace, top))
  }

  function Listed(m: map<Span, Trace>, top: Span): Trace {
    if top in m then m[top] else []
  }

  /** The children a step pushes. */
  function Unvisited(children: Trace, visited: set<Span>): Trace {
    if children == [] then []
    else Unvisited(Front(children), visited) + (if Last(children) in visited then [] else [Last(children)])
  }

  lemma {:induction false} UnvisitedAre(children: Trace, visited: set<Span>, c: Span)
    ensures c in Unvisited(children, visited) <==> c in children && c !in visited
  {
    if children != [] {
      UnvisitedAre(Front(children), visited, c);
      assert children == Front(children) + [Last(children)];
    }
  }

  lemma {:induction false} UnvisitedNoRepeats(children: Trace, visited: set<Span>)
    requires NoRepeats(children)
    ensures NoRepeats(Unvisited(children, visited))
  {
    if children != [] {
      UnvisitedNoRepeats(Front(children), visited);
      UnvisitedAre(Front(children), visited, Last(children));
      assert Last(children) !in Front(children);
    }
  }

  lemma {:induction false} ChildrenNoRepeats(trace: Trace, id: nat)
    requires DistinctIDs(trace)
    ensures NoRepeats(Children(trace, id))
  {
    if trace != [] {
      ChildrenNoRepeats(Front(trace), id);
      ChildrenAre(Front(trace), id, Last(trace));
      assert Last(trace) !in Front(trace);
    }
  }

  ghost function Extend(routes: map<Span, Trace>, cur: Span, pushed: Trace): map<Span, Trace>
    requires cur in routes
  {
    map x | x in routes.Keys + (set c | c in pushed) :: if x in routes then routes[x] else routes[cur] + [x]
  }

  /** A child of a span just visited is new: only the root can have been seen before. */
  lemma ChildIsNew(trace: Trace, root: Span, stack: Trace, visited: set<Span>, routes: map<Span, Trace>, cur: Span, c: Span)
    requires DistinctIDs(trace) && Explored(trace, root, stack + [cur], visited, routes)
    requires c in trace && IsChild(c, cur.spanID) && c in routes
    ensures c == root
  {
    if c != root {
      var p := routes[c];
      assert |p| > 1 && IsChild(Last(p), Last(Front(p)).spanID);
      assert cur in stack + [cur];
      assert Last(routes[cur]) in trace && Last(Front(p)) in trace;
      SameSpan(trace, cur, Last(Front(p)));
      assert false;
    }
  }

  lemma PushedAreNew(trace: Trace, root: Span, stack: Trace, visited: set<Span>, routes: map<Span, Trace>, cur: Span)
    requires DistinctIDs(trace) && Explored(trace, root, stack + [cur], visited, routes)
    requires root in visited || stack == []
    ensures cur in routes && cur !in visited && cur !in stack && root in visited + {cur}
    ensures var pushed := Unvisited(Children(trace, cur.spanID), visited + {cur});
            NoRepeats(pushed) &&
            forall c :: c in pushed <==> c in trace && IsChild(c, cur.spanID) && c !in routes
  {
    hide Route;
    var children, visited' := Children(trace, cur.spanID), visited + {cur};
    var pushed := Unvisited(children, visited');
    ChildrenNoRepeats(trace, cur.spanID);
    UnvisitedNoRepeats(children, visited');
    assert (stack + [cur])[|stack|] == cur && cur in stack + [cur];
    RootFirst(trace, root, stack, visited, routes, cur);
    forall c
      ensures c in pushed <==> c in trace && IsChild(c, cur.spanID) && c !in routes
    {
      ChildrenAre(trace, cur.spanID, c);
      UnvisitedAre(children, visited', c);
      if c in trace && IsChild(c, cur.spanID) && c in routes {
        ChildIsNew(trace, root, stack, visited, routes, cur, c);
      }
    }
  }

  lemma RootFirst(trace: Trace, root: Span, stack: Trace, visited: set<Span>, routes: map<Span, Trace>, cur: Span)
    requires Explored(trace, root, stack + [cur], visited, routes) && (root in visited || stack == [])
    ensures cur !in stack && cur !in visited && root in visited + {cur}
  {
    hide Route;
    forall i | 0 <= i < |stack|
      ensures stack[i] != cur
    {
      assert (stack + [cur])[i] == stack[i] && (stack + [cur])[|stack|] == cur;
    }
    assert cur in stack + [cur];
  }

  lemma RouteExtends(trace: Trace, root: Span, p: Trace, c: Span)
    requires Route(trace, root, p) && NoRepeats(p) && c in trace && IsChild(c, Last(p).spanID) && c != root && c !in p
    ensures Route(trace, root, p + [c]) && NoRepeats(p + [c]) && Last(p + [c]) == c && Front(p + [c]) == p
  {
  }

  /** Visiting `cur` and pushing its unvisited children keeps the search in order. */
  lemma StepExplored(trace: Trace, root: Span, stack: Trace, visited: set<Span>, routes: map<Span, Trace>, cur: Span)
    requires DistinctIDs(trace) && Explored(trace, root, stack + [cur], visited, routes)
    requires root in visited || stack == []
    ensures cur in routes
    ensures var pushed := Unvisited(Children(trace, cur.spanID), visited + {cur});
            Explored(trace, root, stack + pushed, visited + {cur}, Extend(routes, cur, pushed))
  {
    hide Route, Unvisited, Children, IsChild, Located, Routed, Closed, NoRepeats;
    PushedAreNew(trace, root, stack, visited, routes, cur);
    var pushed := Unvisited(Children(trace, cur.spanID), visited + {cur});
    PushedLocated(stack, visited, routes, cur, pushed);
    PushedRouted(trace, root, visited, routes, cur, pushed);
    PushedClosed(trace, root, visited, routes, cur, pushed);
    assert forall c :: c in pushed ==> c !in stack by { StackHasRoutes(stack, visited, routes, cur); }
    NoRepeatsJoin(stack, [cur], pushed);
  }

  lemma StackHasRoutes(stack: Trace, visited: set<Span>, routes: map<Span, Trace>, cur: Span)
    requires Located(stack + [cur], visited, routes)
    ensures forall x :: x in stack ==> x in routes
  {
    assert forall x :: x in stack ==> x in stack + [cur];
  }

  lemma PushedLocated(stack: Trace, visited: set<Span>, routes: map<Span, Trace>, cur: Span, pushed: Trace)
    requires Located(stack + [cur], visited, routes) && cur in routes && cur !in stack
    requires forall c :: c in pushed ==> c !in routes
    ensures Located(stack + pushed, visited + {cur}, Extend(routes, cur, pushed))
  {
    assert forall x :: x in stack + pushed <==> x in stack || x in pushed;
    assert forall x :: x in stack + [cur] <==> x in stack || x == cur;
  }

  lemma PushedRouted(trace: Trace, root: Span, visited: set<Span>, routes: map<Span, Trace>, cur: Span, pushed: Trace)
    requires Routed(trace, root, visited, routes) && cur in routes
    requires forall c :: c in pushed ==> c in trace && IsChild(c, cur.spanID) && c !in routes
    requires forall x :: x in visited ==> x in routes
    ensures Routed(trace, root, visited + {cur}, Extend(routes, cur, pushed))
  {
    hide Route, IsChild, NoRepeats;
    var routes' := Extend(routes, cur, pushed);
    RouteVisited(routes[cur], visited, cur);
    forall x | x in routes'
      ensures routes'[x] != [] && Route(trace, root, routes'[x]) && Last(routes'[x]) == x && NoRepeats(routes'[x])
      ensures forall y :: y in Front(routes'[x]) ==> y in visited + {cur}
    {
      if x !in routes {
        RouteExtends(trace, root, routes[cur], x);
      }
    }
  }

  lemma PushedClosed(trace: Trace, root: Span, visited: set<Span>, routes: map<Span, Trace>, cur: Span, pushed: Trace)
    requires Closed(trace, root, visited, routes) && cur in routes
    requires forall c :: c in trace && IsChild(c, cur.spanID) && c !in routes ==> c in pushed
    ensures Closed(trace, root, visited + {cur}, Extend(routes, cur, pushed))
  {
  }

  lemma RouteVisited(p: Trace, visited: set<Span>, cur: Span)
    requires p != [] && Last(p) == cur && forall y :: y in Front(p) ==> y in visited
    ensures forall y :: y in p ==> y in visited + {cur}
  {
    assert p == Front(p) + [cur];
  }

  lemma NoRepeatsJoin(stack: Trace, top: Trace, pushed: Trace)
    requires NoRepeats(stack + top) && NoRepeats(pushed) && forall c :: c in pushed ==> c !in stack
    ensures NoRepeats(stack + pushed)
  {
    forall i, j | 0 <= i < j < |stack + pushed|
      ensures (stack + pushed)[i] != (stack + pushed)[j]
    {
      if j < |stack| {
        assert (stack + top)[i] == stack[i] && (stack + top)[j] == stack[j];
      } else if i < |stack| {
        assert (stack + pushed)[j] in pushed;
      }
    }
  }

  /** Listing `cur` under its worthy ancestors, itself included, keeps the table. */
  lemma StepTabulated(trace: Trace, visited: set<Span>, routes: map<Span, Trace>, cur: Span,
                      pushed: Trace, m: map<Span, Trace>, m': map<Span, Trace>)
    requires Tabulated(trace, visited, routes, m)
    requires cur in routes && cur !in visited && forall c :: c in pushed ==> c !in routes
    requires forall top :: Listed(m', top) == Listed(m, top) + if top in Worthies(trace, routes[cur]) then [cur] else []
    requires forall top :: top in m' ==> m'[top] != []
    ensures Tabulated(trace, visited + {cur}, Extend(routes, cur, pushed), m')
  {
    hide Worthies, Worthy, Listed, NoRepeats;
    forall top, x
      ensures x in Listed(m', top) <==>
              x in visited + {cur} && top in Extend(routes, cur, pushed)[x] && Worthy(trace, top)
    {
      WorthiesAre(trace, routes[cur], top);
      assert x in Listed(m', top) <==> x in Listed(m, top) || (x == cur && top in Worthies(trace, routes[cur]));
    }
    forall top | top in m'
      ensures NoRepeats(m'[top])
    {
      ListedOnce(m, m', top, cur);
    }
  }

  lemma ListedOnce(m: map<Span, Trace>, m': map<Span, Trace>, top: Span, cur: Span)
    requires (top in m ==> NoRepeats(m[top])) && cur !in Listed(m, top) && top in m'
    requires Listed(m', top) == Listed(m, top) || Listed(m', top) == Listed(m, top) + [cur]
    ensures NoRepeats(m'[top])
  {
    assert m'[top] == Listed(m', top) && NoRepeats(Listed(m, top));
  }

  /** When the stack is empty every span that a route leads to has been visited. */
  lemma {:induction false} RoutesVisited(trace: Trace, root: Span, visited: set<Span>, routes: map<Span, Trace>, p: Trace)
    requires Explored(trace, root, [], visited, routes) && Route(trace, root, p)
    ensures Last(p) in visited
    decreases |p|
  {
    if |p| > 1 {
      RoutesVisited(trace, root, visited, routes, Front(p));
      assert IsChild(Last(p), Last(Front(p)).spanID);
    }
  }

  // ---------------------------------------------------------------- slices, and the stack of the search

  /** A slice: the first `len` elements of a backing array that other slices may share. */
  datatype Slice = Slice(arr: array<Span>, len: nat)

  ghost predicate Holds(s: Slice, elements: Trace)
    reads s.arr
  {
    s.len <= s.arr.Length && s.arr[..s.len] == elements
  }

  /** `append`: writes into the backing array if there is room behind the slice, or else into a larger copy. */
  method Append(s: Slice, x: Span, ghost elements: Trace) returns (s': Slice)
    requires Holds(s, elements)
    modifies s.arr
    ensures Holds(s', elements + [x]) && s'.len == s.len + 1
    ensures (s'.arr == s.arr && s.arr[..s.len] == old(s.arr[..s.len])) || (fresh(s'.arr) && s.arr[..] == old(s.arr[..]))
  {
    if s.len < s.arr.Length {
      s.arr[s.len] := x;
      s' := Slice(s.arr, s.len + 1);
    } else {
      var capacity: int := *;
      var arr := new Span[if capacity > s.len then capacity else s.len + 1];
      for i := 0 to s.len
        invariant arr[..i] == s.arr[..i] && s.arr[..] == old(s.arr[..])
      {
        arr[i] := s.arr[i];
      }
      arr[s.len] := x;
      s' := Slice(arr, s.len + 1);
    }
  }

  datatype SpanAndAncestors = SpanAndAncestors(span: Span, ancestors: Slice)

  /** The stack of the search; its top is the last element. */
  class Stack {
    var items: seq<SpanAndAncestors>

    constructor ()
      ensures items == []
    {
      items := [];
    }

    method Push(value: SpanAndAncestors)
      modifies this
      ensures items == old(items) + [value]
    {
      items := items + [value];
    }

    method Pop() returns (value: SpanAndAncestors)
      requires items != []
      modifies this
      ensures old(items) == items + [value]
    {
      value := items[|items| - 1];
      items := items[..|items| - 1];
    }
  }

  function Spans(items: seq<SpanAndAncestors>): Trace {
    seq(|items|, i requires 0 <= i < |items| => items[i].span)
  }

  /** The ancestor slices on the stack hold the worthy spans of the routes to their spans, and a slice never
      reaches further into a backing array than one above it on the stack. So appending to the top one, once
      popped, overwrites nothing that is still needed. */
  ghost predicate Sliced(trace: Trace, routes: map<Span, Trace>, items: seq<SpanAndAncestors>)
    reads set i | 0 <= i < |items| :: items[i].ancestors.arr
  {
    && (forall i :: 0 <= i < |items| ==> items[i].span in routes && routes[items[i].span] != [])
    && (forall i :: 0 <= i < |items| ==> Holds(items[i].ancestors, Worthies(trace, Front(routes[items[i].span]))))
    && (forall i, j :: 0 <= i < j < |items| && items[i].ancestors.arr == items[j].ancestors.arr ==>
          items[i].ancestors.len <= items[j].ancestors.len)
  }

  /** Listing a span under its ancestors. */
  method Record(before: map<Span, Trace>, ancestors: Slice, span: Span, ghost elements: Trace,
                ghost trace: Trace, ghost routes: map<Span, Trace>, ghost items: seq<SpanAndAncestors>)
    returns (m: map<Span, Trace>)
    requires Holds(ancestors, elements) && NoRepeats(elements) && Sliced(trace, routes, items)
    ensures Holds(ancestors, elements) && Sliced(trace, routes, items)
    requires forall top :: top in before ==> before[top] != []
    ensures forall top :: Listed(m, top) == Listed(before, top) + if top in elements then [span] else []
    ensures forall top :: top in m ==> m[top] != []
  {
    hide Sliced;
    m := before;
    for i := 0 to ancestors.len
      invariant Holds(ancestors, elements) && Sliced(trace, routes, items)
      invariant forall top :: Listed(m, top) == Listed(before, top) + if top in elements[..i] then [span] else []
      invariant forall top :: top in m ==> m[top] != []
    {
      var ancestor := ancestors.arr[i];
      assert ancestor == elements[i] && ancestor !in elements[..i];
      ListedNext(before, m, elements, i, span);
      m := m[ancestor := Listed(m, ancestor) + [span]];
    }
    assert elements[..|elements|] == elements;
  }

  lemma ListedNext(before: map<Span, Trace>, m: map<Span, Trace>, elements: Trace, i: nat, span: Span)
    requires i < |elements| && elements[i] !in elements[..i]
    requires forall top :: Listed(m, top) == Listed(before, top) + if top in elements[..i] then [span] else []
    ensures var m' := m[elements[i] := Listed(m, elements[i]) + [span]];
            forall top :: Listed(m', top) == Listed(before, top) + if top in elements[..i + 1] then [span] else []
  {
    assert elements[..i + 1] == elements[..i] + [elements[i]];
  }

  /** The slices on the stack reach no further into the backing array of `s` than `s` does. */
  ghost predicate Under(items: seq<SpanAndAncestors>, s: Slice) {
    forall i :: 0 <= i < |items| && items[i].ancestors.arr == s.arr ==> items[i].ancestors.len <= s.len
  }

  /** Appending to the slice popped from the top leaves the slices still on the stack as they were. */
  method AppendPopped(s: Slice, x: Span, ghost elements: Trace,
                      ghost trace: Trace, ghost routes: map<Span, Trace>, ghost items: seq<SpanAndAncestors>)
    returns (s': Slice)
    requires Holds(s, elements) && Sliced(trace, routes, items) && Under(items, s)
    modifies s.arr
    ensures Holds(s', elements + [x]) && Sliced(trace, routes, items) && Under(items, s')
    ensures s'.arr == s.arr || fresh(s'.arr)
  {
    hide Worthies;
    s' := Append(s, x, elements);
    forall i | 0 <= i < |items|
      ensures Holds(items[i].ancestors, Worthies(trace, Front(routes[items[i].span])))
    {
      var a := items[i].ancestors;
      if a.arr == s.arr {
        assert a.arr[..a.len] == s.arr[..s.len][..a.len];
        assert old(a.arr[..a.len]) == old(s.arr[..s.len])[..a.len];
      }
    }
  }

  function Items(spans: Trace, ancestors: Slice): seq<SpanAndAncestors> {
    seq(|spans|, i requires 0 <= i < |spans| => SpanAndAncestors(spans[i], ancestors))
  }

  lemma SlicedPushed(trace: Trace, routes: map<Span, Trace>, items: seq<SpanAndAncestors>, cur: Span, s: Slice, pushed: Trace)
    requires Sliced(trace, routes, items) && Under(items, s) && cur in routes
    requires Holds(s, Worthies(trace, routes[cur])) && forall c :: c in pushed ==> c !in routes
    ensures Sliced(trace, Extend(routes, cur, pushed), items + Items(pushed, s))
  {
    hide Worthies;
    var routes', items' := Extend(routes, cur, pushed), items + Items(pushed, s);
    forall i | 0 <= i < |items'|
      ensures items'[i].span in routes' && routes'[items'[i].span] != []
      ensures Holds(items'[i].ancestors, Worthies(trace, Front(routes'[items'[i].span])))
    {
      if i >= |items| {
        var c := pushed[i - |items|];
        assert items'[i].span == c && Front(routes[cur] + [c]) == routes[cur];
      }
    }
  }

  /** What the search returns: for each worthy span the root leads to, one subtrace, which lists exactly the
      spans whose route passes through it, each once. */
  ghost predicate SubtracesOf(trace: Trace, root: Span, subtraces: seq<Subtrace>) {
    && (forall i, j :: 0 <= i < j < |subtraces| ==> subtraces[i].root != subtraces[j].root)
    && (forall st :: st in subtraces ==> NoRepeats(st.trace) && Worthy(trace, st.root))
    && (forall st :: st in subtraces ==> st.root in st.trace)
    && (forall st, x :: st in subtraces ==> (x in st.trace <==> Through(trace, root, st.root, x)))
    && (forall top :: Worthy(trace, top) && Through(trace, root, top, top) ==> exists st :: st in subtraces && st.root == top)
  }

  /** Some route leads through `top` to `x`. */
  ghost predicate Through(trace: Trace, root: Span, top: Span, x: Span) {
    exists p :: Route(trace, root, p) && Last(p) == x && top in p
  }

  lemma Initially(trace: Trace, root: Span, s: Slice)
    requires root in trace && s.len == 0
    ensures Explored(trace, root, Spans([SpanAndAncestors(root, s)]), {}, map[root := [root]])
    ensures Tabulated(trace, {}, map[root := [root]], map[])
    ensures Sliced(trace, map[root := [root]], [SpanAndAncestors(root, s)])
  {
    assert Spans([SpanAndAncestors(root, s)]) == [root];
    assert Front([root]) == [];
  }

  /** What is known of the search once the top of the stack has been popped. */
  lemma PoppedSearch(trace: Trace, root: Span, before: seq<SpanAndAncestors>, items: seq<SpanAndAncestors>, top: SpanAndAncestors,
                     visited: set<Span>, routes: map<Span, Trace>)
    requires DistinctIDs(trace) && before == items + [top] && (root in visited || |before| == 1)
    requires Explored(trace, root, Spans(before), visited, routes)
    ensures top.span in routes && routes[top.span] != [] && top.span !in visited && top.span in trace
    ensures root in visited + {top.span} && forall x :: x in visited ==> x in routes
    ensures NoRepeats(Worthies(trace, routes[top.span]))
    ensures Worthies(trace, routes[top.span]) ==
            Worthies(trace, Front(routes[top.span])) + if Worthy(trace, top.span) then [top.span] else []
    ensures var pushed := Unvisited(Children(trace, top.span.spanID), visited + {top.span});
            && Explored(trace, root, Spans(items) + pushed, visited + {top.span}, Extend(routes, top.span, pushed))
            && forall c :: c in pushed ==> c !in routes
  {
    hide Worthies, Children, Unvisited, Worthy, Route, NoRepeats, Extend, Closed;
    assert Spans(before) == Spans(items) + [top.span];
    StepExplored(trace, root, Spans(items), visited, routes, top.span);
    PushedAreNew(trace, root, Spans(items), visited, routes, top.span);
    WorthiesLast(trace, root, routes[top.span]);
  }

  lemma PoppedSlices(trace: Trace, before: seq<SpanAndAncestors>, items: seq<SpanAndAncestors>, top: SpanAndAncestors,
                     routes: map<Span, Trace>)
    requires before == items + [top] && Sliced(trace, routes, before)
    ensures top.span in routes && routes[top.span] != []
    ensures Sliced(trace, routes, items) && Under(items, top.ancestors)
    ensures Holds(top.ancestors, Worthies(trace, Front(routes[top.span])))
  {
    hide Holds, Worthies;
    assert before[|items|] == top && forall i :: 0 <= i < |items| ==> before[i] == items[i];
  }

  lemma WorthiesLast(trace: Trace, root: Span, p: Trace)
    requires Route(trace, root, p) && NoRepeats(p)
    ensures Last(p) in trace && NoRepeats(Worthies(trace, p))
    ensures Worthies(trace, p) == Worthies(trace, Front(p)) + if Worthy(trace, Last(p)) then [Last(p)] else []
  {
    WorthiesNoRepeats(trace, p);
  }

  lemma NoSpans()
    ensures Spans([]) == []
  {
  }

  lemma SpansJoin(items: seq<SpanAndAncestors>, pushed: Trace, s: Slice)
    ensures Spans(items + Items(pushed, s)) == Spans(items) + pushed
  {
  }

  lemma NoEmptyLists(trace: Trace, visited: set<Span>, routes: map<Span, Trace>, m: map<Span, Trace>)
    requires Tabulated(trace, visited, routes, m)
    ensures forall top :: top in m ==> m[top] != []
  {
  }

  /** Pushing the children that are new, with the ancestors they share. */
  method PushUnvisited(next: Stack, children: Trace, visited: set<Span>, ancestors: Slice,
                       ghost trace: Trace, ghost routes: map<Span, Trace>, ghost cur: Span)
    requires Sliced(trace, routes, next.items) && Under(next.items, ancestors) && cur in routes
    requires Holds(ancestors, Worthies(trace, routes[cur]))
    requires forall c :: c in Unvisited(children, visited) ==> c !in routes
    modifies next
    ensures next.items == old(next.items) + Items(Unvisited(children, visited), ancestors)
    ensures Sliced(trace, Extend(routes, cur, Unvisited(children, visited)), next.items)
  {
    hide Worthies, Unvisited, Extend, Under;
    ghost var items, pushed := next.items, Unvisited(children, visited);
    NoneUnvisited(visited);
    SlicedPushed(trace, routes, items, cur, ancestors, pushed);
    hide Holds, Sliced;
    for i := 0 to |children|
      invariant next.items == items + Items(Unvisited(children[..i], visited), ancestors)
      invariant Sliced(trace, Extend(routes, cur, pushed), items + Items(pushed, ancestors))
    {
      assert Front(children[..i + 1]) == children[..i] && Last(children[..i + 1]) == children[i];
      NextUnvisited(children[..i + 1], visited);
      if children[i] in visited {
        continue;
      }
      next.Push(SpanAndAncestors(children[i], ancestors));
    }
    assert children[..|children|] == children;
  }

  lemma NoneUnvisited(visited: set<Span>)
    ensures Unvisited([], visited) == []
  {
  }

  lemma NextUnvisited(children: Trace, visited: set<Span>)
    requires children != []
    ensures Unvisited(children, visited) ==
            Unvisited(Front(children), visited) + if Last(children) in visited then [] else [Last(children)]
  {
  }

  /** Visiting a span: it joins its own ancestors if it gets a subtrace, and is listed under all of them. */
  method Visit(cur: Span, children: Trace, ancestors: Slice, before: map<Span, Trace>, ghost pushed: Trace,
               ghost trace: Trace, ghost visited: set<Span>, ghost routes: map<Span, Trace>, ghost items: seq<SpanAndAncestors>)
    returns (ancestors': Slice, m: map<Span, Trace>)
    requires cur in routes && routes[cur] != [] && cur !in visited && forall c :: c in pushed ==> c !in routes
    requires Sliced(trace, routes, items) && Under(items, ancestors) && children == Children(trace, cur.spanID)
    requires Holds(ancestors, Worthies(trace, Front(routes[cur]))) && NoRepeats(Worthies(trace, routes[cur]))
    requires Worthies(trace, routes[cur]) ==
             Worthies(trace, Front(routes[cur])) + if Worthy(trace, cur) then [cur] else []
    requires Tabulated(trace, visited, routes, before)
    modifies ancestors.arr
    ensures Holds(ancestors', Worthies(trace, routes[cur])) && Sliced(trace, routes, items) && Under(items, ancestors')
    ensures Tabulated(trace, visited + {cur}, Extend(routes, cur, pushed), m)
    ensures ancestors'.arr == ancestors.arr || fresh(ancestors'.arr)
  {
    hide Tabulated, Holds, Worthies, NoRepeats, Children, Extend, Sliced, Under;
    ancestors' := ancestors;
    if cur.topLevel && |children| > 0 {
      ancestors' := AppendPopped(ancestors, cur, Worthies(trace, Front(routes[cur])), trace, routes, items);
    } else {
      assert Worthies(trace, Front(routes[cur])) + [] == Worthies(trace, Front(routes[cur]));
    }
    NoEmptyLists(trace, visited, routes, before);
    m := Record(before, ancestors', cur, Worthies(trace, routes[cur]), trace, routes, items);
    StepTabulated(trace, visited, routes, cur, pushed, before, m);
  }

  /** Without a root there is nothing to extract. */
  method ExtractTopLevelSubtraces(trace: Trace, root: Option<Span>) returns (subtraces: seq<Subtrace>)
    requires root.Some? ==> DistinctIDs(trace) && root.value in trace
    ensures if root.None? then subtraces == [] else SubtracesOf(trace, root.value, subtraces)
  {
    if root.None? {
      return [];
    }
    subtraces := ExtractFrom(trace, root.value);
  }

  /** The search from a root. */
  method ExtractFrom(trace: Trace, root: Span) returns (subtraces: seq<Subtrace>)
    requires DistinctIDs(trace) && root in trace
    ensures SubtracesOf(trace, root, subtraces)
  {
    hide Explored, Tabulated, Holds, Worthies, Route, NoRepeats, Unvisited, Children, Extend, Sliced, Under, DistinctIDs, SubtracesOf, Lists, Worthy, Spans;
    var childrenMap := ChildrenMap(trace);
    var visited: set<Span> := {};
    var subtracesMap: map<Span, Trace> := map[];
    var next := new Stack();
    var none := new Span[0];
    next.Push(SpanAndAncestors(root, Slice(none, 0)));
    assert next.items == [SpanAndAncestors(root, Slice(none, 0))];
    ghost var routes := map[root := [root]];
    ghost var all := set s | s in trace;
    Initially(trace, root, Slice(none, 0));
    while next.items != []
      invariant fresh(next) && forall i :: 0 <= i < |next.items| ==> fresh(next.items[i].ancestors.arr)
      invariant Explored(trace, root, Spans(next.items), visited, routes) && Tabulated(trace, visited, routes, subtracesMap)
      invariant Sliced(trace, routes, next.items)
      invariant (root in visited || |next.items| == 1) && visited <= all
      decreases all - visited
    {
      ghost var before := next.items;
      var current := next.Pop();
      var cur, ancestors, children := current.span, current.ancestors, Lookup(childrenMap, current.span.spanID);
      ghost var items := next.items;
      PoppedSearch(trace, root, before, items, current, visited, routes);
      PoppedSlices(trace, before, items, current, routes);
      ghost var pushed := Unvisited(children, visited + {cur});
      assert before[|items|] == current && forall i :: 0 <= i < |items| ==> before[i] == items[i];
      ancestors, subtracesMap := Visit(cur, children, ancestors, subtracesMap, pushed, trace, visited, routes, items);
      visited := visited + {cur};
      PushUnvisited(next, children, visited, ancestors, trace, routes, cur);
      SpansJoin(items, pushed, ancestors);
      routes := Extend(routes, cur, pushed);
    }
    NoSpans();
    subtraces := Listing(subtracesMap);
    Finished(trace, root, visited, routes, subtracesMap, subtraces);
  }

  method Listing(m: map<Span, Trace>) returns (subtraces: seq<Subtrace>)
    ensures Lists(m, m.Keys, subtraces)
  {
    subtraces := [];
    var rest := m.Keys;
    while |rest| > 0
      invariant rest <= m.Keys && Lists(m, m.Keys - rest, subtraces)
      decreases |rest|
    {
      ghost var member := HasMember(rest);
      var top :| top in rest;
      rest := rest - {top};
      ghost var before := subtraces;
      subtraces := subtraces + [Subtrace(top, m[top])];
      assert forall st :: st in subtraces <==> st in before || st == Subtrace(top, m[top]);
    }
    assert m.Keys - rest == m.Keys;
  }

  /** One subtrace for each of the given keys. */
  ghost predicate Lists(m: map<Span, Trace>, keys: set<Span>, subtraces: seq<Subtrace>) {
    && (forall i, j :: 0 <= i < j < |subtraces| ==> subtraces[i].root != subtraces[j].root)
    && (forall st :: st in subtraces ==> st.root in keys && st.root in m && st.trace == m[st.root])
    && (forall top :: top in keys && top in m ==> Subtrace(top, m[top]) in subtraces)
  }

  lemma Finished(trace: Trace, root: Span, visited: set<Span>, routes: map<Span, Trace>, m: map<Span, Trace>,
                 subtraces: seq<Subtrace>)
    requires DistinctIDs(trace) && Explored(trace, root, [], visited, routes) && Tabulated(trace, visited, routes, m)
    requires Lists(m, m.Keys, subtraces)
    ensures SubtracesOf(trace, root, subtraces)
  {
    hide Explored, Route, Worthy, NoRepeats;
    forall top, x
      ensures x in visited && top in routes[x] <==> Through(trace, root, top, x)
    {
      VisitedThrough(trace, root, visited, routes, top, x);
    }
    forall st | st in subtraces
      ensures Worthy(trace, st.root) && st.root in st.trace
    {
      var x := m[st.root][0];
      ListedMeans(trace, visited, routes, m, st.root, x);
      ThroughItself(trace, root, st.root, x);
      ListedMeans(trace, visited, routes, m, st.root, st.root);
    }
    forall top | Worthy(trace, top) && Through(trace, root, top, top)
      ensures exists st :: st in subtraces && st.root == top
    {
      ListedMeans(trace, visited, routes, m, top, top);
      assert Subtrace(top, m[top]) in subtraces;
    }
  }

  lemma ListedMeans(trace: Trace, visited: set<Span>, routes: map<Span, Trace>, m: map<Span, Trace>, top: Span, x: Span)
    requires Tabulated(trace, visited, routes, m)
    ensures x in Listed(m, top) <==> x in visited && x in routes && top in routes[x] && Worthy(trace, top)
  {
  }

  lemma ThroughItself(trace: Trace, root: Span, top: Span, x: Span)
    requires Through(trace, root, top, x)
    ensures Through(trace, root, top, top)
  {
    var p :| Route(trace, root, p) && Last(p) == x && top in p;
    var i :| 0 <= i < |p| && p[i] == top;
    assert Route(trace, root, p[..i + 1]) && Last(p[..i + 1]) == top && top in p[..i + 1];
  }

  lemma VisitedThrough(trace: Trace, root: Span, visited: set<Span>, routes: map<Span, Trace>, top: Span, x: Span)
    requires DistinctIDs(trace) && Explored(trace, root, [], visited, routes)
    requires forall y :: y in visited ==> y in routes
    ensures x in visited && top in routes[x] <==> Through(trace, root, top, x)
  {
    if Through(trace, root, top, x) {
      var p :| Route(trace, root, p) && Last(p) == x && top in p;
      RoutesVisited(trace, root, visited, routes, p);
      RouteUnique(trace, root, p, routes[x]);
    }
  }

  // ---------------------------------------------------------------- acyclic traces

  predicate HasChild(trace: Trace, s: Span) {
    s.spanID != 0 && exists c :: c in trace && c.parentID == s.spanID
  }

  /** `x` is `top` or below it. */
  ghost predicate Descends(trace: Trace, top: Span, x: Span) {
    exists p :: Chain(trace, p) && p[0] == top && Last(p) == x
  }

  lemma {:induction false} ChainDrops(trace: Trace, height: nat -> nat, p: Trace, i: nat)
    requires Acyclic(trace, height) && Chain(trace, p) && 0 < i < |p|
    ensures height(p[i].spanID) < height(p[0].spanID)
  {
    assert p[i] in trace && p[i - 1] in trace && IsChild(p[i], p[i - 1].spanID);
    if i > 1 {
      ChainDrops(trace, height, p, i - 1);
    }
  }

  lemma ChainsJoin(trace: Trace, p: Trace, q: Trace)
    requires Chain(trace, p) && Chain(trace, q) && Last(p) == q[0]
    ensures Chain(trace, p + q[1..]) && (p + q[1..])[0] == p[0] && Last(p + q[1..]) == Last(q)
  {
    var r := p + q[1..];
    forall i | 0 < i < |r|
      ensures r[i] in trace && IsChild(r[i], r[i - 1].spanID)
    {
      if i == |p| {
        assert r[i] == q[1] && r[i - 1] == q[0];
      } else if i > |p| {
        assert r[i] == q[i - |p| + 1] && r[i - 1] == q[i - |p|];
      }
    }
  }

  /** Without cycles the route to a span below the root is any chain there, so the spans whose route passes
      through `top` are `top` and everything below it. */
  lemma ThroughIsDescends(trace: Trace, root: Span, height: nat -> nat, top: Span, x: Span)
    requires Acyclic(trace, height) && Descends(trace, root, top)
    ensures Through(trace, root, top, x) <==> Descends(trace, top, x)
  {
    if Through(trace, root, top, x) {
      var p :| Route(trace, root, p) && Last(p) == x && top in p;
      var i :| 0 <= i < |p| && p[i] == top;
      ChainTail(trace, p, i);
    }
    if Descends(trace, top, x) {
      var p :| Chain(trace, p) && p[0] == root && Last(p) == top;
      var q :| Chain(trace, q) && q[0] == top && Last(q) == x;
      ChainIsRoute(trace, root, height, p, q);
    }
  }

  lemma ChainTail(trace: Trace, p: Trace, i: nat)
    requires Chain(trace, p) && i < |p|
    ensures Descends(trace, p[i], Last(p))
  {
    var q := p[i..];
    forall k | 0 < k < |q|
      ensures q[k] in trace && IsChild(q[k], q[k - 1].spanID)
    {
      assert q[k] == p[i + k] && q[k - 1] == p[i + k - 1];
    }
    assert Chain(trace, q) && q[0] == p[i] && Last(q) == Last(p);
  }

  lemma ChainIsRoute(trace: Trace, root: Span, height: nat -> nat, p: Trace, q: Trace)
    requires Acyclic(trace, height) && p != [] && q != []
    requires Chain(trace, p) && p[0] == root && Chain(trace, q) && q[0] == Last(p)
    ensures Through(trace, root, Last(p), Last(q))
  {
    hide Chain, Acyclic;
    var r := p + q[1..];
    ChainsJoin(trace, p, q);
    forall i | 0 < i < |r| ensures r[i] != root {
      ChainDrops(trace, height, r, i);
    }
    assert r[|p| - 1] == Last(p) && Route(trace, root, r);
  }

  /** On an acyclic trace: for every top-level span with children at or below the root one subtrace, listing
      the span and its descendants, each once. */
  lemma SubtracesAreDescendants(trace: Trace, root: Span, height: nat -> nat, subtraces: seq<Subtrace>)
    requires Acyclic(trace, height) && SubtracesOf(trace, root, subtraces)
    ensures forall st :: st in subtraces ==>
              && NoRepeats(st.trace) && (forall x :: x in st.trace <==> Descends(trace, st.root, x))
              && st.root.topLevel && HasChild(trace, st.root)
    ensures forall top: Span :: top.topLevel && HasChild(trace, top) && Descends(trace, root, top) ==>
              exists st :: st in subtraces && st.root == top
  {
    forall s
      ensures Worthy(trace, s) <==> s.topLevel && HasChild(trace, s)
    {
      WorthyMeans(trace, s);
    }
    hide Worthy, NoRepeats, HasChild;
    forall st, x | st in subtraces
      ensures x in st.trace <==> Descends(trace, st.root, x)
    {
      assert st.root in st.trace;
      assert Through(trace, root, st.root, st.root);
      var p :| Route(trace, root, p) && Last(p) == st.root;
      assert Descends(trace, root, st.root);
      ThroughIsDescends(trace, root, height, st.root, x);
    }
    forall top: Span | top.topLevel && HasChild(trace, top) && Descends(trace, root, top)
      ensures exists st :: st in subtraces && st.root == top
    {
      var p :| Chain(trace, p) && p[0] == root && Last(p) == top;
      assert Chain(trace, [top]) && Last([top]) == top by { assert p[|p| - 1] in trace; }
      ThroughIsDescends(trace, root, height, top, top);
    }
  }
}
