/** model/statsraw.go: the aggregation string of a span. Strings are compared byte by byte, as sort.Strings does. */
module Grains {

  datatype Tag = Tag(name: string, value: string)

  // ---------------------------------------------------------------- sorted keys

  predicate Less(s: string, t: string) {
    t != "" && (s == "" || s[0] < t[0] || (s[0] == t[0] && Less(s[1..], t[1..])))
  }

  /** A string is less than its extensions, and than those with a larger byte where they first differ. */
  lemma {:induction false} LessMeans(s: string, t: string)
    ensures Less(s, t) <==>
            exists n :: 0 <= n <= |s| && n < |t| && s[..n] == t[..n] && (n == |s| || s[n] < t[n])
    decreases |s|
  {
    if s == "" || t == "" {
      if t != "" {
        assert s[..0] == t[..0] && 0 == |s|;
      }
    } else if s[0] != t[0] {
      if s[0] < t[0] {
        assert s[..0] == t[..0];
      }
      forall n | 0 < n <= |s| && n < |t|
        ensures s[..n] != t[..n]
      {
        assert s[..n][0] == s[0] && t[..n][0] == t[0];
      }
    } else {
      LessMeans(s[1..], t[1..]);
      LessRest(s, t);
    }
  }

  lemma LessRest(s: string, t: string)
    requires s != "" && t != "" && s[0] == t[0]
    ensures (exists n :: 0 <= n <= |s| && n < |t| && s[..n] == t[..n] && (n == |s| || s[n] < t[n])) <==>
            var s', t' := s[1..], t[1..];
            exists n :: 0 <= n <= |s'| && n < |t'| && s'[..n] == t'[..n] && (n == |s'| || s'[n] < t'[n])
  {
    var s', t' := s[1..], t[1..];
    if n :| 0 <= n <= |s| && n < |t| && s[..n] == t[..n] && (n == |s| || s[n] < t[n]) {
      if n > 0 {
        assert s'[..n - 1] == s[..n][1..] && t'[..n - 1] == t[..n][1..];
      }
    }
    if n :| 0 <= n <= |s'| && n < |t'| && s'[..n] == t'[..n] && (n == |s'| || s'[n] < t'[n]) {
      assert s[..n + 1] == [s[0]] + s'[..n] && t[..n + 1] == [t[0]] + t'[..n];
    }
  }

  lemma {:induction false} LessIsTotal(s: string, t: string)
    ensures Less(s, t) || s == t || Less(t, s)
    decreases |s|
  {
    if s != "" && t != "" && s[0] == t[0] {
      LessIsTotal(s[1..], t[1..]);
      assert s == [s[0]] + s[1..] && t == [t[0]] + t[1..];
    }
  }

  lemma {:induction false} LessIsStrict(s: string, t: string)
    requires Less(s, t)
    ensures s != t && !Less(t, s)
    decreases |s|
  {
    if s != "" && s[0] == t[0] {
      LessIsStrict(s[1..], t[1..]);
    }
  }

  lemma {:induction false} LessIsTransitive(s: string, t: string, u: string)
    requires Less(s, t) && Less(t, u)
    ensures Less(s, u)
    decreases |s|
  {
    if s != "" && s[0] == t[0] && t[0] == u[0] {
      LessIsTransitive(s[1..], t[1..], u[1..]);
    }
  }

  ghost predicate InOrder(keys: seq<string>) {
    forall i, j :: 0 <= i < j < |keys| ==> Less(keys[i], keys[j])
  }

  ghost predicate Lists(keys: seq<string>, elements: set<string>) {
    InOrder(keys) && forall k :: k in keys <==> k in elements
  }

  lemma FirstIsLeast(keys: seq<string>, k: string)
    requires InOrder(keys) && k in keys
    ensures k == keys[0] || Less(keys[0], k)
  {
  }

  lemma FirstIsListed(keys: seq<string>, elements: set<string>)
    requires Lists(keys, elements)
    ensures keys != [] ==> keys[0] in elements
  {
    if keys != [] {
      assert keys[0] in keys;
    }
  }

  /** A set of strings can be listed in increasing order in one way only. */
  lemma {:induction false} ListsUnique(a: seq<string>, b: seq<string>, elements: set<string>)
    requires Lists(a, elements) && Lists(b, elements)
    ensures a == b
    decreases |a|
  {
    if a == [] {
      FirstIsListed(b, elements);
    } else {
      assert a[0] in b;
      assert b[0] in a;
      FirstIsLeast(a, b[0]);
      FirstIsLeast(b, a[0]);
      if a[0] != b[0] {
        LessIsStrict(a[0], b[0]);
        assert false;
      }
      RestLists(a, elements);
      RestLists(b, elements);
      ListsUnique(a[1..], b[1..], elements - {a[0]});
      assert a == [a[0]] + a[1..] && b == [b[0]] + b[1..];
    }
  }

  lemma RestLists(a: seq<string>, elements: set<string>)
    requires Lists(a, elements) && a != []
    ensures Lists(a[1..], elements - {a[0]})
  {
    assert a == [a[0]] + a[1..];
    forall k | k in a[1..]
      ensures k != a[0]
    {
      var i :| 1 <= i < |a| && a[i] == k;
      LessIsStrict(a[0], a[i]);
    }
  }

  method InsertKey(keys: seq<string>, x: string) returns (keys': seq<string>)
    requires InOrder(keys) && x !in keys
    ensures InOrder(keys') && forall k :: k in keys' <==> k in keys || k == x
  {
    var i := 0;
    while i < |keys| && Less(keys[i], x)
      invariant 0 <= i <= |keys| && forall j :: 0 <= j < i ==> Less(keys[j], x)
    {
      i := i + 1;
    }
    KeyInserted(keys, i, x);
    keys' := keys[..i] + [x] + keys[i..];
    assert keys == keys[..i] + keys[i..];
  }

  lemma KeyInserted(keys: seq<string>, i: nat, x: string)
    requires InOrder(keys) && x !in keys && i <= |keys|
    requires (i < |keys| ==> !Less(keys[i], x)) && forall j :: 0 <= j < i ==> Less(keys[j], x)
    ensures InOrder(keys[..i] + [x] + keys[i..])
  {
    var out := keys[..i] + [x] + keys[i..];
    forall j | i <= j < |keys|
      ensures Less(x, keys[j])
    {
      assert keys[i] in keys;
      LessIsTotal(x, keys[i]);
      if i < j {
        LessIsTransitive(x, keys[i], keys[j]);
      }
    }
    forall j, k | 0 <= j < k < |out|
      ensures Less(out[j], out[k])
    {
      assert out[j] == (if j < i then keys[j] else if j == i then x else keys[j - 1]);
      assert out[k] == (if k < i then keys[k] else if k == i then x else keys[k - 1]);
    }
  }

  method SortedKeys(elements: set<string>) returns (keys: seq<string>)
    ensures Lists(keys, elements)
  {
    keys := [];
    var rest := elements;
    while rest != {}
      invariant InOrder(keys) && rest <= elements && forall k :: k in keys <==> k in elements - rest
      decreases |rest|
    {
      var x :| x in rest;
      rest := rest - {x};
      keys := InsertKey(keys, x);
    }
  }

  // ---------------------------------------------------------------- the aggregation string

  function Rendered(keys: seq<string>, m: map<string, string>): string
    requires forall k :: k in keys ==> k in m
  {
    if keys == [] then "" else Rendered(keys[..|keys| - 1], m) + "," + keys[|keys| - 1] + ":" + m[keys[|keys| - 1]]
  }

  /** Each tag is written as a comma, its name, a colon and its value. */
  lemma RenderedNext(keys: seq<string>, k: string, m: map<string, string>)
    requires k in m && forall x :: x in keys ==> x in m
    ensures Rendered(keys + [k], m) == Rendered(keys, m) + "," + k + ":" + m[k] && Rendered([], m) == ""
  {
    assert (keys + [k])[..|keys|] == keys;
  }

  function TagsOf(keys: seq<string>, m: map<string, string>): seq<Tag>
    requires forall k :: k in keys ==> k in m
  {
    seq(|keys|, i requires 0 <= i < |keys| => Tag(keys[i], m[keys[i]]))
  }

  function FixedGrain(env: string, resource: string, service: string): string {
    "env:" + env + ",resource:" + resource + ",service:" + service
  }

  lemma {:induction false} ListExists(elements: set<string>)
    ensures exists keys :: Lists(keys, elements)
    decreases |elements|
  {
    if elements == {} {
      assert Lists([], elements);
    } else {
      var x :| x in elements;
      ListExists(elements - {x});
      var keys :| Lists(keys, elements - {x});
      var i := 0;
      while i < |keys| && Less(keys[i], x)
        invariant 0 <= i <= |keys| && forall j :: 0 <= j < i ==> Less(keys[j], x)
      {
        i := i + 1;
      }
      KeyInserted(keys, i, x);
      assert keys == keys[..i] + keys[i..];
      var all := keys[..i] + [x] + keys[i..];
      assert forall k :: k in all <==> k in keys || k == x;
      assert Lists(all, elements);
    }
  }

  /** The increasing list of a set of strings. */
  ghost function Listed(elements: set<string>): (keys: seq<string>)
    ensures Lists(keys, elements)
  {
    ListExists(elements);
    var keys :| Lists(keys, elements);
    keys
  }

  ghost function Grain(env: string, resource: string, service: string, m: map<string, string>): string {
    FixedGrain(env, resource, service) + Rendered(Listed(m.Keys), m)
  }

  function FixedTags(env: string, resource: string, service: string): seq<Tag> {
    [Tag("env", env), Tag("resource", resource), Tag("service", service)]
  }

  lemma FixedText(env: string, resource: string, service: string)
    ensures FixedGrain(env, resource, service) == "env:" + env + ",resource:" + resource + ",service:" + service
    ensures FixedTags(env, resource, service) == [Tag("env", env), Tag("resource", resource), Tag("service", service)]
  {
  }

  /** The string and the tags depend on the map only, not on the order its keys come in: they are those of the
      one sorted list of its keys. */
  method AssembleGrain(env: string, resource: string, service: string, m: map<string, string>)
    returns (grain: string, tags: seq<Tag>)
    ensures forall keys :: Lists(keys, m.Keys) ==>
              grain == "env:" + env + ",resource:" + resource + ",service:" + service + Rendered(keys, m)
    ensures grain == Grain(env, resource, service, m)
    ensures forall keys :: Lists(keys, m.Keys) ==>
              tags == [Tag("env", env), Tag("resource", resource), Tag("service", service)] + TagsOf(keys, m)
  {
    FixedText(env, resource, service);
    hide FixedGrain, FixedTags;
    var keys := SortedKeys(m.Keys);
    grain, tags := AppendTags(FixedGrain(env, resource, service), FixedTags(env, resource, service), keys, m);
    forall other | Lists(other, m.Keys)
      ensures other == keys
    {
      ListsUnique(other, keys, m.Keys);
    }
  }

  method AppendTags(grain0: string, tags0: seq<Tag>, keys: seq<string>, m: map<string, string>)
    returns (grain: string, tags: seq<Tag>)
    requires forall k :: k in keys ==> k in m
    ensures grain == grain0 + Rendered(keys, m) && tags == tags0 + TagsOf(keys, m)
  {
    grain, tags := grain0, tags0;
    for i := 0 to |keys|
      invariant grain == grain0 + Rendered(keys[..i], m) && tags == tags0 + TagsOf(keys[..i], m)
    {
      var key := keys[i];
      TagsNext(keys, m, i);
      grain := grain + ("," + key + ":" + m[key]);
      tags := tags + [Tag(key, m[key])];
    }
    assert keys[..|keys|] == keys;
  }

  lemma TagsNext(keys: seq<string>, m: map<string, string>, i: nat)
    requires i < |keys| && forall k :: k in keys ==> k in m
    ensures Rendered(keys[..i + 1], m) == Rendered(keys[..i], m) + ("," + keys[i] + ":" + m[keys[i]])
    ensures TagsOf(keys[..i + 1], m) == TagsOf(keys[..i], m) + [Tag(keys[i], m[keys[i]])]
  {
    var some := keys[..i + 1];
    assert some[..i] == keys[..i] && some[|some| - 1] == keys[i];
    assert Rendered(keys[..i], m) + "," + keys[i] + ":" + m[keys[i]] ==
           Rendered(keys[..i], m) + ("," + keys[i] + ":" + m[keys[i]]);
  }

  /** The tags a span contributes: the aggregators it has a value for, apart from the three fixed ones. */
  function Picked(aggregators: seq<string>, meta: map<string, string>): map<string, string> {
    map k | k in aggregators && k !in ["env", "resource", "service"] && k in meta :: meta[k]
  }

  method PickTags(aggregators: seq<string>, meta: map<string, string>) returns (m: map<string, string>)
    ensures m == Picked(aggregators, meta)
  {
    m := map[];
    for i := 0 to |aggregators|
      invariant m == Picked(aggregators[..i], meta)
    {
      assert aggregators[..i + 1] == aggregators[..i] + [aggregators[i]];
      var agg := aggregators[i];
      if agg != "env" && agg != "resource" && agg != "service" {
        if agg in meta {
          m := m[agg := meta[agg]];
        }
      }
    }
    assert aggregators[..|aggregators|] == aggregators;
  }

  // ---------------------------------------------------------------- what the string tells

  function Around(a: string, d: string, b: string): string {
    a + d + b
  }

  ghost predicate Holds(s: string, d: string) {
    exists a, b :: s == Around(a, d, b)
  }

  /** A separator of the string: its comma comes first, and is its only one. */
  ghost predicate Delimiter(d: string) {
    d != "" && d[0] == ',' && forall i :: 0 < i < |d| ==> d[i] != ','
  }

  /** One string split at two separators: they are the same occurrence, or one ends before the other starts. */
  lemma TwoSplits(a: string, d: string, x: string, b: string, d': string, y: string)
    requires Delimiter(d) && Delimiter(d') && Around(a, d, x) == Around(b, d', y)
    ensures |a| == |b| ==> a == b && (d == d' ==> x == y)
    ensures |a| < |b| ==> |a| + |d| <= |b| && var c := b[|a| + |d|..]; b == Around(a, d, c) && x == Around(c, d', y)
  {
    var s := Around(a, d, x);
    assert forall i :: 0 <= i < |a| ==> s[i] == a[i];
    assert forall i :: 0 <= i < |b| ==> s[i] == b[i];
    assert s[|b|] == ',';
    if |a| < |b| {
      assert forall i :: |a| < i < |a| + |d| ==> s[i] == d[i - |a|];
      var n := |a| + |d|;
      var c := b[n..];
      assert s[..n] == a + d && b == s[..|b|];
      assert b == s[..n] + c;
      assert x == s[n..] == c + d' + y;
    } else if |a| == |b| {
      assert a == s[..|a|] == b;
      if d == d' {
        assert x == s[|a| + |d|..] == y;
      }
    }
  }

  ghost predicate SecondReading(e: string, r: string, s: string, e': string, r': string, s': string) {
    FixedGrain(e, r, s) == FixedGrain(e', r', s') && !(e == e' && r == r' && s == s')
  }

  const RESOURCE := ",resource:"
  const SERVICE := ",service:"

  ghost predicate Misreadable(e: string, r: string, s: string) {
    Holds(e, RESOURCE) || Holds(r, RESOURCE) || Holds(r, SERVICE) || Holds(s, SERVICE)
  }

  /** The fixed part of the string can be read in a second way if and only if an environment or resource holds
      ",resource:", or a resource or service holds ",service:". Other commas do no harm. */
  lemma FixedGrainMisread(e: string, r: string, s: string)
    ensures (exists e', r', s' :: SecondReading(e, r, s, e', r', s')) <==> Misreadable(e, r, s)
  {
    if Misreadable(e, r, s) {
      Misreading(e, r, s);
    }
    forall e', r', s' | SecondReading(e, r, s, e', r', s')
      ensures Misreadable(e, r, s)
    {
      OnlyMisreading(e, r, s, e', r', s');
    }
  }

  lemma SameFixedGrain(e: string, r: string, s: string, e': string, r': string, s': string)
    ensures FixedGrain(e, r, s) == FixedGrain(e', r', s') <==>
            Around(e, RESOURCE, Around(r, SERVICE, s)) == Around(e', RESOURCE, Around(r', SERVICE, s'))
  {
    var t, t' := Around(e, RESOURCE, Around(r, SERVICE, s)), Around(e', RESOURCE, Around(r', SERVICE, s'));
    assert FixedGrain(e, r, s) == "env:" + t && FixedGrain(e', r', s') == "env:" + t';
    assert t == ("env:" + t)[4..] && t' == ("env:" + t')[4..];
  }

  lemma Reassociate(a: string, d: string, b: string, d': string, c: string)
    ensures Around(Around(a, d, b), d', c) == Around(a, d, Around(b, d', c))
  {
  }

  lemma Misreading(e: string, r: string, s: string)
    requires Misreadable(e, r, s)
    ensures exists e', r', s' :: SecondReading(e, r, s, e', r', s')
  {
    hide Around;
    var e', r', s' := e, r, s;
    if Holds(e, RESOURCE) {
      var a, b :| e == Around(a, RESOURCE, b);
      e', r' := a, Around(b, RESOURCE, r);
      AroundLonger(a, RESOURCE, b);
      Reassociate(a, RESOURCE, b, RESOURCE, Around(r, SERVICE, s));
      Reassociate(b, RESOURCE, r, SERVICE, s);
    } else if Holds(r, RESOURCE) {
      var a, b :| r == Around(a, RESOURCE, b);
      e', r' := Around(e, RESOURCE, a), b;
      AroundLonger(e, RESOURCE, a);
      Reassociate(e, RESOURCE, a, RESOURCE, Around(b, SERVICE, s));
      Reassociate(a, RESOURCE, b, SERVICE, s);
    } else if Holds(r, SERVICE) {
      var a, b :| r == Around(a, SERVICE, b);
      r', s' := a, Around(b, SERVICE, s);
      AroundLonger(a, SERVICE, b);
      Reassociate(a, SERVICE, b, SERVICE, s);
    } else {
      var a, b :| s == Around(a, SERVICE, b);
      r', s' := Around(r, SERVICE, a), b;
      AroundLonger(r, SERVICE, a);
      Reassociate(r, SERVICE, a, SERVICE, b);
    }
    SameFixedGrain(e, r, s, e', r', s');
    assert SecondReading(e, r, s, e', r', s');
  }

  lemma AroundLonger(a: string, d: string, b: string)
    ensures |Around(a, d, b)| == |a| + |d| + |b|
  {
  }

  lemma OnlyMisreading(e: string, r: string, s: string, e': string, r': string, s': string)
    requires SecondReading(e, r, s, e', r', s')
    ensures Misreadable(e, r, s)
  {
    SameFixedGrain(e, r, s, e', r', s');
    var t, t' := Around(r, SERVICE, s), Around(r', SERVICE, s');
    TwoSplits(e, RESOURCE, t, e', RESOURCE, t');
    TwoSplits(e', RESOURCE, t', e, RESOURCE, t);
    if |e| == |e'| {
      TwoSplits(r, SERVICE, s, r', SERVICE, s');
      TwoSplits(r', SERVICE, s', r, SERVICE, s);
    } else if |e| < |e'| {
      ResourceLater(e'[|e| + |RESOURCE|..], r', s', r, s);
    }
  }

  lemma NotTogether(a: string, x: string, y: string)
    ensures Around(a, RESOURCE, x) != Around(a, SERVICE, y)
  {
    assert Around(a, RESOURCE, x)[|a| + 1] == 'r';
  }

  lemma ResourceLater(c: string, r': string, s': string, r: string, s: string)
    requires Around(c, RESOURCE, Around(r', SERVICE, s')) == Around(r, SERVICE, s)
    ensures Holds(r, RESOURCE) || Holds(s, SERVICE)
  {
    var t' := Around(r', SERVICE, s');
    TwoSplits(c, RESOURCE, t', r, SERVICE, s);
    TwoSplits(r, SERVICE, s, c, RESOURCE, t');
    NotTogether(c, t', s);
    if |r| < |c| {
      var d := c[|r| + |SERVICE|..];
      assert s == Around(d, RESOURCE, t');
      assert s == Around(d + RESOURCE + r', SERVICE, s');
    }
  }

  // ---------------------------------------------------------------- the whole string

  predicate NoComma(s: string) {
    ',' !in s
  }

  /** What the tags must avoid for the string to determine them: commas anywhere, colons in names. */
  predicate Plain(m: map<string, string>) {
    forall k :: k in m ==> NoComma(k) && ':' !in k && NoComma(m[k])
  }

  lemma LastSegment(a: string, x: string, b: string, y: string)
    requires NoComma(x) && NoComma(y) && a + "," + x == b + "," + y
    ensures a == b && x == y
  {
    var s := a + "," + x;
    assert s[|a|] == ',' && s[|b|] == ',';
    assert forall i :: |a| < i < |s| ==> s[i] == x[i - |a| - 1];
    assert forall i :: |b| < i < |s| ==> s[i] == y[i - |b| - 1];
    assert |a| == |b|;
    assert a == s[..|a|] && b == s[..|b|] && x == s[|a| + 1..] && y == s[|b| + 1..];
  }

  lemma UpToColon(k: string, v: string, k': string, v': string)
    requires ':' !in k && ':' !in k' && k + ":" + v == k' + ":" + v'
    ensures k == k' && v == v'
  {
    var s := k + ":" + v;
    assert s[|k|] == ':' && s[|k'|] == ':';
    assert forall i :: 0 <= i < |k| ==> s[i] == k[i];
    assert forall i :: 0 <= i < |k'| ==> s[i] == k'[i];
    assert |k| == |k'|;
    assert k == s[..|k|] && k' == s[..|k'|] && v == s[|k| + 1..] && v' == s[|k'| + 1..];
  }

  function Commas(s: string): nat {
    if s == "" then 0 else Commas(s[..|s| - 1]) + if s[|s| - 1] == ',' then 1 else 0
  }

  lemma {:induction false} CommasConcat(s: string, t: string)
    ensures Commas(s + t) == Commas(s) + Commas(t)
    decreases |t|
  {
    if t == "" {
      assert s + t == s;
    } else {
      CommasConcat(s, t[..|t| - 1]);
      assert (s + t)[..|s + t| - 1] == s + t[..|t| - 1];
    }
  }

  lemma {:induction false} CommasZero(s: string)
    requires NoComma(s)
    ensures Commas(s) == 0
  {
    if s != "" {
      assert s == s[..|s| - 1] + [s[|s| - 1]];
      CommasZero(s[..|s| - 1]);
    }
  }

  lemma CommasSegment(a: string, x: string)
    requires NoComma(x)
    ensures Commas(a + "," + x) == Commas(a) + 1
  {
    CommasConcat(a, ",");
    CommasConcat(a + ",", x);
    CommasZero(x);
    assert ","[..0] == "";
  }

  ghost predicate PlainKeys(keys: seq<string>, m: map<string, string>) {
    Plain(m) && forall k :: k in keys ==> k in m
  }

  lemma RenderedLast(base: string, keys: seq<string>, m: map<string, string>)
    requires PlainKeys(keys, m) && keys != []
    ensures var k := keys[|keys| - 1];
            var segment := k + ":" + m[k];
            && k in m && ':' !in k && NoComma(segment) && PlainKeys(keys[..|keys| - 1], m)
            && base + Rendered(keys, m) == base + Rendered(keys[..|keys| - 1], m) + "," + segment
  {
    var k, rest := keys[|keys| - 1], keys[..|keys| - 1];
    assert k in keys;
    Regroup(base, Rendered(rest, m), k, m[k]);
  }

  lemma Regroup(base: string, a: string, k: string, v: string)
    ensures base + (a + "," + k + ":" + v) == base + a + "," + (k + ":" + v)
    ensures NoComma(k) && NoComma(v) ==> NoComma(k + ":" + v)
  {
  }

  lemma {:induction false} CommasRendered(base: string, keys: seq<string>, m: map<string, string>)
    requires PlainKeys(keys, m)
    ensures Commas(base + Rendered(keys, m)) == Commas(base) + |keys|
  {
    if keys == [] {
      assert base + "" == base;
    } else {
      var k, rest := keys[|keys| - 1], keys[..|keys| - 1];
      RenderedLast(base, keys, m);
      CommasRendered(base, rest, m);
      CommasSegment(base + Rendered(rest, m), k + ":" + m[k]);
    }
  }

  lemma {:induction false} RenderedInjective(base: string, keys: seq<string>, m: map<string, string>,
                                             base': string, keys': seq<string>, m': map<string, string>)
    requires PlainKeys(keys, m) && PlainKeys(keys', m') && |keys| == |keys'|
    requires base + Rendered(keys, m) == base' + Rendered(keys', m')
    ensures base == base' && keys == keys' && forall k :: k in keys ==> m[k] == m'[k]
  {
    if keys == [] {
      assert base + "" == base && base' + "" == base';
    } else {
      var k, k' := keys[|keys| - 1], keys'[|keys'| - 1];
      var rest, rest' := keys[..|keys| - 1], keys'[..|keys'| - 1];
      RenderedLast(base, keys, m);
      RenderedLast(base', keys', m');
      LastSegment(base + Rendered(rest, m), k + ":" + m[k], base' + Rendered(rest', m'), k' + ":" + m'[k']);
      UpToColon(k, m[k], k', m'[k']);
      RenderedInjective(base, rest, m, base', rest', m');
      assert keys == rest + [k] && keys' == rest' + [k'];
    }
  }

  lemma FixedCommas(e: string, r: string, s: string)
    requires NoComma(e) && NoComma(r) && NoComma(s)
    ensures Commas(FixedGrain(e, r, s)) == 2
  {
    assert FixedGrain(e, r, s) == ("env:" + e) + "," + ("resource:" + r) + "," + ("service:" + s);
    CommasZero("env:" + e);
    CommasSegment("env:" + e, "resource:" + r);
    CommasSegment(("env:" + e) + "," + ("resource:" + r), "service:" + s);
  }

  lemma NoSeparators(e: string, r: string, s: string)
    requires NoComma(e) && NoComma(r) && NoComma(s)
    ensures !Misreadable(e, r, s)
  {
    NotHeld(e, RESOURCE);
    NotHeld(r, RESOURCE);
    NotHeld(r, SERVICE);
    NotHeld(s, SERVICE);
  }

  lemma NotHeld(t: string, d: string)
    requires NoComma(t) && Delimiter(d)
    ensures !Holds(t, d)
  {
    forall a, b
      ensures t != Around(a, d, b)
    {
      assert Around(a, d, b)[|a|] == ',';
    }
  }

  /** Without commas in the values, and without commas and colons in the tag names, the whole string determines
      everything it was made from. */
  lemma GrainInjective(e: string, r: string, s: string, keys: seq<string>, m: map<string, string>,
                       e': string, r': string, s': string, keys': seq<string>, m': map<string, string>)
    requires Lists(keys, m.Keys) && Lists(keys', m'.Keys) && Plain(m) && Plain(m')
    requires NoComma(e) && NoComma(r) && NoComma(s) && NoComma(e') && NoComma(r') && NoComma(s')
    requires FixedGrain(e, r, s) + Rendered(keys, m) == FixedGrain(e', r', s') + Rendered(keys', m')
    ensures e == e' && r == r' && s == s' && m == m'
  {
    var base, base' := FixedGrain(e, r, s), FixedGrain(e', r', s');
    FixedCommas(e, r, s);
    FixedCommas(e', r', s');
    CommasRendered(base, keys, m);
    CommasRendered(base', keys', m');
    RenderedInjective(base, keys, m, base', keys', m');
    NoSeparators(e, r, s);
    FixedGrainMisread(e, r, s);
    assert !SecondReading(e, r, s, e', r', s');
    assert forall k :: k in m.Keys <==> k in keys;
    assert forall k :: k in m'.Keys <==> k in keys;
    assert m.Keys == m'.Keys;
  }

  /** With a comma in the service there is always a string with tags that reads the same: the service can spell
      out any tags. */
  lemma TagsReadAsService(e: string, r: string, s: string, keys: seq<string>, m: map<string, string>)
    requires Lists(keys, m.Keys)
    ensures FixedGrain(e, r, s) + Rendered(keys, m) == FixedGrain(e, r, s + Rendered(keys, m)) + Rendered([], map[])
  {
    assert "env:" + e + ",resource:" + r + ",service:" + s + Rendered(keys, m) ==
           "env:" + e + ",resource:" + r + ",service:" + (s + Rendered(keys, m)) + "";
  }

  /** A colon in a tag's name can be moved into its value. */
  lemma ColonMovesIntoValue(p: string, q: string, v: string)
    ensures Rendered([p + ":" + q], map[p + ":" + q := v]) == Rendered([p], map[p := q + ":" + v])
  {
    var k, m := p + ":" + q, map[p + ":" + q := v];
    assert [k][..0] == [] && [p][..0] == [];
    assert "" + "," + (p + ":" + q) + ":" + v == "" + "," + p + ":" + (q + ":" + v);
  }

  // ---------------------------------------------------------------- second readings of the whole string

  const FIXED := ["env", "resource", "service"]

  /** Tags as PickTags collects them. */
  predicate Tags(m: map<string, string>) {
    forall k :: k in m ==> k !in FIXED
  }

  function WithTag(a: string, k: string, v: string): string {
    a + "," + k + ":" + v
  }

  /** The string ends in what could be a tag. */
  ghost predicate EndsInTag(s: string) {
    exists a, k, v :: k !in FIXED && s == WithTag(a, k, v)
  }

  ghost predicate SecondGrain(e: string, r: string, s: string, m: map<string, string>,
                              e': string, r': string, s': string, m': map<string, string>) {
    && Tags(m') && Grain(e, r, s, m) == Grain(e', r', s', m')
    && !(e == e' && r == r' && s == s' && m == m')
  }

  lemma ListedNone()
    ensures Listed({}) == []
  {
    ListsUnique(Listed({}), [], {});
  }

  lemma ListedOne(k: string)
    ensures Listed({k}) == [k]
  {
    assert Lists([k], {k});
    ListsUnique(Listed({k}), [k], {k});
  }

  /** Without tags the string is its fixed part; tags can be read as the end of the service. */
  lemma GrainIs(e: string, r: string, s: string, m: map<string, string>)
    ensures Grain(e, r, s, map[]) == FixedGrain(e, r, s)
    ensures Grain(e, r, s, m) == FixedGrain(e, r, s + Rendered(Listed(m.Keys), m))
  {
    ListedNone();
    var keys := Listed(m.Keys);
    var none: map<string, string> := map[];
    assert none.Keys == {};
    TagsReadAsService(e, r, s, keys, m);
    assert FixedGrain(e, r, s) + "" == FixedGrain(e, r, s);
    assert FixedGrain(e, r, s + Rendered(keys, m)) + "" == FixedGrain(e, r, s + Rendered(keys, m));
  }

  lemma GrainWithTag(e: string, r: string, a: string, k: string, v: string)
    ensures Grain(e, r, a, map[k := v]) == FixedGrain(e, r, WithTag(a, k, v))
  {
    ListedOne(k);
    assert map[k := v].Keys == {k};
    GrainIs(e, r, a, map[k := v]);
    assert [k][..0] == [];
    assert a + ("" + "," + k + ":" + v) == a + "," + k + ":" + v;
  }

  /** The whole string has a second reading if and only if there are tags, the fixed part has one, or the service
      ends in what could be a tag. */
  lemma GrainMisread(e: string, r: string, s: string, m: map<string, string>)
    requires Tags(m)
    ensures (exists e', r', s', m' :: SecondGrain(e, r, s, m, e', r', s', m')) <==>
            m != map[] || Misreadable(e, r, s) || EndsInTag(s)
  {
    hide Grain, FixedGrain, Misreadable, Rendered;
    if m != map[] {
      GrainIs(e, r, s, m);
      GrainIs(e, r, s + Rendered(Listed(m.Keys), m), map[]);
      assert SecondGrain(e, r, s, m, e, r, s + Rendered(Listed(m.Keys), m), map[]);
    } else if Misreadable(e, r, s) {
      FixedGrainMisread(e, r, s);
      var e', r', s' :| SecondReading(e, r, s, e', r', s');
      GrainIs(e, r, s, m);
      GrainIs(e', r', s', m);
      assert SecondGrain(e, r, s, m, e', r', s', m);
    } else if EndsInTag(s) {
      var a, k, v :| k !in FIXED && s == WithTag(a, k, v);
      GrainIs(e, r, s, m);
      GrainWithTag(e, r, a, k, v);
      assert SecondGrain(e, r, s, m, e, r, a, map[k := v]);
    } else {
      forall e', r', s', m'
        ensures !SecondGrain(e, r, s, m, e', r', s', m')
      {
        if SecondGrain(e, r, s, m, e', r', s', m') {
          OnlyGrain(e, r, s, e', r', s', m');
        }
      }
    }
  }

  lemma NoTags(s: string, m: map<string, string>)
    ensures Listed(m.Keys) == [] ==> m == map[] && s + Rendered(Listed(m.Keys), m) == s
  {
    if Listed(m.Keys) == [] {
      assert forall k :: k in m.Keys ==> k in Listed(m.Keys);
    }
  }

  lemma OnlyGrain(e: string, r: string, s: string, e': string, r': string, s': string, m': map<string, string>)
    requires SecondGrain(e, r, s, map[], e', r', s', m')
    ensures Misreadable(e, r, s) || EndsInTag(s)
  {
    var keys := Listed(m'.Keys);
    GrainIs(e, r, s, map[]);
    GrainIs(e', r', s', m');
    FixedGrainMisread(e, r, s);
    hide Grain, FixedGrain, Misreadable;
    var s'' := s' + Rendered(keys, m');
    if !Misreadable(e, r, s) {
      assert !SecondReading(e, r, s, e', r', s'');
      assert e == e' && r == r' && s == s'';
      NoTags(s', m');
      if keys != [] {
        var n := |keys| - 1;
        var k := keys[n];
        assert k in keys;
        assert s == WithTag(s' + Rendered(keys[..n], m'), k, m'[k]);
      }
    }
  }
}
