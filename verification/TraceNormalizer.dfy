/** model/normalizer.go: which traces are accepted, and what the later stages may rely on.

    The normalisation of tags, the repair of UTF-8 and the clock are parameters. */
module TraceNormalizer {
  import N = MetricNames
  import T = Traces
  import S = Subtraces
  import R = StatsRaw
  import W = Wire

  const MAX_SERVICE_LEN := 100
  const MAX_TYPE_LEN := 100
  const MAX_INT64 := 0x7FFF_FFFF_FFFF_FFFF
  const MAX_END_DATE_OFFSET := 600_000_000_000
  const YEAR_2000_NANOSEC_TS := 946_684_800_000_000_000

  datatype Env = Env(tag: string -> string, utf8: string -> string, repair: map<string, string> -> map<string, string>,
                     now: int)

  datatype SpanData = SpanData(traceID: nat, spanID: nat, parentID: nat, service: string, name: string,
                               resource: string, kind: string, start: W.I64, duration: W.I64, meta: map<string, string>)

  // ---------------------------------------------------------------- one span

  predicate Digits(s: string) {
    forall i :: 0 <= i < |s| ==> '0' <= s[i] <= '9'
  }

  function Value(s: string): nat
    requires Digits(s)
  {
    if s == "" then 0
    else
      10 * Value(s[..|s| - 1]) + (s[|s| - 1] as int - '0' as int)
  }

  predicate IsValidStatusCode(sc: string) {
    sc != "" && Digits(sc) && 100 <= Value(sc) < 600
  }

  function CleanMeta(meta: map<string, string>, env: Env): map<string, string> {
    var m := if "env" in meta then meta["env" := env.tag(meta["env"])] else meta;
    if "http.status_code" in m && !IsValidStatusCode(m["http.status_code"]) then m - {"http.status_code"} else m
  }

  /** A span whose three IDs are the same is a root. */
  function WithRoot(s: SpanData): SpanData {
    if s.parentID == s.traceID && s.parentID == s.spanID then s.(parentID := 0) else s
  }

  predicate TimesOk(s: SpanData, now: int) {
    s.start >= YEAR_2000_NANOSEC_TS && W.ToI64(s.start + s.duration) <= now + MAX_END_DATE_OFFSET && s.duration > 0
  }

  /** The check on the end date lets through the spans that end in time, and those so long that the sum wraps. */
  lemma EndCheckWraps(s: SpanData, now: int)
    requires 0 <= now && now + MAX_END_DATE_OFFSET <= MAX_INT64
    ensures TimesOk(s, now) <==>
            && s.start >= 946_684_800_000_000_000 && s.duration > 0
            && (s.start + s.duration <= now + 600_000_000_000 || s.start + s.duration >= 0x8000_0000_0000_0000)
  {
    hide W.ToI64;
    if s.start >= 0 && s.duration >= 0 {
      SumWraps(s.start, s.duration);
    }
  }

  lemma SumWraps(a: W.I64, b: W.I64)
    requires a >= 0 && b >= 0
    ensures W.ToI64(a + b) == if a + b <= MAX_INT64 then a + b else a + b - 0x1_0000_0000_0000_0000
  {
  }

  /** The span after normalisation, as far as it went, and whether it went through. */
  function Normalized(s: SpanData, env: Env): (SpanData, bool) {
    if s.service == "" || |s.service| > MAX_SERVICE_LEN then (s, false)
    else
      var s1 := s.(service := env.tag(s.service));
      var name := N.Norm(s.name);
      if s1.service == "" || !name.ok then (s1, false)
      else
        var s2 := s1.(name := name.name, resource := env.utf8(s.resource));
        if s2.resource == "" then (s2, false)
        else
          var s3 := WithRoot(s2);
          if !TimesOk(s3, env.now) then (s3, false)
          else
            var s4 := s3.(kind := env.utf8(s.kind));
            if |s4.kind| > MAX_TYPE_LEN then (s4, false)
            else (s4.(meta := CleanMeta(env.repair(s.meta), env)), true)
  }

  /** What an accepted span satisfies. */
  predicate Fit(s: SpanData, now: int) {
    && s.service != "" && s.resource != "" && N.Normal(s.name) && R.NoBar(s.name) && |s.name| <= N.MAX_NAME_LEN
    && TimesOk(s, now) && |s.kind| <= MAX_TYPE_LEN
    && !(s.parentID == s.traceID == s.spanID && s.parentID != 0)
    && ("http.status_code" in s.meta ==> IsValidStatusCode(s.meta["http.status_code"]))
  }

  lemma NormalizedIsFit(s: SpanData, env: Env)
    requires Normalized(s, env).1
    ensures var s' := Normalized(s, env).0;
            Fit(s', env.now) && s'.spanID == s.spanID && s'.traceID == s.traceID
  {
    hide N.Norm, N.Normal, IsValidStatusCode;
    N.NormIsNormal(s.name);
  }

  /** Normalising never touches the IDs that are checked. */
  lemma NormalizedIDs(s: SpanData, env: Env)
    ensures Normalized(s, env).0.spanID == s.spanID && Normalized(s, env).0.traceID == s.traceID
  {
    hide N.Norm, CleanMeta;
  }

  /** The parameters leave alone what they have put right, and do not lengthen it past the limits. */
  ghost predicate Settled(env: Env) {
    && (forall t {:trigger env.tag(t)} :: env.tag(env.tag(t)) == env.tag(t) && |env.tag(t)| <= MAX_SERVICE_LEN)
    && (forall t {:trigger env.utf8(t)} :: env.utf8(env.utf8(t)) == env.utf8(t))
    && (forall m: map<string, string> {:trigger CleanMeta(env.repair(m), env)} ::
          env.repair(CleanMeta(env.repair(m), env)) == CleanMeta(env.repair(m), env))
  }

  lemma CleanTwice(m: map<string, string>, env: Env)
    requires Settled(env)
    ensures CleanMeta(CleanMeta(m, env), env) == CleanMeta(m, env)
  {
    hide IsValidStatusCode;
  }

  /** An accepted span is accepted again, as it is. */
  lemma NormalizedTwice(s: SpanData, env: Env)
    requires Settled(env) && Normalized(s, env).1
    ensures Normalized(Normalized(s, env).0, env) == Normalized(s, env)
  {
    hide N.Norm, CleanMeta, Normalized, W.ToI64;
    var s' := Normalized(s, env).0;
    NormalizedWhen(s, env);
    N.NormTwice(s.name);
    CleanTwice(env.repair(s.meta), env);
    NormalizedWhen(s', env);
  }

  /** The checks that a span passes, and what becomes of its fields. */
  lemma NormalizedWhen(s: SpanData, env: Env)
    ensures var r := Normalized(s, env);
            && (r.1 <==>
                && 0 < |s.service| <= 100 && env.tag(s.service) != "" && N.Norm(s.name).ok
                && env.utf8(s.resource) != "" && TimesOk(s, env.now) && |env.utf8(s.kind)| <= 100)
            && (r.1 ==>
                  r.0 == SpanData(s.traceID, s.spanID,
                                  if s.parentID == s.traceID && s.parentID == s.spanID then 0 else s.parentID,
                                  env.tag(s.service), N.Norm(s.name).name, env.utf8(s.resource), env.utf8(s.kind),
                                  s.start, s.duration, CleanMeta(env.repair(s.meta), env)))
  {
    hide N.Norm, CleanMeta, W.ToI64;
  }

  /** Of the meta entries the environment is normalised as a tag, and a status code is dropped unless it is valid; all
      others stay. */
  lemma MetaCleaned(meta: map<string, string>, env: Env, key: string)
    ensures var m := CleanMeta(meta, env);
            && (key in m <==> key in meta && (key == "http.status_code" ==> StatusCode(meta[key])))
            && (key in m ==> m[key] == if key == "env" then env.tag(meta[key]) else meta[key])
  {
    if "http.status_code" in meta {
      StatusCodes(meta["http.status_code"]);
    }
    hide IsValidStatusCode, StatusCode;
  }

  /** A number from 100 to 599 in decimal digits, with any zeros in front. */
  predicate StatusCode(sc: string) {
    && |sc| >= 3 && (forall i :: 0 <= i < |sc| - 3 ==> sc[i] == '0')
    && '1' <= sc[|sc| - 3] <= '5' && '0' <= sc[|sc| - 2] <= '9' && '0' <= sc[|sc| - 1] <= '9'
  }

  lemma StatusCodes(sc: string)
    ensures IsValidStatusCode(sc) <==> StatusCode(sc)
  {
    if Digits(sc) && |sc| >= 3 {
      var n := |sc|;
      assert sc[..n][..n - 1] == sc[..n - 1] && sc[..n - 1][..n - 2] == sc[..n - 2] && sc[..n - 2][..n - 3] == sc[..n - 3];
      LastDigit(sc, n);
      LastDigit(sc, n - 1);
      LastDigit(sc, n - 2);
      Leading(sc[..n - 3]);
      assert sc[..n] == sc;
    } else if Digits(sc) {
      ShortValue(sc);
    } else if StatusCode(sc) {
      assert forall i :: 0 <= i < |sc| ==> '0' <= sc[i] <= '9';
    }
  }

  lemma LastDigit(sc: string, n: nat)
    requires Digits(sc) && 0 < n <= |sc|
    ensures Value(sc[..n]) == 10 * Value(sc[..n - 1]) + (sc[n - 1] as int - '0' as int)
  {
    assert sc[..n][..n - 1] == sc[..n - 1];
  }

  lemma {:induction false} Leading(s: string)
    requires Digits(s)
    ensures Value(s) == 0 <==> forall i :: 0 <= i < |s| ==> s[i] == '0'
  {
    if s != "" {
      var front := s[..|s| - 1];
      Leading(front);
      assert s == front + [s[|s| - 1]];
      assert forall i :: 0 <= i < |front| ==> front[i] == s[i];
    }
  }

  lemma ShortValue(s: string)
    requires Digits(s) && |s| < 3
    ensures Value(s) < 100
  {
    if |s| == 2 {
      assert Value(s[..1]) == s[0] as int - '0' as int by {
        assert s[..1][..0] == "";
      }
    } else if |s| == 1 {
      assert s[..0] == "";
    }
  }

  class Span {
    var traceID: nat
    var spanID: nat
    var parentID: nat
    var service: string
    var name: string
    var resource: string
    var kind: string
    var start: W.I64
    var duration: W.I64
    var meta: map<string, string>

    ghost function View(): SpanData
      reads this
    {
      SpanData(traceID, spanID, parentID, service, name, resource, kind, start, duration, meta)
    }

    method Normalize(env: Env) returns (ok: bool)
      modifies this
      ensures (View(), ok) == Normalized(old(View()), env)
    {
      hide N.Norm, CleanMeta, W.ToI64;
      if service == "" {
        return false;
      }
      if |service| > MAX_SERVICE_LEN {
        return false;
      }
      service := env.tag(service);
      if service == "" {
        return false;
      }
      var norm, valid := N.NormMetricNameParse(name);
      if !valid {
        return false;
      }
      name := norm;
      resource := env.utf8(resource);
      if resource == "" {
        return false;
      }
      if parentID == traceID && parentID == spanID {
        parentID := 0;
      }
      if start < YEAR_2000_NANOSEC_TS {
        return false;
      }
      if W.ToI64(start + duration) > env.now + MAX_END_DATE_OFFSET {
        return false;
      }
      if duration <= 0 {
        return false;
      }
      kind := env.utf8(kind);
      if |kind| > MAX_TYPE_LEN {
        return false;
      }
      NormalizeMeta(env);
      return true;
    }

    method NormalizeMeta(env: Env)
      modifies this`meta
      ensures meta == CleanMeta(env.repair(old(meta)), env)
    {
      hide IsValidStatusCode;
      meta := env.repair(meta);
      if "env" in meta {
        meta := meta["env" := env.tag(meta["env"])];
      }
      if "http.status_code" in meta {
        if !IsValidStatusCode(meta["http.status_code"]) {
          meta := meta - {"http.status_code"};
        }
      }
    }
  }

  // ---------------------------------------------------------------- a trace

  ghost function Views(t: seq<Span>): (ds: seq<SpanData>)
    reads t
    ensures |ds| == |t| && forall i :: 0 <= i < |t| ==> ds[i] == t[i].View()
  {
    seq(|t|, i requires 0 <= i < |t| reads t => t[i].View())
  }

  /** The first n spans pass the checks on their IDs, and every one of them goes through. */
  ghost predicate AcceptedUpTo(ds: seq<SpanData>, n: nat, env: Env)
    requires n <= |ds|
  {
    && (forall i :: 0 <= i < n ==> ds[i].traceID == ds[0].traceID && ds[i].traceID != 0 && ds[i].spanID != 0)
    && (forall i, j :: 0 <= i < j < n ==> ds[i].spanID != ds[j].spanID)
    && (forall i :: 0 <= i < n ==> Normalized(ds[i], env).1)
  }

  /** The traces that are accepted. */
  ghost predicate Acceptable(ds: seq<SpanData>, env: Env) {
    ds != [] && AcceptedUpTo(ds, |ds|, env)
  }

  lemma AcceptableMeans(ds: seq<SpanData>, env: Env)
    ensures Acceptable(ds, env) <==>
            && ds != [] && ds[0].traceID != 0 && (forall d :: d in ds ==> d.traceID == ds[0].traceID && d.spanID != 0)
            && (forall i, j :: 0 <= i < j < |ds| ==> ds[i].spanID != ds[j].spanID)
            && (forall d :: d in ds ==> Normalized(d, env).1)
  {
    hide Normalized;
    if ds != [] {
      assert ds[0] in ds;
    }
  }

  /** The first i spans have been normalised, the others not yet, and the IDs are as they were. */
  ghost predicate Progress(t: seq<Span>, ds: seq<SpanData>, i: nat, env: Env)
    reads t
  {
    && |ds| == |t| && i <= |t|
    && (forall k :: 0 <= k < i ==> t[k].View() == Normalized(ds[k], env).0)
    && (forall k :: i <= k < |t| && t[k] !in t[..i] ==> t[k].View() == ds[k])
    && (forall k :: 0 <= k < |t| ==> t[k].spanID == ds[k].spanID && t[k].traceID == ds[k].traceID)
  }

  /** The next span, if it is not one of those before it. */
  method NormalizeAt(t: seq<Span>, i: nat, env: Env, ghost ds: seq<SpanData>) returns (ok: bool)
    requires i < |t| && Progress(t, ds, i, env) && t[i] !in t[..i]
    modifies t[i]
    ensures ok == Normalized(ds[i], env).1 && Progress(t, ds, i + 1, env) && t[i].spanID == ds[i].spanID
  {
    hide Normalized;
    NormalizedIDs(ds[i], env);
    ok := t[i].Normalize(env);
    assert t[..i + 1] == t[..i] + [t[i]];
    forall k | 0 <= k < |t|
      ensures t[k].spanID == ds[k].spanID && t[k].traceID == ds[k].traceID
      ensures k <= i ==> t[k].View() == Normalized(ds[k], env).0
    {
      if t[k] == t[i] {
        SameSpan(t, ds, i, k, env);
      }
    }
  }

  lemma SameSpan(t: seq<Span>, ds: seq<SpanData>, i: nat, k: nat, env: Env)
    requires i < |t| == |ds| && k < |t| && t[k] == t[i] && t[i] !in t[..i]
    ensures k >= i
  {
    forall j | 0 <= j < i
      ensures t[j] in t[..i]
    {
      assert t[..i][j] == t[j];
    }
  }

  /** A trace is accepted exactly when it is not empty, its spans have one trace ID and distinct span IDs, none of them
      zero, and each can be normalised; then each has been. */
  method NormalizeTrace(t: seq<Span>, env: Env) returns (ok: bool)
    modifies t
    ensures ok <==> Acceptable(old(Views(t)), env)
    ensures var ds := old(Views(t));
            ok <==>
            && ds != [] && ds[0].traceID != 0 && (forall d :: d in ds ==> d.traceID == ds[0].traceID && d.spanID != 0)
            && (forall i, j :: 0 <= i < j < |ds| ==> ds[i].spanID != ds[j].spanID)
            && (forall d :: d in ds ==> Normalized(d, env).1)
    ensures ok ==> forall i :: 0 <= i < |t| ==> t[i].View() == Normalized(old(t[i].View()), env).0
  {
    hide Normalized, AcceptedUpTo, Progress;
    ghost var ds := Views(t);
    AcceptableMeans(ds, env);
    if |t| == 0 {
      return false;
    }
    var spanIDs: set<nat> := {};
    var traceID := t[0].traceID;
    NothingYet(t, ds, env);
    for i := 0 to |t|
      invariant AcceptedUpTo(ds, i, env) && traceID == ds[0].traceID && Progress(t, ds, i, env)
      invariant spanIDs == IDs(ds, i)
    {
      var span := t[i];
      NextSpan(t, ds, i, env);
      if span.traceID == 0 {
        return false;
      }
      if span.spanID == 0 {
        return false;
      }
      if span.spanID in spanIDs {
        return false;
      }
      if span.traceID != traceID {
        return false;
      }
      ok := NormalizeAt(t, i, env, ds);
      if !ok {
        return;
      }
      spanIDs := spanIDs + {span.spanID};
    }
    AllNormalized(t, ds, env);
    return true;
  }

  ghost function IDs(ds: seq<SpanData>, n: nat): set<nat>
    requires n <= |ds|
  {
    set k | 0 <= k < n :: ds[k].spanID
  }

  lemma NothingYet(t: seq<Span>, ds: seq<SpanData>, env: Env)
    requires ds == Views(t) && t != []
    ensures AcceptedUpTo(ds, 0, env) && Progress(t, ds, 0, env) && IDs(ds, 0) == {}
  {
  }

  lemma AllNormalized(t: seq<Span>, ds: seq<SpanData>, env: Env)
    requires Progress(t, ds, |t|, env)
    ensures forall i :: 0 <= i < |t| ==> t[i].View() == Normalized(ds[i], env).0
  {
    hide Normalized;
  }

  /** What the checks on a span decide, given those on the spans before it. */
  lemma NextSpan(t: seq<Span>, ds: seq<SpanData>, i: nat, env: Env)
    requires i < |t| && Progress(t, ds, i, env) && AcceptedUpTo(ds, i, env)
    ensures t[i].spanID == ds[i].spanID && IDs(ds, i + 1) == IDs(ds, i) + {ds[i].spanID}
    ensures t[i].spanID !in IDs(ds, i) ==> t[i] !in t[..i] && t[i].View() == ds[i]
    ensures AcceptedUpTo(ds, i + 1, env) <==>
            && ds[i].traceID != 0 && ds[i].spanID != 0 && ds[i].spanID !in IDs(ds, i)
            && ds[i].traceID == ds[0].traceID && Normalized(ds[i], env).1
    ensures !AcceptedUpTo(ds, i + 1, env) ==> !AcceptedUpTo(ds, |ds|, env)
    ensures t[i].traceID == ds[i].traceID
  {
    hide Normalized;
    if t[i] in t[..i] {
      var k :| 0 <= k < i && t[k] == t[i];
      assert ds[k].spanID == ds[i].spanID;
    }
  }

  /** The spans as the later stages see them. */
  function AsTrace(ds: seq<SpanData>, topLevel: SpanData -> bool): T.Trace {
    seq(|ds|, i requires 0 <= i < |ds| =>
      T.Span(ds[i].spanID, ds[i].parentID, ds[i].service, ds[i].kind, ds[i].start, ds[i].duration, topLevel(ds[i])))
  }

  function NormalizedAll(ds: seq<SpanData>, env: Env): seq<SpanData> {
    seq(|ds|, i requires 0 <= i < |ds| => Normalized(ds[i], env).0)
  }

  /** What an accepted trace brings: distinct span IDs, as the extraction of subtraces needs them; spans that last;
      and names without a bar, as the keys of the concentrator need them. */
  lemma AcceptedTrace(ds: seq<SpanData>, env: Env, topLevel: SpanData -> bool)
    requires Acceptable(ds, env)
    ensures var out := NormalizedAll(ds, env);
            && S.DistinctIDs(AsTrace(out, topLevel))
            && (forall s :: s in AsTrace(out, topLevel) ==> s.spanID != 0 && s.start < T.End(s))
            && (forall i :: 0 <= i < |out| ==> Fit(out[i], env.now))
  {
    hide Normalized, Fit;
    forall i | 0 <= i < |ds|
      ensures Fit(NormalizedAll(ds, env)[i], env.now) && NormalizedAll(ds, env)[i].spanID == ds[i].spanID
      ensures NormalizedAll(ds, env)[i].duration > 0
    {
      NormalizedIsFit(ds[i], env);
      FitLasts(Normalized(ds[i], env).0, env.now);
    }
  }

  lemma FitLasts(s: SpanData, now: int)
    requires Fit(s, now)
    ensures s.duration > 0
  {
  }
}
