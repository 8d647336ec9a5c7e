/** writer/stats_writer.go: splitting stats buckets over payloads of bounded size. */
module StatsWriter {
  import opened RealMaps
  import opened Division

  datatype Count = Count(key: string, name: string, measure: string, topLevel: real, value: real)

  datatype Distribution = Distribution(key: string, name: string, measure: string, topLevel: real, summary: seq<int>)

  datatype StatsBucket = StatsBucket(start: int, duration: int, counts: map<string, Count>,
                                     distributions: map<string, Distribution>, errDistributions: map<string, Distribution>)

  datatype TimeWindow = TimeWindow(start: int, duration: int)

  /** An entry of a payload: a time window and a key. */
  datatype Entry = Entry(window: TimeWindow, key: string)

  function Window(b: StatsBucket): TimeWindow {
    TimeWindow(b.start, b.duration)
  }

  function EmptyBucket(w: TimeWindow): StatsBucket {
    StatsBucket(w.start, w.duration, map[], map[], map[])
  }

  // ---------------------------------------------------------------- what is promised

  ghost predicate DistinctWindows(stats: seq<StatsBucket>) {
    forall i, j :: 0 <= i < j < |stats| ==> Window(stats[i]) != Window(stats[j])
  }

  /** Buckets as `Export` makes them: a distribution always comes with a count. */
  ghost predicate Counted(b: StatsBucket) {
    b.distributions.Keys <= b.counts.Keys && b.errDistributions.Keys <= b.counts.Keys
  }

  ghost function Entries(buckets: seq<StatsBucket>): set<Entry> {
    set b, k | b in buckets && k in b.counts :: Entry(Window(b), k)
  }

  /** What a bucket holds under a key is what another holds there. */
  ghost predicate SameEntry(b: StatsBucket, s: StatsBucket, k: string) {
    && k in b.counts && k in s.counts && b.counts[k] == s.counts[k]
    && (k in b.distributions <==> k in s.distributions)
    && (k in b.distributions ==> b.distributions[k] == s.distributions[k])
    && (k in b.errDistributions <==> k in s.errDistributions)
    && (k in b.errDistributions ==> b.errDistributions[k] == s.errDistributions[k])
  }

  /** Nothing in the payloads that was not in the input, and nothing changed. */
  ghost predicate NothingInvented(stats: seq<StatsBucket>, payload: seq<StatsBucket>) {
    forall b, k :: b in payload && k in b.counts ==> exists s :: s in stats && Window(s) == Window(b) && SameEntry(b, s, k)
  }

  /** Every entry of the input is in exactly one payload. */
  ghost predicate NothingLost(stats: seq<StatsBucket>, payloads: seq<seq<StatsBucket>>) {
    && (forall e :: e in Entries(stats) ==> exists p :: 0 <= p < |payloads| && e in Entries(payloads[p]))
    && (forall p, q :: 0 <= p < q < |payloads| ==> Entries(payloads[p]) !! Entries(payloads[q]))
  }

  /** A split of the input over payloads: nothing lost, nothing invented, no payload over the limit. */
  ghost predicate Split(stats: seq<StatsBucket>, payloads: seq<seq<StatsBucket>>, max: int) {
    && NothingLost(stats, payloads)
    && (forall p :: 0 <= p < |payloads| ==> NothingInvented(stats, payloads[p]) && DistinctWindows(payloads[p]))
    && (max > 0 ==> forall p :: 0 <= p < |payloads| ==> |Entries(payloads[p])| <= max)
  }

  // ---------------------------------------------------------------- dealing out round robin

  /** How many of the first n turns fall to p when P take turns. */
  function Turns(n: nat, P: nat, p: nat): nat
    requires P > 0
  {
    if n == 0 then 0 else Turns(n - 1, P, p) + if (n - 1) % P == p then 1 else 0
  }

  lemma {:induction false} TurnsExactly(n: nat, P: nat, p: nat) returns (q: nat, r: nat)
    requires p < P
    ensures n == P * q + r && r < P && Turns(n, P, p) == q + if p < r then 1 else 0
  {
    if n == 0 {
      q, r := 0, 0;
    } else {
      q, r := TurnsExactly(n - 1, P, p);
      Quotient(n - 1, P, q, r);
      OneMore(P, q);
      if r + 1 < P {
        r := r + 1;
      } else {
        q, r := q + 1, 0;
      }
    }
  }

  lemma OneMore(P: nat, q: nat)
    ensures P * (q + 1) == P * q + P && P * 0 == 0
  {
  }

  lemma TurnsBounded(n: nat, P: nat, p: nat, max: nat)
    requires p < P && n <= P * max
    ensures Turns(n, P, p) <= max
  {
    hide Turns;
    var q, r := TurnsExactly(n, P, p);
    QuotientAtMost(n, P, q, r, max);
  }

  lemma QuotientAtMost(n: nat, P: nat, q: nat, r: nat, max: nat)
    requires 0 < P && n == P * q + r && n <= P * max
    ensures q <= max && (q == max ==> r == 0)
  {
    assert P * (q - max) == P * q - P * max;
    Multiple(P, q - max);
  }

  /** The number of payloads is the number of entries over the limit, rounded up. */
  lemma EnoughPayloads(n: nat, max: nat)
    requires 0 < max
    ensures var P := n / max + if n % max != 0 then 1 else 0;
            n <= P * max && (n > 0 ==> P > 0)
  {
    var q, r := n / max, n % max;
    assert n == max * q + r;
    assert (q + 1) * max == q * max + max;
  }

  // ---------------------------------------------------------------- what a payload is made of

  /** A turn of the dealing loop: a key of the counts of the j-th bucket. */
  datatype Turn = Turn(j: nat, key: string)

  ghost predicate Legal(stats: seq<StatsBucket>, turns: seq<Turn>) {
    forall t :: 0 <= t < |turns| ==> turns[t].j < |stats| && turns[t].key in stats[turns[t].j].counts
  }

  /** The turns of the loop: bucket by bucket, each key of a bucket once, in any order. */
  ghost predicate Order(stats: seq<StatsBucket>, turns: seq<Turn>) {
    && Legal(stats, turns)
    && (forall t, u :: 0 <= t < u < |turns| ==> turns[t].j <= turns[u].j && turns[t] != turns[u])
    && (forall j, k :: 0 <= j < |stats| && k in stats[j].counts ==> Turn(j, k) in turns)
  }

  ghost function EntryOf(stats: seq<StatsBucket>, turn: Turn): Entry
    requires turn.j < |stats|
  {
    Entry(Window(stats[turn.j]), turn.key)
  }

  ghost function CountOf(stats: seq<StatsBucket>, turn: Turn): Count
    requires turn.j < |stats| && turn.key in stats[turn.j].counts
  {
    stats[turn.j].counts[turn.key]
  }

  /** Placing the distribution of a bucket under `k`, if it has one: merged into one that is there already. */
  function Placed(had: map<string, Distribution>, from: map<string, Distribution>, k: string): map<string, Distribution> {
    if k !in from then had
    else if k in had then had[k := had[k].(summary := had[k].summary + from[k].summary)]
    else had[k := from[k]]
  }

  /** Entering the entry of `b` under `k` into a payload map. A count that is there already stays as it is: the
      result of merging into it is not stored. */
  function Entered(pm: map<TimeWindow, StatsBucket>, b: StatsBucket, k: string): map<TimeWindow, StatsBucket>
    requires k in b.counts
  {
    var w := Window(b);
    var had := if w in pm then pm[w] else EmptyBucket(w);
    pm[w := had.(counts := if k in had.counts then had.counts else had.counts[k := b.counts[k]],
                 distributions := Placed(had.distributions, b.distributions, k),
                 errDistributions := Placed(had.errDistributions, b.errDistributions, k))]
  }

  /** Payload map p of P after n turns: it gets every P-th turn. */
  ghost function PayloadMap(stats: seq<StatsBucket>, turns: seq<Turn>, n: nat, P: nat, p: nat): map<TimeWindow, StatsBucket>
    requires Legal(stats, turns) && n <= |turns| && P > 0
  {
    if n == 0 then map[]
    else
      var before := PayloadMap(stats, turns, n - 1, P, p);
      if (n - 1) % P == p then Entered(before, stats[turns[n - 1].j], turns[n - 1].key) else before
  }

  ghost predicate Holds(pm: map<TimeWindow, StatsBucket>, e: Entry) {
    e.window in pm && e.key in pm[e.window].counts
  }

  /** Turn t deals entry `e` to payload p. */
  ghost predicate Deals(stats: seq<StatsBucket>, turns: seq<Turn>, P: nat, p: nat, t: nat, e: Entry)
    requires Legal(stats, turns) && t < |turns| && P > 0
  {
    t % P == p && EntryOf(stats, turns[t]) == e
  }

  /** The count of turn t is lost: an earlier turn dealt the same window and key to the same payload. */
  ghost predicate Lost(stats: seq<StatsBucket>, turns: seq<Turn>, P: nat, t: nat)
    requires Legal(stats, turns) && t < |turns| && P > 0
  {
    exists u :: 0 <= u < t && Deals(stats, turns, P, t % P, u, EntryOf(stats, turns[t]))
  }

  lemma EnteredHolds(pm: map<TimeWindow, StatsBucket>, b: StatsBucket, k: string, e: Entry)
    requires k in b.counts
    ensures Holds(Entered(pm, b, k), e) <==> Holds(pm, e) || e == Entry(Window(b), k)
    ensures Holds(pm, e) ==> Entered(pm, b, k)[e.window].counts[e.key] == pm[e.window].counts[e.key]
    ensures var e' := Entry(Window(b), k); !Holds(pm, e') ==> Entered(pm, b, k)[e'.window].counts[e'.key] == b.counts[k]
  {
  }

  /** A payload holds the entries dealt to it. */
  lemma {:induction false} PayloadHolds(stats: seq<StatsBucket>, turns: seq<Turn>, n: nat, P: nat, p: nat, e: Entry)
    requires Legal(stats, turns) && n <= |turns| && P > 0
    ensures Holds(PayloadMap(stats, turns, n, P, p), e) <==> exists t :: 0 <= t < n && Deals(stats, turns, P, p, t, e)
  {
    hide Holds, Entered;
    if n == 0 {
      NothingHeld(e);
    } else {
      PayloadHolds(stats, turns, n - 1, P, p, e);
      EnteredHolds(PayloadMap(stats, turns, n - 1, P, p), stats[turns[n - 1].j], turns[n - 1].key, e);
      if Deals(stats, turns, P, p, n - 1, e) {
        assert Holds(PayloadMap(stats, turns, n, P, p), e);
      }
      forall t | 0 <= t < n && t != n - 1 && Deals(stats, turns, P, p, t, e)
        ensures t < n - 1
      {
      }
    }
  }

  lemma NothingHeld(e: Entry)
    ensures !Holds(map[], e)
  {
  }

  /** Of an entry dealt to a payload more than once, the count of the first turn is kept. */
  lemma {:induction false} PayloadKeepsFirst(stats: seq<StatsBucket>, turns: seq<Turn>, n: nat, P: nat, t: nat)
    requires Legal(stats, turns) && t < n <= |turns| && P > 0 && !Lost(stats, turns, P, t)
    ensures var pm, e := PayloadMap(stats, turns, n, P, t % P), EntryOf(stats, turns[t]);
            Holds(pm, e) && pm[e.window].counts[e.key] == CountOf(stats, turns[t])
    decreases n
  {
    var p, e := t % P, EntryOf(stats, turns[t]);
    var before := PayloadMap(stats, turns, n - 1, P, p);
    EnteredHolds(before, stats[turns[n - 1].j], turns[n - 1].key, e);
    hide Entered;
    if t == n - 1 {
      PayloadHolds(stats, turns, n - 1, P, p, e);
      assert !Holds(before, e);
    } else {
      PayloadKeepsFirst(stats, turns, n - 1, P, t);
    }
  }

  /** Every lost count has one that was kept in its place. */
  lemma {:induction false} LostFor(stats: seq<StatsBucket>, turns: seq<Turn>, P: nat, t: nat) returns (u: nat)
    requires Legal(stats, turns) && t < |turns| && P > 0
    ensures u <= t && !Lost(stats, turns, P, u) && Deals(stats, turns, P, t % P, u, EntryOf(stats, turns[t]))
    ensures u == t <==> !Lost(stats, turns, P, t)
    decreases t
  {
    if Lost(stats, turns, P, t) {
      var v :| 0 <= v < t && Deals(stats, turns, P, t % P, v, EntryOf(stats, turns[t]));
      u := LostFor(stats, turns, P, v);
    } else {
      u := t;
    }
  }

  /** What a payload holds of an entry dealt to it at turn t: the count of turn t itself unless that is lost, and
      then the count of the earlier turn it met. */
  lemma CountOfTurn(stats: seq<StatsBucket>, turns: seq<Turn>, P: nat, t: nat) returns (u: nat)
    requires Legal(stats, turns) && t < |turns| && P > 0
    ensures u <= t && Deals(stats, turns, P, t % P, u, EntryOf(stats, turns[t]))
    ensures u == t <==> !Lost(stats, turns, P, t)
    ensures var pm, e := PayloadMap(stats, turns, |turns|, P, t % P), EntryOf(stats, turns[t]);
            Holds(pm, e) && pm[e.window].counts[e.key] == CountOf(stats, turns[u])
  {
    u := LostFor(stats, turns, P, t);
    PayloadKeepsFirst(stats, turns, |turns|, P, u);
  }

  // ---------------------------------------------------------------- what is lost

  /** A count is lost if and only if a bucket further left has the same window and key, and the turns of the two
      agree modulo the number of payloads. */
  lemma LostExactly(stats: seq<StatsBucket>, turns: seq<Turn>, P: nat, t: nat)
    requires Order(stats, turns) && t < |turns| && P > 0
    ensures Lost(stats, turns, P, t) <==> exists u :: 0 <= u < t && Collide(stats, turns, P, u, t)
  {
    forall u | 0 <= u < t
      ensures Deals(stats, turns, P, t % P, u, EntryOf(stats, turns[t])) <==> Collide(stats, turns, P, u, t)
    {
      assert turns[u] == Turn(turns[u].j, turns[u].key) && turns[t] == Turn(turns[t].j, turns[t].key);
    }
  }

  ghost predicate Collide(stats: seq<StatsBucket>, turns: seq<Turn>, P: nat, u: nat, t: nat)
    requires Legal(stats, turns) && u < |turns| && t < |turns| && P > 0
  {
    && turns[u].j < turns[t].j && turns[u].key == turns[t].key
    && Window(stats[turns[u].j]) == Window(stats[turns[t].j])
    && u % P == t % P
  }

  ghost function HeldBy(pm: map<TimeWindow, StatsBucket>): set<Entry> {
    set w, k | w in pm && k in pm[w].counts :: Entry(w, k)
  }

  /** The values of a payload, one for each entry. */
  ghost function Values(pm: map<TimeWindow, StatsBucket>, f: Count -> real): map<Entry, real> {
    map e | e in HeldBy(pm) :: f(pm[e.window].counts[e.key])
  }

  /** What the first n turns bring to payload p, and what of it is lost. */
  ghost function Offered(stats: seq<StatsBucket>, turns: seq<Turn>, n: nat, P: nat, p: nat, f: Count -> real): real
    requires Legal(stats, turns) && n <= |turns| && P > 0
  {
    if n == 0 then 0.0
    else Offered(stats, turns, n - 1, P, p, f) + if (n - 1) % P == p then f(CountOf(stats, turns[n - 1])) else 0.0
  }

  ghost function Missing(stats: seq<StatsBucket>, turns: seq<Turn>, n: nat, P: nat, p: nat, f: Count -> real): real
    requires Legal(stats, turns) && n <= |turns| && P > 0
  {
    if n == 0 then 0.0
    else
      Missing(stats, turns, n - 1, P, p, f) +
      if (n - 1) % P == p && Lost(stats, turns, P, n - 1) then f(CountOf(stats, turns[n - 1])) else 0.0
  }

  lemma EnteredHeld(pm: map<TimeWindow, StatsBucket>, b: StatsBucket, k: string)
    requires k in b.counts
    ensures HeldBy(Entered(pm, b, k)) == HeldBy(pm) + {Entry(Window(b), k)}
    ensures forall e :: e in HeldBy(pm) ==> Entered(pm, b, k)[e.window].counts[e.key] == pm[e.window].counts[e.key]
  {
    var pm', e0 := Entered(pm, b, k), Entry(Window(b), k);
    forall e
      ensures e in HeldBy(pm') <==> e in HeldBy(pm) || e == e0
      ensures e in HeldBy(pm) ==> pm'[e.window].counts[e.key] == pm[e.window].counts[e.key]
    {
      EnteredHolds(pm, b, k, e);
      hide Entered, Holds;
      HeldIsHolds(pm, e);
      HeldIsHolds(pm', e);
    }
  }

  lemma EnteredValues(pm: map<TimeWindow, StatsBucket>, b: StatsBucket, k: string, f: Count -> real)
    requires k in b.counts
    ensures var e := Entry(Window(b), k);
            && (Holds(pm, e) ==> Values(Entered(pm, b, k), f) == Values(pm, f))
            && (!Holds(pm, e) ==> e !in Values(pm, f) && Values(Entered(pm, b, k), f) == Values(pm, f)[e := f(b.counts[k])])
            && HeldBy(Entered(pm, b, k)) == HeldBy(pm) + {e}
  {
    var pm', e := Entered(pm, b, k), Entry(Window(b), k);
    EnteredHeld(pm, b, k);
    EnteredHolds(pm, b, k, e);
    HeldIsHolds(pm, e);
    HeldIsHolds(pm', e);
    hide Entered, Holds, HeldBy;
    if e in HeldBy(pm) {
      assert HeldBy(pm') == HeldBy(pm);
      assert Values(pm', f) == Values(pm, f);
    } else {
      assert Values(pm', f) == Values(pm, f)[e := f(b.counts[k])];
    }
  }

  lemma HeldIsHolds(pm: map<TimeWindow, StatsBucket>, e: Entry)
    ensures e in HeldBy(pm) <==> Holds(pm, e)
  {
    if Holds(pm, e) {
      assert e == Entry(e.window, e.key);
    }
  }

  lemma TotalWith(m: map<Entry, real>, e: Entry, x: real)
    requires e !in m
    ensures Total(m[e := x]) == Total(m) + x
  {
    TotalAdd(m, e, x);
  }

  /** What a payload sums up to, under any reading of its counts, is what was dealt to it without what was lost;
      and it has at most one entry for each of its turns. */
  lemma {:induction false} PayloadConserves(stats: seq<StatsBucket>, turns: seq<Turn>, n: nat, P: nat, p: nat, f: Count -> real)
    requires Legal(stats, turns) && n <= |turns| && p < P
    ensures Total(Values(PayloadMap(stats, turns, n, P, p), f)) + Missing(stats, turns, n, P, p, f) ==
            Offered(stats, turns, n, P, p, f)
    ensures |HeldBy(PayloadMap(stats, turns, n, P, p))| <= Turns(n, P, p)
  {
    if n == 0 {
      assert Values(map[], f) == map[] && HeldBy(map[]) == {};
    } else {
      PayloadConserves(stats, turns, n - 1, P, p, f);
      if (n - 1) % P == p {
        var before, e := PayloadMap(stats, turns, n - 1, P, p), EntryOf(stats, turns[n - 1]);
        PayloadHolds(stats, turns, n - 1, P, p, e);
        assert Holds(before, e) <==> Lost(stats, turns, P, n - 1);
        EnteredValues(before, stats[turns[n - 1].j], turns[n - 1].key, f);
        if !Holds(before, e) {
          TotalWith(Values(before, f), e, f(CountOf(stats, turns[n - 1])));
        }
      }
    }
  }

  // ---------------------------------------------------------------- distributions

  function Distributions(b: StatsBucket, errors: bool): map<string, Distribution> {
    if errors then b.errDistributions else b.distributions
  }

  /** Turn t brings a distribution for `e` to payload p. */
  ghost predicate DealsDistribution(stats: seq<StatsBucket>, turns: seq<Turn>, P: nat, p: nat, t: nat, e: Entry, errors: bool)
    requires Legal(stats, turns) && t < |turns| && P > 0
  {
    Deals(stats, turns, P, p, t, e) && e.key in Distributions(stats[turns[t].j], errors)
  }

  /** The values of the distributions that the first n turns bring. */
  ghost function Gathered(stats: seq<StatsBucket>, turns: seq<Turn>, n: nat, P: nat, p: nat, e: Entry, errors: bool): seq<int>
    requires Legal(stats, turns) && n <= |turns| && P > 0
  {
    if n == 0 then []
    else
      Gathered(stats, turns, n - 1, P, p, e, errors) +
      if DealsDistribution(stats, turns, P, p, n - 1, e, errors)
      then Distributions(stats[turns[n - 1].j], errors)[e.key].summary else []
  }

  ghost predicate HoldsDistribution(pm: map<TimeWindow, StatsBucket>, e: Entry, errors: bool) {
    e.window in pm && e.key in Distributions(pm[e.window], errors)
  }

  lemma EnteredDistribution(pm: map<TimeWindow, StatsBucket>, b: StatsBucket, k: string, e: Entry, errors: bool)
    requires k in b.counts
    ensures var pm', brings := Entered(pm, b, k), e == Entry(Window(b), k) && k in Distributions(b, errors);
            && (HoldsDistribution(pm', e, errors) <==> HoldsDistribution(pm, e, errors) || brings)
            && (HoldsDistribution(pm', e, errors) ==>
                  Distributions(pm'[e.window], errors)[e.key].summary ==
                  (if HoldsDistribution(pm, e, errors) then Distributions(pm[e.window], errors)[e.key].summary else []) +
                  (if brings then Distributions(b, errors)[k].summary else []))
  {
  }

  /** Distributions are not lost: the one a payload holds for an entry has all the values dealt for it. */
  lemma {:induction false} PayloadGathers(stats: seq<StatsBucket>, turns: seq<Turn>, n: nat, P: nat, p: nat, e: Entry, errors: bool)
    requires Legal(stats, turns) && n <= |turns| && P > 0
    ensures var pm := PayloadMap(stats, turns, n, P, p);
            && (HoldsDistribution(pm, e, errors) <==> exists t :: 0 <= t < n && DealsDistribution(stats, turns, P, p, t, e, errors))
            && (if HoldsDistribution(pm, e, errors)
                then Distributions(pm[e.window], errors)[e.key].summary == Gathered(stats, turns, n, P, p, e, errors)
                else Gathered(stats, turns, n, P, p, e, errors) == [])
  {
    hide Entered;
    if n == 0 {
      NoDistribution(e, errors);
    } else {
      PayloadGathers(stats, turns, n - 1, P, p, e, errors);
      EnteredDistribution(PayloadMap(stats, turns, n - 1, P, p), stats[turns[n - 1].j], turns[n - 1].key, e, errors);
      hide HoldsDistribution;
      if DealsDistribution(stats, turns, P, p, n - 1, e, errors) {
        assert HoldsDistribution(PayloadMap(stats, turns, n, P, p), e, errors);
      }
    }
  }

  lemma NoDistribution(e: Entry, errors: bool)
    ensures !HoldsDistribution(map[], e, errors)
  {
  }

  // ---------------------------------------------------------------- distinct windows

  /** With distinct windows no two turns deal the same entry, so nothing is lost. */
  lemma TurnsDiffer(stats: seq<StatsBucket>, turns: seq<Turn>, t: nat, u: nat)
    requires Order(stats, turns) && DistinctWindows(stats) && t < |turns| && u < |turns|
    requires EntryOf(stats, turns[t]) == EntryOf(stats, turns[u])
    ensures t == u
  {
    var i, j := turns[t].j, turns[u].j;
    assert i == j;
    assert turns[t] == turns[u];
  }

  lemma NothingIsLost(stats: seq<StatsBucket>, turns: seq<Turn>, P: nat, t: nat)
    requires Order(stats, turns) && DistinctWindows(stats) && t < |turns| && P > 0
    ensures !Lost(stats, turns, P, t)
  {
    if Lost(stats, turns, P, t) {
      var u :| 0 <= u < t && Deals(stats, turns, P, t % P, u, EntryOf(stats, turns[t]));
      TurnsDiffer(stats, turns, t, u);
    }
  }

  lemma EnteredSame(pm: map<TimeWindow, StatsBucket>, b: StatsBucket, k: string)
    requires k in b.counts && !Holds(pm, Entry(Window(b), k))
    requires forall errors :: !HoldsDistribution(pm, Entry(Window(b), k), errors)
    ensures SameEntry(Entered(pm, b, k)[Window(b)], b, k)
  {
    assert !HoldsDistribution(pm, Entry(Window(b), k), true) && !HoldsDistribution(pm, Entry(Window(b), k), false);
  }

  lemma EnteredKeeps(pm: map<TimeWindow, StatsBucket>, b: StatsBucket, k: string, e: Entry, s: StatsBucket)
    requires k in b.counts && e != Entry(Window(b), k) && e.window in pm && SameEntry(pm[e.window], s, e.key)
    ensures SameEntry(Entered(pm, b, k)[e.window], s, e.key)
  {
  }

  /** With distinct windows an entry leaves unchanged in the payload it was dealt to. */
  lemma {:induction false} PayloadSame(stats: seq<StatsBucket>, turns: seq<Turn>, n: nat, P: nat, t: nat)
    requires Order(stats, turns) && DistinctWindows(stats) && t < n <= |turns| && P > 0
    ensures var pm, e := PayloadMap(stats, turns, n, P, t % P), EntryOf(stats, turns[t]);
            Holds(pm, e) && SameEntry(pm[e.window], stats[turns[t].j], e.key)
    decreases n
  {
    hide Entered, SameEntry, DistinctWindows;
    NothingIsLost(stats, turns, P, t);
    PayloadKeepsFirst(stats, turns, n, P, t);
    var p, e := t % P, EntryOf(stats, turns[t]);
    var before, b, k := PayloadMap(stats, turns, n - 1, P, p), stats[turns[n - 1].j], turns[n - 1].key;
    if t == n - 1 {
      PayloadHolds(stats, turns, n - 1, P, p, e);
      forall errors
        ensures !HoldsDistribution(before, e, errors)
      {
        PayloadGathers(stats, turns, n - 1, P, p, e, errors);
      }
      EnteredSame(before, b, k);
    } else {
      PayloadSame(stats, turns, n - 1, P, t);
      DifferentEntry(stats, turns, t, n - 1);
      EnteredKeeps(before, b, k, e, stats[turns[t].j]);
    }
  }

  lemma DifferentEntry(stats: seq<StatsBucket>, turns: seq<Turn>, t: nat, u: nat)
    requires Order(stats, turns) && DistinctWindows(stats) && t < |turns| && u < |turns| && t != u
    ensures EntryOf(stats, turns[t]) != EntryOf(stats, turns[u])
  {
    if EntryOf(stats, turns[t]) == EntryOf(stats, turns[u]) {
      TurnsDiffer(stats, turns, t, u);
    }
  }

  // ---------------------------------------------------------------- splitting

  /** The number of entries in the buckets, counted bucket by bucket. */
  function EntryCount(stats: seq<StatsBucket>): nat {
    if stats == [] then 0 else EntryCount(stats[..|stats| - 1]) + |stats[|stats| - 1].counts|
  }

  /** The entries of one bucket with some of its keys. */
  ghost function KeysOf(b: StatsBucket, keys: set<string>): set<Entry> {
    set k | k in keys :: Entry(Window(b), k)
  }

  lemma {:induction false} KeysCount(b: StatsBucket, keys: set<string>)
    ensures |KeysOf(b, keys)| == |keys|
    decreases |keys|
  {
    if keys == {} {
      assert KeysOf(b, keys) == {};
    } else {
      var k :| k in keys;
      KeysCount(b, keys - {k});
      assert KeysOf(b, keys) == KeysOf(b, keys - {k}) + {Entry(Window(b), k)};
    }
  }

  lemma EntriesNext(stats: seq<StatsBucket>, i: nat)
    requires i < |stats|
    ensures Entries(stats[..i + 1]) == Entries(stats[..i]) + KeysOf(stats[i], stats[i].counts.Keys)
    ensures EntryCount(stats[..i + 1]) == EntryCount(stats[..i]) + |stats[i].counts|
  {
    var some := stats[..i + 1];
    assert some == stats[..i] + [stats[i]] && some[..i] == stats[..i];
    forall b ensures b in some <==> b in stats[..i] || b == stats[i] {
    }
  }

  lemma {:induction false} EntriesAtMost(stats: seq<StatsBucket>, i: nat)
    requires i <= |stats|
    ensures |Entries(stats[..i])| <= EntryCount(stats[..i])
  {
    hide Entries, KeysOf;
    if i == 0 {
      NoEntries();
    } else {
      EntriesAtMost(stats, i - 1);
      EntriesNext(stats, i - 1);
      var b := stats[i - 1];
      KeysCount(b, b.counts.Keys);
      UnionAtMost(Entries(stats[..i - 1]), KeysOf(b, b.counts.Keys));
    }
  }

  lemma UnionAtMost<T>(a: set<T>, b: set<T>)
    ensures |a + b| <= |a| + |b|
  {
    assert |a + b| == |a| + |b - a|;
    assert b - a <= b;
    SubsetAtMost(b - a, b);
  }

  lemma SubsetAtMost<T>(a: set<T>, b: set<T>)
    requires a <= b
    ensures |a| <= |b|
  {
    assert b == a + (b - a);
  }

  lemma NotEarlier(stats: seq<StatsBucket>, i: nat)
    requires i < |stats| && DistinctWindows(stats)
    ensures Entries(stats[..i]) !! KeysOf(stats[i], stats[i].counts.Keys)
  {
    forall a | a in stats[..i]
      ensures Window(a) != Window(stats[i])
    {
      var j :| 0 <= j < i && stats[j] == a;
    }
  }

  /** Buckets of distinct windows have as many entries as they are counted. */
  lemma {:induction false} EntriesExactly(stats: seq<StatsBucket>, i: nat)
    requires i <= |stats| && DistinctWindows(stats)
    ensures |Entries(stats[..i])| == EntryCount(stats[..i])
  {
    hide Entries, KeysOf, DistinctWindows;
    if i == 0 {
      NoEntries();
    } else {
      EntriesExactly(stats, i - 1);
      EntriesNext(stats, i - 1);
      var b := stats[i - 1];
      KeysCount(b, b.counts.Keys);
      NotEarlier(stats, i - 1);
    }
  }

  lemma NoEntries()
    ensures Entries([]) == {} && EntryCount([]) == 0
  {
  }

  lemma OnePayload(stats: seq<StatsBucket>, max: int)
    requires DistinctWindows(stats) && (max <= 0 || EntryCount(stats) < max)
    ensures Split(stats, [stats], max)
  {
    EntriesAtMost(stats, |stats|);
    assert stats[..|stats|] == stats;
    assert [stats][0] == stats;
    forall b, k | b in stats && k in b.counts
      ensures exists s :: s in stats && Window(s) == Window(b) && SameEntry(b, s, k)
    {
      assert SameEntry(b, b, k);
    }
  }

  /** How many payloads are built. */
  function PayloadCount(stats: seq<StatsBucket>, max: int): int {
    var n := EntryCount(stats);
    if stats == [] then 0
    else if max <= 0 || n < max then 1
    else n / max + if n % max != 0 then 1 else 0
  }

  ghost function AllEntries(payloads: seq<seq<StatsBucket>>): set<Entry> {
    if payloads == [] then {} else AllEntries(payloads[..|payloads| - 1]) + Entries(payloads[|payloads| - 1])
  }

  lemma {:induction false} AllEntriesBounded(payloads: seq<seq<StatsBucket>>, max: nat)
    requires forall p :: 0 <= p < |payloads| ==> |Entries(payloads[p])| <= max
    ensures |AllEntries(payloads)| <= |payloads| * max
  {
    hide Entries;
    if payloads != [] {
      var rest, last := payloads[..|payloads| - 1], payloads[|payloads| - 1];
      AllEntriesBounded(rest, max);
      UnionAtMost(AllEntries(rest), Entries(last));
      assert |payloads| * max == |rest| * max + max;
    }
  }

  lemma {:induction false} AllEntriesHas(payloads: seq<seq<StatsBucket>>, p: nat)
    requires p < |payloads|
    ensures Entries(payloads[p]) <= AllEntries(payloads)
  {
    hide Entries;
    if p < |payloads| - 1 {
      AllEntriesHas(payloads[..|payloads| - 1], p);
    }
  }

  /** No split of buckets with distinct windows and at least one entry has fewer payloads: as few are built as the
      limit allows. */
  lemma FewestPayloads(stats: seq<StatsBucket>, payloads: seq<seq<StatsBucket>>, max: int)
    requires DistinctWindows(stats) && Entries(stats) != {} && max > 0 && Split(stats, payloads, max)
    ensures |payloads| >= PayloadCount(stats, max)
  {
    hide NothingInvented, DistinctWindows, Entries;
    EntriesExactly(stats, |stats|);
    assert stats[..|stats|] == stats;
    AllEntriesBounded(payloads, max);
    forall e | e in Entries(stats)
      ensures e in AllEntries(payloads)
    {
      var p :| 0 <= p < |payloads| && e in Entries(payloads[p]);
      AllEntriesHas(payloads, p);
    }
    SubsetAtMost(Entries(stats), AllEntries(payloads));
    var n := EntryCount(stats);
    assert n <= |payloads| * max;
    if n < max {
      var e :| e in Entries(stats);
      assert exists p :: 0 <= p < |payloads| && e in Entries(payloads[p]);
    } else {
      RoundedUp(n, max, |payloads|);
    }
  }

  lemma RoundedUp(n: nat, max: nat, P: nat)
    requires 0 < max && n <= P * max
    ensures P >= n / max + if n % max != 0 then 1 else 0
  {
    var q, r := n / max, n % max;
    assert n == max * q + r;
    assert max * (q - P) == max * q - P * max;
    Multiple(max, q - P);
  }

  /** Buckets that share a window agree on the key that a count carries; otherwise merging them panics. */
  ghost predicate SameKeys(stats: seq<StatsBucket>) {
    forall a, b, k :: a in stats && b in stats && Window(a) == Window(b) && k in a.counts && k in b.counts ==>
                        a.counts[k].key == b.counts[k].key
  }

  /** The payloads list the payload maps of one order of the turns. */
  ghost predicate DealtIn(stats: seq<StatsBucket>, turns: seq<Turn>, payloads: seq<seq<StatsBucket>>) {
    && Order(stats, turns) && |turns| == EntryCount(stats) && payloads != []
    && (forall p :: 0 <= p < |payloads| ==>
          Lists(PayloadMap(stats, turns, |turns|, |payloads|, p), payloads[p]))
  }

  /** A few buckets leave as they are, in one payload. The entries of more are dealt out round robin, and no
      payload gets more of them than a positive limit. For buckets of distinct windows every entry leaves in
      exactly one payload, unchanged. */
  method BuildPayloads(stats: seq<StatsBucket>, maxEntriesPerPayload: int) returns (payloads: seq<seq<StatsBucket>>)
    requires SameKeys(stats)
    ensures |payloads| == PayloadCount(stats, maxEntriesPerPayload)
    ensures stats != [] && (maxEntriesPerPayload <= 0 || EntryCount(stats) < maxEntriesPerPayload) ==> payloads == [stats]
    ensures 0 < maxEntriesPerPayload <= EntryCount(stats) ==> exists turns :: DealtIn(stats, turns, payloads)
    ensures maxEntriesPerPayload > 0 ==> forall p :: 0 <= p < |payloads| ==> |Entries(payloads[p])| <= maxEntriesPerPayload
    ensures DistinctWindows(stats) ==> Split(stats, payloads, maxEntriesPerPayload)
  {
    hide Split, DistinctWindows, PayloadMap, Order, Legal, Entries, SameKeys, DealtIn;
    if |stats| == 0 {
      payloads := [];
      NoStats(stats, maxEntriesPerPayload);
      return;
    }
    var nbEntries := 0;
    for i := 0 to |stats|
      invariant nbEntries == EntryCount(stats[..i])
    {
      assert stats[..i + 1][..i] == stats[..i];
      nbEntries := nbEntries + |stats[i].counts|;
    }
    assert stats[..|stats|] == stats;
    if maxEntriesPerPayload <= 0 || nbEntries < maxEntriesPerPayload {
      payloads := [stats];
      EntriesAtMost(stats, |stats|);
      if DistinctWindows(stats) {
        OnePayload(stats, maxEntriesPerPayload);
      }
      return;
    }
    var nbPayloads := nbEntries / maxEntriesPerPayload;
    if nbEntries % maxEntriesPerPayload != 0 {
      nbPayloads := nbPayloads + 1;
    }
    EnoughPayloads(nbEntries, maxEntriesPerPayload);
    var maps, turns := DealOut(stats, nbPayloads);
    payloads := [];
    for p := 0 to nbPayloads
      invariant |payloads| == p && forall q :: 0 <= q < p ==> Lists(maps[q], payloads[q])
    {
      PayloadWindows(stats, turns, |turns|, nbPayloads, p);
      var pstats := Listing(maps[p]);
      payloads := payloads + [pstats];
    }
    AllListed(stats, turns, maps, payloads);
    WithinLimit(stats, turns, payloads, maxEntriesPerPayload);
    if DistinctWindows(stats) {
      DealtIsSplit(stats, turns, payloads, maxEntriesPerPayload);
    }
  }

  lemma NoStats(stats: seq<StatsBucket>, max: int)
    requires stats == []
    ensures Split(stats, [], max)
  {
  }

  lemma AllListed(stats: seq<StatsBucket>, turns: seq<Turn>, maps: seq<map<TimeWindow, StatsBucket>>, payloads: seq<seq<StatsBucket>>)
    requires Order(stats, turns) && |turns| == EntryCount(stats) && payloads != [] && |payloads| == |maps|
    requires forall p :: 0 <= p < |maps| ==> maps[p] == PayloadMap(stats, turns, |turns|, |maps|, p) && Lists(maps[p], payloads[p])
    ensures DealtIn(stats, turns, payloads)
  {
    hide Lists, PayloadMap;
  }

  /** Every bucket stands under its own window. */
  ghost predicate Windowed(pm: map<TimeWindow, StatsBucket>) {
    forall w :: w in pm ==> Window(pm[w]) == w
  }

  lemma {:induction false} PayloadWindows(stats: seq<StatsBucket>, turns: seq<Turn>, n: nat, P: nat, p: nat)
    requires Legal(stats, turns) && n <= |turns| && P > 0
    ensures Windowed(PayloadMap(stats, turns, n, P, p))
  {
    hide Entered;
    if n > 0 {
      PayloadWindows(stats, turns, n - 1, P, p);
      EnteredWindows(PayloadMap(stats, turns, n - 1, P, p), stats[turns[n - 1].j], turns[n - 1].key);
    }
  }

  lemma EnteredWindows(pm: map<TimeWindow, StatsBucket>, b: StatsBucket, k: string)
    requires k in b.counts && Windowed(pm)
    ensures Windowed(Entered(pm, b, k))
  {
  }

  lemma {:induction false} MapOfPrefix(stats: seq<StatsBucket>, turns: seq<Turn>, next: Turn, n: nat, P: nat, p: nat)
    requires Legal(stats, turns) && Legal(stats, turns + [next]) && n <= |turns| && P > 0
    ensures PayloadMap(stats, turns + [next], n, P, p) == PayloadMap(stats, turns, n, P, p)
  {
    if n > 0 {
      MapOfPrefix(stats, turns, next, n - 1, P, p);
    }
  }

  /** The turns for the first j buckets and some keys of the next. */
  ghost predicate OrderUpTo(stats: seq<StatsBucket>, turns: seq<Turn>, j: nat, done: set<string>) {
    && Legal(stats, turns)
    && (forall t, u :: 0 <= t < u < |turns| ==> turns[t].j <= turns[u].j && turns[t] != turns[u])
    && (forall i: nat, k :: Turn(i, k) in turns <==> i < |stats| && k in stats[i].counts && (i < j || (i == j && k in done)))
  }

  lemma OrderNext(stats: seq<StatsBucket>, turns: seq<Turn>, j: nat, done: set<string>, k: string)
    requires OrderUpTo(stats, turns, j, done) && j < |stats| && k in stats[j].counts && k !in done
    ensures OrderUpTo(stats, turns + [Turn(j, k)], j, done + {k})
  {
    forall t | 0 <= t < |turns|
      ensures turns[t].j <= j && turns[t] != Turn(j, k)
    {
      assert turns[t] == Turn(turns[t].j, turns[t].key) && turns[t] in turns;
      assert Turn(turns[t].j, turns[t].key) in turns;
    }
  }

  lemma OrderBucket(stats: seq<StatsBucket>, turns: seq<Turn>, j: nat, done: set<string>)
    requires OrderUpTo(stats, turns, j, done) && j < |stats| && done == stats[j].counts.Keys
    ensures OrderUpTo(stats, turns, j + 1, {})
  {
  }

  lemma OrderEnds(stats: seq<StatsBucket>, turns: seq<Turn>)
    requires OrderUpTo(stats, turns, |stats|, {})
    ensures Order(stats, turns)
  {
  }

  lemma OrderStarts(stats: seq<StatsBucket>)
    ensures OrderUpTo(stats, [], 0, {})
  {
  }

  /** The payload maps after all the turns so far. */
  ghost predicate MapsAfter(stats: seq<StatsBucket>, turns: seq<Turn>, maps: seq<map<TimeWindow, StatsBucket>>) {
    && Legal(stats, turns) && |maps| > 0
    && forall p :: 0 <= p < |maps| ==> maps[p] == PayloadMap(stats, turns, |turns|, |maps|, p)
  }

  lemma MapsNext(stats: seq<StatsBucket>, turns: seq<Turn>, maps: seq<map<TimeWindow, StatsBucket>>, next: Turn)
    requires MapsAfter(stats, turns, maps) && Legal(stats, turns + [next])
    ensures next.j < |stats| && next.key in stats[next.j].counts
    ensures var p := |turns| % |maps|;
            MapsAfter(stats, turns + [next], maps[p := Entered(maps[p], stats[next.j], next.key)])
  {
    hide Entered;
    assert (turns + [next])[|turns|] == next;
    forall p | 0 <= p < |maps|
      ensures PayloadMap(stats, turns + [next], |turns|, |maps|, p) == maps[p]
    {
      MapOfPrefix(stats, turns, next, |turns|, |maps|, p);
    }
  }

  /** Dealing the entries of all buckets out to the payload maps in turn, in any order of the keys. */
  method DealOut(stats: seq<StatsBucket>, nbPayloads: nat)
    returns (maps: seq<map<TimeWindow, StatsBucket>>, ghost turns: seq<Turn>)
    requires nbPayloads > 0 && SameKeys(stats)
    ensures |maps| == nbPayloads && Order(stats, turns) && |turns| == EntryCount(stats) && MapsAfter(stats, turns, maps)
  {
    hide Legal, SameKeys, OrderUpTo, Order;
    maps := seq(nbPayloads, _ => map[]);
    turns := [];
    var i := 0;
    OrderStarts(stats);
    UpToIsLegal(stats, turns, 0, {});
    for j := 0 to |stats|
      invariant |maps| == nbPayloads && MapsAfter(stats, turns, maps)
      invariant OrderUpTo(stats, turns, j, {}) && i == |turns| == EntryCount(stats[..j])
    {
      maps, i, turns := DealBucket(stats, j, maps, i, turns);
      assert stats[..j + 1][..j] == stats[..j];
    }
    OrderEnds(stats, turns);
    assert stats[..|stats|] == stats;
  }

  lemma UpToIsLegal(stats: seq<StatsBucket>, turns: seq<Turn>, j: nat, done: set<string>)
    requires OrderUpTo(stats, turns, j, done)
    ensures Legal(stats, turns)
  {
  }

  /** Two counts for one key; the sum is returned, not stored. */
  method MergeCounts(c: Count, c2: Count) returns (merged: Count)
    requires c.key == c2.key
    ensures merged == c.(value := c.value + c2.value)
  {
    merged := c.(value := c.value + c2.value);
  }

  method PlaceDistribution(had: map<string, Distribution>, from: map<string, Distribution>, ekey: string)
    returns (dists: map<string, Distribution>)
    ensures dists == Placed(had, from, ekey)
  {
    dists := had;
    if ekey in from {
      if ekey in dists {
        dists := dists[ekey := dists[ekey].(summary := dists[ekey].summary + from[ekey].summary)];
      } else {
        dists := dists[ekey := from[ekey]];
      }
    }
  }

  /** One turn. */
  method EnterEntry(pm: map<TimeWindow, StatsBucket>, b: StatsBucket, ekey: string)
    returns (pm': map<TimeWindow, StatsBucket>)
    requires ekey in b.counts
    requires Holds(pm, Entry(Window(b), ekey)) ==> pm[Window(b)].counts[ekey].key == b.counts[ekey].key
    ensures pm' == Entered(pm, b, ekey)
  {
    var tw := TimeWindow(b.start, b.duration);
    var newsb := StatsBucket(tw.start, tw.duration, map[], map[], map[]);
    if tw in pm {
      newsb := pm[tw];
    }
    if ekey in newsb.counts {
      var discarded := MergeCounts(newsb.counts[ekey], b.counts[ekey]);
    } else {
      newsb := newsb.(counts := newsb.counts[ekey := b.counts[ekey]]);
    }
    var dists := PlaceDistribution(newsb.distributions, b.distributions, ekey);
    var errDists := PlaceDistribution(newsb.errDistributions, b.errDistributions, ekey);
    newsb := newsb.(distributions := dists, errDistributions := errDists);
    pm' := pm[tw := newsb];
  }

  /** Counts that meet carry the same key. */
  lemma MeetAlike(stats: seq<StatsBucket>, turns: seq<Turn>, maps: seq<map<TimeWindow, StatsBucket>>, p: nat, b: StatsBucket, k: string)
    requires MapsAfter(stats, turns, maps) && p < |maps| && SameKeys(stats) && b in stats && k in b.counts
    ensures Holds(maps[p], Entry(Window(b), k)) ==> maps[p][Window(b)].counts[k].key == b.counts[k].key
  {
    var e := Entry(Window(b), k);
    PayloadHolds(stats, turns, |turns|, |maps|, p, e);
    if Holds(maps[p], e) {
      var t :| 0 <= t < |turns| && Deals(stats, turns, |maps|, p, t, e);
      var u := CountOfTurn(stats, turns, |maps|, t);
    }
  }

  /** The inner loop: the entries of one bucket. */
  method DealBucket(stats: seq<StatsBucket>, j: nat, before: seq<map<TimeWindow, StatsBucket>>, i0: nat, ghost turns0: seq<Turn>)
    returns (maps: seq<map<TimeWindow, StatsBucket>>, i: nat, ghost turns: seq<Turn>)
    requires j < |stats| && SameKeys(stats) && OrderUpTo(stats, turns0, j, {}) && MapsAfter(stats, turns0, before)
    requires |before| > 0 && i0 == |turns0|
    ensures |maps| == |before| && MapsAfter(stats, turns, maps) && OrderUpTo(stats, turns, j + 1, {})
    ensures i == |turns| == i0 + |stats[j].counts|
  {
    hide Legal, SameKeys, OrderUpTo, MapsAfter, Entered, Holds;
    maps, i, turns := before, i0, turns0;
    var b := stats[j];
    var rest := b.counts.Keys;
    ghost var done := {};
    while |rest| > 0
      invariant |maps| == |before| && MapsAfter(stats, turns, maps) && OrderUpTo(stats, turns, j, done)
      invariant done !! rest && done + rest == b.counts.Keys && i == |turns| == i0 + |done|
      decreases |rest|
    {
      ghost var member := HasMember(rest);
      var ekey :| ekey in rest;
      OrderNext(stats, turns, j, done, ekey);
      UpToIsLegal(stats, turns + [Turn(j, ekey)], j, done + {ekey});
      MapsNext(stats, turns, maps, Turn(j, ekey));
      MeetAlike(stats, turns, maps, i % |maps|, b, ekey);
      var pm := EnterEntry(maps[i % |maps|], b, ekey);
      maps := maps[i % |maps| := pm];
      turns := turns + [Turn(j, ekey)];
      done, rest := done + {ekey}, rest - {ekey};
      i := i + 1;
    }
    assert rest == {};
    assert done == b.counts.Keys;
    OrderBucket(stats, turns, j, done);
  }

  lemma ListedEntries(pm: map<TimeWindow, StatsBucket>, payload: seq<StatsBucket>)
    requires Lists(pm, payload) && Windowed(pm)
    ensures Entries(payload) == HeldBy(pm) && DistinctWindows(payload)
  {
    forall e | e in HeldBy(pm)
      ensures e in Entries(payload)
    {
      HeldIsHolds(pm, e);
      var b := pm[e.window];
      assert b in payload;
      var i :| 0 <= i < |payload| && payload[i] == b;
    }
  }

  /** No payload has more entries than the limit, whatever was dealt. */
  lemma WithinLimit(stats: seq<StatsBucket>, turns: seq<Turn>, payloads: seq<seq<StatsBucket>>, max: nat)
    requires DealtIn(stats, turns, payloads) && |turns| <= |payloads| * max
    ensures forall p :: 0 <= p < |payloads| ==> |Entries(payloads[p])| <= max
  {
    hide Lists, Entries, Order, Legal, PayloadMap, HeldBy;
    OrderIsLegal(stats, turns);
    forall p | 0 <= p < |payloads|
      ensures |Entries(payloads[p])| <= max
    {
      PayloadWindows(stats, turns, |turns|, |payloads|, p);
      ListedEntries(PayloadMap(stats, turns, |turns|, |payloads|, p), payloads[p]);
      PayloadConserves(stats, turns, |turns|, |payloads|, p, (c: Count) => c.value);
      TurnsBounded(|turns|, |payloads|, p, max);
    }
  }

  lemma OrderIsLegal(stats: seq<StatsBucket>, turns: seq<Turn>)
    requires Order(stats, turns)
    ensures Legal(stats, turns)
  {
  }

  lemma ListedAreSame(stats: seq<StatsBucket>, turns: seq<Turn>, P: nat, p: nat, payload: seq<StatsBucket>)
    requires Order(stats, turns) && DistinctWindows(stats) && P > 0
    requires Lists(PayloadMap(stats, turns, |turns|, P, p), payload)
    ensures NothingInvented(stats, payload)
  {
    hide SameEntry, Order, DistinctWindows, PayloadMap;
    OrderIsLegal(stats, turns);
    var pm := PayloadMap(stats, turns, |turns|, P, p);
    forall b, k | b in payload && k in b.counts
      ensures exists s :: s in stats && Window(s) == Window(b) && SameEntry(b, s, k)
    {
      var e := Entry(Window(b), k);
      PayloadHolds(stats, turns, |turns|, P, p, e);
      var t :| 0 <= t < |turns| && Deals(stats, turns, P, p, t, e);
      PayloadSame(stats, turns, |turns|, P, t);
      var s := stats[turns[t].j];
      assert s in stats && Window(s) == Window(b) && SameEntry(b, s, k);
    }
  }

  lemma DealtSomewhere(stats: seq<StatsBucket>, turns: seq<Turn>, P: nat, e: Entry) returns (p: nat)
    requires Order(stats, turns) && P > 0 && e in Entries(stats)
    ensures p < P && e in HeldBy(PayloadMap(stats, turns, |turns|, P, p))
  {
    var b, k :| b in stats && k in b.counts && e == Entry(Window(b), k);
    var j :| 0 <= j < |stats| && stats[j] == b;
    assert Turn(j, k) in turns;
    var t :| 0 <= t < |turns| && turns[t] == Turn(j, k);
    p := t % P;
    assert Deals(stats, turns, P, p, t, e);
    PayloadHolds(stats, turns, |turns|, P, p, e);
    HeldIsHolds(PayloadMap(stats, turns, |turns|, P, p), e);
  }

  lemma DealtOnce(stats: seq<StatsBucket>, turns: seq<Turn>, P: nat, p: nat, q: nat, e: Entry)
    requires Order(stats, turns) && DistinctWindows(stats) && P > 0
    requires e in HeldBy(PayloadMap(stats, turns, |turns|, P, p)) && e in HeldBy(PayloadMap(stats, turns, |turns|, P, q))
    ensures p == q
  {
    hide Order, DistinctWindows, HeldBy, PayloadMap;
    OrderIsLegal(stats, turns);
    HeldIsHolds(PayloadMap(stats, turns, |turns|, P, p), e);
    HeldIsHolds(PayloadMap(stats, turns, |turns|, P, q), e);
    PayloadHolds(stats, turns, |turns|, P, p, e);
    PayloadHolds(stats, turns, |turns|, P, q, e);
    var t :| 0 <= t < |turns| && Deals(stats, turns, P, p, t, e);
    var u :| 0 <= u < |turns| && Deals(stats, turns, P, q, u, e);
    TurnsDiffer(stats, turns, t, u);
  }

  /** With distinct windows the payloads that were dealt are a split of the input. */
  lemma DealtIsSplit(stats: seq<StatsBucket>, turns: seq<Turn>, payloads: seq<seq<StatsBucket>>, max: int)
    requires DealtIn(stats, turns, payloads) && DistinctWindows(stats)
    requires max > 0 && |turns| <= |payloads| * max
    ensures Split(stats, payloads, max)
  {
    hide NothingInvented, DistinctWindows, Lists, Holds, Entries, Order, Legal, PayloadMap, HeldBy;
    OrderIsLegal(stats, turns);
    WithinLimit(stats, turns, payloads, max);
    var P := |payloads|;
    forall p | 0 <= p < P
      ensures Entries(payloads[p]) == HeldBy(PayloadMap(stats, turns, |turns|, P, p))
      ensures NothingInvented(stats, payloads[p]) && DistinctWindows(payloads[p])
    {
      PayloadWindows(stats, turns, |turns|, P, p);
      ListedEntries(PayloadMap(stats, turns, |turns|, P, p), payloads[p]);
      ListedAreSame(stats, turns, P, p, payloads[p]);
    }
    forall e | e in Entries(stats)
      ensures exists p :: 0 <= p < |payloads| && e in Entries(payloads[p])
    {
      var p := DealtSomewhere(stats, turns, P, e);
      assert e in Entries(payloads[p]);
    }
    forall p, q | 0 <= p < q < P
      ensures Entries(payloads[p]) !! Entries(payloads[q])
    {
      forall e | e in Entries(payloads[p]) && e in Entries(payloads[q])
        ensures false
      {
        DealtOnce(stats, turns, P, p, q, e);
      }
    }
  }

  /** The buckets of a payload map, one for each window. */
  ghost predicate Lists(pm: map<TimeWindow, StatsBucket>, payload: seq<StatsBucket>) {
    && (forall i, j :: 0 <= i < j < |payload| ==> Window(payload[i]) != Window(payload[j]))
    && (forall b :: b in payload ==> Window(b) in pm && pm[Window(b)] == b)
    && (forall w :: w in pm ==> pm[w] in payload)
  }

  method Listing(pm: map<TimeWindow, StatsBucket>) returns (pstats: seq<StatsBucket>)
    requires Windowed(pm)
    ensures Lists(pm, pstats)
  {
    pstats := [];
    var rest := pm.Keys;
    while |rest| > 0
      invariant rest <= pm.Keys
      invariant forall i, j :: 0 <= i < j < |pstats| ==> Window(pstats[i]) != Window(pstats[j])
      invariant forall b :: b in pstats ==> Window(b) in pm && Window(b) !in rest && pm[Window(b)] == b
      invariant forall w :: w in pm && w !in rest ==> pm[w] in pstats
      decreases |rest|
    {
      ghost var member := HasMember(rest);
      var w :| w in rest;
      rest := rest - {w};
      ghost var before := pstats;
      pstats := pstats + [pm[w]];
      assert forall b :: b in pstats <==> b in before || b == pm[w];
    }
  }


  // ---------------------------------------------------------------- totals over a split

  ghost function BucketValues(b: StatsBucket, f: Count -> real): map<Entry, real> {
    map e | e in KeysOf(b, b.counts.Keys) :: f(b.counts[e.key])
  }

  /** What the first n buckets sum up to, under a reading of the counts. */
  ghost function BucketsTotal(stats: seq<StatsBucket>, n: nat, f: Count -> real): real
    requires n <= |stats|
  {
    if n == 0 then 0.0 else BucketsTotal(stats, n - 1, f) + Total(BucketValues(stats[n - 1], f))
  }

  ghost function StatsTotal(stats: seq<StatsBucket>, f: Count -> real): real {
    BucketsTotal(stats, |stats|, f)
  }

  ghost function PayloadsTotal(payloads: seq<seq<StatsBucket>>, n: nat, f: Count -> real): real
    requires n <= |payloads|
  {
    if n == 0 then 0.0 else PayloadsTotal(payloads, n - 1, f) + StatsTotal(payloads[n - 1], f)
  }

  /** The reading of every entry of the buckets, as one map. */
  ghost function EntryValues(stats: seq<StatsBucket>, n: nat, f: Count -> real): map<Entry, real>
    requires n <= |stats|
  {
    if n == 0 then map[] else EntryValues(stats, n - 1, f) + BucketValues(stats[n - 1], f)
  }

  ghost function AllValues(payloads: seq<seq<StatsBucket>>, n: nat, f: Count -> real): map<Entry, real>
    requires n <= |payloads|
  {
    if n == 0 then map[] else AllValues(payloads, n - 1, f) + EntryValues(payloads[n - 1], |payloads[n - 1]|, f)
  }

  lemma EntryInBucket(b: StatsBucket, e: Entry)
    ensures e in KeysOf(b, b.counts.Keys) <==> e.window == Window(b) && e.key in b.counts
  {
    if e.window == Window(b) && e.key in b.counts {
      assert e == Entry(Window(b), e.key);
    }
  }

  /** Bucket i has the entry. */
  ghost predicate HasEntry(stats: seq<StatsBucket>, i: nat, e: Entry) {
    i < |stats| && e.window == Window(stats[i]) && e.key in stats[i].counts
  }

  lemma {:induction false} EntryValuesHas(stats: seq<StatsBucket>, n: nat, f: Count -> real, e: Entry)
    requires n <= |stats|
    ensures e in EntryValues(stats, n, f) <==> exists i :: 0 <= i < n && HasEntry(stats, i, e)
  {
    if n > 0 {
      EntryValuesHas(stats, n - 1, f, e);
      EntryInBucket(stats[n - 1], e);
      hide KeysOf;
      if HasEntry(stats, n - 1, e) {
        assert e in BucketValues(stats[n - 1], f);
      }
    }
  }

  /** With distinct windows the map has the reading of each count. */
  lemma {:induction false} EntryValueAt(stats: seq<StatsBucket>, n: nat, f: Count -> real, i: nat, e: Entry)
    requires DistinctWindows(stats) && i < n <= |stats| && HasEntry(stats, i, e)
    ensures e in EntryValues(stats, n, f) && EntryValues(stats, n, f)[e] == f(stats[i].counts[e.key])
    decreases n
  {
    EntryInBucket(stats[n - 1], e);
    hide KeysOf;
    if i < n - 1 {
      EntryValueAt(stats, n - 1, f, i, e);
    }
  }

  lemma ValuesApart(stats: seq<StatsBucket>, n: nat, f: Count -> real)
    requires DistinctWindows(stats) && 0 < n <= |stats|
    ensures EntryValues(stats, n - 1, f).Keys !! BucketValues(stats[n - 1], f).Keys
  {
    hide EntryValues, KeysOf;
    var before, last := EntryValues(stats, n - 1, f), BucketValues(stats[n - 1], f);
    forall e | e in before
      ensures e !in last
    {
      EntryValuesHas(stats, n - 1, f, e);
      EntryInBucket(stats[n - 1], e);
    }
  }

  lemma {:induction false} EntryValuesTotal(stats: seq<StatsBucket>, n: nat, f: Count -> real)
    requires DistinctWindows(stats) && n <= |stats|
    ensures Total(EntryValues(stats, n, f)) == BucketsTotal(stats, n, f)
  {
    hide Total, BucketValues, DistinctWindows;
    if n > 0 {
      EntryValuesTotal(stats, n - 1, f);
      ValuesApart(stats, n, f);
      TotalUnion(EntryValues(stats, n - 1, f), BucketValues(stats[n - 1], f));
    } else {
      TotalOfNone();
    }
  }

  lemma TotalOfNone()
    ensures Total<Entry>(map[]) == 0.0
  {
  }

  lemma EntryValuesKeys(stats: seq<StatsBucket>, f: Count -> real, e: Entry)
    ensures e in EntryValues(stats, |stats|, f) <==> e in Entries(stats)
  {
    EntryValuesHas(stats, |stats|, f, e);
    hide EntryValues;
    if e in EntryValues(stats, |stats|, f) {
      var i :| 0 <= i < |stats| && HasEntry(stats, i, e);
      assert stats[i] in stats && e == Entry(Window(stats[i]), e.key);
    }
    if e in Entries(stats) {
      var b, k :| b in stats && k in b.counts && e == Entry(Window(b), k);
      var i :| 0 <= i < |stats| && stats[i] == b;
      assert HasEntry(stats, i, e);
    }
  }

  lemma {:induction false} AllValuesHas(payloads: seq<seq<StatsBucket>>, n: nat, f: Count -> real, e: Entry)
    requires n <= |payloads|
    ensures e in AllValues(payloads, n, f) <==> exists p :: 0 <= p < n && e in Entries(payloads[p])
  {
    hide EntryValues, Entries;
    if n > 0 {
      AllValuesHas(payloads, n - 1, f, e);
      EntryValuesKeys(payloads[n - 1], f, e);
      if e in Entries(payloads[n - 1]) {
        assert e in AllValues(payloads, n, f);
      }
    }
  }

  ghost predicate Apart(payloads: seq<seq<StatsBucket>>) {
    forall p, q :: 0 <= p < q < |payloads| ==> Entries(payloads[p]) !! Entries(payloads[q])
  }

  lemma {:induction false} AllValuesAt(payloads: seq<seq<StatsBucket>>, n: nat, f: Count -> real, p: nat, e: Entry)
    requires p < n <= |payloads| && e in Entries(payloads[p]) && Apart(payloads)
    ensures e in AllValues(payloads, n, f) && e in EntryValues(payloads[p], |payloads[p]|, f)
    ensures AllValues(payloads, n, f)[e] == EntryValues(payloads[p], |payloads[p]|, f)[e]
    decreases n
  {
    hide EntryValues, Entries;
    EntryValuesKeys(payloads[n - 1], f, e);
    if p < n - 1 {
      AllValuesAt(payloads, n - 1, f, p, e);
    }
  }

  lemma ReadingsApart(payloads: seq<seq<StatsBucket>>, n: nat, f: Count -> real)
    requires 0 < n <= |payloads| && Apart(payloads)
    ensures AllValues(payloads, n - 1, f).Keys !! EntryValues(payloads[n - 1], |payloads[n - 1]|, f).Keys
  {
    hide EntryValues, AllValues, Entries;
    var before, last := AllValues(payloads, n - 1, f), EntryValues(payloads[n - 1], |payloads[n - 1]|, f);
    forall e | e in before
      ensures e !in last
    {
      AllValuesHas(payloads, n - 1, f, e);
      EntryValuesKeys(payloads[n - 1], f, e);
    }
  }

  /** The readings of payloads without a common entry sum up to their totals. */
  lemma {:induction false} AllValuesTotal(payloads: seq<seq<StatsBucket>>, n: nat, f: Count -> real)
    requires n <= |payloads| && Apart(payloads) && forall p :: 0 <= p < |payloads| ==> DistinctWindows(payloads[p])
    ensures Total(AllValues(payloads, n, f)) == PayloadsTotal(payloads, n, f)
  {
    hide EntryValues, Apart, DistinctWindows, Total;
    if n > 0 {
      AllValuesTotal(payloads, n - 1, f);
      var last := payloads[n - 1];
      EntryValuesTotal(last, |last|, f);
      ReadingsApart(payloads, n, f);
      TotalUnion(AllValues(payloads, n - 1, f), EntryValues(last, |last|, f));
    } else {
      TotalOfNone();
    }
  }

  lemma SameReading(stats: seq<StatsBucket>, payload: seq<StatsBucket>, e: Entry, f: Count -> real)
    requires DistinctWindows(stats) && DistinctWindows(payload) && NothingInvented(stats, payload) && e in Entries(payload)
    ensures e in EntryValues(stats, |stats|, f) && e in EntryValues(payload, |payload|, f)
    ensures EntryValues(stats, |stats|, f)[e] == EntryValues(payload, |payload|, f)[e]
  {
    hide EntryValues;
    var b, k :| b in payload && k in b.counts && e == Entry(Window(b), k);
    var s :| s in stats && Window(s) == Window(b) && SameEntry(b, s, k);
    var i :| 0 <= i < |payload| && payload[i] == b;
    var j :| 0 <= j < |stats| && stats[j] == s;
    EntryValueAt(payload, |payload|, f, i, e);
    EntryValueAt(stats, |stats|, f, j, e);
  }

  /** A split of buckets with distinct windows sums up to what they do, under any reading of the counts. */
  lemma SplitKeepsTotals(stats: seq<StatsBucket>, payloads: seq<seq<StatsBucket>>, max: int, f: Count -> real)
    requires DistinctWindows(stats) && Split(stats, payloads, max)
    ensures PayloadsTotal(payloads, |payloads|, f) == StatsTotal(stats, f)
  {
    hide EntryValues, AllValues, Entries, DistinctWindows, NothingInvented, Total;
    AllValuesTotal(payloads, |payloads|, f);
    EntryValuesTotal(stats, |stats|, f);
    var all, values := AllValues(payloads, |payloads|, f), EntryValues(stats, |stats|, f);
    forall e
      ensures e in all <==> e in values
      ensures e in all ==> all[e] == values[e]
    {
      SplitValueAt(stats, payloads, max, f, e);
    }
    assert all == values;
  }

  lemma SplitValueAt(stats: seq<StatsBucket>, payloads: seq<seq<StatsBucket>>, max: int, f: Count -> real, e: Entry)
    requires DistinctWindows(stats) && Split(stats, payloads, max)
    ensures var all, values := AllValues(payloads, |payloads|, f), EntryValues(stats, |stats|, f);
            (e in all <==> e in values) && (e in all ==> all[e] == values[e])
  {
    hide EntryValues, AllValues, Entries, DistinctWindows, NothingInvented;
    AllValuesHas(payloads, |payloads|, f, e);
    EntryValuesKeys(stats, f, e);
    if e in AllValues(payloads, |payloads|, f) {
      var p :| 0 <= p < |payloads| && e in Entries(payloads[p]);
      AllValuesAt(payloads, |payloads|, f, p, e);
      SameReading(stats, payloads[p], e, f);
    }
  }
}
