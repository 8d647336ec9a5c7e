/** writer/payload.go: the queueing, retrying payload sender.

    `Step` is one round of the sender's event loop. The time read during a round and the endpoint's answers
    are inputs of the round: `answers(k)` is the answer to the k-th write it makes. The class at the end
    makes the same rounds by updating the sender's fields in place. */
module PayloadSender {
  import opened Options

  datatype Payload = Payload(creationDate: int, bytes: seq<int>)

  datatype Answer = Delivered | Retriable | Fatal

  /** Why a payload is given up: the endpoint refused it, or it is too old, has to make room, or is too big. */
  datatype Reason = Refused | Aged(age: int) | CountReached | BytesReached | TooBig

  datatype Event =
    | SuccessEvent(payload: Payload)
    | FailureEvent(payload: Payload, reason: Reason)
    | RetryEvent(payload: Payload)

  /** What reached the endpoint, and what it answered. */
  datatype Write = Write(payload: Payload, answer: Answer)

  /** A limit that is not positive is switched off. */
  datatype Conf = Conf(maxQueuedPayloads: int, maxQueuedBytes: int, maxAge: int)

  /** The sender's fields. `monitor` is everything sent on the monitor channel so far, `writes` everything sent to
      the endpoint, and `scheduled` says that the backoff timer has a retry pending. */
  datatype State = State(queue: seq<Payload>, queuing: bool, size: int, monitor: seq<Event>, writes: seq<Write>,
                         scheduled: bool, panicked: bool)

  datatype Input =
    | Arrive(payload: Option<Payload>, clock: nat -> int, answer: Answer)
    | Tick(clock: nat -> int, answers: nat -> Answer)
    | Exit(clock: nat -> int, answers: nat -> Answer)

  const IDLE := State([], false, 0, [], [], false, false)

  // ---------------------------------------------------------------- one round

  function Notify(s: State, e: Event): State {
    s.(monitor := s.monitor + [e])
  }

  function RemoveFront(s: State): State
    requires s.queue != []
  {
    s.(queue := s.queue[1..], size := s.size - |s.queue[0].bytes|)
  }

  function Post(s: State, p: Payload, answer: Answer): State {
    s.(writes := s.writes + [Write(p, answer)])
  }

  function DropOldest(s: State, reason: Reason): State
    requires s.queue != []
  {
    Notify(RemoveFront(s), FailureEvent(s.queue[0], reason))
  }

  /** Taking the front off the queue after an answer that settles it. */
  function Sent(s: State, delivered: bool): State
    requires s.queue != []
  {
    var p := s.queue[0];
    RemoveFront(Notify(s, if delivered then SuccessEvent(p) else FailureEvent(p, Refused)))
  }

  predicate TooOld(conf: Conf, p: Payload, now: int) {
    now - p.creationDate >= conf.maxAge
  }

  /** The age of each payload looked at is taken at a new reading of the clock; the next one is the k-th. */
  function DiscardOld(conf: Conf, s: State, clock: nat -> int, k: nat): State
    decreases |s.queue|
  {
    if conf.maxAge <= 0 || s.queue == [] || !TooOld(conf, s.queue[0], clock(k)) then s
    else DiscardOld(conf, DropOldest(s, Aged(clock(k) - s.queue[0].creationDate)), clock, k + 1)
  }

  function EvictForCount(conf: Conf, s: State): State
    decreases |s.queue|
  {
    if conf.maxQueuedPayloads <= 0 || |s.queue| < conf.maxQueuedPayloads then s
    else if s.queue == [] then s.(panicked := true)
    else EvictForCount(conf, DropOldest(s, CountReached))
  }

  function EvictForBytes(conf: Conf, s: State, n: nat): State
    decreases |s.queue|
  {
    if conf.maxQueuedBytes <= 0 || s.size + n <= conf.maxQueuedBytes then s
    else if s.queue == [] then s.(panicked := true)
    else EvictForBytes(conf, DropOldest(s, BytesReached), n)
  }

  /** The state after `enqueue`, and the error if the payload was not accepted. */
  function Enqueue(conf: Conf, s: State, p: Payload, clock: nat -> int): (State, Option<Reason>) {
    var s1 := EvictForCount(conf, DiscardOld(conf, s.(queuing := true), clock, 0));
    if conf.maxQueuedBytes > 0 && |p.bytes| > conf.maxQueuedBytes then (s1, Some(TooBig))
    else
      var s2 := EvictForBytes(conf, s1, |p.bytes|);
      (s2.(queue := s2.queue + [p], size := s2.size + |p.bytes|), None)
  }

  function SendOrQueue(conf: Conf, s: State, p: Payload, clock: nat -> int, answer: Answer): (State, Option<Reason>) {
    if s.queuing then Enqueue(conf, s, p, clock)
    else
      var s1 := Post(s, p, answer);
      match answer
      case Delivered => (Notify(s1, SuccessEvent(p)), None)
      case Fatal => (s1, Some(Refused))
      case Retriable => Enqueue(conf, Notify(s1.(scheduled := true), RetryEvent(p)), p, clock)
  }

  /** Sending the queue from the front; the next write is the k-th. */
  function FlushFrom(s: State, answers: nat -> Answer, k: nat): State
    decreases |s.queue|
  {
    if s.queue == [] then s.(queuing := false, scheduled := false)
    else
      var p := s.queue[0];
      var s1 := Post(s, p, answers(k));
      match answers(k)
      case Retriable => Notify(s1.(scheduled := true), RetryEvent(p))
      case Fatal => FlushFrom(Sent(s1, false), answers, k + 1)
      case Delivered => FlushFrom(Sent(s1, true), answers, k + 1)
  }

  function Flush(conf: Conf, s: State, clock: nat -> int, answers: nat -> Answer): State {
    FlushFrom(DiscardOld(conf, s, clock, 0), answers, 0)
  }

  function Step(conf: Conf, s: State, e: Input): State {
    match e
    case Arrive(None, _, _) => s
    case Arrive(Some(p), clock, answer) =>
      var (s1, err) := SendOrQueue(conf, s, p, clock, answer);
      if err.None? then s1 else Notify(s1, FailureEvent(p, err.value))
    case Tick(clock, answers) => Flush(conf, s.(scheduled := false), clock, answers)
    case Exit(clock, answers) => Flush(conf, s, clock, answers)
  }

  function Run(conf: Conf, inputs: seq<Input>): State {
    if inputs == [] then IDLE else Step(conf, Run(conf, inputs[..|inputs| - 1]), inputs[|inputs| - 1])
  }

  // ---------------------------------------------------------------- what a run is accountable for

  function Arrivals(inputs: seq<Input>): seq<Payload> {
    if inputs == [] then []
    else
      var e := inputs[|inputs| - 1];
      Arrivals(inputs[..|inputs| - 1]) + (if e.Arrive? && e.payload.Some? then [e.payload.value] else [])
  }

  function Successes(monitor: seq<Event>): seq<Payload> {
    if monitor == [] then []
    else
      var e := monitor[|monitor| - 1];
      Successes(monitor[..|monitor| - 1]) + (if e.SuccessEvent? then [e.payload] else [])
  }

  function Failures(monitor: seq<Event>): seq<Payload> {
    if monitor == [] then []
    else
      var e := monitor[|monitor| - 1];
      Failures(monitor[..|monitor| - 1]) + (if e.FailureEvent? then [e.payload] else [])
  }

  lemma NotifyLogs(monitor: seq<Event>, e: Event)
    ensures Successes(monitor + [e]) == Successes(monitor) + (if e.SuccessEvent? then [e.payload] else [])
    ensures Failures(monitor + [e]) == Failures(monitor) + (if e.FailureEvent? then [e.payload] else [])
  {
    assert (monitor + [e])[..|monitor|] == monitor;
  }

  function TotalBytes(queue: seq<Payload>): nat {
    if queue == [] then 0 else |queue[0].bytes| + TotalBytes(queue[1..])
  }

  lemma {:induction false} TotalBytesAppend(queue: seq<Payload>, p: Payload)
    ensures TotalBytes(queue + [p]) == TotalBytes(queue) + |p.bytes|
  {
    if queue == [] {
      assert [] + [p] == [p] && [p][1..] == [];
    } else {
      TotalBytesAppend(queue[1..], p);
      assert (queue + [p])[1..] == queue[1..] + [p];
    }
  }

  /** `a` is what is left of `b` after deleting some elements. */
  predicate Subsequence(a: seq<Payload>, b: seq<Payload>) {
    a == [] ||
    (b != [] && (Subsequence(a, b[..|b| - 1]) ||
                 (a[|a| - 1] == b[|b| - 1] && Subsequence(a[..|a| - 1], b[..|b| - 1]))))
  }

  lemma SubsequenceAppend(a: seq<Payload>, b: seq<Payload>, p: Payload)
    requires Subsequence(a, b)
    ensures Subsequence(a, b + [p]) && Subsequence(a + [p], b + [p])
  {
    assert (a + [p])[..|a|] == a && (b + [p])[..|b|] == b;
  }

  lemma {:induction false} SubsequenceDelete(a: seq<Payload>, i: nat, b: seq<Payload>)
    requires i < |a| && Subsequence(a, b)
    ensures Subsequence(a[..i] + a[i + 1..], b)
    decreases |b|
  {
    var b', a' := b[..|b| - 1], a[..|a| - 1];
    var d := a[..i] + a[i + 1..];
    if Subsequence(a, b') {
      SubsequenceDelete(a, i, b');
    } else if i == |a| - 1 {
      assert d == a';
    } else {
      SubsequenceDelete(a', i, b');
      assert d[..|d| - 1] == a'[..i] + a'[i + 1..];
    }
  }

  lemma {:induction false} SubsequenceSorted(a: seq<Payload>, b: seq<Payload>)
    requires Subsequence(a, b) && Chronological(b)
    ensures Chronological(a)
    ensures a != [] && b != [] ==> a[|a| - 1].creationDate <= b[|b| - 1].creationDate
    decreases |b|
  {
    if a != [] {
      var b', a' := b[..|b| - 1], a[..|a| - 1];
      if Subsequence(a, b') {
        SubsequenceSorted(a, b');
      } else {
        SubsequenceSorted(a', b');
      }
    }
  }

  predicate Chronological(q: seq<Payload>) {
    forall i, j :: 0 <= i < j < |q| ==> q[i].creationDate <= q[j].creationDate
  }

  // ---------------------------------------------------------------- the invariant

  /** Every accepted payload is in exactly one of the success events, the failure events and the queue. */
  predicate Accounted(s: State, arrivals: seq<Payload>) {
    multiset(arrivals) == multiset(Successes(s.monitor)) + multiset(Failures(s.monitor)) + multiset(s.queue)
  }

  /** What was delivered, followed by what is queued, is in arrival order. */
  predicate InOrder(s: State, arrivals: seq<Payload>) {
    Subsequence(Successes(s.monitor) + s.queue, arrivals)
  }

  /** The bookkeeping that holds inside a round as well. */
  predicate Booked(s: State, arrivals: seq<Payload>) {
    !s.panicked && s.size == TotalBytes(s.queue) && Accounted(s, arrivals) && InOrder(s, arrivals)
  }

  predicate WithinLimits(conf: Conf, s: State) {
    && (conf.maxQueuedPayloads > 0 ==> |s.queue| <= conf.maxQueuedPayloads)
    && (conf.maxQueuedBytes > 0 ==> s.size <= conf.maxQueuedBytes)
  }

  /** What holds between rounds: bookkeeping, limits, no queue unless queuing, and a retry pending while queuing. */
  predicate Invariant(conf: Conf, s: State, arrivals: seq<Payload>) {
    Booked(s, arrivals) && WithinLimits(conf, s) && (!s.queuing ==> s.queue == []) && (s.queuing ==> s.scheduled)
  }

  /** Giving up the front of the queue, reported either way, keeps the accounts. */
  lemma FrontAccounted(s: State, s': State, arrivals: seq<Payload>, e: Event)
    requires s.queue != [] && Accounted(s, arrivals) && !e.RetryEvent? && e.payload == s.queue[0]
    requires s'.queue == s.queue[1..] && s'.monitor == s.monitor + [e]
    ensures Accounted(s', arrivals)
  {
    hide Successes, Failures;
    NotifyLogs(s.monitor, e);
    assert s.queue == [s.queue[0]] + s.queue[1..];
  }

  lemma FrontInOrder(s: State, s': State, arrivals: seq<Payload>, e: Event)
    requires s.queue != [] && InOrder(s, arrivals) && !e.RetryEvent? && e.payload == s.queue[0]
    requires s'.queue == s.queue[1..] && s'.monitor == s.monitor + [e]
    ensures InOrder(s', arrivals)
  {
    hide Successes, Failures, Subsequence;
    NotifyLogs(s.monitor, e);
    var done, q := Successes(s.monitor), s.queue;
    if e.SuccessEvent? {
      assert done + [q[0]] + q[1..] == done + q;
    } else {
      assert done + [] == done;
      SubsequenceDelete(done + q, |done|, arrivals);
      assert (done + q)[..|done|] + (done + q)[|done| + 1..] == done + q[1..];
    }
  }

  lemma DropBooked(s: State, reason: Reason, arrivals: seq<Payload>)
    requires s.queue != [] && Booked(s, arrivals)
    ensures var s' := DropOldest(s, reason); Booked(s', arrivals) && s'.size <= s.size && s'.queue == s.queue[1..]
  {
    hide Accounted, InOrder;
    FrontAccounted(s, DropOldest(s, reason), arrivals, FailureEvent(s.queue[0], reason));
    FrontInOrder(s, DropOldest(s, reason), arrivals, FailureEvent(s.queue[0], reason));
  }

  /** Delivering or losing the front of the queue during a flush. */
  lemma SentBooked(s: State, arrivals: seq<Payload>, delivered: bool)
    requires s.queue != [] && Booked(s, arrivals)
    ensures Booked(Sent(s, delivered), arrivals) && Sent(s, delivered).size <= s.size
  {
    hide Accounted, InOrder;
    var p := s.queue[0];
    var e := if delivered then SuccessEvent(p) else FailureEvent(p, Refused);
    FrontAccounted(s, Sent(s, delivered), arrivals, e);
    FrontInOrder(s, Sent(s, delivered), arrivals, e);
  }

  /** The fields a round's evictions do not touch, and the queue they leave: a suffix of what it was. */
  predicate Evicted(s: State, s': State) {
    && s'.queuing == s.queuing && s'.scheduled == s.scheduled
    && |s'.queue| <= |s.queue| && s'.queue == s.queue[|s.queue| - |s'.queue|..] && s'.size <= s.size
  }

  lemma DropEvicted(s: State, reason: Reason, s': State)
    requires s.queue != [] && Evicted(DropOldest(s, reason), s')
    ensures Evicted(s, s')
  {
    var q, r, n := s.queue, s.queue[1..], |s'.queue|;
    assert r[|r| - n..] == q[|q| - n..];
  }

  lemma SameEvicted(s: State)
    ensures Evicted(s, s)
  {
  }

  lemma {:induction false} DiscardBooked(conf: Conf, s: State, clock: nat -> int, k: nat, arrivals: seq<Payload>)
    requires Booked(s, arrivals)
    ensures Booked(DiscardOld(conf, s, clock, k), arrivals) && Evicted(s, DiscardOld(conf, s, clock, k))
    decreases |s.queue|
  {
    hide Booked, Evicted;
    if conf.maxAge > 0 && s.queue != [] && TooOld(conf, s.queue[0], clock(k)) {
      var reason := Aged(clock(k) - s.queue[0].creationDate);
      DropBooked(s, reason, arrivals);
      DiscardBooked(conf, DropOldest(s, reason), clock, k + 1, arrivals);
      DropEvicted(s, reason, DiscardOld(conf, s, clock, k));
    } else {
      SameEvicted(s);
    }
  }

  lemma {:induction false} CountBooked(conf: Conf, s: State, arrivals: seq<Payload>)
    requires Booked(s, arrivals)
    ensures var s' := EvictForCount(conf, s);
            Booked(s', arrivals) && Evicted(s, s') && (conf.maxQueuedPayloads > 0 ==> |s'.queue| < conf.maxQueuedPayloads)
    decreases |s.queue|
  {
    hide Booked, Evicted;
    if conf.maxQueuedPayloads > 0 && |s.queue| >= conf.maxQueuedPayloads {
      DropBooked(s, CountReached, arrivals);
      CountBooked(conf, DropOldest(s, CountReached), arrivals);
      DropEvicted(s, CountReached, EvictForCount(conf, s));
    } else {
      SameEvicted(s);
    }
  }

  /** Only as many payloads are evicted as the limit asks for. */
  lemma {:induction false} CountEvictsNoMore(conf: Conf, s: State)
    requires conf.maxQueuedPayloads > 0
    ensures |EvictForCount(conf, s).queue| == if |s.queue| < conf.maxQueuedPayloads then |s.queue| else conf.maxQueuedPayloads - 1
    decreases |s.queue|
  {
    if |s.queue| >= conf.maxQueuedPayloads {
      CountEvictsNoMore(conf, DropOldest(s, CountReached));
    }
  }

  /** The queue left is the longest one that fits: with the last payload evicted it would not. */
  lemma {:induction false} BytesEvictsNoMore(conf: Conf, s: State, n: nat)
    requires conf.maxQueuedBytes > 0 && s.size == TotalBytes(s.queue) && n <= conf.maxQueuedBytes
    ensures var q := EvictForBytes(conf, s, n).queue;
            && |q| <= |s.queue|
            && TotalBytes(q) + n <= conf.maxQueuedBytes
            && (|q| < |s.queue| ==> TotalBytes(s.queue[|s.queue| - |q| - 1..]) + n > conf.maxQueuedBytes)
    decreases |s.queue|
  {
    if s.size + n > conf.maxQueuedBytes {
      var s1 := DropOldest(s, BytesReached);
      BytesEvictsNoMore(conf, s1, n);
      var q := EvictForBytes(conf, s, n).queue;
      if |q| < |s1.queue| {
        assert s.queue[|s.queue| - |q| - 1..] == s1.queue[|s1.queue| - |q| - 1..];
      } else {
        assert s.queue[|s.queue| - |q| - 1..] == s.queue;
      }
    }
  }

  lemma EmptyHasNoSize(s: State, arrivals: seq<Payload>)
    requires Booked(s, arrivals)
    ensures s.size > 0 ==> s.queue != []
  {
  }

  lemma {:induction false} BytesBooked(conf: Conf, s: State, n: nat, arrivals: seq<Payload>)
    requires Booked(s, arrivals) && (conf.maxQueuedBytes > 0 ==> n <= conf.maxQueuedBytes)
    ensures var s' := EvictForBytes(conf, s, n);
            && Booked(s', arrivals) && Evicted(s, s')
            && (conf.maxQueuedBytes > 0 ==> s'.size + n <= conf.maxQueuedBytes)
    decreases |s.queue|
  {
    hide Booked, Evicted;
    if conf.maxQueuedBytes > 0 && s.size + n > conf.maxQueuedBytes {
      EmptyHasNoSize(s, arrivals);
      DropBooked(s, BytesReached, arrivals);
      BytesBooked(conf, DropOldest(s, BytesReached), n, arrivals);
      DropEvicted(s, BytesReached, EvictForBytes(conf, s, n));
    } else {
      SameEvicted(s);
    }
  }

  lemma SameBooked(s: State, t: State, arrivals: seq<Payload>)
    requires Booked(s, arrivals)
    requires t.queue == s.queue && t.size == s.size && t.monitor == s.monitor && t.panicked == s.panicked
    ensures Booked(t, arrivals)
  {
  }

  /** A payload that enters the back of the queue. */
  lemma PushBooked(s: State, p: Payload, arrivals: seq<Payload>)
    requires Booked(s, arrivals)
    ensures Booked(s.(queue := s.queue + [p], size := s.size + |p.bytes|), arrivals + [p])
  {
    hide Subsequence, Successes, Failures, TotalBytes;
    TotalBytesAppend(s.queue, p);
    var done := Successes(s.monitor);
    SubsequenceAppend(done + s.queue, arrivals, p);
    assert done + s.queue + [p] == done + (s.queue + [p]);
  }

  lemma PlaceBooked(conf: Conf, s: State, p: Payload, arrivals: seq<Payload>)
    requires Booked(s, arrivals) && WithinLimits(conf, s)
    requires conf.maxQueuedPayloads > 0 ==> |s.queue| < conf.maxQueuedPayloads
    requires conf.maxQueuedBytes > 0 ==> |p.bytes| <= conf.maxQueuedBytes
    ensures var s1 := EvictForBytes(conf, s, |p.bytes|);
            var s2 := s1.(queue := s1.queue + [p], size := s1.size + |p.bytes|);
            && Booked(s2, arrivals + [p]) && WithinLimits(conf, s2)
            && s2.queuing == s.queuing && s2.scheduled == s.scheduled
  {
    hide Booked, EvictForBytes;
    BytesBooked(conf, s, |p.bytes|, arrivals);
    PushBooked(EvictForBytes(conf, s, |p.bytes|), p, arrivals);
  }

  /** `enqueue` keeps the bookkeeping and the limits and never reaches its panics; a refused payload is left
      to its caller. */
  lemma EnqueueBooked(conf: Conf, s: State, p: Payload, clock: nat -> int, arrivals: seq<Payload>)
    requires Booked(s, arrivals) && WithinLimits(conf, s)
    ensures var (s', err) := Enqueue(conf, s, p, clock);
            && Booked(s', if err.None? then arrivals + [p] else arrivals) && WithinLimits(conf, s')
            && s'.queuing && s'.scheduled == s.scheduled
  {
    hide Booked, DiscardOld, EvictForCount, EvictForBytes;
    var s0 := s.(queuing := true);
    SameBooked(s, s0, arrivals);
    DiscardBooked(conf, s0, clock, 0, arrivals);
    var s1 := DiscardOld(conf, s0, clock, 0);
    CountBooked(conf, s1, arrivals);
    var s2 := EvictForCount(conf, s1);
    if !(conf.maxQueuedBytes > 0 && |p.bytes| > conf.maxQueuedBytes) {
      PlaceBooked(conf, s2, p, arrivals);
    }
  }

  /** A payload that is reported without entering the queue. */
  lemma ReportedBooked(s: State, p: Payload, e: Event, arrivals: seq<Payload>)
    requires Booked(s, arrivals) && !e.RetryEvent? && e.payload == p && (e.SuccessEvent? ==> s.queue == [])
    ensures Booked(Notify(s, e), arrivals + [p])
  {
    hide Accounted, InOrder, TotalBytes;
    ReportedAccounted(s, p, e, arrivals);
    ReportedInOrder(s, p, e, arrivals);
  }

  lemma ReportedAccounted(s: State, p: Payload, e: Event, arrivals: seq<Payload>)
    requires Accounted(s, arrivals) && !e.RetryEvent? && e.payload == p
    ensures Accounted(Notify(s, e), arrivals + [p])
  {
    hide Successes, Failures;
    NotifyLogs(s.monitor, e);
  }

  lemma ReportedInOrder(s: State, p: Payload, e: Event, arrivals: seq<Payload>)
    requires InOrder(s, arrivals) && !e.RetryEvent? && e.payload == p && (e.SuccessEvent? ==> s.queue == [])
    ensures InOrder(Notify(s, e), arrivals + [p])
  {
    hide Successes, Failures, Subsequence;
    NotifyLogs(s.monitor, e);
    var done := Successes(s.monitor);
    SubsequenceAppend(done + s.queue, arrivals, p);
    if e.SuccessEvent? {
      assert done + [p] + s.queue == done + s.queue + [p];
    } else {
      assert done + [] == done;
    }
  }

  lemma RetryBooked(s: State, p: Payload, arrivals: seq<Payload>)
    requires Booked(s, arrivals)
    ensures Booked(Notify(Post(s, p, Retriable).(scheduled := true), RetryEvent(p)), arrivals)
  {
    hide Subsequence, Successes, Failures, TotalBytes;
    NotifyLogs(s.monitor, RetryEvent(p));
    assert Successes(s.monitor) + [] == Successes(s.monitor) && Failures(s.monitor) + [] == Failures(s.monitor);
  }

  lemma ArriveKeeps(conf: Conf, s: State, p: Payload, clock: nat -> int, answer: Answer, arrivals: seq<Payload>)
    requires Invariant(conf, s, arrivals)
    ensures Invariant(conf, Step(conf, s, Arrive(Some(p), clock, answer)), arrivals + [p])
  {
    hide Booked, Enqueue;
    var (s1, err) := SendOrQueue(conf, s, p, clock, answer);
    SameBooked(s, Post(s, p, answer), arrivals);
    if s.queuing {
      EnqueueBooked(conf, s, p, clock, arrivals);
    } else if answer.Retriable? {
      RetryBooked(s, p, arrivals);
      EnqueueBooked(conf, Notify(Post(s, p, answer).(scheduled := true), RetryEvent(p)), p, clock, arrivals);
    } else if answer.Delivered? {
      ReportedBooked(Post(s, p, answer), p, SuccessEvent(p), arrivals);
    }
    if err.Some? {
      ReportedBooked(s1, p, FailureEvent(p, err.value), arrivals);
    }
  }

  lemma {:induction false} FlushBooked(s: State, answers: nat -> Answer, k: nat, arrivals: seq<Payload>)
    requires Booked(s, arrivals)
    ensures var s' := FlushFrom(s, answers, k);
            && Booked(s', arrivals) && |s'.queue| <= |s.queue| && s'.size <= s.size
            && (s'.queue == [] ==> !s'.queuing)
            && (s'.queue != [] ==> s'.scheduled && s'.queuing == s.queuing)
    decreases |s.queue|
  {
    hide Booked;
    if s.queue != [] {
      if answers(k).Retriable? {
        RetryBooked(s, s.queue[0], arrivals);
      } else {
        var delivered := answers(k).Delivered?;
        var s1 := Post(s, s.queue[0], answers(k));
        SameBooked(s, s1, arrivals);
        SentBooked(s1, arrivals, delivered);
        FlushBooked(Sent(s1, delivered), answers, k + 1, arrivals);
      }
    } else {
      SameBooked(s, s.(queuing := false, scheduled := false), arrivals);
    }
  }

  lemma FlushKeeps(conf: Conf, s: State, scheduled: bool, clock: nat -> int, answers: nat -> Answer, arrivals: seq<Payload>)
    requires Invariant(conf, s, arrivals)
    ensures Invariant(conf, Flush(conf, s.(scheduled := scheduled), clock, answers), arrivals)
  {
    hide Booked, DiscardOld, FlushFrom;
    var s0 := s.(scheduled := scheduled);
    SameBooked(s, s0, arrivals);
    DiscardBooked(conf, s0, clock, 0, arrivals);
    FlushBooked(DiscardOld(conf, s0, clock, 0), answers, 0, arrivals);
  }

  lemma IdleInvariant(conf: Conf)
    ensures Invariant(conf, IDLE, Arrivals([]))
  {
  }

  /** Over every run: each accepted payload is delivered, reported lost or queued, exactly once; deliveries
      are in arrival order; the size is right and the limits hold; the panics are never reached; and
      whenever the sender is queuing a retry is pending. */
  lemma {:induction false} RunKeeps(conf: Conf, inputs: seq<Input>)
    ensures Invariant(conf, Run(conf, inputs), Arrivals(inputs))
  {
    hide Flush, SendOrQueue, Invariant;
    if inputs == [] {
      IdleInvariant(conf);
    } else {
      var before, e := inputs[..|inputs| - 1], inputs[|inputs| - 1];
      RunKeeps(conf, before);
      var s, arrivals := Run(conf, before), Arrivals(before);
      match e
      case Arrive(None, _, _) => assert arrivals + [] == arrivals;
      case Arrive(Some(p), clock, answer) => ArriveKeeps(conf, s, p, clock, answer, arrivals);
      case Tick(clock, answers) =>
        assert arrivals + [] == arrivals;
        FlushKeeps(conf, s, false, clock, answers, arrivals);
      case Exit(clock, answers) =>
        assert arrivals + [] == arrivals && s.(scheduled := s.scheduled) == s;
        FlushKeeps(conf, s, s.scheduled, clock, answers, arrivals);
    }
  }

  // ---------------------------------------------------------------- ticks and ageing

  lemma {:induction false} FlushOutcome(s: State, answers: nat -> Answer, k: nat)
    ensures FlushFrom(s, answers, k).queue == [] <==>
            forall i: nat :: k <= i < k + |s.queue| ==> !answers(i).Retriable?
    decreases |s.queue|
  {
    if s.queue != [] && !answers(k).Retriable? {
      FlushOutcome(Sent(Post(s, s.queue[0], answers(k)), answers(k).Delivered?), answers, k + 1);
    }
  }

  /** A tick leaves the queue empty and queuing off exactly when no write it makes is answered with a
      retriable error. */
  lemma TickOutcome(conf: Conf, s: State, clock: nat -> int, answers: nat -> Answer, arrivals: seq<Payload>)
    requires Invariant(conf, s, arrivals)
    ensures var s' := Step(conf, s, Tick(clock, answers));
            var n := |DiscardOld(conf, s, clock, 0).queue|;
            && ((s'.queue == [] && !s'.queuing) <==> (forall i: nat :: i < n ==> !answers(i).Retriable?))
            && (s'.queue != [] ==> s'.queuing && s'.scheduled)
  {
    hide Booked, DiscardOld, FlushFrom;
    var s0 := s.(scheduled := false);
    SameBooked(s, s0, arrivals);
    DiscardSame(conf, s, s0, clock, 0);
    DiscardBooked(conf, s0, clock, 0, arrivals);
    var s1 := DiscardOld(conf, s0, clock, 0);
    FlushOutcome(s1, answers, 0);
    FlushBooked(s1, answers, 0, arrivals);
  }

  lemma {:induction false} DiscardSame(conf: Conf, s: State, t: State, clock: nat -> int, k: nat)
    requires s.queue == t.queue
    ensures DiscardOld(conf, s, clock, k).queue == DiscardOld(conf, t, clock, k).queue
    decreases |s.queue|
  {
    if conf.maxAge > 0 && s.queue != [] && TooOld(conf, s.queue[0], clock(k)) {
      var reason := Aged(clock(k) - s.queue[0].creationDate);
      DiscardSame(conf, DropOldest(s, reason), DropOldest(t, reason), clock, k + 1);
    }
  }

  /** The clock does not go back. */
  ghost predicate Rising(clock: nat -> int) {
    forall i: nat, j: nat :: i <= j ==> clock(i) <= clock(j)
  }

  /** How many payloads a discard removes: it looks at the clock once for each, and once more. */
  function DiscardCount(conf: Conf, q: seq<Payload>, clock: nat -> int, k: nat): nat {
    if conf.maxAge <= 0 || q == [] || !TooOld(conf, q[0], clock(k)) then 0
    else 1 + DiscardCount(conf, q[1..], clock, k + 1)
  }

  /** `r` is what a discard leaves of `q`. */
  ghost predicate LeftBy(conf: Conf, q: seq<Payload>, r: seq<Payload>, clock: nat -> int, k: nat) {
    var n := |q| - |r|;
    && 0 <= n && r == q[n..]
    && (forall j :: 0 <= j < n ==> TooOld(conf, q[j], clock(k + j)))
    && (n < |q| ==> !TooOld(conf, q[n], clock(k + n)))
  }

  lemma LeftByCons(conf: Conf, p: Payload, q: seq<Payload>, r: seq<Payload>, clock: nat -> int, k: nat)
    requires LeftBy(conf, q, r, clock, k + 1) && TooOld(conf, p, clock(k))
    ensures LeftBy(conf, [p] + q, r, clock, k)
  {
    var n := |q| - |r|;
    var q' := [p] + q;
    assert q'[n + 1..] == q[n..];
    forall j | 0 <= j < n + 1
      ensures TooOld(conf, q'[j], clock(k + j))
    {
      if j > 0 {
        assert TooOld(conf, q[j - 1], clock(k + 1 + (j - 1)));
        assert k + 1 + (j - 1) == k + j;
      }
    }
    assert n < |q| ==> !TooOld(conf, q[n], clock(k + 1 + n)) && k + 1 + n == k + (n + 1);
  }

  /** Discarding removes payloads that were too old when they were looked at, up to one that was not. */
  lemma {:induction false} DiscardPrefix(conf: Conf, s: State, clock: nat -> int, k: nat)
    requires conf.maxAge > 0
    ensures LeftBy(conf, s.queue, DiscardOld(conf, s, clock, k).queue, clock, k)
    ensures |s.queue| - |DiscardOld(conf, s, clock, k).queue| == DiscardCount(conf, s.queue, clock, k)
    decreases |s.queue|
  {
    if s.queue != [] && TooOld(conf, s.queue[0], clock(k)) {
      var rest := s.queue[1..];
      DiscardPrefix(conf, DropOldest(s, Aged(clock(k) - s.queue[0].creationDate)), clock, k + 1);
      hide LeftBy;
      LeftByCons(conf, s.queue[0], rest, DiscardOld(conf, s, clock, k).queue, clock, k);
      assert s.queue == [s.queue[0]] + rest;
    }
  }

  /** Discarding stops at the first payload that is young enough, so, at the time of its last look at the clock, it
      leaves no old one exactly when the old ones are all in front. */
  lemma DiscardLeavesYoung(conf: Conf, s: State, clock: nat -> int)
    requires conf.maxAge > 0 && Rising(clock)
    ensures var q, r := s.queue, DiscardOld(conf, s, clock, 0).queue;
            var now := clock(DiscardCount(conf, s.queue, clock, 0));
            (forall p :: p in r ==> !TooOld(conf, p, now)) <==>
            (forall i, j :: 0 <= i < j < |q| && TooOld(conf, q[j], now) ==> TooOld(conf, q[i], now))
  {
    DiscardPrefix(conf, s, clock, 0);
    hide DiscardOld, DiscardCount, TooOld;
    var q, r := s.queue, DiscardOld(conf, s, clock, 0).queue;
    var n: nat := |q| - |r|;
    var now := clock(n);
    AllOlder(conf, q, r, clock);
    hide LeftBy;
    OldInFront(conf, q, n, now);
  }

  /** What is discarded is too old at the last look, and what is left is young if its first payload is. */
  lemma AllOlder(conf: Conf, q: seq<Payload>, r: seq<Payload>, clock: nat -> int)
    requires LeftBy(conf, q, r, clock, 0) && Rising(clock)
    ensures |r| <= |q| && r == q[|q| - |r|..]
    ensures var n: nat := |q| - |r|;
            && (forall j :: 0 <= j < n ==> TooOld(conf, q[j], clock(n)))
            && (r != [] ==> !TooOld(conf, q[n], clock(n)))
  {
    var n: nat := |q| - |r|;
    forall j | 0 <= j < n
      ensures TooOld(conf, q[j], clock(n))
    {
      assert clock(0 + j) <= clock(n);
    }
  }

  lemma OldInFront(conf: Conf, q: seq<Payload>, n: nat, now: int)
    requires n <= |q| && (forall j :: 0 <= j < n ==> TooOld(conf, q[j], now))
    requires n < |q| ==> !TooOld(conf, q[n], now)
    ensures (forall p :: p in q[n..] ==> !TooOld(conf, p, now)) <==>
            (forall i, j :: 0 <= i < j < |q| && TooOld(conf, q[j], now) ==> TooOld(conf, q[i], now))
  {
    hide TooOld;
    if forall i, j :: 0 <= i < j < |q| && TooOld(conf, q[j], now) ==> TooOld(conf, q[i], now) {
      forall p | p in q[n..]
        ensures !TooOld(conf, p, now)
      {
        var j :| n <= j < |q| && q[j] == p;
      }
    } else {
      var i, j :| 0 <= i < j < |q| && TooOld(conf, q[j], now) && !TooOld(conf, q[i], now);
      assert q[j] == q[n..][j - n];
    }
  }

  /** If payloads arrive in order of creation, then over every run no payload older than the limit survives
      a discard. */
  lemma NoOldPayloadSurvives(conf: Conf, inputs: seq<Input>, clock: nat -> int)
    requires conf.maxAge > 0 && Chronological(Arrivals(inputs)) && Rising(clock)
    ensures var now := clock(DiscardCount(conf, Run(conf, inputs).queue, clock, 0));
            forall p :: p in DiscardOld(conf, Run(conf, inputs), clock, 0).queue ==> now - p.creationDate < conf.maxAge
  {
    hide Run, Step, DiscardOld, DiscardCount, Successes, Failures, Subsequence, Arrivals;
    var s := Run(conf, inputs);
    RunKeeps(conf, inputs);
    var done := Successes(s.monitor);
    SubsequenceSorted(done + s.queue, Arrivals(inputs));
    forall i, j | 0 <= i < j < |s.queue|
      ensures s.queue[i].creationDate <= s.queue[j].creationDate
    {
      assert (done + s.queue)[|done| + i] == s.queue[i] && (done + s.queue)[|done| + j] == s.queue[j];
    }
    DiscardLeavesYoung(conf, s, clock);
  }

  // ---------------------------------------------------------------- what the monitor is told

  /** What is to be reported of a write. */
  function Outcome(w: Write): Event {
    match w.answer
    case Delivered => SuccessEvent(w.payload)
    case Retriable => RetryEvent(w.payload)
    case Fatal => FailureEvent(w.payload, Refused)
  }

  function Outcomes(writes: seq<Write>): seq<Event> {
    if writes == [] then [] else Outcomes(writes[..|writes| - 1]) + [Outcome(writes[|writes| - 1])]
  }

  predicate GivenUp(e: Event) {
    e.FailureEvent? && e.reason != Refused
  }

  /** The events but for those of payloads that the sender gave up itself. */
  function Heard(monitor: seq<Event>): seq<Event> {
    if monitor == [] then []
    else
      var e := monitor[|monitor| - 1];
      Heard(monitor[..|monitor| - 1]) + (if GivenUp(e) then [] else [e])
  }

  /** A payload may be given up for this reason. */
  predicate Justified(conf: Conf, p: Payload, reason: Reason) {
    match reason
    case Refused => true
    case Aged(age) => 0 < conf.maxAge <= age
    case CountReached => conf.maxQueuedPayloads > 0
    case BytesReached => conf.maxQueuedBytes > 0
    case TooBig => 0 < conf.maxQueuedBytes < |p.bytes|
  }

  /** Success, retry and refusal are what the endpoint answered, write by write, and all other failures have a reason
      that the limits give. */
  ghost predicate Truthful(conf: Conf, s: State) {
    && Heard(s.monitor) == Outcomes(s.writes)
    && (forall i :: 0 <= i < |s.monitor| && s.monitor[i].FailureEvent? ==>
          Justified(conf, s.monitor[i].payload, s.monitor[i].reason))
  }

  lemma HeardNext(monitor: seq<Event>, e: Event)
    ensures Heard(monitor + [e]) == Heard(monitor) + (if GivenUp(e) then [] else [e])
  {
    assert (monitor + [e])[..|monitor|] == monitor;
  }

  lemma OutcomesNext(writes: seq<Write>, w: Write)
    ensures Outcomes(writes + [w]) == Outcomes(writes) + [Outcome(w)]
  {
    assert (writes + [w])[..|writes|] == writes;
  }

  /** Giving up a payload for a good reason. */
  lemma DropTruthful(conf: Conf, s: State, s': State, p: Payload, reason: Reason)
    requires Truthful(conf, s) && reason != Refused && Justified(conf, p, reason)
    requires s'.writes == s.writes && s'.monitor == s.monitor + [FailureEvent(p, reason)]
    ensures Truthful(conf, s')
  {
    hide Heard, Outcomes, Justified;
    HeardNext(s.monitor, FailureEvent(p, reason));
    assert Heard(s.monitor) + [] == Heard(s.monitor);
  }

  /** Reporting a write as it was answered. */
  lemma WriteTruthful(conf: Conf, s: State, s': State, w: Write)
    requires Truthful(conf, s)
    requires s'.writes == s.writes + [w] && s'.monitor == s.monitor + [Outcome(w)]
    ensures Truthful(conf, s')
  {
    hide Heard, Outcomes;
    HeardNext(s.monitor, Outcome(w));
    OutcomesNext(s.writes, w);
  }

  lemma {:induction false} DiscardTruthful(conf: Conf, s: State, clock: nat -> int, k: nat)
    requires Truthful(conf, s)
    ensures Truthful(conf, DiscardOld(conf, s, clock, k))
    decreases |s.queue|
  {
    hide Truthful;
    if conf.maxAge > 0 && s.queue != [] && TooOld(conf, s.queue[0], clock(k)) {
      var reason := Aged(clock(k) - s.queue[0].creationDate);
      DropTruthful(conf, s, DropOldest(s, reason), s.queue[0], reason);
      DiscardTruthful(conf, DropOldest(s, reason), clock, k + 1);
    }
  }

  lemma {:induction false} CountTruthful(conf: Conf, s: State)
    requires Truthful(conf, s)
    ensures Truthful(conf, EvictForCount(conf, s))
    decreases |s.queue|
  {
    if conf.maxQueuedPayloads > 0 && |s.queue| >= conf.maxQueuedPayloads && s.queue != [] {
      hide Truthful;
      DropTruthful(conf, s, DropOldest(s, CountReached), s.queue[0], CountReached);
      CountTruthful(conf, DropOldest(s, CountReached));
    }
  }

  lemma {:induction false} BytesTruthful(conf: Conf, s: State, n: nat)
    requires Truthful(conf, s)
    ensures Truthful(conf, EvictForBytes(conf, s, n))
    decreases |s.queue|
  {
    if conf.maxQueuedBytes > 0 && s.size + n > conf.maxQueuedBytes && s.queue != [] {
      hide Truthful;
      DropTruthful(conf, s, DropOldest(s, BytesReached), s.queue[0], BytesReached);
      BytesTruthful(conf, DropOldest(s, BytesReached), n);
    }
  }

  lemma EnqueueTruthful(conf: Conf, s: State, p: Payload, clock: nat -> int)
    requires Truthful(conf, s)
    ensures var (s', err) := Enqueue(conf, s, p, clock);
            Truthful(conf, s') && (err.Some? ==> err.value == TooBig && Justified(conf, p, TooBig))
  {
    hide Heard, Outcomes, DiscardOld, EvictForCount, EvictForBytes;
    var s0 := s.(queuing := true);
    DiscardTruthful(conf, s0, clock, 0);
    var s1 := DiscardOld(conf, s0, clock, 0);
    CountTruthful(conf, s1);
    BytesTruthful(conf, EvictForCount(conf, s1), |p.bytes|);
  }

  lemma ArriveTruthful(conf: Conf, s: State, p: Payload, clock: nat -> int, answer: Answer)
    requires Truthful(conf, s)
    ensures Truthful(conf, Step(conf, s, Arrive(Some(p), clock, answer)))
  {
    hide Truthful, Enqueue;
    var (s1, err) := SendOrQueue(conf, s, p, clock, answer);
    var s0 := Post(s, p, answer);
    if s.queuing {
      EnqueueTruthful(conf, s, p, clock);
    } else if answer.Retriable? {
      var retry := Notify(s0.(scheduled := true), RetryEvent(p));
      WriteTruthful(conf, s, retry, Write(p, answer));
      EnqueueTruthful(conf, retry, p, clock);
    } else {
      WriteTruthful(conf, s, Notify(s0, Outcome(Write(p, answer))), Write(p, answer));
    }
    if err.Some? && (s.queuing || answer.Retriable?) {
      DropTruthful(conf, s1, Notify(s1, FailureEvent(p, err.value)), p, err.value);
    }
  }

  lemma {:induction false} FlushTruthful(conf: Conf, s: State, answers: nat -> Answer, k: nat)
    requires Truthful(conf, s)
    ensures Truthful(conf, FlushFrom(s, answers, k))
    decreases |s.queue|
  {
    if s.queue != [] {
      hide Truthful;
      var w := Write(s.queue[0], answers(k));
      var s1 := Post(s, s.queue[0], answers(k));
      if answers(k).Retriable? {
        WriteTruthful(conf, s, FlushFrom(s, answers, k), w);
      } else {
        var s2 := Sent(s1, answers(k).Delivered?);
        WriteTruthful(conf, s, s2, w);
        FlushTruthful(conf, s2, answers, k + 1);
      }
    }
  }

  /** Over every run: what is reported as delivered, refused or to be retried is what the endpoint answered, write by
      write and in order; every other failure is a payload too old, too big, or giving way to a newer one. */
  lemma {:induction false} RunTruthful(conf: Conf, inputs: seq<Input>)
    ensures Truthful(conf, Run(conf, inputs))
  {
    if inputs != [] {
      var before, e := inputs[..|inputs| - 1], inputs[|inputs| - 1];
      RunTruthful(conf, before);
      var s := Run(conf, before);
      hide Heard, Outcomes, DiscardOld, FlushFrom, SendOrQueue;
      match e
      case Arrive(None, _, _) =>
      case Arrive(Some(p), clock, answer) => ArriveTruthful(conf, s, p, clock, answer);
      case Tick(clock, answers) =>
        DiscardTruthful(conf, s.(scheduled := false), clock, 0);
        FlushTruthful(conf, DiscardOld(conf, s.(scheduled := false), clock, 0), answers, 0);
      case Exit(clock, answers) =>
        DiscardTruthful(conf, s, clock, 0);
        FlushTruthful(conf, DiscardOld(conf, s, clock, 0), answers, 0);
    }
  }

  // ---------------------------------------------------------------- rounds without recursion

  /** The first n payloads written in a flush, with their answers. */
  function Written(q: seq<Payload>, answers: nat -> Answer, k: nat, n: nat): seq<Write>
    requires n <= |q|
  {
    if n == 0 then [] else Written(q, answers, k, n - 1) + [Write(q[n - 1], answers(k + n - 1))]
  }

  /** The answers up to the m-th settle a payload each, and the m-th asks for a retry, if there is another payload. */
  ghost predicate StopsAt(q: seq<Payload>, answers: nat -> Answer, k: nat, m: nat) {
    && m <= |q| && (forall i: nat :: k <= i < k + m ==> !answers(i).Retriable?)
    && (m < |q| ==> answers(k + m).Retriable?)
  }

  lemma {:induction false} WrittenFirst(q: seq<Payload>, answers: nat -> Answer, k: nat, n: nat)
    requires 0 < n <= |q|
    ensures Written(q, answers, k, n) == [Write(q[0], answers(k))] + Written(q[1..], answers, k + 1, n - 1)
  {
    if n > 1 {
      WrittenFirst(q, answers, k, n - 1);
      assert k + 1 + (n - 1) - 1 == k + n - 1;
    }
  }

  lemma {:induction false} OutcomesFirst(w: Write, writes: seq<Write>)
    ensures Outcomes([w] + writes) == [Outcome(w)] + Outcomes(writes)
  {
    if writes == [] {
      assert [w] + writes == [w] && [w][..0] == [];
    } else {
      var n := |writes| - 1;
      OutcomesFirst(w, writes[..n]);
      assert ([w] + writes)[..n + 1] == [w] + writes[..n];
    }
  }

  /** `s'` is what a flush makes of `s` if it stops at the m-th payload. */
  ghost predicate Flushed(s: State, s': State, answers: nat -> Answer, k: nat, m: nat) {
    && StopsAt(s.queue, answers, k, m)
    && var ws := Written(s.queue, answers, k, if m < |s.queue| then m + 1 else m);
    && s'.queue == s.queue[m..] && s'.writes == s.writes + ws && s'.monitor == s.monitor + Outcomes(ws)
    && s'.scheduled == (m < |s.queue|) && s'.queuing == (s.queuing && m < |s.queue|)
  }

  /** A flush writes payloads from the front until one is answered with a retriable error, reports each as it was
      answered, and keeps that one and those behind it. */
  lemma {:induction false} FlushWrites(s: State, answers: nat -> Answer, k: nat) returns (m: nat)
    ensures Flushed(s, FlushFrom(s, answers, k), answers, k, m)
    decreases |s.queue|
  {
    hide Flushed, Outcomes, Written;
    if s.queue == [] {
      m := 0;
      NothingFlushed(s, answers, k);
    } else if answers(k).Retriable? {
      m := 0;
      RetryFlushed(s, answers, k);
    } else {
      var s1 := Sent(Post(s, s.queue[0], answers(k)), answers(k).Delivered?);
      var m1 := FlushWrites(s1, answers, k + 1);
      m := m1 + 1;
      FlushedMore(s, FlushFrom(s, answers, k), answers, k, m1);
    }
  }

  lemma NothingFlushed(s: State, answers: nat -> Answer, k: nat)
    requires s.queue == []
    ensures Flushed(s, FlushFrom(s, answers, k), answers, k, 0)
  {
    NoOutcomes();
    hide Outcomes;
    assert Written(s.queue, answers, k, 0) == [];
    assert s.writes + [] == s.writes && s.monitor + [] == s.monitor;
  }

  lemma RetryFlushed(s: State, answers: nat -> Answer, k: nat)
    requires s.queue != [] && answers(k).Retriable?
    ensures Flushed(s, FlushFrom(s, answers, k), answers, k, 0)
  {
    OneWritten(s, answers, k);
    hide Outcomes, Written;
    assert s.queue[0..] == s.queue && k + 0 == k;
  }

  lemma FlushedMore(s: State, s': State, answers: nat -> Answer, k: nat, m: nat)
    requires s.queue != [] && !answers(k).Retriable?
    requires Flushed(Sent(Post(s, s.queue[0], answers(k)), answers(k).Delivered?), s', answers, k + 1, m)
    ensures Flushed(s, s', answers, k, m + 1)
  {
    hide Written, Outcomes, StopsAt;
    var q, w := s.queue, Write(s.queue[0], answers(k));
    var s1 := Sent(Post(s, q[0], answers(k)), answers(k).Delivered?);
    assert s1.queue == q[1..];
    StopsLater(q, answers, k, m);
    InRange(q, answers, k, m + 1);
    var n := if m < |s1.queue| then m + 1 else m;
    WrittenFirst(q, answers, k, n + 1);
    OutcomesFirst(w, Written(s1.queue, answers, k + 1, n));
    assert q[1..][m..] == q[m + 1..];
    assert s.writes + [w] + Written(q[1..], answers, k + 1, n) == s.writes + Written(q, answers, k, n + 1);
    assert s.monitor + [Outcome(w)] + Outcomes(Written(q[1..], answers, k + 1, n)) ==
           s.monitor + Outcomes(Written(q, answers, k, n + 1));
  }

  lemma InRange(q: seq<Payload>, answers: nat -> Answer, k: nat, m: nat)
    requires StopsAt(q, answers, k, m)
    ensures m <= |q|
  {
  }

  lemma NoOutcomes()
    ensures Outcomes([]) == []
  {
  }

  lemma OneWritten(s: State, answers: nat -> Answer, k: nat)
    requires s.queue != []
    ensures Written(s.queue, answers, k, 1) == [Write(s.queue[0], answers(k))]
    ensures Outcomes(Written(s.queue, answers, k, 1)) == [Outcome(Write(s.queue[0], answers(k)))]
  {
    assert Written(s.queue, answers, k, 0) == [];
  }

  lemma StopsLater(q: seq<Payload>, answers: nat -> Answer, k: nat, m: nat)
    requires q != [] && !answers(k).Retriable? && StopsAt(q[1..], answers, k + 1, m)
    ensures StopsAt(q, answers, k, m + 1)
  {
    assert k + (m + 1) == k + 1 + m;
  }

  /** The reports of payloads discarded for their age, each with a new look at the clock. */
  function AgedOut(q: seq<Payload>, clock: nat -> int, k: nat, n: nat): seq<Event>
    requires n <= |q|
  {
    if n == 0 then []
    else AgedOut(q, clock, k, n - 1) + [FailureEvent(q[n - 1], Aged(clock(k + n - 1) - q[n - 1].creationDate))]
  }

  lemma {:induction false} AgedOutFirst(q: seq<Payload>, clock: nat -> int, k: nat, n: nat)
    requires 0 < n <= |q|
    ensures AgedOut(q, clock, k, n) ==
            [FailureEvent(q[0], Aged(clock(k) - q[0].creationDate))] + AgedOut(q[1..], clock, k + 1, n - 1)
  {
    if n > 1 {
      AgedOutFirst(q, clock, k, n - 1);
      assert k + 1 + (n - 1) - 1 == k + n - 1;
    }
  }

  /** A discard reports the payloads it takes off the front, and touches nothing else. */
  lemma {:induction false} DiscardReports(conf: Conf, s: State, clock: nat -> int, k: nat)
    ensures var n, s' := DiscardCount(conf, s.queue, clock, k), DiscardOld(conf, s, clock, k);
            && n <= |s.queue| && s'.queue == s.queue[n..] && s'.monitor == s.monitor + AgedOut(s.queue, clock, k, n)
            && s'.writes == s.writes && s'.queuing == s.queuing && s'.scheduled == s.scheduled
    decreases |s.queue|
  {
    hide AgedOut, TooOld;
    if conf.maxAge > 0 && s.queue != [] && TooOld(conf, s.queue[0], clock(k)) {
      var e := Aged(clock(k) - s.queue[0].creationDate);
      DiscardReports(conf, DropOldest(s, e), clock, k + 1);
      var n := DiscardCount(conf, s.queue[1..], clock, k + 1);
      hide DiscardOld, DiscardCount;
      AgedOutFirst(s.queue, clock, k, n + 1);
      Behind(s.queue, n);
      Reported(s.monitor, FailureEvent(s.queue[0], e), AgedOut(s.queue[1..], clock, k + 1, n));
    } else {
      NoneAged(s.queue, clock, k);
    }
  }

  lemma Behind(q: seq<Payload>, n: nat)
    requires n < |q|
    ensures q[1..][n..] == q[n + 1..]
  {
  }

  lemma Reported(log: seq<Event>, e: Event, more: seq<Event>)
    ensures log + [e] + more == log + ([e] + more)
  {
  }

  lemma NoneAged(q: seq<Payload>, clock: nat -> int, k: nat)
    ensures AgedOut(q, clock, k, 0) == [] && q[0..] == q
  {
  }

  /** A tick, all in all: too old payloads are given up, and the others written from the front. */
  lemma TickWrites(conf: Conf, s: State, clock: nat -> int, answers: nat -> Answer) returns (m: nat)
    ensures var n := DiscardCount(conf, s.queue, clock, 0);
            && n <= |s.queue|
            && Flushed(s.(queue := s.queue[n..], monitor := s.monitor + AgedOut(s.queue, clock, 0, n)),
                       Step(conf, s, Tick(clock, answers)), answers, 0, m)
  {
    hide DiscardCount, DiscardOld, FlushFrom, AgedOut, Written, Outcomes, StopsAt;
    var s0 := s.(scheduled := false);
    DiscardReports(conf, s0, clock, 0);
    m := FlushWrites(DiscardOld(conf, s0, clock, 0), answers, 0);
  }

  /** The last flush does the same. */
  lemma ExitWrites(conf: Conf, s: State, clock: nat -> int, answers: nat -> Answer) returns (m: nat)
    ensures var n := DiscardCount(conf, s.queue, clock, 0);
            && n <= |s.queue|
            && Flushed(s.(queue := s.queue[n..], monitor := s.monitor + AgedOut(s.queue, clock, 0, n)),
                       Step(conf, s, Exit(clock, answers)), answers, 0, m)
  {
    hide DiscardCount, DiscardOld, FlushFrom, AgedOut, Written, Outcomes, StopsAt;
    DiscardReports(conf, s, clock, 0);
    m := FlushWrites(DiscardOld(conf, s, clock, 0), answers, 0);
  }

  function Dropped(q: seq<Payload>, n: nat, reason: Reason): seq<Event>
    requires n <= |q|
  {
    if n == 0 then [] else Dropped(q, n - 1, reason) + [FailureEvent(q[n - 1], reason)]
  }

  lemma {:induction false} DroppedFirst(q: seq<Payload>, n: nat, reason: Reason)
    requires 0 < n <= |q|
    ensures Dropped(q, n, reason) == [FailureEvent(q[0], reason)] + Dropped(q[1..], n - 1, reason)
  {
    if n > 1 {
      DroppedFirst(q, n - 1, reason);
    }
  }

  lemma {:induction false} CountReports(conf: Conf, s: State) returns (n: nat)
    ensures n == CountExcess(conf, |s.queue|)
    ensures var s' := EvictForCount(conf, s);
            && n <= |s.queue| && s'.queue == s.queue[n..] && s'.monitor == s.monitor + Dropped(s.queue, n, CountReached)
            && s'.writes == s.writes && s'.queuing == s.queuing && s'.scheduled == s.scheduled
    decreases |s.queue|
  {
    if conf.maxQueuedPayloads > 0 && |s.queue| >= conf.maxQueuedPayloads {
      var n1 := CountReports(conf, DropOldest(s, CountReached));
      n := n1 + 1;
      DroppedFirst(s.queue, n, CountReached);
      assert s.queue[1..][n1..] == s.queue[n..];
    } else {
      n := 0;
    }
  }

  /** Evicting for bytes gives up no more payloads than needed. */
  ghost predicate JustFits(conf: Conf, q: seq<Payload>, size: nat, n: nat) {
    && n <= |q|
    && (conf.maxQueuedBytes <= 0 ==> n == 0)
    && (conf.maxQueuedBytes > 0 ==> TotalBytes(q[n..]) + size <= conf.maxQueuedBytes)
    && (n > 0 ==> TotalBytes(q[n - 1..]) + size > conf.maxQueuedBytes)
  }

  lemma {:induction false} BytesReports(conf: Conf, s: State, size: nat) returns (n: nat)
    requires s.size == TotalBytes(s.queue) && (conf.maxQueuedBytes > 0 ==> size <= conf.maxQueuedBytes)
    ensures JustFits(conf, s.queue, size, n)
    ensures var s' := EvictForBytes(conf, s, size);
            && s'.queue == s.queue[n..] && s'.monitor == s.monitor + Dropped(s.queue, n, BytesReached)
            && s'.writes == s.writes && s'.queuing == s.queuing && s'.scheduled == s.scheduled
    decreases |s.queue|
  {
    if conf.maxQueuedBytes > 0 && s.size + size > conf.maxQueuedBytes {
      var n1 := BytesReports(conf, DropOldest(s, BytesReached), size);
      n := n1 + 1;
      DroppedFirst(s.queue, n, BytesReached);
      assert s.queue[1..][n1..] == s.queue[n..];
      if n1 > 0 {
        assert s.queue[1..][n1 - 1..] == s.queue[n - 1..];
      } else {
        assert s.queue[0..] == s.queue;
      }
    } else {
      n := 0;
      assert s.queue[0..] == s.queue;
    }
  }

  /** Queueing, all in all: payloads leave the front because they are too old, too many and too big together, and the
      new one joins the back unless it is too big alone. */
  lemma EnqueueReports(conf: Conf, s: State, p: Payload, clock: nat -> int) returns (n: nat, n1: nat, n2: nat)
    requires s.size == TotalBytes(s.queue)
    ensures n == DiscardCount(conf, s.queue, clock, 0) <= |s.queue|
    ensures n1 == CountExcess(conf, |s.queue| - n) <= |s.queue| - n
    ensures var (s', err) := Enqueue(conf, s, p, clock);
            var tooBig := 0 < conf.maxQueuedBytes < |p.bytes|;
            var q := s.queue[n..][n1..];
            && n2 <= |q| && (if tooBig then n2 == 0 else JustFits(conf, q, |p.bytes|, n2))
            && err == (if tooBig then Some(TooBig) else None)
            && s'.queue == q[n2..] + (if tooBig then [] else [p])
            && s'.monitor == s.monitor + AgedOut(s.queue, clock, 0, n) + Dropped(s.queue[n..], n1, CountReached)
                             + Dropped(q, n2, BytesReached)
            && s'.writes == s.writes && s'.queuing && s'.scheduled == s.scheduled
  {
    hide DiscardCount, DiscardOld, EvictForCount, EvictForBytes, AgedOut, JustFits, TotalBytes;
    var s0 := s.(queuing := true);
    DiscardReports(conf, s0, clock, 0);
    n := DiscardCount(conf, s.queue, clock, 0);
    var s1 := DiscardOld(conf, s0, clock, 0);
    n1 := CountReports(conf, s1);
    var s2 := EvictForCount(conf, s1);
    SizesKept(conf, s0, clock);
    NoneDropped(s2.queue);
    if 0 < conf.maxQueuedBytes < |p.bytes| {
      n2 := 0;
    } else {
      n2 := BytesReports(conf, s2, |p.bytes|);
    }
  }

  function CountExcess(conf: Conf, n: nat): nat {
    if 0 < conf.maxQueuedPayloads <= n then n - conf.maxQueuedPayloads + 1 else 0
  }

  lemma NoneDropped(q: seq<Payload>)
    ensures Dropped(q, 0, BytesReached) == [] && q[0..] == q
  {
  }

  lemma SizesKept(conf: Conf, s: State, clock: nat -> int)
    requires s.size == TotalBytes(s.queue)
    ensures var s2 := EvictForCount(conf, DiscardOld(conf, s, clock, 0)); s2.size == TotalBytes(s2.queue)
  {
    hide EvictForCount, DiscardOld;
    DiscardSize(conf, s, clock, 0);
    CountSize(conf, DiscardOld(conf, s, clock, 0));
  }

  lemma {:induction false} DiscardSize(conf: Conf, s: State, clock: nat -> int, k: nat)
    requires s.size == TotalBytes(s.queue)
    ensures var s' := DiscardOld(conf, s, clock, k); s'.size == TotalBytes(s'.queue)
    decreases |s.queue|
  {
    if conf.maxAge > 0 && s.queue != [] && TooOld(conf, s.queue[0], clock(k)) {
      DiscardSize(conf, DropOldest(s, Aged(clock(k) - s.queue[0].creationDate)), clock, k + 1);
    }
  }

  lemma {:induction false} CountSize(conf: Conf, s: State)
    requires s.size == TotalBytes(s.queue)
    ensures var s' := EvictForCount(conf, s); s'.size == TotalBytes(s'.queue)
    decreases |s.queue|
  {
    if conf.maxQueuedPayloads > 0 && |s.queue| >= conf.maxQueuedPayloads && s.queue != [] {
      CountSize(conf, DropOldest(s, CountReached));
    }
  }

  /** An arrival, all in all. */
  lemma ArriveReports(conf: Conf, s: State, p: Payload, clock: nat -> int, answer: Answer)
    ensures var s' := Step(conf, s, Arrive(Some(p), clock, answer));
            var w := Write(p, answer);
            var s1 := s.(writes := s.writes + [w], monitor := s.monitor + [Outcome(w)]);
            && (!s.queuing && !answer.Retriable? ==> s' == s1)
            && (s.queuing ==> s' == Enqueued(conf, s, p, clock))
            && (!s.queuing && answer.Retriable? ==> s' == Enqueued(conf, s1.(scheduled := true), p, clock))
  {
    hide Enqueue;
  }

  /** Queueing, with the report if that fails. */
  function Enqueued(conf: Conf, s: State, p: Payload, clock: nat -> int): State {
    var (s', err) := Enqueue(conf, s, p, clock);
    if err.None? then s' else s'.(monitor := s'.monitor + [FailureEvent(p, err.value)])
  }

  // ---------------------------------------------------------------- the sender

  class QueuableSender {
    const conf: Conf
    var queuedPayloads: seq<Payload>
    var queuing: bool
    var currentQueuedSize: int
    var monitor: seq<Event>
    var writes: seq<Write>
    var scheduled: bool

    /** The sender as a value; reaching a panic is ruled out by the methods' proofs. */
    ghost function View(): State
      reads this
    {
      State(queuedPayloads, queuing, currentQueuedSize, monitor, writes, scheduled, false)
    }

    predicate Valid()
      reads this
    {
      currentQueuedSize == TotalBytes(queuedPayloads)
    }

    constructor (conf: Conf)
      ensures this.conf == conf && View() == IDLE && Valid()
    {
      this.conf := conf;
      queuedPayloads, queuing, currentQueuedSize, monitor, writes, scheduled := [], false, 0, [], [], false;
    }

    method RemoveQueuedPayload()
      requires Valid() && queuedPayloads != []
      modifies this
      ensures Valid() && View() == RemoveFront(old(View()))
    {
      currentQueuedSize := currentQueuedSize - |queuedPayloads[0].bytes|;
      queuedPayloads := queuedPayloads[1..];
    }

    method NotifyEvent(e: Event)
      requires Valid()
      modifies this
      ensures Valid() && View() == Notify(old(View()), e)
    {
      monitor := monitor + [e];
    }

    /** One write, which the endpoint answers with `answer`. */
    method Send(p: Payload, answer: Answer)
      requires Valid()
      modifies this
      ensures Valid() && View() == Post(old(View()), p, answer)
    {
      writes := writes + [Write(p, answer)];
    }

    method DropOldestPayload(reason: Reason) returns (ok: bool)
      requires Valid()
      modifies this
      ensures Valid() && ok == (old(queuedPayloads) != [])
      ensures View() == if ok then DropOldest(old(View()), reason) else old(View())
    {
      if |queuedPayloads| == 0 {
        return false;
      }
      var dropped := queuedPayloads[0];
      RemoveQueuedPayload();
      NotifyEvent(FailureEvent(dropped, reason));
      return true;
    }

    method DiscardOldPayloads(clock: nat -> int)
      requires Valid()
      modifies this
      ensures Valid() && View() == DiscardOld(conf, old(View()), clock, 0)
    {
      if conf.maxAge <= 0 {
        return;
      }
      var k := 0;
      while queuedPayloads != []
        invariant Valid() && DiscardOld(conf, View(), clock, k) == DiscardOld(conf, old(View()), clock, 0)
        decreases |queuedPayloads|
      {
        var payload := queuedPayloads[0];
        var age := clock(k) - payload.creationDate;
        if age < conf.maxAge {
          break;
        }
        NotifyEvent(FailureEvent(payload, Aged(age)));
        RemoveQueuedPayload();
        k := k + 1;
      }
    }

    method EnqueuePayload(p: Payload, clock: nat -> int) returns (err: Option<Reason>)
      requires Valid()
      modifies this
      ensures Valid() && (View(), err) == Enqueue(conf, old(View()), p, clock)
    {
      hide DiscardOld, EvictForCount, EvictForBytes, TotalBytes;
      if !queuing {
        queuing := true;
      }
      DiscardOldPayloads(clock);
      MakeRoomForOne();
      var newPayloadSize := |p.bytes|;
      if conf.maxQueuedBytes > 0 && newPayloadSize > conf.maxQueuedBytes {
        return Some(TooBig);
      }
      MakeRoomForBytes(newPayloadSize);
      TotalBytesAppend(queuedPayloads, p);
      queuedPayloads := queuedPayloads + [p];
      currentQueuedSize := currentQueuedSize + newPayloadSize;
      return None;
    }

    /** The first eviction loop of `enqueue`; its panic is unreachable. */
    method MakeRoomForOne()
      requires Valid()
      modifies this
      ensures Valid() && View() == EvictForCount(conf, old(View()))
    {
      while conf.maxQueuedPayloads > 0 && |queuedPayloads| >= conf.maxQueuedPayloads
        invariant Valid() && EvictForCount(conf, View()) == EvictForCount(conf, old(View()))
        decreases |queuedPayloads|
      {
        var ok := DropOldestPayload(CountReached);
        if !ok {
          assert false;
        }
      }
    }

    /** The second eviction loop of `enqueue`; its panic is unreachable. */
    method MakeRoomForBytes(n: nat)
      requires Valid() && (conf.maxQueuedBytes > 0 ==> n <= conf.maxQueuedBytes)
      modifies this
      ensures Valid() && View() == EvictForBytes(conf, old(View()), n)
    {
      while conf.maxQueuedBytes > 0 && currentQueuedSize + n > conf.maxQueuedBytes
        invariant Valid() && EvictForBytes(conf, View(), n) == EvictForBytes(conf, old(View()), n)
        decreases |queuedPayloads|
      {
        var ok := DropOldestPayload(BytesReached);
        if !ok {
          assert false;
        }
      }
    }

    /** `answer` is the endpoint's answer to the one write this may make. */
    method SendOrQueuePayload(p: Payload, clock: nat -> int, answer: Answer) returns (err: Option<Reason>)
      requires Valid()
      modifies this
      ensures Valid() && (View(), err) == SendOrQueue(conf, old(View()), p, clock, answer)
    {
      if !queuing {
        Send(p, answer);
        if answer.Retriable? {
          scheduled := true;
          NotifyEvent(RetryEvent(p));
          err := EnqueuePayload(p, clock);
        } else if answer.Delivered? {
          NotifyEvent(SuccessEvent(p));
          err := None;
        } else {
          err := Some(Refused);
        }
      } else {
        err := EnqueuePayload(p, clock);
      }
    }

    method FlushQueue(clock: nat -> int, answers: nat -> Answer)
      requires Valid()
      modifies this
      ensures Valid() && View() == Flush(conf, old(View()), clock, answers)
    {
      DiscardOldPayloads(clock);
      ghost var before := View();
      var k := 0;
      while queuedPayloads != []
        invariant Valid() && FlushFrom(View(), answers, k) == FlushFrom(before, answers, 0)
        decreases |queuedPayloads|
      {
        var payload := queuedPayloads[0];
        var answer := answers(k);
        Send(payload, answer);
        if answer.Retriable? {
          scheduled := true;
          NotifyEvent(RetryEvent(payload));
          return;
        }
        NotifyEvent(if answer.Delivered? then SuccessEvent(payload) else FailureEvent(payload, Refused));
        RemoveQueuedPayload();
        k := k + 1;
      }
      queuing := false;
      scheduled := false;
    }

    /** One pass through the event loop. */
    method Handle(e: Input)
      requires Valid()
      modifies this
      ensures Valid() && View() == Step(conf, old(View()), e)
    {
      match e
      case Arrive(None, _, _) =>
      case Arrive(Some(p), clock, answer) =>
        var err := SendOrQueuePayload(p, clock, answer);
        if err.Some? {
          NotifyEvent(FailureEvent(p, err.value));
        }
      case Tick(clock, answers) =>
        scheduled := false;
        FlushQueue(clock, answers);
      case Exit(clock, answers) =>
        FlushQueue(clock, answers);
    }
  }

  /** A new sender, handed any rounds, ends in the state `Run` describes. */
  method RunSender(conf: Conf, inputs: seq<Input>) returns (sender: QueuableSender)
    ensures fresh(sender) && sender.conf == conf && sender.Valid() && sender.View() == Run(conf, inputs)
    ensures Invariant(conf, sender.View(), Arrivals(inputs)) && Truthful(conf, sender.View())
  {
    sender := new QueuableSender(conf);
    for i := 0 to |inputs|
      invariant fresh(sender) && sender.conf == conf && sender.Valid() && sender.View() == Run(conf, inputs[..i])
    {
      assert inputs[..i + 1][..i] == inputs[..i];
      sender.Handle(inputs[i]);
    }
    assert inputs[..|inputs|] == inputs;
    RunKeeps(conf, inputs);
    RunTruthful(conf, inputs);
  }
}
