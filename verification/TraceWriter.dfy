/** writer/trace_writer.go: batching sampled traces into payloads. */
module TraceWriters {
  import opened Options
  import opened Traces

  /** `trace` is absent when only transactions were sampled. */
  datatype SampledTrace = SampledTrace(trace: Option<Trace>, transactions: seq<Span>)

  datatype ApiTrace = ApiTrace(spans: Trace, startTime: int, endTime: int)

  datatype Payload = Payload(traces: seq<ApiTrace>, transactions: seq<Span>)

  datatype Input = Sampled(sampled: SampledTrace) | Flush

  // ---------------------------------------------------------------- the trace sent to the API

  function MinStart(trace: Trace): int
    requires trace != []
  {
    if |trace| == 1 then trace[0].start
    else var m := MinStart(trace[..|trace| - 1]); if Last(trace).start < m then Last(trace).start else m
  }

  function MinEnd(trace: Trace): int
    requires trace != []
  {
    if |trace| == 1 then End(trace[0])
    else var m := MinEnd(trace[..|trace| - 1]); if End(Last(trace)) < m then End(Last(trace)) else m
  }

  function ApiTraceOf(trace: Trace): ApiTrace
    requires trace != []
  {
    ApiTrace(trace, MinStart(trace), MinEnd(trace))
  }

  method ToApiTrace(trace: Trace) returns (api: ApiTrace)
    requires trace != []
    ensures api == ApiTraceOf(trace) && api.spans == trace
    ensures (forall s :: s in trace ==> api.startTime <= s.start) && (exists s :: s in trace && api.startTime == s.start)
    ensures (forall s :: s in trace ==> api.endTime <= s.start + s.duration) &&
            (exists s :: s in trace && api.endTime == s.start + s.duration)
  {
    var start, end := trace[0].start, End(trace[0]);
    assert trace[..1] == [trace[0]];
    for i := 1 to |trace|
      invariant start == MinStart(trace[..i]) && end == MinEnd(trace[..i])
    {
      assert trace[..i + 1][..i] == trace[..i];
      if trace[i].start < start {
        start := trace[i].start;
      }
      if End(trace[i]) < end {
        end := End(trace[i]);
      }
    }
    assert trace[..|trace|] == trace;
    api := ApiTrace(trace, start, end);
    EarliestTimes(trace);
  }

  lemma {:induction false} EarliestTimes(trace: Trace)
    requires trace != []
    ensures forall s :: s in trace ==> MinStart(trace) <= s.start && MinEnd(trace) <= End(s)
    ensures (exists s :: s in trace && s.start == MinStart(trace)) && (exists s :: s in trace && End(s) == MinEnd(trace))
  {
    if |trace| > 1 {
      EarliestTimes(trace[..|trace| - 1]);
      assert trace == trace[..|trace| - 1] + [Last(trace)];
    } else {
      assert trace[0] in trace;
    }
  }

  /** The end time sent is the end of the span that ends first: it is the end of the whole trace exactly when
      all spans end together. */
  lemma EndTimeIsTheEarliest(trace: Trace)
    requires trace != []
    ensures (forall s :: s in trace ==> End(s) <= ApiTraceOf(trace).endTime) <==>
            (forall s, t :: s in trace && t in trace ==> End(s) == End(t))
  {
    EarliestTimes(trace);
    var first :| first in trace && End(first) == MinEnd(trace);
  }

  // ---------------------------------------------------------------- the reference: batches

  function Weight(s: SampledTrace): nat {
    (if s.trace.Some? then |s.trace.value| else 0) + |s.transactions|
  }

  /** What appending a sampled trace adds to the buffered traces. */
  function Appended(trace: Option<Trace>): seq<ApiTrace> {
    if trace.Some? && trace.value != [] then [ApiTraceOf(trace.value)] else []
  }

  function TracesOf(batch: seq<SampledTrace>): seq<ApiTrace> {
    if batch == [] then []
    else
      var s := batch[|batch| - 1];
      TracesOf(batch[..|batch| - 1]) + Appended(s.trace)
  }

  function TransactionsOf(batch: seq<SampledTrace>): seq<Span> {
    if batch == [] then [] else TransactionsOf(batch[..|batch| - 1]) + batch[|batch| - 1].transactions
  }

  function WeightOf(batch: seq<SampledTrace>): nat {
    if batch == [] then 0 else WeightOf(batch[..|batch| - 1]) + Weight(batch[|batch| - 1])
  }

  function PayloadOf(batch: seq<SampledTrace>): Payload {
    Payload(TracesOf(batch), TransactionsOf(batch))
  }

  function PayloadsOf(batches: seq<seq<SampledTrace>>): seq<Payload> {
    if batches == [] then [] else PayloadsOf(batches[..|batches| - 1]) + [PayloadOf(batches[|batches| - 1])]
  }

  function Concat(batches: seq<seq<SampledTrace>>): seq<SampledTrace> {
    if batches == [] then [] else Concat(batches[..|batches| - 1]) + batches[|batches| - 1]
  }

  /** The sampled traces that hold any span. */
  function Accepted(inputs: seq<Input>): seq<SampledTrace> {
    if inputs == [] then []
    else
      var e := inputs[|inputs| - 1];
      Accepted(inputs[..|inputs| - 1]) + if e.Sampled? && Weight(e.sampled) > 0 then [e.sampled] else []
  }

  lemma BatchAppend(batch: seq<SampledTrace>, s: SampledTrace)
    ensures TracesOf(batch + [s]) == TracesOf(batch) + Appended(s.trace)
    ensures TransactionsOf(batch + [s]) == TransactionsOf(batch) + s.transactions
    ensures WeightOf(batch + [s]) == WeightOf(batch) + Weight(s)
  {
    assert (batch + [s])[..|batch|] == batch;
  }

  lemma BatchesAppend(batches: seq<seq<SampledTrace>>, batch: seq<SampledTrace>)
    ensures PayloadsOf(batches + [batch]) == PayloadsOf(batches) + [PayloadOf(batch)]
    ensures Concat(batches + [batch]) == Concat(batches) + batch
  {
    assert (batches + [batch])[..|batches|] == batches;
  }

  /** The number of spans and transactions in a payload. */
  function SpansIn(traces: seq<ApiTrace>): nat {
    if traces == [] then 0 else SpansIn(traces[..|traces| - 1]) + |traces[|traces| - 1].spans|
  }

  function SizeOf(p: Payload): nat {
    SpansIn(p.traces) + |p.transactions|
  }

  lemma SpansAppend(traces: seq<ApiTrace>, api: ApiTrace)
    ensures SpansIn(traces + [api]) == SpansIn(traces) + |api.spans|
  {
    assert (traces + [api])[..|traces|] == traces;
  }

  lemma {:induction false} SizeIsWeight(batch: seq<SampledTrace>)
    ensures SizeOf(PayloadOf(batch)) == WeightOf(batch)
  {
    if batch != [] {
      var before, s := batch[..|batch| - 1], batch[|batch| - 1];
      SizeIsWeight(before);
      if s.trace.Some? && s.trace.value != [] {
        SpansAppend(TracesOf(before), ApiTraceOf(s.trace.value));
      } else {
        assert TracesOf(before) + [] == TracesOf(before);
      }
    }
  }

  /** The sent payloads are batches of consecutive sampled traces, the last of them still in the buffer. Only a
      batch of one may be over the limit. */
  ghost predicate Batched(max: int, accepted: seq<SampledTrace>, sent: seq<Payload>, traces: seq<ApiTrace>,
                          transactions: seq<Span>, batches: seq<seq<SampledTrace>>, pending: seq<SampledTrace>) {
    && sent == PayloadsOf(batches) && accepted == Concat(batches) + pending
    && traces == TracesOf(pending) && transactions == TransactionsOf(pending)
    && (forall b :: b in batches ==> b != [] && (WeightOf(b) > max ==> |b| == 1))
    && (WeightOf(pending) > max ==> |pending| <= 1)
    && (forall s :: s in pending ==> Weight(s) > 0)
  }

  lemma BatchedAppend(max: int, accepted: seq<SampledTrace>, sent: seq<Payload>, traces: seq<ApiTrace>,
                      transactions: seq<Span>, batches: seq<seq<SampledTrace>>, pending: seq<SampledTrace>, s: SampledTrace)
    requires Batched(max, accepted, sent, traces, transactions, batches, pending)
    requires pending == [] || WeightOf(pending) + Weight(s) <= max
    ensures WeightOf(pending + [s]) == WeightOf(pending) + Weight(s)
    ensures Weight(s) > 0 ==>
              Batched(max, accepted + [s], sent, traces + Appended(s.trace), transactions + s.transactions, batches, pending + [s])
    ensures Weight(s) == 0 ==>
              Batched(max, accepted, sent, traces + Appended(s.trace), transactions + s.transactions, batches, pending)
  {
    hide TracesOf, TransactionsOf, WeightOf, PayloadsOf, Concat;
    BatchAppend(pending, s);
    assert Concat(batches) + pending + [s] == Concat(batches) + (pending + [s]);
    if Weight(s) == 0 {
      assert traces + [] == traces && transactions + [] == transactions;
    }
  }

  lemma BatchedWeighs(max: int, accepted: seq<SampledTrace>, sent: seq<Payload>, traces: seq<ApiTrace>,
                      transactions: seq<Span>, batches: seq<seq<SampledTrace>>, pending: seq<SampledTrace>)
    requires Batched(max, accepted, sent, traces, transactions, batches, pending)
    ensures pending != [] ==> WeightOf(pending) > 0
    ensures pending == [] ==> WeightOf(pending) == 0
  {
    NonEmptyWeighs(pending);
  }

  // ---------------------------------------------------------------- the writer

  class TraceWriter {
    const maxSpansPerPayload: int
    var traces: seq<ApiTrace>
    var transactions: seq<Span>
    var spansInBuffer: int
    var sent: seq<Payload>

    ghost var accepted: seq<SampledTrace>
    ghost var batches: seq<seq<SampledTrace>>
    ghost var pending: seq<SampledTrace>

    ghost predicate Valid()
      reads this
    {
      && Batched(maxSpansPerPayload, accepted, sent, traces, transactions, batches, pending)
      && spansInBuffer == WeightOf(pending)
    }

    constructor (maxSpansPerPayload: int)
      ensures Valid() && this.maxSpansPerPayload == maxSpansPerPayload && accepted == [] && sent == [] && pending == []
    {
      this.maxSpansPerPayload := maxSpansPerPayload;
      traces, transactions, spansInBuffer, sent := [], [], 0, [];
      accepted, batches, pending := [], [], [];
    }

    method HandleSampledTrace(s: SampledTrace)
      requires Valid()
      modifies this
      ensures Valid() && accepted == old(accepted) + if Weight(s) > 0 then [s] else []
      ensures old(spansInBuffer <= maxSpansPerPayload || pending == []) ==> spansInBuffer <= maxSpansPerPayload || pending == []
      ensures Weight(s) > 0 ==>
                var full := old(pending) != [] && WeightOf(old(pending)) + Weight(s) > maxSpansPerPayload;
                && sent == old(sent) + (if full then [PayloadOf(old(pending))] else [])
                                     + (if Weight(s) > maxSpansPerPayload then [PayloadOf([s])] else [])
                && pending == if Weight(s) > maxSpansPerPayload then [] else if full then [s] else old(pending) + [s]
    {
      hide TracesOf, TransactionsOf, WeightOf, Batched;
      if s.trace.None? && |s.transactions| == 0 {
        assert accepted + [] == accepted;
        return;
      }
      var n := (if s.trace.Some? then |s.trace.value| else 0) + |s.transactions|;
      BatchedWeighs(maxSpansPerPayload, accepted, sent, traces, transactions, batches, pending);
      if spansInBuffer > 0 && spansInBuffer + n > maxSpansPerPayload {
        FlushBuffer();
      } else {
        assert sent + [] == sent;
      }
      ghost var sent1, pending1 := sent, pending;
      BatchedAppend(maxSpansPerPayload, accepted, sent, traces, transactions, batches, pending, s);
      AppendTrace(s.trace);
      AppendTransactions(s.transactions);
      if n > 0 {
        pending, accepted := pending + [s], accepted + [s];
      } else {
        assert accepted + [] == accepted;
      }
      if n > maxSpansPerPayload {
        FlushBuffer();
        assert n > 0 ==> pending1 + [s] == [s];
      } else {
        assert sent + [] == sent;
      }
    }

    method AppendTrace(trace: Option<Trace>)
      modifies this`traces, this`spansInBuffer
      ensures traces == old(traces) + Appended(trace)
      ensures spansInBuffer == old(spansInBuffer) + if trace.Some? then |trace.value| else 0
    {
      if trace.None? || |trace.value| == 0 {
        return;
      }
      var api := ToApiTrace(trace.value);
      traces := traces + [api];
      spansInBuffer := spansInBuffer + |trace.value|;
    }

    method AppendTransactions(more: seq<Span>)
      modifies this`transactions, this`spansInBuffer
      ensures transactions == old(transactions) + more && spansInBuffer == old(spansInBuffer) + |more|
    {
      for i := 0 to |more|
        invariant transactions == old(transactions) + more[..i] && spansInBuffer == old(spansInBuffer)
      {
        transactions := transactions + [more[i]];
      }
      spansInBuffer := spansInBuffer + |more|;
    }

    /** Sends what is buffered, if anything, as one batch. */
    method FlushBuffer()
      requires Valid()
      modifies this
      ensures Valid() && pending == [] && spansInBuffer == 0 && accepted == old(accepted)
      ensures sent == old(sent) + if old(pending) == [] then [] else [PayloadOf(old(pending))]
    {
      hide TracesOf, TransactionsOf, WeightOf, PayloadsOf, Concat;
      EmptyBatch();
      if |traces| == 0 && |transactions| == 0 {
        NothingPending(pending);
        assert sent + [] == sent;
        return;
      }
      sent := sent + [Payload(traces, transactions)];
      BatchesAppend(batches, pending);
      assert Concat(batches) + pending + [] == Concat(batches) + pending;
      batches, pending := batches + [pending], [];
      ResetBuffer();
    }

    method ResetBuffer()
      modifies this`traces, this`transactions, this`spansInBuffer
      ensures traces == [] && transactions == [] && spansInBuffer == 0
    {
      traces, transactions, spansInBuffer := [], [], 0;
    }

    /** One pass through the event loop. */
    method Handle(e: Input)
      requires Valid()
      modifies this
      ensures Valid() && accepted == old(accepted) + if e.Sampled? && Weight(e.sampled) > 0 then [e.sampled] else []
      ensures old(spansInBuffer <= maxSpansPerPayload || pending == []) ==> spansInBuffer <= maxSpansPerPayload || pending == []
      ensures e.Flush? ==> pending == [] && sent == old(sent) + if old(pending) == [] then [] else [PayloadOf(old(pending))]
    {
      match e
      case Sampled(s) => HandleSampledTrace(s);
      case Flush => FlushBuffer();
    }
  }

  lemma EmptyBatch()
    ensures TracesOf([]) == [] && TransactionsOf([]) == [] && WeightOf([]) == 0
  {
  }

  lemma NothingPending(pending: seq<SampledTrace>)
    requires TracesOf(pending) == [] && TransactionsOf(pending) == [] && forall s :: s in pending ==> Weight(s) > 0
    ensures pending == []
  {
    SizeIsWeight(pending);
    NonEmptyWeighs(pending);
  }

  lemma NonEmptyWeighs(pending: seq<SampledTrace>)
    requires forall s :: s in pending ==> Weight(s) > 0
    ensures pending != [] ==> WeightOf(pending) > 0
  {
    if pending != [] {
      assert pending[|pending| - 1] in pending;
    }
  }

  lemma NextAccepted(inputs: seq<Input>, i: nat)
    requires i < |inputs|
    ensures Accepted(inputs[..i + 1]) ==
            Accepted(inputs[..i]) + if inputs[i].Sampled? && Weight(inputs[i].sampled) > 0 then [inputs[i].sampled] else []
  {
    assert inputs[..i + 1][..i] == inputs[..i];
  }

  /** Over every run of the writer: the payloads sent and the buffer are the accepted sampled traces, cut into
      batches, in arrival order; a payload over the limit holds one sampled trace. */
  method RunWriter(maxSpansPerPayload: int, inputs: seq<Input>) returns (writer: TraceWriter)
    ensures fresh(writer) && writer.maxSpansPerPayload == maxSpansPerPayload && writer.Valid()
    ensures writer.accepted == Accepted(inputs)
    ensures writer.spansInBuffer <= maxSpansPerPayload || writer.pending == []
    ensures inputs != [] && inputs[|inputs| - 1].Flush? ==> writer.pending == []
  {
    hide Batched;
    writer := new TraceWriter(maxSpansPerPayload);
    assert Accepted(inputs[..0]) == [];
    hide Accepted, Weight, WeightOf;
    for i := 0 to |inputs|
      invariant fresh(writer) && writer.maxSpansPerPayload == maxSpansPerPayload && writer.Valid()
      invariant writer.accepted == Accepted(inputs[..i])
      invariant writer.spansInBuffer <= maxSpansPerPayload || writer.pending == []
      invariant i > 0 && inputs[i - 1].Flush? ==> writer.pending == []
    {
      NextAccepted(inputs, i);
      writer.Handle(inputs[i]);
    }
    assert inputs[..|inputs|] == inputs;
  }

  // ---------------------------------------------------------------- what batching means for the spans

  lemma Assoc<T>(a: seq<T>, b: seq<T>, c: seq<T>)
    ensures a + b + c == a + (b + c)
  {
  }

  lemma {:induction false} TracesConcat(a: seq<SampledTrace>, b: seq<SampledTrace>)
    ensures TracesOf(a + b) == TracesOf(a) + TracesOf(b) && TransactionsOf(a + b) == TransactionsOf(a) + TransactionsOf(b)
    decreases |b|
  {
    hide TracesOf, TransactionsOf, Appended;
    if b == [] {
      EmptyBatch();
      assert a + b == a;
    } else {
      var before, s := b[..|b| - 1], b[|b| - 1];
      TracesConcat(a, before);
      BatchAppend(a + before, s);
      BatchAppend(before, s);
      assert b == before + [s] && a + b == a + before + [s];
      Assoc(TracesOf(a), TracesOf(before), Appended(s.trace));
      Assoc(TransactionsOf(a), TransactionsOf(before), s.transactions);
    }
  }

  function AllTraces(sent: seq<Payload>): seq<ApiTrace> {
    if sent == [] then [] else AllTraces(sent[..|sent| - 1]) + sent[|sent| - 1].traces
  }

  function AllTransactions(sent: seq<Payload>): seq<Span> {
    if sent == [] then [] else AllTransactions(sent[..|sent| - 1]) + sent[|sent| - 1].transactions
  }

  lemma {:induction false} SentIsConcat(batches: seq<seq<SampledTrace>>)
    ensures AllTraces(PayloadsOf(batches)) == TracesOf(Concat(batches))
    ensures AllTransactions(PayloadsOf(batches)) == TransactionsOf(Concat(batches))
  {
    if batches != [] {
      var before, b := batches[..|batches| - 1], batches[|batches| - 1];
      SentIsConcat(before);
      TracesConcat(Concat(before), b);
      assert (PayloadsOf(before) + [PayloadOf(b)])[..|PayloadsOf(before)|] == PayloadsOf(before);
    }
  }

  /** Every trace and transaction leaves in exactly one payload, in arrival order, or is still buffered. */
  lemma NothingIsLost(max: int, accepted: seq<SampledTrace>, sent: seq<Payload>, traces: seq<ApiTrace>,
                      transactions: seq<Span>, batches: seq<seq<SampledTrace>>, pending: seq<SampledTrace>)
    requires Batched(max, accepted, sent, traces, transactions, batches, pending)
    ensures AllTraces(sent) + traces == TracesOf(accepted)
    ensures AllTransactions(sent) + transactions == TransactionsOf(accepted)
  {
    SentIsConcat(batches);
    TracesConcat(Concat(batches), pending);
  }

  lemma {:induction false} SentIsABatch(batches: seq<seq<SampledTrace>>, i: nat)
    requires i < |batches|
    ensures |PayloadsOf(batches)| == |batches| && PayloadsOf(batches)[i] == PayloadOf(batches[i])
  {
    if i < |batches| - 1 {
      SentIsABatch(batches[..|batches| - 1], i);
    } else if i > 0 {
      SentIsABatch(batches[..|batches| - 1], 0);
    }
  }

  lemma {:induction false} SentLength(batches: seq<seq<SampledTrace>>)
    ensures |PayloadsOf(batches)| == |batches|
  {
    if batches != [] {
      SentLength(batches[..|batches| - 1]);
    }
  }

  /** A payload over the limit holds the spans of one sampled trace. */
  lemma OverTheLimitIsSingle(max: int, accepted: seq<SampledTrace>, sent: seq<Payload>, traces: seq<ApiTrace>,
                             transactions: seq<Span>, batches: seq<seq<SampledTrace>>, pending: seq<SampledTrace>, i: nat)
    requires Batched(max, accepted, sent, traces, transactions, batches, pending)
    requires i < |sent| && SizeOf(sent[i]) > max
    ensures exists s :: s in accepted && sent[i] == PayloadOf([s])
  {
    SentLength(batches);
    SentIsABatch(batches, i);
    SizeIsWeight(batches[i]);
    var b := batches[i];
    assert b in batches && b == [b[0]];
    InConcat(batches, i, b[0]);
  }

  lemma {:induction false} InConcat(batches: seq<seq<SampledTrace>>, i: nat, s: SampledTrace)
    requires i < |batches| && s in batches[i]
    ensures s in Concat(batches)
  {
    if i < |batches| - 1 {
      InConcat(batches[..|batches| - 1], i, s);
    }
  }
}
