# Verified models of the trace agent

Dafny models of the algorithmic parts of the trace agent, and proofs of what they promise. Each part is modelled
in the form the source gives it: objects that update their fields are classes whose methods are proved equal to a
specification function, and the properties are proved about that function over all inputs, runs or reachable
states. `dafny verify dfyconfig.toml` checks everything.

| files | what they model |
|---|---|
| GKEntries, GKMerge, GKBounds, GKLimits, SliceSummary | the Greenwald-Khanna quantile sketch: insertion, compression, query, merge and histogram; what merging costs, and exactly when queries and merges keep what the documentation promises |
| JsonScanner, JsonText, JsonReader, JsonStreams | the JSON pushdown scanner, proved to accept exactly the sequences of values of RFC 8259 by a reader that builds trees alongside it |
| JsonObfuscator, JsonLeaves, JsonTopLevel, JsonKeeping | the streaming JSON redactor, proved equal to a recursive redaction of those trees; exactly when it is for scalars at top level, and exactly what any input leaves behind for later calls |
| Wire, WireFields, SpanCodec, TraceCodec | the protobuf codecs of spans, traces and trace payloads |
| PayloadSender | the queueing, retrying payload sender as a state machine over arrivals, ticks and endpoint answers |
| Traces, Sublayers, Subtraces | time attribution across overlapping spans, and the depth-first extraction of subtraces |
| SqlTokenizer, SqlTokens, SqlFilters, SqlTexts, SqlErasure | the SQL tokenizer, with a table of what every spelling is scanned to, and the filter chain behind it; what a quoted string holds leaves no trace |
| TraceWriter | batching sampled traces into payloads |
| TraceNormalizer | which traces are accepted, and what that guarantees the parts behind it |
| MetricNames, Grains, StatsRaw, StatsGroups, Concentrator, StatsWriter | the stats pipeline: names, aggregation strings, buckets, what each group in them counts, their export, and the split over payloads |
| Sampling | sampling by hashed rate, chained sampling, decaying counters and the pre-sampler |
| RealMaps, Options, Division | sums over maps, values that may be absent, and quotients |

Where code and documentation disagree the code is modelled, and a lemma gives the exact condition under which the
documented property holds: `GKBounds.QuantileAccurateExactly` (the query's error), `GKBounds.MergeSoundExactly` (rank
intervals after a merge), `JsonStreams.AcceptsExactlyStreams` (which values may abut), `JsonTopLevel.RedactsExactly`
(scalars at top level), `JsonKeeping.LeftKeeping` (what an input leaves behind), `Sublayers.TimeIsConservedExactly`
(when time is lost), `SqlFilters.OrdinaryIsWritten` (what is dropped after repeated groups),
`SqlFilters.SavepointName` (a savepoint's name), `TraceWriters.EndTimeIsTheEarliest` (the end time of a trace),
`Concentrators.BucketHoldsEnd` (negative end times), `TraceNormalizer.EndCheckWraps` (spans that end in the future),
`StatsRaw.TruncationWithin1024` (the precision of durations), `StatsRaw.GrainKeyMisread` and `Grains.GrainMisread`
(keys that can be read in two ways), `SpanCodec.DecodingPanics` and its like for traces and payloads (lengths that
wrap around), `SliceSummaries.MergeIntoItself` (a summary merged into itself), and `StatsWriter.LostExactly` (merging
counts).

Inputs from outside are parameters: the readings of the clock in a sender's round, the endpoint's answers, the signature's
sample rate, the contents of messages. Mutex-protected methods and branches of a `select` are single steps.

## Model

| member | source | states |
|---|---|---|
| GKEntries.RunKeeps | quantile/slice_summary.go:40-89 | After any sequence of insertions the entries are sorted, their weights sum to N, each has G >= 1 and G + Delta <= 1 + floor(N/50), the first and last are the minimum and maximum, and every entry's rank interval meets a true rank of its value |
| GKEntries.InsertKeeps | quantile/slice_summary.go:40-62 | One insertion, with its compression when N reaches a multiple of 50, keeps order, weights, capacity and extremes of any summary, and puts no rank interval further out, merged summaries included |
| GKEntries.PlacedWithin | quantile/slice_summary.go:45-57 | Placing the new entry, whose Delta depends on whether it is first or last, leaves every rank interval as good as it was for the longer history: sound, or out by no more than before |
| GKEntries.CompressKeeps | quantile/slice_summary.go:64-89 | Compression keeps order, total weight, the capacity bound and the extremes, and puts no rank interval further out |
| GKEntries.CompressIsMaximal | quantile/slice_summary.go:64-89 | After compression no two neighbours could still be folded together under the threshold |
| GKEntries.CompressIdempotent | quantile/slice_summary.go:64-89 | Compressing twice is compressing once |
| GKEntries.WithinHasRank | quantile/slice_summary.go:26-31 | An entry whose interval is out by at most l has, in [rmin, rmin + Delta + l], the rank of an actual occurrence of its value |
| GKEntries.QuantileAccuracy | quantile/slice_summary.go:91-118 | For every rank 0 <= r <= N the answer has an occurrence of rank rho with r - floor(N/100) - 1 <= rho <= r + 3 floor(N/100) + 1, and more exactly at most r + floor(N/100) + max(1, Delta of the entry returned); on a summary whose intervals are out by l, at most l more |
| GKBounds.WorstIsReached | quantile/slice_summary.go:40-89 | Among all histories the entries can stand for there is one that has, for every x at once, the most values below x, and that number is computed from the entries |
| GKBounds.QuantileAccurateExactly | quantile/slice_summary.go:91-118 | For any limit hi the answer to rank r has a rank from r - floor(N/100) - 1 to hi, whichever history the entries stand for, if and only if the entries allow fewer than hi values below it; with hi = r + floor(N/100) + 1 this says when the query meets EPSILON |
| GKBounds.QuantileGuard | quantile/slice_summary.go:91-118 | It does if the interval of the entry the scan stops at ends by hi, which can be read off the entries before the call |
| GKLimits.QuantileCanMissByMoreThanEpsilon | quantile/slice_summary.go:91-118 | It is not always met: after 1..150 and 5.5 the query for rank 4 returns a value all of whose ranks are more than EPSILON * N away |
| GKEntries.MergeKeeps | quantile/slice_summary.go:121-158 | Merging two summaries keeps order, capacity, minimum and maximum of the joint history, and the weights sum to the sum of both N |
| GKMerge.MergedEntryWithin | quantile/slice_summary.go:132-155 | Every entry of the merged list keeps the lower side of its rank interval, and its upper side is out by at most what both summaries were out before and G + Delta - 1 of its right neighbour from the other summary |
| GKMerge.MergeWithin | quantile/slice_summary.go:121-158 | So after a merge, compression included, the intervals are out by at most the sum of what both were and floor(max(M, N)/50) |
| GKMerge.MergeIsSound | quantile/slice_summary.go:121-158 | A merge of sound summaries is sound if every such neighbour has G + Delta = 1 |
| GKMerge.MergedQuantile | quantile/slice_summary.go:91-158 | The rank bound of a query on a merged summary, above the asked rank by floor(max(M, N)/50) more than without a merge |
| GKBounds.MergeSoundExactly | quantile/slice_summary.go:121-158 | Merging leaves a sound summary, whichever histories both stand for, if and only if for every remaining entry RMin + Delta exceeds the values below it that both lists of entries allow together |
| GKEntries.InterleaveShape | quantile/slice_summary.go:132-155 | The merge loop's result is sorted, carries both weights, and starts with an entry of weight 1 |
| GKEntries.InterleaveExtremes | quantile/slice_summary.go:132-155 | The merge loop's result starts with the smaller minimum and ends with the larger maximum |
| GKLimits.MergeCanLoseRankSoundness | quantile/slice_summary.go:121-158 | It can fail: two sound summaries can merge into one with an entry whose interval misses every true rank, because Merge does not widen Delta |
| SliceSummaries.SliceSummary.constructor | quantile/slice_summary.go:16-18 | A new summary is valid and empty |
| SliceSummaries.SliceSummary.Search | quantile/slice_summary.go:47 | Binary search finds the first entry above the value |
| SliceSummaries.SliceSummary.Insert | quantile/slice_summary.go:40-62 | In place: keeps the summary valid, puts no rank interval further out and a sound one stays sound, and counts and records the value. The new entry enters behind the values up to its own, with Delta floor(N/50) or, at an end, 0; at every 50th value no two neighbours are left that could be folded |
| SliceSummaries.SliceSummary.InsertEntry | quantile/slice_summary.go:42-56 | Growing by one, shifting and storing makes exactly the list with the new entry placed |
| SliceSummaries.SliceSummary.Compress | quantile/slice_summary.go:64-89 | The right-to-left loop with its inner scan makes exactly the compressed list and keeps the summary valid |
| SliceSummaries.SliceSummary.Fold | quantile/slice_summary.go:79-87 | Overwriting, shifting and truncating fold a run of entries into one |
| SliceSummaries.SliceSummary.FoldRange | quantile/slice_summary.go:68-77 | The inner loop finds the longest foldable run and its weight |
| SliceSummaries.SliceSummary.Quantile | quantile/slice_summary.go:92-118 | For any 0 <= q <= 1, merges included: the answer has an occurrence whose rank keeps the two-sided bound around the whole number nearest to q * N; 0 for an empty summary |
| SliceSummaries.SliceSummary.ValueAtRank | quantile/slice_summary.go:100-117 | The scan over neighbouring entries returns the value of the first whose bound passes the rank |
| SliceSummaries.SliceSummary.Merge | quantile/slice_summary.go:121-158 | In place merge of two distinct summaries: valid for the joint history, the interleaved and compressed entries with no foldable neighbours left, or a copy, or no change when one side is empty, and intervals out by at most both summaries' and floor(max(M, N)/50) |
| SliceSummaries.SliceSummary.MergeNonEmpty | quantile/slice_summary.go:132-158 | The case where both sides hold something |
| SliceSummaries.SliceSummary.MergeEntries | quantile/slice_summary.go:132-154 | The nested in-place loops make exactly the interleaving of both lists |
| SliceSummaries.MergeIntoItself | quantile/slice_summary.go:132-155 | A summary merged into itself: the loop ranges over the list it fills, and panics if and only if the array behind the grown list holds fewer than three times the entries it had; otherwise twice as many copies of the first entry are left |
| SliceSummaries.SelfMergeLosesWeight | quantile/slice_summary.go:121-158 | Those weigh 2 N as they should if and only if every entry had weight one |
| SliceSummaries.SliceSummary.BySlices | quantile/slice_summary.go:177-216 | The weights of the exported slices sum to exactly N, the slices tile the range from minimum to maximum in order, and each stands for a run of entries: a point for all entries of one value that begin it with one occurrence or meet it, an interval from the entry before for a single heavier entry |
| SliceSummaries.SliceSummary.Copy | quantile/slice_summary.go:161-167 | A fresh summary with the same entries |
| SliceSummaries.AddSlice | quantile/slice_summary.go:194-213 | One entry extends the tiling to its value and adds exactly its weight |
| JsonScanner.NextStackOk | obfuscate/json_scanner.go:97-141 | A step keeps the parse stack consistent with the state, so no pop or index can fail, and reports an error exactly when it enters the error state |
| JsonScanner.Scanner.Reset | obfuscate/json_scanner.go:97-103 | Back to the initial state, whatever came before |
| JsonScanner.Scanner.PushParseState | obfuscate/json_scanner.go:125-127 | Pushes on the parse stack |
| JsonScanner.Scanner.PopParseState | obfuscate/json_scanner.go:131-140 | Pops it and continues at top level or inside the enclosing value |
| JsonScanner.Scanner.DoBeginValue | obfuscate/json_scanner.go:159-196 | The start of a value, byte by byte, as specified |
| JsonScanner.Scanner.DoBeginString | obfuscate/json_scanner.go:212-222 | The start of a key |
| JsonScanner.Scanner.DoEndValue | obfuscate/json_scanner.go:225-269 | What may follow a value, by the enclosing parse state |
| JsonScanner.Scanner.DoEndTop | obfuscate/json_scanner.go:274-286 | After a document: another one may begin with the same byte; the re-dispatch ends after one turn |
| JsonScanner.Scanner.DoLiteral | obfuscate/json_scanner.go:289-534 | All literal states, dispatched to the three methods below |
| JsonScanner.Scanner.DoStringState | obfuscate/json_scanner.go:289-357 | The states inside a string: closing quote, escapes, four hexadecimal digits, control characters refused |
| JsonScanner.Scanner.DoNumberState | obfuscate/json_scanner.go:358-444 | The states inside a number, each digit, point, exponent and sign |
| JsonScanner.Scanner.DoWordState | obfuscate/json_scanner.go:447-534 | The states inside true, false and null |
| JsonScanner.Scanner.StepByte | obfuscate/json_scanner.go:148-534 | Any byte in any state: exactly the specified step, and the stack stays consistent |
| JsonScanner.Scanner.DoEof | obfuscate/json_scanner.go:107-122 | End of input: exactly when a document is complete is there no error |
| JsonReader.LiteralSound | obfuscate/json_scanner.go:289-534 | In every literal state what has been read is a prefix of a literal of section 6 or 7 of RFC 8259, and the state machine ends it exactly at a complete one |
| JsonReader.AdvanceKeeps | obfuscate/json_scanner.go:148-534 | One step of the scanner and one step of a tree-building reader stay in agreement: the parse stack is the reader's open containers, and the reader's text is the input so far |
| JsonReader.RunKeeps | obfuscate/json_scanner.go:97-534 | After any input without error the partial tree reads back as exactly that input and matches the scanner's state and stack |
| JsonReader.EndOfInput | obfuscate/json_scanner.go:107-122 | eof reports no error only with an empty stack and a complete last literal |
| JsonReader.AcceptedIsStream | obfuscate/json_scanner.go:97-534 | Soundness: accepted input is whitespace and a non-empty sequence of well-formed values, and the tree's text is the input |
| JsonStreams.StreamIsAccepted | obfuscate/json_scanner.go:97-534 | Completeness: every such sequence, in any layout of whitespace, is accepted and read back as the same trees |
| JsonStreams.AcceptsExactlyStreams | obfuscate/json_scanner.go:97-534 | The scanner followed by eof reports no error if and only if the input is whitespace and a non-empty sequence of values per sections 2 to 7 of RFC 8259, a grammar with its own whitespace, digits and escapes, where a number may only abut what cannot continue it |
| JsonStreams.StreamIsUnambiguous | obfuscate/json_scanner.go:97-534 | An accepted input has one reading only: the text determines the trees, whitespace included |
| JsonStreams.AbuttingNumbersCanFail | obfuscate/json_scanner.go:372-443 | Values may not abut freely: 1.5 and 0.5 are numbers, their concatenation is refused |
| JsonObfuscator.EmitFollows | obfuscate/json.go:61-126 | One byte: the two stacks and flags of redactor and scanner stay in step (closures is a fixed prefix and the image of the parse stack) and the output stays the print of the redacted partial tree |
| JsonObfuscator.WipeFollows | obfuscate/json.go:57-126 | The agreement after any accepted prefix of any input |
| JsonObfuscator.WipeIsRedaction | obfuscate/json.go:57-133 | For top-level objects and arrays the streaming output equals the whitespace-free print of the recursive redaction: keys verbatim, every scalar masked unless under a kept key, text after each document copied; for a fresh or resting redactor |
| JsonObfuscator.RedactDocsTwice | obfuscate/json.go:57-133 | Redaction of trees is idempotent and keeps them well-formed |
| JsonObfuscator.WipeTwice | obfuscate/json.go:57-133 | The output is accepted again, and redacting it once more changes nothing |
| JsonLeaves.RedactLeaves | obfuscate/json.go:90-113 | Redaction by paths: every scalar of a value that is not under a kept key becomes a question mark in quotes; the structure, the keys, and the scalars under a kept key stay |
| JsonLeaves.StreamRedacted | obfuscate/json.go:57-133 | Document by document: all whitespace inside goes, what stands behind stays, and the scalars fare as said |
| JsonLeaves.TrimMeans | obfuscate/json.go:106 | A key is compared without all the quotes around it |
| JsonTopLevel.RedactsExactly | obfuscate/json.go:51-126 | Scalars at top level included, the output of a redactor that is not keeping is the redaction if and only if no such scalar is read with the key flag set or the mask taken for written; scalars that spell the mask aside |
| JsonTopLevel.MaskedRun | obfuscate/json.go:51-126 | The flags and the closure stack that such a stream leaves, document by document |
| JsonTopLevel.UnmaskedRun | obfuscate/json.go:51-126 | Otherwise the output differs from the redaction, and no further input mends it |
| JsonTopLevel.NewRedactorMasks | obfuscate/json.go:35-55 | For a new redactor: no two scalars in a row, and none behind the first container if that is an object |
| JsonTopLevel.BareScalarIsCopied | obfuscate/json.go:51-55 | An instance: behind {} a scalar is copied |
| JsonTopLevel.MaskedTwice | obfuscate/json.go:57-133 | Streams with scalars at top level that are all masked: the output is accepted again, and any resting redactor that masks them all changes nothing more |
| JsonKeeping.KeysKept | obfuscate/json.go:61-126 | One byte, scalars at top level included: the key buffer holds the scalars at top level that were taken for keys since the last colon, and behind them the key being read; a kept key is open exactly when one is under keys read in this way |
| JsonKeeping.WipeKeys | obfuscate/json.go:57-126 | The agreement after any input that the scanner has not refused, from any redactor at rest |
| JsonKeeping.LeftKeeping | obfuscate/json.go:57-126 | Any input, up to the first byte refused, leaves a redactor at rest keeping if and only if it ends under a kept key, where the first key of a document has the scalars that were taken for keys in front of it; then it is stuck: no later input can end the keeping |
| JsonKeeping.LeftKeepingClean | obfuscate/json.go:57-126 | Where all scalars at top level are masked the keys are those of the text |
| JsonKeeping.ScalarSpoilsKey | obfuscate/json.go:84-102 | In general they are not: after {}"k"{"": the redactor is stuck if k is kept, although the text ends under the empty key |
| JsonKeeping.StuckCopies | obfuscate/json.go:57-134 | Every call of a stuck redactor returns its input up to the first byte refused, without the whitespace inside documents and unmasked, and leaves the redactor stuck |
| JsonKeeping.StuckForGood | obfuscate/json.go:57-134 | So after any sequence of calls it masks nothing in the next one |
| JsonKeeping.TruncatedInputSticks | obfuscate/json.go:84-103 | Such an input is an object cut off behind a kept key |
| JsonKeeping.NeverKeeping | obfuscate/json.go:84-103 | Without kept keys no input does it |
| JsonObfuscator.Redactor.DoSetKey | obfuscate/json.go:51-55 | Sets the key flag from the innermost closure and clears the wiped flag |
| JsonObfuscator.Redactor.DoEmit | obfuscate/json.go:65-125 | The switch of the loop body, field by field as specified |
| JsonObfuscator.Redactor.Obfuscate | obfuscate/json.go:57-134 | Reports an error exactly when the scanner or its end of input refuses; the output is that of the specified run over the text in front of the first byte refused, followed on an error by an ellipsis, and the fields are left as that run leaves them; an accepted stream of objects and arrays given to a redactor at rest comes out as its redaction |
| JsonObfuscator.Redactor.ReadBytes | obfuscate/json.go:61-126 | The loop stops at the first byte the scanner refuses, having made exactly the specified steps |
| Wire.SignedRoundTrip | model/span.pb.go:122-138 | Sign extension of int64 and int32 to 64 bits and truncation back lose nothing |
| Wire.VarintSize | model/span.pb.go:263-272 | The shift-counting size of a varint is the number of bytes written |
| Wire.VarintRoundTrip | model/span.pb.go:198-206 | Decoding reads back any 64-bit varint from any position and stops right behind it |
| Wire.VarintGroups | model/span.pb.go:198-206 | A varint is the number in groups of seven bits, lowest first, each but the last marked, and as few as possible |
| Wire.VarintMeans | model/span.pb.go:281-294 | Any varint of up to ten bytes, canonical or not, is read as the number its groups stand for, modulo 2^64 |
| Wire.VarintRefused | model/span.pb.go:281-294 | Without an unmarked byte among ten it is too long, or the data ends |
| Wire.LittleEndianByte | model/span.pb.go:180-190 | Fixed words are written lowest byte first |
| Wire.TagTable | model/span.pb.go:297-304 | A tag is eight times the number and the type; ends of groups and numbers that are not positive as 32-bit integers are refused |
| Wire.BytesTable | model/span.pb.go:321-331 | A length of 2^63 or more is refused, and one past the end of the data; otherwise so many bytes are read |
| Wire.BytesRoundTrip | model/span.pb.go:90-95 | Length-prefixed bytes read back |
| Wire.Fixed64RoundTrip | model/span.pb.go:180-190 | Eight little-endian bytes read back |
| Wire.TagRoundTrip | model/span.pb.go:279-302 | A field tag reads back as its number and wire type |
| Wire.SkipMeans | model/span.pb.go:777-880 | Skipping a field of a wire type lands where reading it would |
| Wire.Sov | model/span.pb.go:263-272 | The size loop counts exactly the bytes of the varint |
| Wire.PutVarint | model/span.pb.go:198-206 | The loop writes exactly the varint and touches nothing before it |
| Wire.PutFixed64 | model/span.pb.go:180-190 | The eight stores write exactly the little-endian bytes |
| Wire.GetVarint | model/span.pb.go:281-294 | The shift loop computes the specified varint or its error |
| Wire.GetTag | model/span.pb.go:279-304 | The tag loop computes the specified field number and wire type, or the same error |
| Wire.GetBytes | model/span.pb.go:309-333 | The length and its bytes as specified, with the errors, and the panic of an end that wraps around below zero |
| Wire.GetFixed64 | model/span.pb.go:707-720 | Eight bytes put together, or the end of input |
| Wire.SkipOne | model/span.pb.go:777-875 | skipSpan: its switch over the wire types as specified |
| Wire.SkipFields | model/span.pb.go:837-864 | The loop over the fields of a group ends at its end tag as specified |
| Wire.GetSkip | model/span.pb.go:756-771 | The default branch: an unknown field skipped, or the same error |
| Wire.BytesPanic | model/span.pb.go:321-331 | Reading bytes slices out of range if and only if the length is not negative and, added to the index, passes 2^63 |
| Wire.SkipPanics | model/span.pb.go:777-880 | Skipping does if and only if it is of a group that it takes to a field with such a length, at any depth |
| SpanCodec.SpanSizeIsExact | model/span.pb.go:207-262 | Size predicts the length of the encoding for any span and any order of its maps |
| SpanCodec.SpanRoundTrip | model/span.pb.go:85-179 | Parsing the encoding gives the span back: maps as maps in any key order, doubles as bits, negative int32 and int64 included |
| SpanCodec.SpanMerges | model/span.pb.go:276-776 | Parsing the encoding into a message that holds something already merges the two: written fields win, map entries join |
| SpanCodec.StringTags | model/span.pb.go:85-179 | Service, name, resource and type, alone in a message, are written behind the tags 0a, 12, 1a and 62 |
| SpanCodec.IDTags | model/span.pb.go:85-179 | Trace, span and parent ID behind 20, 28 and 30 |
| SpanCodec.NumberTags | model/span.pb.go:85-179 | Start, duration and error behind 38, 40 and 48, negative ones as 64 bits of two's complement |
| SpanCodec.MapTags | model/span.pb.go:138-172 | Entries of meta and metrics behind 52 and 5a, each a message of its own of key and value |
| SpanCodec.WrongTypes | model/span.pb.go:303-755 | A known field of another wire type than its own is refused |
| SpanCodec.EncodedSpan | model/span.pb.go:85-776 | Any encoding of a span has the predicted size, parses back to it, and merges into any other message |
| SpanCodec.UnknownFieldIgnored | model/span.pb.go:756-771 | An unknown field of any complete wire type is skipped without a trace |
| WireFields.FieldSkipped | model/span.pb.go:777-880 | Skipping lands right behind any field, groups and the groups in them included, whatever follows |
| WireFields.UnknownPassedOver | model/span.pb.go:756-771 | So any such field of an unknown number leaves no trace, wherever it stands |
| SpanCodec.SpanMarshalTo | model/span.pb.go:85-179 | Writes an encoding of the span from an offset on, exactly as long as Size says, leaving the bytes before it |
| SpanCodec.SpanSize | model/span.pb.go:207-262 | The accumulated size is the length of every encoding |
| SpanCodec.SpanMarshal | model/span.pb.go:75-83 | A fresh buffer that is filled exactly and parses back to the span |
| SpanCodec.SpanUnmarshal | model/span.pb.go:276-776 | The field loop computes the specified parse into its receiver, field by field, with the same errors |
| SpanCodec.GetField | model/span.pb.go:303-775 | One field: value stored, entry added, unknown field skipped, or the same error |
| SpanCodec.GetMeta | model/span.pb.go:506-621 | An entry of the string map: length, key, value or none, and the same errors; as in the source a key or value may reach past the entry |
| SpanCodec.GetMetric | model/span.pb.go:622-726 | The same for the metrics |
| SpanCodec.GetEntry | model/span.pb.go:510-531 | The length of an entry: where it begins and ends, or its error |
| SpanCodec.GetKey | model/span.pb.go:532-571 | The key: its tag, which is not looked at, and its bytes |
| SpanCodec.FieldPanics | model/span.pb.go:303-771 | Decoding one field slices out of range if and only if the field has a length that wraps the index around, in a map entry or a skipped group included, whatever the message holds already |
| SpanCodec.DecodingPanics | model/span.pb.go:276-776 | Decoding a span does if and only if it comes to such a field |
| SpanCodec.PutMeta | model/span.pb.go:138-154 | The map loop writes every entry once, in whatever order the keys come |
| SpanCodec.PutMetrics | model/span.pb.go:155-172 | The same for the metrics, values as fixed 64-bit words |
| TraceCodec.TraceRoundTrip | model/trace.pb.go:50-283 | Any encoding of a trace, its spans nested in it, has the predicted size, parses back to the trace, and merges into any other message: spans are appended |
| TraceCodec.TraceTags | model/trace.pb.go:50-83 | Trace ID, spans, start and end time are written behind 08, 12, 30 and 38 |
| TraceCodec.TraceMarshalTo | model/trace.pb.go:50-83 | Writes an encoding of exactly the predicted size |
| TraceCodec.TraceSize | model/trace.pb.go:112-131 | The size of a trace, its spans' sizes included |
| TraceCodec.TraceUnmarshal | model/trace.pb.go:146-283 | The loop computes the specified parse into its receiver, appending the nested spans in order |
| TraceCodec.TraceDecodingPanics | model/trace.pb.go:146-283 | Decoding a trace slices out of range if and only if it comes to a field with a length that wraps around, or to a span whose decoding does |
| TraceCodec.PayloadRoundTrip | model/trace_payload.pb.go:57-336 | Any encoding of a payload with its two repeated nested fields has the predicted size, parses back to it, and merges into any other message |
| TraceCodec.PayloadTags | model/trace_payload.pb.go:57-99 | Host name, environment, traces and transactions behind 0a, 12, 1a and 22 |
| TraceCodec.WrongTypes | model/trace_payload.pb.go:199-336 | A known field of a trace or payload of another wire type than its own is refused |
| TraceCodec.PayloadMarshalTo | model/trace_payload.pb.go:57-99 | Writes an encoding of exactly the predicted size that parses back to the payload |
| TraceCodec.PayloadSize | model/trace_payload.pb.go:128-152 | The loops over both repeated fields add up to the length of every encoding |
| TraceCodec.PayloadUnmarshal | model/trace_payload.pb.go:167-336 | The loop computes the specified parse into its receiver |
| TraceCodec.PayloadDecodingPanics | model/trace_payload.pb.go:167-336 | Decoding a payload does if and only if it comes to such a length, or to a trace or span whose decoding does |
| PayloadSender.RunKeeps | writer/payload.go:193-383 | Over every run: each accepted payload is in exactly one of the success events, the failure events and the queue; deliveries followed by the queue are in arrival order; the size is the queued bytes; positive limits hold; the panics are not reached; not queuing means an empty queue and queuing means a retry is pending |
| PayloadSender.RunTruthful | writer/payload.go:193-383 | Over every run: the success, retry and refusal events are, write by write and in order, what the endpoint answered; every other failure is of a payload too old, too big, or giving way under a limit that is set |
| PayloadSender.FlushWrites | writer/payload.go:298-334 | A flush without recursion: payloads are written from the front until one is answered with a retriable error, each is reported as it was answered, and that one and those behind it stay queued |
| PayloadSender.TickWrites | writer/payload.go:205-206 | A tick, all in all: too old payloads off the front, reported with their age at that look at the clock, then the flush |
| PayloadSender.ExitWrites | writer/payload.go:211-214 | The same on exit |
| PayloadSender.ArriveReports | writer/payload.go:225-253 | An arrival is written at once and reported as answered unless the sender is queuing; a retriable answer queues it |
| PayloadSender.EnqueueReports | writer/payload.go:255-290 | Queueing, all in all: which payloads leave the front for their age, the count and the bytes, each reported with that reason, and that the new one joins the back unless it is too big |
| PayloadSender.ArriveKeeps | writer/payload.go:225-253 | An arrival, sent directly, queued, refused or lost, keeps all of that |
| PayloadSender.FlushKeeps | writer/payload.go:292-335 | So does a flush, on a tick or on exit, whatever the endpoint answers |
| PayloadSender.EnqueueBooked | writer/payload.go:255-290 | Queueing a payload evicts until both limits hold and never panics |
| PayloadSender.DiscardBooked | writer/payload.go:346-368 | Discarding takes payloads off the front only, each reported once |
| PayloadSender.CountEvictsNoMore | writer/payload.go:263-268 | The first eviction loop drops exactly as many as needed to have room for one more |
| PayloadSender.BytesEvictsNoMore | writer/payload.go:278-283 | The second leaves the longest queue that fits: one more payload would break the limit |
| PayloadSender.TickOutcome | writer/payload.go:292-335 | A tick leaves the queue empty and queuing off exactly when no write it makes is answered with a retriable error; otherwise a retry is pending |
| PayloadSender.DiscardLeavesYoung | writer/payload.go:346-368 | The clock is read for every payload looked at; at the time of the last reading discarding leaves no payload older than the limit exactly when the old ones are all in front |
| PayloadSender.NoOldPayloadSurvives | writer/payload.go:346-368 | So if payloads arrive in order of creation, none older than the limit survives a discard, over every run |
| PayloadSender.QueuableSender.constructor | writer/payload.go:180-187 | A new sender is idle |
| PayloadSender.QueuableSender.RemoveQueuedPayload | writer/payload.go:337-343 | Takes the front off and keeps the size equal to the queued bytes |
| PayloadSender.QueuableSender.DropOldestPayload | writer/payload.go:371-383 | Drops and reports the oldest payload, or says that there is none |
| PayloadSender.QueuableSender.DiscardOldPayloads | writer/payload.go:346-368 | The loop discards exactly the old payloads in front |
| PayloadSender.QueuableSender.MakeRoomForOne | writer/payload.go:263-268 | The first eviction loop ends with room for one more; its panic is unreachable |
| PayloadSender.QueuableSender.MakeRoomForBytes | writer/payload.go:278-283 | The second eviction loop ends with room for the bytes; its panic is unreachable |
| PayloadSender.QueuableSender.EnqueuePayload | writer/payload.go:255-290 | Queues or refuses the payload as specified |
| PayloadSender.QueuableSender.SendOrQueuePayload | writer/payload.go:225-253 | Sends directly only when not queuing, and queues on a retriable error |
| PayloadSender.QueuableSender.FlushQueue | writer/payload.go:292-335 | The loop sends from the front and stops at the first retriable error |
| PayloadSender.QueuableSender.Handle | writer/payload.go:198-216 | One pass through the event loop is one specified step |
| PayloadSender.RunSender | writer/payload.go:193-217 | A sender handed any rounds ends in the state of the specified run, with its invariant |
| Traces.ChildrenAre | model/trace.go:73-98 | The children of an ID are exactly the spans that name it as their parent, spans without a parent excepted |
| Traces.ChildrenMap | model/trace.go:73-98 | The map built span by span gives, for every ID, its children in trace order |
| Sublayers.BuildTraceTimestamps | model/sublayers.go:146-161 | The start and end times of the spans, each once, in increasing order |
| Sublayers.BuildTraceActiveSpansMapping | model/sublayers.go:177-207 | At every timestamp exactly the spans running there with no child running there, in trace order |
| Sublayers.SteadyAmong | model/sublayers.go:217-223 | Between neighbouring timestamps the active spans do not change |
| Sublayers.Apportion | model/sublayers.go:229-241 | One interval: each attribute gets its number of active spans times the portion; the map's total grows by what was handed out |
| Sublayers.ComputeDurationByAttr | model/sublayers.go:217-245 | The sweep over intervals gives every attribute its share of every single instant, and in total the time with an active span less what falls to spans without the attribute |
| Sublayers.RunningHasActive | model/sublayers.go:54-59 | With acyclic parent links there is an active span wherever one runs |
| Sublayers.TimeIsConserved | model/sublayers.go:217-245 | With acyclic parent links and the attribute on every span, the durations sum to the length of the union of the spans |
| Sublayers.TimeIsConservedExactly | model/sublayers.go:217-245 | In general they never exceed it, and reach it exactly when every covered instant has an active span and every active span has the attribute |
| Sublayers.CycleLosesTime | model/sublayers.go:190-201 | Two spans naming each other as parents lose all their time |
| Sublayers.DurationsByAttr | model/sublayers.go:96-105 | The three steps together, for any range around the trace |
| Sublayers.ComputeSublayers | model/sublayers.go:96-134 | The values reported: under _sublayers.duration.by_service one for each service field, under by_type one for each type field, tagged sublayer_service and sublayer_type, the duration cut to whole nanoseconds, and the number of spans |
| Sublayers.KeysAreActive | model/sublayers.go:96-134 | A service or type is reported if and only if some span with it is active at some instant |
| Sublayers.ActiveMeans | model/sublayers.go:54-59 | Active are the spans that run while none runs that names them as its parent |
| Sublayers.ReportedTime | model/sublayers.go:96-134 | They add up to the attributed time, and without cycles and empty attributes to the time covered, but for less than a nanosecond for each value |
| Subtraces.RouteUnique | model/trace.go:192-200 | With distinct span IDs a span is reached from the root along one route only |
| Subtraces.ChildIsNew | model/trace.go:192-200 | So the search meets no span twice, cycles included, except by coming back to the root |
| Subtraces.StepExplored | model/trace.go:182-201 | Visiting a span and pushing its unvisited children keeps stack and visited set disjoint, closed and reached along routes |
| Subtraces.StepTabulated | model/trace.go:185-191 | Listing the span under its ancestors lists every visited span exactly once under each top-level span on its route |
| Subtraces.Append | model/trace.go:186 | append: the elements and one more, in the shared backing array if there is room, or in a fresh one |
| Subtraces.AppendPopped | model/trace.go:186 | Appending to the ancestors popped from the top overwrites no ancestor list still on the stack, although siblings share the array |
| Subtraces.ExtractTopLevelSubtraces | model/trace.go:169-208 | Nothing without a root; otherwise terminates on any trace with distinct span IDs, and returns for each reachable top-level span with children one subtrace: the spans whose route passes through it, itself included, each once |
| Subtraces.WorthyMeans | model/trace.go:179-184 | The spans that get a subtrace are the top-level ones that some span names as its parent |
| Subtraces.ExtractFrom | model/trace.go:173-208 | The search itself, with its shared ancestor slices |
| Subtraces.ThroughIsDescends | model/trace.go:169-208 | On an acyclic trace the spans routed through a span are exactly it and its descendants |
| Subtraces.SubtracesAreDescendants | model/trace.go:126-130 | On an acyclic trace each subtrace is its root with all its descendants, each once, and every reachable top-level span with children has one |
| SqlTokenizer.ScanConsumes | obfuscate/sql_tokenizer.go:85-181 | Every scan that does not report the end consumes input, and the end is reported exactly when only blanks are left |
| SqlTokenizer.NumberConsumes | obfuscate/sql_tokenizer.go:325-380 | A number consumes its first digit at least |
| SqlTokenizer.StringConsumes | obfuscate/sql_tokenizer.go:382-407 | Scanning a string never puts input back |
| SqlTokenizer.ScanVerbatim | obfuscate/sql_tokenizer.go:85-181 | Every token that is not quoted, not a hash comment and not an error is exactly the input consumed for it, but for the upper case of keywords |
| SqlTokenizer.NumberVerbatim | obfuscate/sql_tokenizer.go:325-380 | A number's text is exactly the input consumed, whatever its form |
| SqlTokenizer.HashCommentSkipsOne | obfuscate/sql_tokenizer.go:130-132 | A hash comment swallows the character after the hash, which is in no token, and may swallow the line break |
| SqlTokenizer.Tokenizer.ConsumeNext | obfuscate/sql_tokenizer.go:442-449 | Buffers the character and advances; its panic at the end of input is unreachable from every caller |
| SqlTokenizer.Tokenizer.ScanToken | obfuscate/sql_tokenizer.go:85-181 | The scan finds the specified token and text, leaves the specified rest, and moves the position on by the characters it takes |
| SqlTokenizer.Tokenizer.ScanSymbolToken | obfuscate/sql_tokenizer.go:96-180 | So does the switch on other characters, comments, operators and quotes included |
| SqlTokenizer.Tokenizer.ScanNumberToken | obfuscate/sql_tokenizer.go:325-380 | Decimal, octal and hexadecimal numbers with fraction and exponent, and the octal error |
| SqlTokenizer.Tokenizer.ScanMantissa | obfuscate/sql_tokenizer.go:319-323 | Consumes the digits of a base up to 16 and never runs past the end |
| SqlTokenizer.Tokenizer.ScanStringToken | obfuscate/sql_tokenizer.go:382-407 | Doubled delimiters and backslashes, or an error at the end of input |
| SqlTokenizer.Tokenizer.ScanCommentType2Token | obfuscate/sql_tokenizer.go:422-440 | A block comment, or an error at the end of input |
| SqlFilters.TokenConsumer.Process | obfuscate/sql.go:137-182 | Terminates, returns nothing exactly at a lexical error and otherwise what the filter chain writes, and resets everything but the last token |
| SqlFilters.GroupingFilter.Filter | obfuscate/sql.go:86-116 | The counters and the token as specified |
| SqlFilters.HiddenIsErased | obfuscate/sql.go:31-70 | From any state a literal writes nothing or one question mark, and a comment nothing unless it follows SAVEPOINT |
| SqlFilters.OutputIgnoresLiterals | obfuscate/sql.go:137-182 | Non-interference: inputs whose tokens differ only in the text of literals and comments give the same result, from any state of the filters |
| SqlFilters.StringRoundTrip | obfuscate/sql_tokenizer.go:382-407 | Scanning a string written with doubled quotes and escaped backslashes gives the string back, whatever it holds |
| SqlFilters.StringIsErased | obfuscate/sql.go:137-182 | Inputs that begin with a quoted string give the same result whatever the string holds |
| SqlErasure.ScanLocal | obfuscate/sql_tokenizer.go:85-181 | A scan looks no further than one character past its token, for all kinds of tokens: it does not depend on what comes then |
| SqlErasure.QuotedTextIsErased | obfuscate/sql.go:137-182 | So behind any beginning of the input what a quoted string holds changes neither whether the scans come to its quote nor, if they do, the result |
| SqlFilters.FirstGroup | obfuscate/sql.go:86-116 | From fresh counters, consuming a group of any number of literals writes one question mark in parentheses and counts one group |
| SqlFilters.GroupsCollapse | obfuscate/sql.go:82-85 | Consuming any number of groups of any number of literals writes one group of one question mark |
| SqlFilters.NothingAfterTwoGroups | obfuscate/sql.go:106-112 | Once two groups have been counted the filter does not reset: consuming any further tokens without an error writes nothing more |
| SqlFilters.TailAfterGroupsIsLost | obfuscate/sql.go:106-112 | So consuming two or more groups and whatever follows them writes the one group only, or fails where the rest has an error |
| SqlFilters.GroupsQuantized | obfuscate/sql.go:137-182 | And such an input is quantized to ( ? ) |
| SqlFilters.OrdinaryIsWritten | obfuscate/sql.go:106-115 | Consuming an ordinary token writes it, and resets the filter, exactly while fewer than two groups have been counted |
| SqlFilters.NameIsReplaced | obfuscate/sql.go:60-66 | A name is replaced if and only if the token the filters saw before it is SAVEPOINT, and written otherwise |
| SqlFilters.SavepointName | obfuscate/sql.go:31-66 | So consuming SAVEPOINT, comments and semicolons, and a name hides the name exactly when there is none of those between; otherwise the first of them is replaced and the name is written |
| SqlFilters.FilterTable | obfuscate/sql.go:31-70 | What becomes of each kind of token outside of groups, on what is consumed: literals become a question mark, comments, semicolons and AS go, all else is written, with a space unless it is a comma or an equals sign behind a colon |
| SqlFilters.GroupTable | obfuscate/sql.go:86-116 | And inside of groups: further literals, commas and question marks go, and in a second group everything |
| SqlFilters.AliasIsDropped | obfuscate/sql.go:31-47 | Behind AS one token is dropped, whatever it is |
| SqlFilters.SavepointHides | obfuscate/sql.go:60-66 | Behind SAVEPOINT one token is replaced, whatever it is |
| SqlFilters.UnclosedString | obfuscate/sql_tokenizer.go:382-407 | A string whose quote is never closed is an error |
| SqlTokens.WordTable | obfuscate/sql_tokenizer.go:191-205 | Words: the six keywords in any case, and identifiers |
| SqlTokens.BlanksSkipped | obfuscate/sql_tokenizer.go:183-189 | Spaces, tabs and line breaks in front of a token are skipped |
| SqlTokens.LessTable | obfuscate/sql_tokenizer.go:133-149 | Operators that begin with a less sign |
| SqlTokens.MoreTable | obfuscate/sql_tokenizer.go:101-160 | Greater, unequal, and a colon before an equals sign |
| SqlTokens.PlainTable | obfuscate/sql_tokenizer.go:108-128 | Points, slashes and dashes on their own |
| SqlTokens.SingleTable | obfuscate/sql_tokenizer.go:106-107 | The characters that are tokens by themselves |
| SqlTokens.LineCommentTable | obfuscate/sql_tokenizer.go:409-420 | Comments to the end of the line or of the input |
| SqlTokens.BlockCommentTable | obfuscate/sql_tokenizer.go:422-440 | Comments up to the first star and slash |
| SqlTokens.UnclosedTable | obfuscate/sql_tokenizer.go:281-299 | Comments and escape sequences that are never closed are errors |
| SqlTokens.DecimalTable | obfuscate/sql_tokenizer.go:359-380 | Decimal numbers with any fraction and exponent |
| SqlTokens.PointTable | obfuscate/sql_tokenizer.go:325-331 | Fractions with nothing in front of the point |
| SqlTokens.HexTable | obfuscate/sql_tokenizer.go:333-339 | Hexadecimal numbers, with either x |
| SqlTokens.ZeroTable | obfuscate/sql_tokenizer.go:333-380 | Leading zeros: octal numbers, decimal ones if a fraction or exponent follows, and the octal error |
| SqlTokens.QuotedNameTable | obfuscate/sql_tokenizer.go:207-222 | Names in backquotes and double quotes |
| SqlTokens.BindTable | obfuscate/sql_tokenizer.go:301-317 | Named parameters and lists |
| SqlTokens.PreparedTable | obfuscate/sql_tokenizer.go:262-279 | Numbered parameters |
| SqlTokens.FormatTable | obfuscate/sql_tokenizer.go:224-260 | Format parameters of one letter, or with a name |
| SqlTokens.EscapeTable | obfuscate/sql_tokenizer.go:281-299 | Escape sequences in braces |
| SqlTokens.ErrorTable | obfuscate/sql_tokenizer.go:176-179 | The characters no token begins with |
| SqlTexts.LineTokens | obfuscate/sql.go:137-146 | Every word of a line becomes its token, in order, up to the end of the input |
| SqlTexts.LineQuantized | obfuscate/sql.go:137-182 | So what a line is quantized to is what the filters write for the tokens of its words |
| SqlTexts.NumberIsHidden | obfuscate/sql.go:137-182 | An instance: id = 42 comes out as id = ? |
| TraceWriters.TraceWriter.HandleSampledTrace | writer/trace_writer.go:145-177 | Accepts the sampled trace if it holds a span, and sends exactly what the limit forces out: the pending batch if the two do not fit together, the new one if it does not fit alone |
| TraceWriters.TraceWriter.AppendTrace | writer/trace_writer.go:179-188 | Adds the trace and its spans to buffer and count |
| TraceWriters.TraceWriter.AppendTransactions | writer/trace_writer.go:190-197 | Adds the transactions in order |
| TraceWriters.TraceWriter.FlushBuffer | writer/trace_writer.go:204-263 | Sends what is buffered as one batch and empties the buffer |
| TraceWriters.RunWriter | writer/trace_writer.go:119-135 | Over every run the payloads and the buffer are the accepted sampled traces cut into batches, in arrival order, and the buffer stays within the limit |
| TraceWriters.NothingIsLost | writer/trace_writer.go:145-270 | Every trace and every transaction leaves in exactly one payload, in arrival order, or is still buffered |
| TraceWriters.OverTheLimitIsSingle | writer/trace_writer.go:164-176 | A payload above the limit holds exactly one sampled trace |
| TraceWriters.SizeIsWeight | writer/trace_writer.go:181-197 | The spans counted for a batch are the spans in its payload |
| TraceWriters.ToApiTrace | model/trace.go:106-124 | The loop finds the earliest start and the earliest end |
| TraceWriters.EndTimeIsTheEarliest | model/trace.go:106-124 | So the end time sent is the end of the whole trace exactly when all spans end together |
| MetricNames.NormMetricNameParse | model/normalizer.go:187-236 | The in-place parser computes the specified name, which is normal and has no bar |
| MetricNames.NormIsNormal | model/normalizer.go:187-236 | An accepted name consists of letters, digits, dots and underscores, starts with a letter, has no underscore beside a dot, another underscore or the end, and fits the limit |
| MetricNames.NormAccepts | model/normalizer.go:188-202 | A name is accepted exactly when it has a letter and fits the limit |
| MetricNames.NormIsSpelled | model/normalizer.go:187-236 | A normal name has all letters and digits from the first letter on; the characters between two of them stand for as many dots as there are among them, or for one underscore if there are none, and those at the end for their dots alone |
| MetricNames.NormTwice | model/normalizer.go:187-236 | Normalising twice is normalising once |
| TraceNormalizer.Span.Normalize | model/normalizer.go:33-126 | The checks and changes in the source's order: the fields and the verdict are those specified, on every early return too |
| TraceNormalizer.EndCheckWraps | model/normalizer.go:78-91 | The check on the end of a span lets through those that end in time, and those so long that the 64-bit sum wraps around |
| TraceNormalizer.NormalizedIsFit | model/normalizer.go:33-126 | An accepted span has a service, a resource, a normal name without a bar, a duration above zero, a type within its limit, a status code that is valid or absent, and no parent that is itself |
| TraceNormalizer.NormalizedWhen | model/normalizer.go:33-126 | Exactly when a span is accepted, and each of its fields then: the parent is cleared if and only if all three IDs are the same |
| TraceNormalizer.MetaCleaned | model/normalizer.go:102-124 | The environment is normalised as a tag, a status code dropped unless valid, and every other entry kept |
| TraceNormalizer.StatusCodes | model/normalizer.go:166-171 | Valid are the numbers from 100 to 599 in decimal digits, zeros in front allowed |
| TraceNormalizer.NormalizedTwice | model/normalizer.go:33-126 | It is accepted again, unchanged, if the normalisation of tags and texts has that property |
| TraceNormalizer.NormalizeTrace | model/normalizer.go:136-164 | A trace is accepted if and only if it is not empty, its spans have one trace ID and distinct span IDs, none of them zero, and each can be normalised; then each has been, also where spans are the same object |
| TraceNormalizer.AcceptedTrace | model/normalizer.go:128-164 | An accepted trace has what subtraces and the concentrator ask for: distinct span IDs, durations above zero, names without a bar |
| Grains.AssembleGrain | model/statsraw.go:150-184 | The aggregation string and its tags depend on the tag map only, not on the order its keys are met: they are those of its one sorted list of keys |
| Grains.ListsUnique | model/statsraw.go:173 | A set of keys has one sorted list, so equal tag maps aggregate together |
| Grains.LessMeans | model/statsraw.go:173 | The order of the keys: a string comes before its extensions and before those with a larger byte where they first differ |
| Grains.RenderedNext | model/statsraw.go:175-180 | Each tag is written as a comma, its name, a colon and its value |
| Grains.PickTags | model/statsraw.go:192-200 | The tags are the aggregators the span has a value for, the three fixed ones excepted |
| Grains.GrainInjective | model/statsraw.go:150-184 | Without commas in the values, and without commas and colons in the tag names, the whole string determines environment, resource, service and tags |
| Grains.FixedGrainMisread | model/statsraw.go:153-158 | The fixed part has a second reading if and only if an environment or resource holds ',resource:', or a resource or service holds ',service:' |
| Grains.GrainMisread | model/statsraw.go:150-184 | The whole string has a second reading if and only if there are tags, the fixed part has one, or the service ends in what could be a tag |
| Grains.TagsReadAsService | model/statsraw.go:157-181 | With commas the string never determines the tags: a service can spell out any of them |
| Grains.ColonMovesIntoValue | model/statsraw.go:176-180 | A colon in a tag's name can be moved into its value |
| StatsRaw.TruncationError | model/statsraw.go:269-280 | A duration is rounded down by less than one part in 512 |
| StatsRaw.TruncatedToUnit | model/statsraw.go:269-280 | A duration is rounded down to a multiple of the power of two shifted out, of which it holds more than 512 |
| StatsRaw.TruncationWithin1024 | model/statsraw.go:269-280 | The comment's one part in 1024 holds if and only if 1023 times the remainder is at most the multiple; up to 1024 nothing is lost |
| StatsRaw.TruncationCanExceedOneIn1024 | model/statsraw.go:269-270 | It fails for 2051, which loses 3 |
| StatsRaw.NsTimestampToFloat | model/statsraw.go:273-280 | The shift loop rounds down as specified |
| Concentrators.BucketHoldsEnd | cmd/trace-agent/concentrator.go:97 | A span's bucket starts on the grid and holds its end if and only if the end is not negative or lies on the grid |
| Concentrators.BucketIs | cmd/trace-agent/concentrator.go:97 | And it is the one bucket on the grid that holds start plus duration, or for a negative end the one behind it |
| Concentrators.SamplesAre | cmd/trace-agent/concentrator.go:92-106 | What is taken in of a trace are its top-level spans in order, each with its sublayers |
| StatsGroups.HandledDescribed | model/statsraw.go:187-267 | After any spans, every group of a bucket holds exactly what the spans of its name, environment, resource, service and tags add up to: hits, errors, top-level weight, weighted time, and the truncated durations in order; and every sublayer group what its sublayer values do |
| StatsGroups.SameGroup | model/statsraw.go:150-208 | Two spans are counted in one group if and only if they agree in name, environment, resource, service and every aggregator, where commas and colons do not interfere |
| StatsGroups.ExportReports | model/statsraw.go:89-148 | The exported bucket reports those groups under name|hits|aggregate, |errors| and |duration|, with both distributions, the sublayer groups under their metrics, and nothing else |
| StatsRaw.HandledTotal | model/statsraw.go:187-267 | A span and its sublayers add exactly what they weigh to each measure of the bucket, whichever groups they join |
| StatsRaw.HandleSpan | model/statsraw.go:187-208 | Adds the span, and each sublayer, under the aggregation string of its environment, resource, service and tags |
| StatsRaw.AddSpan | model/statsraw.go:210-239 | One span into its group |
| StatsRaw.AddSublayer | model/statsraw.go:241-267 | One sublayer value into its group, cut to an integer |
| Concentrators.TakenResident | cmd/trace-agent/concentrator.go:92-106 | And to all buckets together, whichever bucket it goes to |
| StatsRaw.GrainKeyInjective | model/stats.go:51-53 | Keys of names and measures without a bar determine name, measure and aggregate |
| StatsRaw.GrainKeyMisread | model/stats.go:51-53 | A key has a second reading if and only if the name, the measure or the aggregation string has a bar |
| StatsRaw.ExportNext | model/statsraw.go:91-123 | Exporting one more group overwrites none of the earlier ones and adds exactly its totals |
| StatsRaw.ExportSubNext | model/statsraw.go:124-135 | So does exporting one more sublayer group |
| StatsRaw.SublayerMetrics | model/sublayers.go:112-131 | The metrics that sublayers are reported under hold no bar and are none of the three span measures |
| StatsRaw.Export | model/statsraw.go:89-148 | The exported bucket has exactly the groups and sublayer groups of the raw one, with their counts and distributions, and the same totals of hits, errors, durations, top-level weight and every sublayer metric |
| Concentrators.Concentrator.Add | cmd/trace-agent/concentrator.go:89-109 | Each top-level span goes with its sublayers to the bucket of its start plus duration, others are skipped; every bucket then has exactly the groups of the samples that go to it, and everything accepted is resident or flushed |
| Concentrators.Concentrator.Flush | cmd/trace-agent/concentrator.go:112-140 | Exports and removes exactly the buckets at least two bucket lengths old, each window once, loses nothing, and reports of each window exactly the groups of the samples that went to it |
| Concentrators.RunConcentrator | cmd/trace-agent/concentrator.go:70-140 | Over every run, what the accepted spans and sublayers add up to is what the payloads hold plus what is resident, measure by measure, and the buckets have exactly the groups of the samples that no flush has taken along |
| Concentrators.FlushToPayloads | cmd/trace-agent/concentrator.go:70-78 | The payloads made of a flush hold of every measure exactly what was flushed, and every entry is in one of them |
| StatsWriter.BuildPayloads | writer/stats_writer.go:143-244 | Buckets with fewer entries than the limit leave as they are; others are dealt out round robin in some order of their keys, and no payload has more entries than a positive limit. For buckets of distinct windows every entry leaves in exactly one payload, unchanged |
| StatsWriter.FewestPayloads | writer/stats_writer.go:152-180 | No split of buckets with distinct windows and an entry has fewer payloads than are built |
| StatsWriter.SplitKeepsTotals | writer/stats_writer.go:143-244 | And the payloads of such a split sum up to what the buckets do, under any reading of the counts |
| StatsWriter.TurnsBounded | writer/stats_writer.go:171-195 | Dealing round robin to the rounded-up number of payloads gives none more than the limit |
| StatsWriter.PayloadHolds | writer/stats_writer.go:193-221 | A payload holds exactly the entries dealt to it |
| StatsWriter.CountOfTurn | writer/stats_writer.go:201-205 | Under an entry it holds the count of the first turn that dealt it there, as the result of merging is not stored |
| StatsWriter.LostExactly | writer/stats_writer.go:201-205 | A count is lost if and only if a bucket further left has the same window and key and the two turns agree modulo the number of payloads |
| StatsWriter.PayloadConserves | writer/stats_writer.go:193-221 | What a payload sums up to is what was dealt to it without what was lost, under any reading of the counts |
| StatsWriter.PayloadGathers | writer/stats_writer.go:207-220 | No distribution is lost: what a payload holds for an entry has the values of all that were dealt to it |
| StatsWriter.PayloadSame | writer/stats_writer.go:193-221 | With distinct windows an entry leaves unchanged |
| StatsWriter.DealOut | writer/stats_writer.go:189-223 | The nested loops take every key of every bucket once, in any order, and make exactly the payload maps of those turns; merged counts carry the same key, so merging does not panic |
| StatsWriter.EnterEntry | writer/stats_writer.go:195-220 | One turn: count, distribution and error distribution entered or merged |
| StatsWriter.DealtIsSplit | writer/stats_writer.go:225-242 | With distinct windows the payloads made from the maps are a split of the input |
| Sampling.UnhashHash | sampler/score.go:12 | Multiplying by the hasher modulo 2^64 can be undone: it permutes the trace IDs |
| Sampling.HashUnhash | sampler/score.go:12 | And reaches every 64-bit value |
| Sampling.KeptCount | sampler/score.go:17-22 | A threshold T keeps exactly T of the 2^64 trace IDs |
| Sampling.SampledShare | sampler/score.go:17-22 | A rate in [0, 1] keeps floor(rate * 2^64) of them |
| Sampling.SampledIsMonotone | sampler/score.go:17-22 | What is kept at a rate is kept at every higher rate |
| Sampling.ChainIsProduct | sampler/scoresampler.go:59-67 | Sampling at two rates in turn keeps what sampling once at their product keeps |
| Sampling.ApplySampleRate | sampler/scoresampler.go:59-67 | Records the product of the rates applied so far and decides by it |
| Sampling.SampleTrace | sampler/scoresampler.go:70-99 | The chained decision is that of one sampling at the product of initial rate, signature rate and max-TPS rate, and the recorded rate and the counters move accordingly; an empty trace changes nothing |
| Sampling.MaxTPSRateIsARate | sampler/coresampler.go:153-164 | The extra rate is in (0, 1] |
| Sampling.MaxTPSRateMeans | sampler/coresampler.go:153-164 | With a limit it leaves of the throughput the lesser of the limit and what it is anyway |
| Sampling.ScoresBelowTotal | sampler/memory_backend.go:79-163 | Over every run the scores stay positive and sum to no more than the total |
| Sampling.ReportedScoreBounded | sampler/memory_backend.go:126-163 | With at most k signatures in every period the reported score is at most k per period |
| Sampling.UpperScoreMeans | sampler/memory_backend.go:135-138 | The upper score is never below the throughput of a counter that has settled |
| Sampling.CountsBeforeDecay | sampler/memory_backend.go:79-91 | Until the first decay the scores count signatures and samples |
| Sampling.DecayTable | sampler/memory_backend.go:149-159 | A score survives a decay if more than a hundredth is left of it |
| Sampling.DecayedTotal | sampler/memory_backend.go:149-159 | Decay with its dropped entries shrinks the sum of the scores at least as much as the total |
| Sampling.MemoryBackend.Count | sampler/memory_backend.go:79-84 | Counts a signature |
| Sampling.MemoryBackend.DecayScore | sampler/memory_backend.go:150-163 | The loop divides or deletes every score, and divides the totals |
| Sampling.PreSamplerOnTarget | sampler/presampler.go:122-191 | Over every run with a fixed rate the pre-sampler drops no more than it sees, and what it keeps is the target share of it give or take one largest payload, from below as well as from above |
| Sampling.PreStepTable | sampler/presampler.go:137-191 | What a payload adds to the counters, and that a decay divides them by 1.125 |
| Sampling.PreSampler.SampleWithCount | sampler/presampler.go:137-164 | Counts the payload, and drops it exactly when it counts it as dropped |
| Sampling.PreSampler.DecayScore | sampler/presampler.go:183-191 | Divides the three counters |

## Left out

- Floating point: values, weights, rates and durations by attribute are real numbers, so rounding, NaN and the infinities are not modelled; `int(2*EPSILON*N)` and `int(EPSILON*N)` are floor(N/50) and floor(N/100).
- Machine limits: lengths of buffers and strings stay below 2^63 (`Fits` in the codecs), and start plus duration of a span does not overflow behind the normaliser (TraceNormalizer.EndCheckWraps says which accepted spans overflow).
- SliceSummaries.SliceSummary.Merge: merging a summary into itself is excluded here; SliceSummaries.MergeIntoItself models its loop on the shared array, without the compression behind it.
- GKEntries.QuantileAccuracy: the bound for every input is the one the code meets, three times EPSILON above the rank, not the doc comment's EPSILON; GKBounds.QuantileAccurateExactly says when that one holds.
- JSON: bytes are characters; error messages, offsets, `undo` and `redo` of the scanner are not modelled.
- JsonTopLevel.RedactsExactly: streams with a top-level scalar that spells the mask itself; copying it is masking it, but it stays in the key buffer.
- SpanCodec.SpanUnmarshal: messages are values in the parser, so what an error leaves in the receiver is not modelled.
- TraceCodec.TraceUnmarshal: the same, with the half-decoded span at the end.
- TraceCodec.PayloadUnmarshal: the same, with the half-decoded trace or span at the end.
- Codecs: the bitwise or of disjoint seven-bit groups is addition; groups are skipped as the generated code does, but nothing writes them.
- TraceNormalizer.NormalizeTrace: normalising tags, repairing UTF-8 and the clock are parameters; error messages.
- PayloadSender.QueuableSender.Handle: the length of the backoff delay is not modelled.
- Subtraces.ExtractTopLevelSubtraces: the order of the spans within a subtrace, and traces with duplicate span IDs, where the source tells spans apart by their address and which TraceNormalizer.NormalizeTrace refuses.
- SqlFilters.TokenConsumer.Process: what is done with the result on the span (`obfuscateSQL`).
- Concentrators.Concentrator.Add: names hold no bar, as TraceNormalizer.AcceptedTrace guarantees, and sublayer metrics are those of Sublayers.ComputeSublayers or alike; an empty env, on which the source panics, is excluded; raw buckets are values in the concentrator's map, where the source holds pointers to them.
- StatsRaw.Export: the tag sets of the counts are left out; a distribution is the sequence of inserted values; the sketch that stands for it is modelled separately.
- StatsWriter.BuildPayloads: buckets that share a window but carry different keys in their counts, for which the source panics when they meet in a payload; sharing of sketches between payloads and input.
- TraceWriters.TraceWriter.FlushBuffer: serialisation is total and compression is not modelled.
- Sampling.SampleTrace: negative rates, whose conversion to an unsigned integer the language leaves open; computing signatures and their rates from scores (powers and logarithms), and `adjustCoefficients`.
- HTTP receiver, listeners, statsd, logging, configuration, watchdog and info pages: input and output around the parts above.
- Redis, memcached and HTTP obfuscation, services metadata, the randomised skip list and `WeighSummary`: easier members or random.
