# snowflake-sql-api, verified

A Dafny model of a client for the Snowflake SQL API, with proofs of what its batch writes, its retries, its polls and
its result decoding promise. `dafny verify dfyconfig.toml` checks everything.

**The service.** `Server.dfy` is the statement service as a relation over steps. A request may be lost before or after it
acts, answered garbled, or answered with any status; a running statement may finish at any later moment, either way. What
is assumed of the service is small and stands in two predicates. `EffectOk`: a `retry=true` submission under an id already
in the retained history does not execute again (docs/troubleshooting.md:178-183). `ReplyOk`: 200 on a submission or a poll
means the statement committed, 202 that it is known, 422 that it failed, and 400, 401 or 403 that this one POST did not run
(docs/batch-writes.md:122-127). Everything else about an answer is arbitrary. What a request inserts is what the service
reads in its bytes: `Payload.Interpret` decodes UTF-8 (RFC 3629 section 3), parses JSON (RFC 8259 sections 4 and 7), scans
the quoted identifiers of the INSERT text, and takes the bindings by their keys.

**The client.** Classes and loops follow the source: `BatchPlanner` (`Planner.dfy`), `BatchExecution` (`Execution.dfy`),
the retry loop `Wire.Send` (`Transport.dfy`), the polls (`SyncPoll.dfy`, `AsyncPoll.dfy`), `insert_batches`
(`InsertBatches.dfy`), the streaming generators (`Streaming.dfy`) and the fake server (`FakeServer.dfy`). Each method is
tied to a specification function or predicate, and what matters is proved about those. The environment (network, clock,
signing, other tasks) is an arbitrary sequence of choices; `EveryEventCanHappen` shows that no event the service allows
is missed.

**Main results.**
- `Client.InsertBatches`: a normal return leaves the table extended by exactly the source's rows, each once, in order; a
  `BatchWriteError` leaves it extended by the confirmed rows and then by nothing or exactly the failed batch, as the
  outcome says, also whatever finishes later (`FateStays`). `UnknownIsHonest` shows why `unknown` cannot be avoided.
- `FewestStatements`: no other in-order split of the rows within both caps needs fewer statements.
- `ContentSize`, `SpliceIsContent`: the running size is the exact length, and the spliced bytes the exact bytes, of the
  compact JSON payload, so the budget check at batches.py:234-238 never fires.
- `OutcomeIsSound`, `OutcomeExactly`, `ConfirmedExactly`, `SubmitThenResubmits`: what each outcome says is true of the service
  after every interleaving, each outcome, phase and confirmation is reported exactly when the POSTs, the handles seen and the
  service's last word call for it, and one id starts at most
  one execution over any number of retries, resubmissions and restarts.
- `CancelsItsOwn`, `CancelledErrorSurvives`, `WaitEndsProperly`, `Terminates`: the asynchronous poll, wherever
  cancellations land.
- `InterpretPayload`, `ScanQuoted`: the bytes sent determine settings, table, columns and rows; quoted names cannot be broken out of.
- `StreamExactly`, `FetchAllPartitions`, `StreamingIsEager`, `ChunksHold`, `TzRoundTrip`, `QueryFake`: the result path and its codecs.

**Where the code and its documentation part.** testing.py:144 calls the wire encoding the exact inverse of the decoder. For
`timestamp_tz` that fails for an aware datetime whose offset lies strictly between -24:00 and -23:59, and for one so close
to year 1 that rounding its offset down to minutes leaves the calendar: both encode, and decoding raises (`TzCanFail`,
`TzCanUnderflow`). `TzRoundTrip` gives the exact condition under which a value comes back, and what it comes back as.

`Inside(k)` is a predicate that always holds; a fact stated under it is carried through proofs unopened, which keeps them
quick, and means exactly what stands inside.

## Model

| member | source | states |
|---|---|---|
| InsertBatches.Client.InsertBatches | snowflake_sql_api/client.py:442-496 | Over every source, service behaviour and hook: a normal return leaves the table extended by exactly the source rows, in order, each once, in the table parts, columns and session settings asked for, by batches that tile the source and are cut where the greedy packing cuts; a BatchWriteError reports contiguous confirmed progress and leaves the table extended by the confirmed rows plus nothing or exactly the failed batch, per outcome; the rows consumed are the confirmed ones, those of the failed batch and the one held back, if any, exactly, so at most max_rows beyond the confirmed; the hook is called once for each batch handed out and stops the run exactly when it raises; a configuration error sends and reads nothing. The log is that of the exchanges made: one for each confirmed batch, ending with a 200 whose count its summary reports, and for a service error one more, which ended in no such answer, carrying the failed batch's rows within both caps and ending with the verdict reported |
| InsertBatches.StoppedExactly | snowflake_sql_api/client.py:492-493 | For an error from the service, the attempts, the outcome and the phase reported are exactly those that the failed batch's exchange in the log, by its POSTs, the handles seen and the service's last word, calls for |
| InsertBatches.SentAsReported | snowflake_sql_api/client.py:491-496 | Each summary reports the count in the last answer of its exchange, a 200; the service stopped the run only at an exchange that did not end in a 200 with a count |
| InsertBatches.AllConfirmedReturns | snowflake_sql_api/client.py:468-496 | If every exchange confirmed its batch, only the source or the hook can have stopped the run |
| InsertBatches.FateStays | docs/batch-writes.md:153-165 | Whatever statement settles after the error, what the outcome says of the table stays true, and for every outcome but unknown nothing is left that could change it |
| InsertBatches.FewestStatements | snowflake_sql_api/batches.py:189-227 | After a normal return, no other in-order split of the same rows into batches of at most max_rows rows and max_bytes bytes of body uses fewer statements |
| InsertBatches.BatchReads | snowflake_sql_api/batches.py:165-180 | The service, reading a batch's bytes, finds exactly the batch's rows for the asked table parts and columns, under the session's own settings |
| InsertBatches.BatchLands | snowflake_sql_api/client.py:468-494 | One batch, through any run of POSTs, polls and cancel: the table has grown by exactly its rows if its statement committed and not at all otherwise, and the way it ended says truly which |
| InsertBatches.Client.SendBatch | snowflake_sql_api/client.py:473-493 | One batch is submitted under a fresh id with its prepared bytes, polled as owned if running, and ends confirmed with the service's count or with the classifier's verdict on what was raised; the polls keep to the statement timeout, counted from the answer to the submission |
| InsertBatches.Client.Deliver | snowflake_sql_api/client.py:468-495 | A planned batch is announced, sent and confirmed, or the error raised says what became of it; a raising hook stops before anything is sent |
| InsertBatches.Client.Turn | snowflake_sql_api/client.py:468-495 | One turn of the loop keeps the table equal to the confirmed rows and the planner standing after them, ends only with the whole source loaded, or raises as specified |
| Execution.OutcomeIsSound | snowflake_sql_api/batches.py:250-298 | Over every interleaving of lost and retried answers, signing failures, polls and settlements: confirmed or succeeded means committed, failed means neither running nor committed, not_executed means the id never entered the history |
| Execution.OutcomeExactly | snowflake_sql_api/batches.py:272-298 | For every way a batch can break off, exactly when each outcome is reported, from the number of POSTs and the service's last word: succeeded after 200, failed after 422 and at most one POST, not_executed with no POST or one that was answered 400, 401 or 403; and the phase is execution exactly if the submission was answered 200, or 202 with some handle seen, or the last word was 422 |
| Execution.ConfirmedExactly | snowflake_sql_api/client.py:482-495 | A batch is confirmed with a count exactly if the last answer, to the last poll or else to the submission, was a 200 that reported that count |
| Execution.PollsExactly | snowflake_sql_api/client.py:482-490 | A batch is polled exactly if its submission was answered 202 and some answer carried a handle; every poll but the last was answered 202, and one cancel follows exactly if the last was too |
| Execution.HandleExactly | snowflake_sql_api/transport.py:65-68 | A submission that was answered has a handle exactly if one of its answers, retried ones included, carried one |
| Execution.RetriedIsUnknown | snowflake_sql_api/batches.py:283-297 | The reported attempts are the number of POSTs; with two or more, an error is unknown or succeeded; failed and succeeded occur only in phase execution; the phase is submission or execution |
| Execution.UnknownIsHonest | docs/batch-writes.md:122-140 | For every retry policy that tries at all there are two runs the client cannot tell apart, one in which the batch never ran and one in which it committed, and both are classified unknown |
| Execution.FailedBatchHandle | snowflake_sql_api/batches.py:272-282 | The handle reported with a failed batch: the submission's if it was not polled; else a nonempty handle of the poll's error, and otherwise the submission's, which is so kept exactly when the poll's error carried none or the same |
| Execution.PollErrorReplacesHandle | snowflake_sql_api/batches.py:274-282 | A legal run in which the submission yields one handle, a poll's 404 carries another, and the second is reported |
| Execution.BatchTracks | snowflake_sql_api/client.py:473-493 | After any run of one batch the table is the old one plus the batch's rows exactly if its statement committed, and nothing else is running |
| Execution.RejectedSubmission | snowflake_sql_api/batches.py:283-296 | When the submission itself raises, not_executed means it never ran and failed that it neither runs nor committed |
| Execution.PollSawEnd | snowflake_sql_api/client.py:263-265 | A poll that returned saw its own statement committed, and one that raised the service's 422 saw it failed |
| Execution.PolledVerdict | snowflake_sql_api/client.py:483-490 | After a poll, the verdict is in phase execution, never not_executed, and true of the statement the handle names |
| Execution.BatchExecution.Received | snowflake_sql_api/batches.py:264-270 | The class keeps handle and attempts, enters phase execution when finished or when a handle is known, and notes success |
| Execution.BatchExecution.Error | snowflake_sql_api/batches.py:272-298 | The class computes the verdict whose truth OutcomeIsSound proves, keeping attempts and handle when the cause has none |
| Planner.BatchPlanner.NextBatch | snowflake_sql_api/batches.py:182-239 | The buffered, incrementally sized planner hands out exactly the batch that row-by-row growth judging whole serialised bodies gives, with exactly its rows as params and bytes, having consumed those and one row more exactly if the batch is not full and the source not at its end; or it reports the first fault with what was consumed |
| Planner.BatchPlanner.Assemble | snowflake_sql_api/batches.py:229-239 | The body built is the serialised payload of the batch and within the byte cap, so the budget error is unreachable |
| Planner.BatchPlanner.Weigh | snowflake_sql_api/batches.py:205-224 | The arithmetic size test refuses a row exactly if its one-row body is too long, holds it back exactly if the extended body is, and otherwise keeps the buffers those of the extended batch |
| Planner.BatchPlanner.NextRecord | snowflake_sql_api/batches.py:135-163 | Pulling a record: input errors before counting, validation errors after; nothing is pulled after exhaustion |
| Planner.BatchPlanner.Take | snowflake_sql_api/batches.py:192-197 | The lookahead row, if any, is used before the source, and either way it is the next row of the stream |
| Planner.BatchPlanner.Confirm | snowflake_sql_api/batches.py:241-247 | Confirming appends one summary that starts where the last ended and keeps the summaries tiling the confirmed rows |
| Planner.CreatePlanner | snowflake_sql_api/batches.py:83-113 | Which settings are refused, as which error, and that a planner starts with nothing read and both caps as given |
| Planner.RunningSizeFaithful | snowflake_sql_api/batches.py:203-222 | For every plan the running size judges every batch as the length of its whole serialised body does |
| Planner.PlanCapsHereditary | snowflake_sql_api/batches.py:218-224 | Every contiguous part of a batch that fits both caps fits them too |
| Planner.CapsExactly | snowflake_sql_api/batches.py:189-239 | A batch is within the caps exactly if it can be sent, has rows of the width, at least one and at most max_rows, and its whole body is at most max_bytes long |
| Planner.TiledSnoc | snowflake_sql_api/batches.py:241-247 | Appending the next summary keeps indices and start rows contiguous from zero and adds its rows to the total |
| Packing.GrowMaximal | snowflake_sql_api/batches.py:189-227 | Every emitted batch is within the caps and has max_rows rows, or ends the source, or one more row would break a cap |
| Packing.GrowStop | snowflake_sql_api/batches.py:146-163 | A stop is at the first unusable item, with only good records before it, and tells input faults from validation faults |
| Packing.GrowNotDone | snowflake_sql_api/batches.py:197-229 | The planner reports the end exactly when the source has ended and nothing is buffered |
| Packing.GreedyStaysAhead | snowflake_sql_api/batches.py:189-227 | Greedy cuts are never behind those of any other split |
| Packing.GreedyIsOptimal | snowflake_sql_api/batches.py:189-227 | For caps under which parts of fitting batches fit, a greedy split has no more pieces than any other |
| Packing.CutsSplit | snowflake_sql_api/batches.py:189-227 | Where the planner cuts a whole source is a split within the caps and a greedy one |
| Packing.PlanIsOptimal | snowflake_sql_api/batches.py:189-227 | The planner's cuts of a whole source are as few as any split's |
| Body.SpliceIsContent | snowflake_sql_api/batches.py:165-180 | Splicing the encoded statement, cached context and row fragments gives the compact JSON bytes of the whole payload, for every session, empty context included, and every batch |
| Body.ContentSize | snowflake_sql_api/batches.py:198-239 | The running size is, at every row count, the length of the body that would be sent |
| Body.FragmentsText | snowflake_sql_api/batches.py:165-169 | The joined fragments are the serialised bindings of all rows, keyed from 1 in order |
| Body.FragmentGrows | snowflake_sql_api/batches.py:216-218 | Moving a row to a later offset never shortens its fragment |
| Body.SizePart | snowflake_sql_api/batches.py:198-224 | A contiguous part of a batch, re-encoded from key 1, is never longer than the batch |
| Body.FeasiblePart | snowflake_sql_api/batches.py:189-227 | Every contiguous part of a batch within both caps is within both caps |
| Payload.BuildPayload | snowflake_sql_api/_client_base.py:112-131 | Filling the payload key by key succeeds exactly when every value can be bound, and gives statement, context and bindings in that order, under each key exactly what SaysAll lists: the sql, each setting of the session exactly when given, TIMEZONE over the caller's own parameters, the bindings exactly when there are values |
| Payload.PayloadSaysAll | snowflake_sql_api/_client_base.py:112-131 | Looking up the keys of any payload finds the statement, the session's own timeout, database, schema, warehouse, role and parameters, each exactly when given, and the bindings |
| Payload.FindContext | snowflake_sql_api/_client_base.py:114-128 | The context holds each setting under its own key and nothing under any other |
| Payload.ContextSettings | snowflake_sql_api/_client_base.py:114-128 | The settings read back from the context are the session's: timeout as the number, the four names, and as parameters the caller's with TIMEZONE replaced or added, absent exactly when there are none |
| Payload.FindPut | snowflake_sql_api/_client_base.py:124-126 | Assigning a key changes what is found under that key and no other, whether it was there or not |
| Payload.InsertStatement | snowflake_sql_api/_client_base.py:137-157 | Succeeds exactly for a column list with rows of its width and quotable names, or no rows, which give nothing; each refusal and its error; the INSERT text reads back as the table parts, columns and row count, with the values row by row |
| Payload.InterpretPayload | snowflake_sql_api/_client_base.py:112-157 | Whatever the session, names and rows, the bytes of the payload determine the session's settings, the table, the columns and the rows again |
| Payload.FindBinding | snowflake_sql_api/bindings.py:93-100 | The binding under the decimal key of a 1-based position is that position's value; no two positions share a key |
| Payload.ReadBindings | snowflake_sql_api/bindings.py:93-100 | Reading the bindings by key from any position gives back the values in order |
| Payload.ChunkFlatten | snowflake_sql_api/_client_base.py:145-152 | Cutting the flat values by the width gives back the rows |
| Json.ReadWrite | snowflake_sql_api/batches.py:68-71 | Parsing compact JSON text, as json.dumps with these options writes it, gives back the value and stops where it ends |
| Json.ReadStringEscape | snowflake_sql_api/batches.py:68-71 | A string's escapes (RFC 8259 section 7) read back as the string |
| Utf8.DecodeEncode | snowflake_sql_api/batches.py:68-71 | Decoding the UTF-8 bytes of any text gives back the text |
| Utf8.EncodeConcat | snowflake_sql_api/batches.py:171-180 | Encoding piece by piece is encoding the whole |
| Escaping.QuoteIdentifier | snowflake_sql_api/escaping.py:17-36 | Accepts exactly the nonempty names without NUL, and tells the empty name from the other refusal |
| Escaping.ScanQuoted | snowflake_sql_api/escaping.py:17-36 | Scanning the text that quote_identifier returns, before any text not starting with a quote, recovers exactly the name and the rest |
| Escaping.ScanQuotedList | snowflake_sql_api/escaping.py:39-51 | Scanning a list of quoted identifiers recovers the names, in order, and the rest |
| Escaping.QuoteListError | snowflake_sql_api/escaping.py:39-51 | A list is refused with the error of its first name that is refused |
| Escaping.ScanQuotedName | snowflake_sql_api/escaping.py:39-51 | A quoted dotted name scans back to its dot-separated parts, which join to the name |
| Escaping.JoinSplit | snowflake_sql_api/escaping.py:51-51 | Splitting a name at dots and joining the parts with dots gives the name |
| Escaping.SplitHasNoDots | snowflake_sql_api/escaping.py:51-51 | No part of a split name holds a dot |
| Escaping.ReadInsertText | snowflake_sql_api/_client_base.py:153-157 | The INSERT text for accepted names parses back to exactly the table parts, the column list and the row count |
| Escaping.ReadRepeated | snowflake_sql_api/_client_base.py:154-155 | The VALUES text reads as so many tuples of so many question marks |
| Digits.ParseIntStr | snowflake_sql_api/bindings.py:67-67 | Reading the decimal text of any integer gives the integer |
| Digits.StrInjective | snowflake_sql_api/bindings.py:100-100 | Different positions have different binding keys |
| Digits.StrLengthMonotone | snowflake_sql_api/batches.py:165-169 | Binding keys of later positions are never shorter |
| Digits.ValPadded | snowflake_sql_api/testing.py:151-152 | Zero-padded digits denote their number |
| Transport.Wire.Send | snowflake_sql_api/transport.py:239-293 | The retry loop with its counters and retained handle returns or raises exactly what the run of attempts it made amounts to, and that run is finished: retried while retryable, at most max_attempts times |
| Transport.EveryEventCanHappen | docs/batch-writes.md:122-140 | Every event the service relation allows is what some choice of the environment leads to |
| Server.AtMostOnce | docs/troubleshooting.md:178-183 | Whatever happens between them, submissions of which only the first lacks retry=true start at most one execution, and the id is in the history exactly if one of them executed |
| Server.RunTracks | docs/troubleshooting.md:178-183 | From a quiet service, any run of one submission's requests leaves the table extended exactly if the statement committed |
| Server.OnlyFailures | docs/batch-writes.md:122-127 | If every submission under an id was ignored or failed, nothing of it runs or committed |
| Server.HandlesNameId | snowflake_sql_api/transport.py:65-68 | Every handle an answer to a submission carried names that submission's statement from then on |
| Server.SettleTracks | docs/batch-writes.md:161-165 | A statement finishing later keeps the table in step with its fate |
| Submissions.WireContract | snowflake_sql_api/transport.py:249-294 | All POSTs of a submission carry the same id and body, every one after the first retry=true, the first exactly for a resubmission; submission_attempts is their number and at most max_attempts |
| Submissions.RetriedAndRaised | snowflake_sql_api/transport.py:82-118 | A request is sent again exactly after no answer or a retryable status, until max_attempts; a run ends in a response for 200 and 202, in the exception of the status for 401, 403, 422 and any other, in exhausted retries, or in a signing or decoding failure; GETs and cancels repeat the same request |
| Submissions.KnownHandleIsLatest | snowflake_sql_api/transport.py:275-280 | The retained handle is the latest nonempty one in a retried answer, or there was none |
| Submissions.HandleRetained | snowflake_sql_api/transport.py:281-293 | The final handle is the last answer's own if nonempty, else the retained one; GETs and cancels never inherit one |
| Submissions.HandleNamesStatement | snowflake_sql_api/transport.py:65-68 | The handle a submission ends with names its own statement on the service |
| Submissions.SubmitThenResubmits | snowflake_sql_api/client.py:500-545 | One submission and any number of later resubmissions, polls, cancels and other statements, across clients and policies, start the statement at most once |
| Submissions.SubmitHandle | snowflake_sql_api/client.py:524-545 | submit and resubmit: which ids are refused before anything is sent, that the whole run uses one id, that a missing handle is an error, and which errors carry the id |
| Submissions.HandedExactly | snowflake_sql_api/client.py:524-545 | submit and resubmit hand back the latest handle in any answer and the id, exactly if the last answer was a final 200 or 202 and some answer carried a handle; an exception carries the id exactly if it is no signing or decoding failure, and a missing handle is a request error |
| SyncPoll.Poll | snowflake_sql_api/client.py:245-278 | Every poll but the last found the statement running and was answered before start + wait, the wait being the timeout given or else 600 seconds; the last one's result or error is passed on, unless it found the statement running too: then it was answered at or past start + wait, and the timeout is raised after one cancel if owned and none otherwise; all sleeps between polls but the last fit into the wait |
| SyncPoll.Ask | snowflake_sql_api/client.py:262-278 | One turn: an error or a finished statement ends the poll with no cancel; a running one ends it exactly if its answer came at or past the deadline |
| SyncPoll.GiveUp | snowflake_sql_api/client.py:270-276 | A cancel is sent once if owned and never otherwise, and how it fared is only noted |
| SyncPoll.CancelErrorExactly | snowflake_sql_api/client.py:270-276 | The noted failure of a cancel: none exactly if it was answered 200 or 202, else with the status of its last answer |
| SyncPoll.ReturnedIsFinished | snowflake_sql_api/client.py:263-265 | A returned response is a 200 answer to the last poll, never a running one |
| AsyncPoll.AsyncClient.Poll | snowflake_sql_api/aclient.py:207-243 | The code, await by await, does what the machine does on the same inputs, with the timeout given or else 600 seconds, and ends as it does, clock, cancellations, abandoned set and cancelled tasks included |
| AsyncPoll.AsyncClient.PollUntil | snowflake_sql_api/aclient.py:217-225 | The loop leaves the machine at its result, at the timeout's cancel, or at the wait after a cancellation |
| AsyncPoll.AsyncClient.GiveUp | snowflake_sql_api/aclient.py:226-243 | From there the code ends as the machine does: a cancellation, even during the timeout's cancel, outlives the timeout |
| AsyncPoll.AsyncClient.CancelAfterTaskCancel | snowflake_sql_api/aclient.py:72-95 | The wait loop ends where the machine's wait ends, absorbing every further cancellation, with the abandoned set and the cancelled tasks those of the machine |
| AsyncPoll.AsyncClient.Await | snowflake_sql_api/aclient.py:217-243 | Each await ends as the machine allows, with callbacks of abandoned requests running meanwhile |
| AsyncPoll.AsyncClient.SettleCancel | snowflake_sql_api/aclient.py:66-69 | A settled request leaves the abandoned set |
| AsyncPoll.CancelsItsOwn | snowflake_sql_api/aclient.py:217-243 | Over every run: an unowned poll issues no cancel; an owned one that returns or fails issues none, that times out exactly one, and that is cancelled one, or two if the timeout's own was cut off |
| AsyncPoll.CancelledErrorSurvives | snowflake_sql_api/aclient.py:237-243 | A poll that has ended raised CancelledError exactly if one reached it; the timeout never replaces it |
| AsyncPoll.EndsAsAnswered | snowflake_sql_api/aclient.py:217-243 | Over every run: the poll returns exactly if it was told of a finished statement, raises exactly if a poll failed, and gives up exactly if a poll found the statement running at or past the deadline; the timeout notes a cancel as made or failed exactly as that was answered |
| AsyncPoll.RunSafe | snowflake_sql_api/aclient.py:217-243 | The invariant of every run: cancels counted, cancel task and location in step, a timeout only past the deadline, the abandoned set holding exactly the unsettled request |
| AsyncPoll.WaitEndsProperly | snowflake_sql_api/aclient.py:84-95 | The bounded wait ends only with its request done and not cancelled, or with the deadline passed, the request's task cancelled, and in the abandoned set until it settles |
| AsyncPoll.AbandonedUntilSettled | snowflake_sql_api/aclient.py:60-69 | Another poll's abandoned request stays in the set exactly until it settles, and is never cancelled by this one |
| AsyncPoll.WaitIsBounded | snowflake_sql_api/aclient.py:78-95 | However many cancellations it absorbs, the wait is over 5,000,000,000 ns after the first, if its timer is prompt |
| AsyncPoll.Terminates | snowflake_sql_api/aclient.py:88-95 | Every run has at most so many awaits as the time left and the cancellations still to come allow |
| AsyncPoll.RunClock | snowflake_sql_api/aclient.py:217-243 | After any run the clock stands at the start plus what the awaits took, and as many fewer cancellations are pending as arrived |
| AsyncPoll.Unblock | snowflake_sql_api/aclient.py:217-243 | Every await of a poll that has not ended can end without a cancellation |
| Streaming.RowStream.Next | snowflake_sql_api/pagination.py:76-99 | Resuming the generator yields the next row of those left, or stops, or raises where draining does; after any yield exactly the partitions up to the one holding that row were fetched, each once and in order; a stream that stopped asked for exactly 1 to count - 1 |
| Streaming.StreamExactly | snowflake_sql_api/pagination.py:76-99 | A whole stream is the rows of partitions 0 to count - 1, of the first alone if count is 0, converted one by one and in order; or it ends at the first row that cannot be converted or the first partition that does not arrive or holds no array, raising that |
| Streaming.StreamingIsEager | snowflake_sql_api/pagination.py:43-51 | If every partition arrives and holds an array, streaming yields the rows query returns, in order, and where a row fails to convert both raise the same |
| Streaming.MissingDataDiffers | snowflake_sql_api/pagination.py:39-69 | When partitions hold arrays or nothing and rows convert, eager fetching succeeds, and streaming does exactly if no array is missing, then with the same rows |
| Streaming.FetchAllPartitions | snowflake_sql_api/pagination.py:43-51 | Eager fetching returns the rows of partitions 0 to count - 1, of the first alone if count is 0, one after the other, having asked for exactly 1 to count - 1 in order; or the failure of the first partition that does not arrive or cannot be listed, having asked up to that one |
| Streaming.FetchedExactly | snowflake_sql_api/pagination.py:39-51 | Fetching so many partitions gives the rows each is listed as, concatenated, absent data being none, or the first failure |
| Streaming.CoercedExactly | snowflake_sql_api/pagination.py:72-73 | Converting rows succeeds exactly if each converts, then to these in order, and else with the error of the first that does not |
| Streaming.BatchStream.Next | snowflake_sql_api/client.py:346-359 | A full batch is yielded having asked for no row beyond it; a shorter one only at the end and nonempty; an exception loses fewer than batch_size rows |
| Streaming.DrainBatches | snowflake_sql_api/client.py:346-359 | All batches together are the row stream in runs of batch_size, apart from what an exception cost |
| Streaming.ChunksHold | snowflake_sql_api/client.py:346-359 | Runs of a size concatenate to the rows; all but the last have exactly that size and the last is nonempty |
| Temporal.EpochRoundTrip | snowflake_sql_api/testing.py:162-177 | Decoding the wire string of any signed number of microseconds gives it back, those between -1 s and 0 included |
| Temporal.DecodeTruncates | snowflake_sql_api/types.py:76-99 | Any signed decimal with a fraction decodes to its total nanoseconds over a thousand, truncated toward zero, digits after the ninth being dropped |
| Temporal.DecodeWhole | snowflake_sql_api/types.py:76-99 | A signed decimal without fraction decodes to its seconds |
| Temporal.TimestampRoundTrip | snowflake_sql_api/types.py:118-128 | Every datetime comes back from its wire string |
| Temporal.TzRoundTrip | snowflake_sql_api/types.py:131-138 | An encodable aware datetime decodes exactly if its offset is not below -23:59 and its wall clock less the offset's seconds beyond whole minutes stays in range; then the instant is preserved and the offset rounded down to minutes, unchanged if whole |
| Temporal.TzCanFail | snowflake_sql_api/testing.py:226-233 | A concrete aware datetime, 23:59:59 behind UTC, that encodes and does not decode |
| Temporal.TzCanUnderflow | snowflake_sql_api/testing.py:226-233 | Another, one second behind UTC at the start of year 1 |
| Temporal.NoOffsetIsUtc | snowflake_sql_api/types.py:131-136 | A timestamp_tz cell without an offset decodes to its instant in UTC, exactly if that is in range |
| Temporal.TimeRoundTrip | snowflake_sql_api/types.py:106-115 | Every time of day comes back from its wire string |
| Temporal.DecodeTime | snowflake_sql_api/types.py:106-115 | A decoded time is a valid time of day |
| Temporal.DecodeTimeExactly | snowflake_sql_api/types.py:106-115 | A signed decimal decodes to its whole seconds modulo a day and its fraction cut to microseconds, and raises exactly if it is negative with a fraction of a microsecond or more |
| Temporal.BoundTimestampReturns | snowflake_sql_api/bindings.py:44-57 | A datetime bound in nanoseconds and returned in seconds with nine fraction digits decodes unchanged |
| Temporal.BoundTzReturns | snowflake_sql_api/bindings.py:51-57 | An aware datetime bound and returned decodes exactly when its offset, rounded to minutes, is under a day and in range, then to the same instant and an offset at most half a minute away |
| Temporal.BoundParts | snowflake_sql_api/bindings.py:51-56 | The two numbers of a bound aware datetime are its instant in nanoseconds and its rounded offset plus 1440 |
| Temporal.HalfToEven | snowflake_sql_api/bindings.py:54-54 | An offset halfway between two minutes is bound as the even one |
| FakeServer.Split | snowflake_sql_api/testing.py:329-339 | Exactly the asked number of chunks, whose concatenation is the rows, each with the ceiling of rows over partitions as long as there are any left; a count below one raises |
| FakeServer.FakeSnowflake.Register | snowflake_sql_api/testing.py:361-381 | The statement looks up a result with these rows in this many partitions; no other statement is affected |
| FakeServer.FakeSnowflake.RegisterMatch | snowflake_sql_api/testing.py:383-396 | A predicate registered gives its result to every matching statement that had none, and changes no other lookup |
| FakeServer.FakeSnowflake.RegisterError | snowflake_sql_api/testing.py:403-424 | The statement looks up the error; no other statement is affected |
| FakeServer.FakeSnowflake.FirstMatchExactly | snowflake_sql_api/testing.py:483-489 | Among predicates the first registered that holds decides |
| FakeServer.FakeSnowflake.OnSubmit | snowflake_sql_api/testing.py:495-516 | A submission gets a new handle; a registered error is answered with its status, otherwise 202 exactly if it is asynchronous or has polls to run, else 200 with the first partition and the number of partitions; a statement not registered is a setup error that leaves the state alone |
| FakeServer.FakeSnowflake.OnGet | snowflake_sql_api/testing.py:518-536 | A GET serves a partition in range, counts down the running polls, then serves the result; anything else is a setup error |
| FakeServer.SubmitFake | snowflake_sql_api/transport.py:255-287 | Submitting to the fake under any retry policy: max_attempts requests and exhausted retries if the registered status is retryable, else one request and its answer |
| FakeServer.GetFake | snowflake_sql_api/transport.py:255-287 | A GET likewise, from the state of its handle; an unknown handle or partition is the fake's own error, after one request |
| FakeServer.PollFake | snowflake_sql_api/client.py:260-278 | Polling the fake takes its registered number of running polls and one more, retried if 200 is retryable, or ends past the deadline with a cancel |
| FakeServer.FetchFake | snowflake_sql_api/pagination.py:43-51 | Fetching from the fake gives all registered rows in order with one request per further partition, none out of range |
| FakeServer.QueryFake | snowflake_sql_api/testing.py:495-547 | A query through the fake, under any retry policy, returns all registered rows in order in the exact number of requests, unless the poll ran past its deadline; a registered error is retried max_attempts times if its status is retryable and raised after one request otherwise, but a 200 gives an empty result and a 202 the fake's unknown-handle error; an unregistered statement is the fake's own error |
| FakeServer.FetchedFlatten | snowflake_sql_api/pagination.py:43-51 | Eager fetching and streaming, as modelled for any result set, both give on the fake's partitions the rows that fetching from the fake gives |

## Left out

- InsertBatches.Client.InsertBatches: assumes that no other statement is running when it starts and that nobody else writes to the table, so that the table contents can be stated; and that ids from `uuid4` are fresh, modelled by a counter.
- InsertBatches.Client.SendBatch: what the `on_query` hook is told is not modelled, only whether it raises; the affected-row count is an arbitrary number or an error, read from the answer by `_rows_affected`, and is not compared with the rows inserted.
- Server.AtMostOnce: the retained history is unlimited; nothing is said of an id the service has forgotten. The documentation promises deduplication for a successfully executed statement; the model assumes it for every statement in the history, running and failed ones included. A POST acts when it is sent or never: one that reaches the service only after a later `retry=true` POST of the same id, unmarked as it is, is excluded, and there at-most-once would not follow.
- Transport.Wire.Send: backoff, jitter and Retry-After only pass an arbitrary amount of time.
- SyncPoll.Poll: every request takes at least one tick, so that a poll with interval zero ends; time is a whole number of nanoseconds, not a float. The text of notes on the timeout is not modelled.
- AsyncPoll.Terminates: counts on finitely many cancellations, each delivered at an await, and on polls that take at least one tick.
- AsyncPoll.WaitIsBounded: needs a prompt timer, as an event loop that stalls can overrun any deadline.
- Payload.BuildPayload: a bound value is a type tag and a text, and a value the binder or the encoder rejects (lone surrogates included) is `Unbindable`; session parameters hold strings, numbers, booleans, null and objects but no arrays; a non-string object key is not modelled, nor is a name or setting with lone surrogates, which a Dafny string cannot hold.
- Planner.CreatePlanner: limits are integers; the refusal of booleans and other types is not modelled.
- Json.ReadWrite: numbers are literal text; NaN and infinities count as unserialisable, as the encoder refuses them.
- Temporal.DecodeTime: like all of the decoder, reads `int()` on plain ASCII digits with a sign; blanks and underscores, which Python also takes, are errors here. Fixed, float, text, boolean, binary, date and VARIANT cells are not modelled.
- Temporal.BoundTimestampReturns: that the service renders nanoseconds as seconds with nine digits is the result format of types.py:7-14, not something the client does.
- Streaming.StreamingIsEager: conversion of a row is an arbitrary function that may fail; memory release and generator finalisation are not modelled.
- Streaming.StreamExactly: the number of partitions is given; reading it from the metadata is not modelled.
- Streaming.BatchStream.Next: a batch size that is not a positive integer is refused before anything happens (exports.py:15-21) and is excluded by precondition.
- FakeServer.QueryFake: rows are given as encoded for the wire, and predicates do not raise; asynchronous submission through the fake is covered by `OnSubmit` only. The fake is an object that answers, not a relation over choices, so it is polled by `PollFake` rather than by `SyncPoll.Poll`.
- KeyboardInterrupt and other exceptions outside `Exception`: they leave `insert_batches` without a BatchWriteError by design.
- HTTP, TLS, JWT signing, response JSON parsing, account names, environment, CLI, CSV and JSONL export, exception pickling: plumbing; a request is an event with an outcome.
- The asynchronous twins of the transport, pagination and `insert_batches`: line for line the same as the synchronous ones, modelled once.
