/** `_BatchExecution`: what is known of one batch while it is sent, and the verdict when that breaks off. */
module Execution {
  import opened Wrappers
  import opened Packing
  import opened Planner
  import opened Server
  import opened Transport
  import opened SyncPoll
  import opened Submissions

  datatype Progress = Progress(failed: FailedBatch, phase: BatchPhase, succeeded: bool)

  function Begun(index: nat, startRow: nat, rowCount: nat, id: Id): Progress {
    Progress(FailedBatch(index, startRow, rowCount, id, None, 0), Submission, false)
  }

  function Acknowledged(p: Progress, handle: Option<string>, attempts: Option<nat>, running: bool): Progress {
    Progress(
      p.failed.(handle := handle, attempts := if attempts.Some? then attempts.value else 0),
      if !running || handle.Some? then Execution else p.phase,
      !running)
  }

  /** `isinstance(cause, SnowflakeRequestError)`. */
  predicate IsRequestError(kind: ErrorKind) {
    kind in {RequestError, ForbiddenError, ProgrammingError}
  }

  /** The service said that the one POST it answered did not run. */
  predicate SaysNotRun(cause: Fault) {
    || (cause.kind.AuthError? && cause.status == Some(401))
    || (IsRequestError(cause.kind) && cause.status in {Some(400), Some(401), Some(403)})
  }

  datatype Verdict = Verdict(failed: FailedBatch, phase: BatchPhase, outcome: Outcome)

  function OrHandle(a: Option<string>, b: Option<string>): Option<string> {
    if Nonempty(a) then a else b
  }

  function Judged(p: Progress, cause: Fault): Verdict {
    var attempts := if cause.attempts.Some? then cause.attempts.value else p.failed.attempts;
    var handle := OrHandle(OrHandle(cause.handle, cause.causeHandle), p.failed.handle);
    Verdict(
      p.failed.(attempts := attempts, handle := handle),
      if cause.kind.ProgrammingError? then Execution else p.phase,
      if p.succeeded then Succeeded
      else if attempts > 1 then Unknown
      else if cause.kind.ProgrammingError? then Failed
      else if p.phase.Submission? && (cause.attempts == Some(0) || SaysNotRun(cause)) then NotExecuted
      else Unknown)
  }

  class BatchExecution {
    var failed: FailedBatch
    var phase: BatchPhase
    var succeeded: bool

    function Now(): Progress
      reads this
    {
      Progress(failed, phase, succeeded)
    }

    constructor (index: nat, startRow: nat, rowCount: nat, id: Id)
      ensures Now() == Begun(index, startRow, rowCount, id)
    {
      failed := FailedBatch(index, startRow, rowCount, id, None, 0);
      phase, succeeded := Submission, false;
    }

    method Received(handle: Option<string>, attempts: Option<nat>, running: bool)
      modifies this
      ensures Now() == Acknowledged(old(Now()), handle, attempts, running)
    {
      failed := failed.(handle := handle, attempts := if attempts.Some? then attempts.value else 0);
      if !running || handle.Some? {
        phase := Execution;
      }
      succeeded := !running;
    }

    method Error(cause: Fault) returns (outcome: Outcome)
      modifies this
      ensures Verdict(failed, phase, outcome) == Judged(old(Now()), cause) && succeeded == old(succeeded)
    {
      var attempts := cause.attempts;
      var handle := OrHandle(cause.handle, cause.causeHandle);
      failed := failed.(
        attempts := if attempts.None? then failed.attempts else attempts.value,
        handle := OrHandle(handle, failed.handle));
      outcome := if succeeded then Succeeded else Unknown;
      if !succeeded && failed.attempts <= 1 {
        if cause.kind.ProgrammingError? {
          phase, outcome := Execution, Failed;
        } else if phase.Submission? && (attempts == Some(0) || SaysNotRun(cause)) {
          outcome := NotExecuted;
        }
      }
      if cause.kind.ProgrammingError? {
        phase := Execution;
      }
    }
  }

  // ---------------------------------------------------------------- one batch, from its first POST to its end

  const NO_HANDLE: Fault := Fault(RequestError, None, None, None, None)
  const NO_COUNT: Fault := Fault(CountError, None, None, None, None)

  datatype BatchEnd = Confirmed(count: nat) | Broken(verdict: Verdict)

  function Counted(p: Progress, count: Option<nat>): BatchEnd {
    match count case Some(n) => Confirmed(n) case None => Broken(Judged(p, NO_COUNT))
  }

  /** What came after the submission: polls of the handle it gave, if the statement was running. */
  datatype Exchange = Exchange(submission: seq<Event>, polling: Option<Polling>)
  {
    function Events(): seq<Event> {
      submission + (if polling.Some? then polling.value.Events() else [])
    }
  }

  /** How one batch is sent, and how that ends. */
  ghost predicate BatchRun(policy: Policy, p: Progress, content: bytes, x: Exchange, end: BatchEnd) {
    var request := Submit(p.failed.requestId, false, content);
    var submitted := Conclude(policy, request, x.submission);
    && Finished(policy, request, x.submission)
    && match submitted
       case Err(fault) => x.polling.None? && end == Broken(Judged(p, fault))
       case Ok(response) =>
         var q := Acknowledged(p, response.Handle(), response.attempts, response.Running());
         if !response.Running() then x.polling.None? && end == Counted(q, response.count)
         else if response.Handle().None? then x.polling.None? && end == Broken(Judged(q, NO_HANDLE))
         else x.polling.Some? && PolledRun(policy, q, response.Handle().value, x.polling.value, end)
  }

  ghost predicate PolledRun(policy: Policy, q: Progress, handle: string, polling: Polling, end: BatchEnd) {
    var r := if StillRunning(policy, handle, polling.last) then Err(TIMED_OUT) else Conclude(policy, Status(handle), polling.last);
    && Ended(policy, handle, true, polling, r)
    && end == match r
              case Err(fault) => Broken(Judged(q, fault))
              case Ok(response) => Counted(q.(succeeded := true), response.count)
  }

  // ---------------------------------------------------------------- what the verdict means on the service

  ghost predicate SubmitsNothing(events: seq<Event>) {
    forall k | 0 <= k < |events| && events[k].Sent? :: !events[k].request.Submit?
  }

  lemma JoinSubmitsNothing(a: seq<Event>, b: seq<Event>)
    requires SubmitsNothing(a) && SubmitsNothing(b)
    ensures SubmitsNothing(a + b)
  {
  }

  lemma {:induction false} WaitingSubmitsNothing(policy: Policy, handle: string, runs: seq<seq<Event>>)
    requires AllRunning(policy, handle, runs)
    ensures SubmitsNothing(Flatten(runs))
  {
    if runs != [] {
      var n := |runs| - 1;
      assert Inside(n);
      forall i: nat {:trigger Inside(i)} | Inside(i) && i < n
        ensures Finished(policy, Status(handle), runs[..n][i]) && StillRunning(policy, handle, runs[..n][i])
      {
        assert runs[..n][i] == runs[i];
      }
      WaitingSubmitsNothing(policy, handle, runs[..n]);
      JoinSubmitsNothing(Flatten(runs[..n]), runs[n]);
    }
  }

  lemma PollingSubmitsNothing(policy: Policy, handle: string, owned: bool, p: Polling, r: Result<Response, Fault>)
    requires Ended(policy, handle, owned, p, r)
    ensures SubmitsNothing(p.Events())
  {
    WaitingSubmitsNothing(policy, handle, p.waiting);
    JoinSubmitsNothing(Flatten(p.waiting), p.last);
    if p.cancel != [] {
      assert p.cancel == [p.cancel[0]];
      FlattenSnoc([], p.cancel[0]);
    }
    JoinSubmitsNothing(Flatten(p.waiting) + p.last, Flatten(p.cancel));
  }

  lemma {:induction false} HandlesKept<T(!new)>(s: State<T>, events: seq<Event>)
    requires Legal(s, events) && SubmitsNothing(events)
    ensures Replay(s, events).handles == s.handles
  {
    if events != [] {
      HandlesKept(s, events[..|events| - 1]);
    }
  }

  /** What the answer that ended a run says of the state it left. */
  lemma LastAnswer<T(!new)>(s: State<T>, events: seq<Event>)
    requires Legal(s, events) && events != []
    requires var ev := events[|events| - 1]; ev.Sent? && ev.reply.Answer? && !ev.request.Cancel?
    ensures
      var ev, s' := events[|events| - 1], Replay(s, events);
      match ev.request
      case Submit(id, _, _) => ev.reply.status == 200 ==> CommittedIn(s', id)
      case Status(h) =>
        && (ev.reply.status == 200 ==> h in s'.handles && CommittedIn(s', s'.handles[h]))
        && (ev.reply.status == 422 ==> h in s'.handles && AbortedIn(s', s'.handles[h]))
      case Cancel(_) => true
  {
  }

  /** A run whose one POST was answered, or that never sent one. */
  lemma AtMostOnePost(policy: Policy, request: Request, events: seq<Event>)
    requires Finished(policy, request, events) && request.Submit? && Posts(events) <= 1
    requires events != [] && !Retried(policy, events[|events| - 1])
    requires events[|events| - 1].Sent? || Posts(events) == 0
    ensures |events| == 1
  {
    WireContract(policy, request, events);
  }

  /** When the submission itself raises, `failed` means nothing of it took effect and `not_executed` that it never ran. */
  lemma RejectedSubmission<T(!new)>(s: State<T>, policy: Policy, p: Progress, content: bytes, events: seq<Event>)
    requires p == Begun(p.failed.index, p.failed.startRow, p.failed.rowCount, p.failed.requestId)
    requires p.failed.requestId !in s.history && Legal(s, events)
    requires Finished(policy, Submit(p.failed.requestId, false, content), events)
    requires Conclude(policy, Submit(p.failed.requestId, false, content), events).Err?
    ensures
      var id, s' := p.failed.requestId, Replay(s, events);
      var v := Judged(p, Conclude(policy, Submit(id, false, content), events).error);
      && !v.outcome.Succeeded?
      && (v.outcome.NotExecuted? ==> id !in s'.history)
      && (v.outcome.Failed? ==> id in s'.history ==> AbortedIn(s', id))
  {
    var id := p.failed.requestId;
    var request := Submit(id, false, content);
    var fault := Conclude(policy, request, events).error;
    WireContract(policy, request, events);
    var v := Judged(p, fault);
    if v.outcome.Failed? {
      AtMostOnePost(policy, request, events);
      OnlyFailures(s, events, id);
    } else if v.outcome.NotExecuted? {
      if Posts(events) > 0 {
        AtMostOnePost(policy, request, events);
      }
      assert forall i | 0 <= i < |events| :: !Executes(events[i], id);
      SubmissionThenMarked(policy, request, events, []);
      assert events + [] == events;
      AtMostOnce(s, events, id);
    }
  }

  /** A poll that returned, or raised the service's 422, saw its statement committed or failed. */
  lemma PollSawEnd<T(!new)>(s: State<T>, policy: Policy, handle: string, p: Polling, r: Result<Response, Fault>, id: Id)
    requires Legal(s, p.Events()) && handle in s.handles && s.handles[handle] == id
    requires Ended(policy, handle, true, p, r)
    requires r.Ok? || r.error.kind.ProgrammingError?
    ensures
      var s' := Replay(s, p.Events());
      if r.Ok? then CommittedIn(s', id) else AbortedIn(s', id)
  {
    PollingSubmitsNothing(policy, handle, true, p, r);
    HandlesKept(s, p.Events());
    NoMoreEvents(Flatten(p.waiting) + p.last);
    var n, k := |p.Events()| - 1, |p.last| - 1;
    assert p.Events()[n] == p.last[k];
    LastAnswer(s, p.Events());
  }

  lemma PolledVerdict<T(!new)>(s: State<T>, policy: Policy, q: Progress, handle: string, p: Polling, end: BatchEnd)
    requires Legal(s, p.Events()) && handle in s.handles && s.handles[handle] == q.failed.requestId
    requires PolledRun(policy, q, handle, p, end) && q.phase.Execution? && !q.succeeded
    ensures
      var id, s' := q.failed.requestId, Replay(s, p.Events());
      match end
      case Confirmed(_) => CommittedIn(s', id)
      case Broken(v) =>
        && v.phase.Execution? && !v.outcome.NotExecuted?
        && (v.outcome.Succeeded? ==> CommittedIn(s', id))
        && (v.outcome.Failed? ==> AbortedIn(s', id))
  {
    var r := if StillRunning(policy, handle, p.last) then Err(TIMED_OUT) else Conclude(policy, Status(handle), p.last);
    if r.Ok? || r.error.kind.ProgrammingError? {
      PollSawEnd(s, policy, handle, p, r, q.failed.requestId);
    }
  }

  /** What a batch's end says of its statement on the service. */
  ghost predicate EndHolds<T(!new)>(s: State<T>, id: Id, end: BatchEnd) {
    match end
    case Confirmed(_) => CommittedIn(s, id)
    case Broken(v) =>
      match v.outcome
      case NotExecuted => id !in s.history
      case Failed => id in s.history ==> AbortedIn(s, id)
      case Succeeded => CommittedIn(s, id)
      case Unknown => true
  }

  /**
   * Outcome soundness, over every interleaving of lost requests, retried statuses, signing failures, polls and late
   * settlements: a confirmed or `succeeded` batch committed, a `failed` one neither runs nor committed, and a
   * `not_executed` one never started.
   */
  lemma OutcomeIsSound<T(!new)>(s: State<T>, policy: Policy, p: Progress, content: bytes, x: Exchange, end: BatchEnd)
    requires p == Begun(p.failed.index, p.failed.startRow, p.failed.rowCount, p.failed.requestId)
    requires p.failed.requestId !in s.history && Legal(s, x.Events())
    requires BatchRun(policy, p, content, x, end)
    ensures EndHolds(Replay(s, x.Events()), p.failed.requestId, end)
  {
    var id := p.failed.requestId;
    var request := Submit(id, false, content);
    var submitted := Conclude(policy, request, x.submission);
    if x.polling.None? {
      assert x.Events() == x.submission;
      if submitted.Err? {
        RejectedSubmission(s, policy, p, content, x.submission);
      } else if submitted.value.status == 200 {
        LastAnswer(s, x.submission);
      }
    } else {
      var polling := x.polling.value;
      ReplaySplit(s, x.submission, polling.Events());
      HandleRetained(policy, request, x.submission);
      HandleNamesStatement(s, policy, request, x.submission);
      var q := Acknowledged(p, submitted.value.Handle(), submitted.value.attempts, true);
      PolledVerdict(Replay(s, x.submission), policy, q, submitted.value.Handle().value, polling, end);
    }
  }

  /** Whatever the run, the table was extended by the batch's rows exactly if its statement committed. */
  lemma BatchTracks<T(!new)>(s: State<T>, policy: Policy, p: Progress, content: bytes, x: Exchange, end: BatchEnd)
    requires Quiet(s) && p.failed.requestId !in s.history && Legal(s, x.Events())
    requires BatchRun(policy, p, content, x, end)
    ensures Tracks(s, Replay(s, x.Events()), p.failed.requestId, content)
  {
    var id := p.failed.requestId;
    var request := Submit(id, false, content);
    var tail := if x.polling.Some? then x.polling.value.Events() else [];
    if x.polling.Some? {
      var handle := Conclude(policy, request, x.submission).value.Handle().value;
      var last := x.polling.value.last;
      var r := if StillRunning(policy, handle, last) then Err(TIMED_OUT) else Conclude(policy, Status(handle), last);
      PollingSubmitsNothing(policy, handle, true, x.polling.value, r);
    }
    WireContract(policy, request, x.submission);
    SubmissionThenMarked(policy, request, x.submission, tail);
    RunTracks(s, x.Events(), id, content);
  }

  /** After two or more POSTs an error never claims the batch failed or was not executed. */
  lemma RetriedIsUnknown(policy: Policy, p: Progress, content: bytes, x: Exchange, end: BatchEnd)
    requires BatchRun(policy, p, content, x, end) && end.Broken?
    requires p == Begun(p.failed.index, p.failed.startRow, p.failed.rowCount, p.failed.requestId)
    ensures end.verdict.failed.attempts == Posts(x.submission)
    ensures Posts(x.submission) >= 2 ==> end.verdict.outcome.Unknown? || end.verdict.outcome.Succeeded?
    ensures end.verdict.outcome.Failed? || end.verdict.outcome.Succeeded? ==> end.verdict.phase.Execution?
    ensures end.verdict.phase.Submission? || end.verdict.phase.Execution?
    ensures end.verdict.failed == p.failed.(handle := end.verdict.failed.handle, attempts := end.verdict.failed.attempts)
  {
    WireContract(policy, Submit(p.failed.requestId, false, content), x.submission);
  }

  /** The status of the answer that ended a run, if an answer not to be retried did. */
  function FinalStatus(policy: Policy, events: seq<Event>): Option<int> {
    if events == [] then None
    else match events[|events| - 1]
      case Unsigned => None
      case Sent(_, _, _, reply) =>
        if reply.Answer? && reply.status !in policy.retryStatuses then Some(reply.status) else None
  }

  /** Some answer carried a nonempty handle. */
  ghost predicate HandleSeen(events: seq<Event>) {
    exists k :: 0 <= k < |events| && events[k].Sent? && events[k].reply.Answer? && Nonempty(events[k].reply.handle)
  }

  /** The service's last word on a batch: to the last poll if there was one, else to the submission. */
  function LastWord(policy: Policy, x: Exchange): Option<int> {
    FinalStatus(policy, if x.polling.Some? then x.polling.value.last else x.submission)
  }

  lemma JudgedByStatus(policy: Policy, request: Request, events: seq<Event>)
    requires Finished(policy, request, events)
    ensures
      var r, status := Conclude(policy, request, events), FinalStatus(policy, events);
      && (r.Ok? <==> status == Some(200) || status == Some(202))
      && (r.Ok? ==> status == Some(r.value.status))
      && (r.Err? ==> (r.error.kind.ProgrammingError? <==> status == Some(422)))
      && (r.Err? ==> (SaysNotRun(r.error) <==> status in {Some(400), Some(401), Some(403)}))
  {
  }

  /** The last answer to a batch was a 200 that reported `n` rows affected. */
  predicate Reports(policy: Policy, x: Exchange, n: nat) {
    var events := if x.polling.Some? then x.polling.value.last else x.submission;
    && events != [] && events[|events| - 1].Sent? && events[|events| - 1].reply.Answer?
    && events[|events| - 1].reply.status == 200 && 200 !in policy.retryStatuses
    && events[|events| - 1].reply.count == Some(n)
  }

  /** A batch is confirmed with a count exactly if the last answer was a 200 that reported that count. */
  lemma ConfirmedExactly(policy: Policy, p: Progress, content: bytes, x: Exchange, end: BatchEnd, n: nat)
    requires BatchRun(policy, p, content, x, end)
    ensures end == Confirmed(n) <==> Reports(policy, x, n)
  {
    var request := Submit(p.failed.requestId, false, content);
    JudgedByStatus(policy, request, x.submission);
    if x.polling.Some? {
      var handle := Conclude(policy, request, x.submission).value.Handle().value;
      JudgedByStatus(policy, Status(handle), x.polling.value.last);
    }
  }

  /** A submission answered 202 has a handle exactly if one of its answers carried one. */
  lemma HandleExactly(policy: Policy, request: Request, events: seq<Event>)
    requires Finished(policy, request, events) && request.Submit? && Conclude(policy, request, events).Ok?
    ensures Conclude(policy, request, events).value.Handle().Some? <==> HandleSeen(events)
  {
    KnownHandleIsLatest(policy, events);
    var n := |events| - 1;
    if HandleSeen(events) {
      var k :| 0 <= k < |events| && events[k].Sent? && events[k].reply.Answer? && Nonempty(events[k].reply.handle);
      if k < n {
        assert Retried(policy, events[k]);
        assert Offers(policy, events[k]);
      }
    }
    if KnownHandle(policy, events).Some? {
      var k :| 0 <= k < |events| && Offers(policy, events[k]);
      assert HandleSeen(events);
    }
  }

  /**
   * Exactly when each outcome is reported: `succeeded` when the last word was 200; else `failed` when it was 422 after at
   * most one POST; else `not_executed` when no POST was sent, or only one, and it was answered 400, 401 or 403;
   * else `unknown`. And the phase is `execution` exactly if the submission was answered 200, or 202 with a handle known
   * by then, or the last word was 422; else `submission`.
   */
  lemma OutcomeExactly(policy: Policy, p: Progress, content: bytes, x: Exchange, end: BatchEnd)
    requires BatchRun(policy, p, content, x, end) && end.Broken?
    requires p == Begun(p.failed.index, p.failed.startRow, p.failed.rowCount, p.failed.requestId)
    ensures
      var outcome, posts, word := end.verdict.outcome, Posts(x.submission), LastWord(policy, x);
      && (outcome.Succeeded? <==> word == Some(200))
      && (outcome.Failed? <==> word == Some(422) && posts <= 1)
      && (outcome.NotExecuted? <==>
            x.polling.None? && (posts == 0 || (posts == 1 && word in {Some(400), Some(401), Some(403)})))
    ensures
      var answered := FinalStatus(policy, x.submission);
      end.verdict.phase
      == if answered == Some(200) || (answered == Some(202) && HandleSeen(x.submission)) || LastWord(policy, x) == Some(422)
         then BatchPhase.Execution else BatchPhase.Submission
  {
    var request := Submit(p.failed.requestId, false, content);
    WireContract(policy, request, x.submission);
    JudgedByStatus(policy, request, x.submission);
    var submitted := Conclude(policy, request, x.submission);
    if submitted.Ok? {
      HandleExactly(policy, request, x.submission);
    }
    if x.polling.Some? {
      JudgedByStatus(policy, Status(submitted.value.Handle().value), x.polling.value.last);
    } else if Posts(x.submission) == 0 {
      assert submitted.Err?;
    }
  }

  /** Every request of a run is `request`. */
  ghost predicate Asks(events: seq<Event>, request: Request) {
    forall k | 0 <= k < |events| && events[k].Sent? :: events[k].request == request
  }

  /**
   * A batch is polled exactly if its submission was answered 202 and some answer carried a handle, and then under the
   * handle it ended with: every poll before the last was answered 202, and if the last one was too, exactly one cancel
   * follows, else none.
   */
  lemma PollsExactly(policy: Policy, p: Progress, content: bytes, x: Exchange, end: BatchEnd)
    requires BatchRun(policy, p, content, x, end)
    ensures x.polling.Some? <==> FinalStatus(policy, x.submission) == Some(202) && HandleSeen(x.submission)
    ensures
      x.polling.Some? ==>
        var polling := x.polling.value;
        var h := HandleOf(Conclude(policy, Submit(p.failed.requestId, false, content), x.submission));
        && h.Some? && Asks(polling.last, Status(h.value))
        && (forall i: nat {:trigger Inside(i)} | Inside(i) && i < |polling.waiting| ::
              Asks(polling.waiting[i], Status(h.value)) && FinalStatus(policy, polling.waiting[i]) == Some(202))
        && |polling.cancel| == (if FinalStatus(policy, polling.last) == Some(202) then 1 else 0)
        && (polling.cancel != [] ==> Asks(polling.cancel[0], Cancel(h.value)))
  {
    var request := Submit(p.failed.requestId, false, content);
    JudgedByStatus(policy, request, x.submission);
    var submitted := Conclude(policy, request, x.submission);
    if submitted.Ok? {
      HandleExactly(policy, request, x.submission);
    }
    if x.polling.Some? {
      var polling, h := x.polling.value, submitted.value.Handle().value;
      JudgedByStatus(policy, Status(h), polling.last);
      RetriedAndRaised(policy, Status(h), polling.last);
      forall i: nat {:trigger Inside(i)} | Inside(i) && i < |polling.waiting|
        ensures Asks(polling.waiting[i], Status(h)) && FinalStatus(policy, polling.waiting[i]) == Some(202)
      {
        JudgedByStatus(policy, Status(h), polling.waiting[i]);
        RetriedAndRaised(policy, Status(h), polling.waiting[i]);
      }
      if polling.cancel != [] {
        RetriedAndRaised(policy, Cancel(h), polling.cancel[0]);
      }
    }
  }

  /** The handle in the last answer of a run, if its last event was an answer. */
  function AnsweredHandle(events: seq<Event>): Option<string> {
    if events != [] && events[|events| - 1].Sent? && events[|events| - 1].reply.Answer?
    then events[|events| - 1].reply.handle else None
  }

  /** The handle an error raised by polling carries: that of its last answer; a timeout carries none. */
  function PollErrorHandle(policy: Policy, handle: string, last: seq<Event>): Option<string> {
    if Conclude(policy, Status(handle), last).Ok? then None else AnsweredHandle(last)
  }

  lemma PollErrorCarries(policy: Policy, handle: string, last: seq<Event>, kept: Option<string>)
    requires Conclude(policy, Status(handle), last).Err?
    ensures
      var fault := Conclude(policy, Status(handle), last).error;
      OrHandle(OrHandle(fault.handle, fault.causeHandle), kept) == OrHandle(AnsweredHandle(last), kept)
  {
  }

  /**
   * The handle reported with a failed batch. Without polls it is the one the submission ended with, if any. After polls it
   * is a nonempty handle of the poll's error, and else the submission's; so the submission's is kept exactly when the last
   * poll raised with no nonempty handle in its answer, or with that same one.
   */
  lemma FailedBatchHandle(policy: Policy, p: Progress, content: bytes, x: Exchange, end: BatchEnd)
    requires BatchRun(policy, p, content, x, end) && end.Broken?
    requires p == Begun(p.failed.index, p.failed.startRow, p.failed.rowCount, p.failed.requestId)
    ensures
      var h := HandleOf(Conclude(policy, Submit(p.failed.requestId, false, content), x.submission));
      && (x.polling.None? && Nonempty(h) ==> end.verdict.failed.handle == h)
      && (x.polling.Some? ==>
            var own := PollErrorHandle(policy, h.value, x.polling.value.last);
            && h.Some? && end.verdict.failed.handle == OrHandle(own, h)
            && (end.verdict.failed.handle == h <==> !Nonempty(own) || own == h))
  {
    var submitted := Conclude(policy, Submit(p.failed.requestId, false, content), x.submission);
    if x.polling.Some? {
      var h, last := submitted.value.Handle(), x.polling.value.last;
      if Conclude(policy, Status(h.value), last).Err? {
        PollErrorCarries(policy, h.value, last, h);
      }
    }
  }

  /** A poll's error can replace the submission's handle: 202 under `a`, then 404 under `b`, reports `b`. */
  lemma PollErrorReplacesHandle<T(!new)>(s: State<T>, policy: Policy, p: Progress, content: bytes, a: string, b: string)
    returns (x: Exchange, end: BatchEnd)
    requires p == Begun(p.failed.index, p.failed.startRow, p.failed.rowCount, p.failed.requestId)
    requires policy.maxAttempts > 0 && 202 !in policy.retryStatuses && 404 !in policy.retryStatuses
    requires a != "" && b != "" && a !in s.handles
    ensures Legal(s, x.Events()) && BatchRun(policy, p, content, x, end) && end.Broken?
    ensures HandleOf(Conclude(policy, Submit(p.failed.requestId, false, content), x.submission)) == Some(a)
    ensures end.verdict.failed.handle == Some(b) && end.verdict.outcome.Unknown?
  {
    var request := Submit(p.failed.requestId, false, content);
    var accepted := Sent(NoChange, request, Starts, Answer(202, Some(a), None));
    var missing := Sent(NoChange, Status(a), Ignored, Answer(404, Some(b), None));
    var polling := Polling([], [missing], []);
    x := Exchange([accepted], Some(polling));
    var q := Acknowledged(p, Some(a), Some(1), true);
    end := Broken(Judged(q, Conclude(policy, Status(a), [missing]).error));
    assert polling.Events() == [missing];
    assert x.Events() == [accepted] + [missing];
    ReplaySnoc(s, [], accepted);
    assert [] + [accepted] == [accepted];
    ReplaySnoc(s, [accepted], missing);
    assert Posts([accepted]) == 1 by {
      assert [accepted][..0] == [];
    }
  }

  // ---------------------------------------------------------------- why `unknown` must exist

  /** `n` attempts whose answers are all lost; only the first may have had an effect. */
  function Losses(request: Request, n: nat, first: Effect): (events: seq<Event>)
    ensures |events| == n
  {
    seq(n, k requires 0 <= k < n => Sent(NoChange, Attempt(request, k), if k == 0 then first else Ignored, Lost))
  }

  lemma {:induction false} LossesReplay<T(!new)>(s: State<T>, request: Request, n: nat, first: Effect)
    requires request.Submit? && EffectOk(s, request, first)
    ensures Legal(s, Losses(request, n, first))
    ensures Replay(s, Losses(request, n, first)) == if n == 0 then s else Apply(s, request, first)
  {
    if n > 0 {
      var events := Losses(request, n, first);
      LossesReplay(s, request, n - 1, first);
      assert events[..n - 1] == Losses(request, n - 1, first);
    }
  }

  lemma {:induction false} LossesSeen(policy: Policy, request: Request, n: nat, first: Effect)
    ensures Posts(Losses(request, n, first)) == n && KnownHandle(policy, Losses(request, n, first)) == None
  {
    if n > 0 {
      LossesSeen(policy, request, n - 1, first);
      assert Losses(request, n, first)[..n - 1] == Losses(request, n - 1, first);
    }
  }

  /**
   * With every answer lost, the client sees the same whether the batch committed or never ran, so no verdict but
   * `unknown` would be right; under every retry policy that tries at all.
   */
  lemma UnknownIsHonest<T(!new)>(s: State<T>, policy: Policy, p: Progress, content: bytes, end: BatchEnd)
    requires policy.maxAttempts > 0 && p.failed.requestId !in s.history && s.read(content).Some?
    requires p == Begun(p.failed.index, p.failed.startRow, p.failed.rowCount, p.failed.requestId)
    ensures
      var id := p.failed.requestId;
      var request := Submit(id, false, content);
      var idle := Exchange(Losses(request, policy.maxAttempts, Ignored), None);
      var done := Exchange(Losses(request, policy.maxAttempts, Commits), None);
      && Legal(s, idle.Events()) && id !in Replay(s, idle.Events()).history
      && Legal(s, done.Events()) && CommittedIn(Replay(s, done.Events()), id)
      && (BatchRun(policy, p, content, idle, end) <==> BatchRun(policy, p, content, done, end))
      && (BatchRun(policy, p, content, idle, end) ==> end.Broken? && end.verdict.outcome.Unknown?)
  {
    var request := Submit(p.failed.requestId, false, content);
    LossesReplay(s, request, policy.maxAttempts, Ignored);
    LossesReplay(s, request, policy.maxAttempts, Commits);
    assert Exchange(Losses(request, policy.maxAttempts, Ignored), None).Events() == Losses(request, policy.maxAttempts, Ignored);
    assert Exchange(Losses(request, policy.maxAttempts, Commits), None).Events() == Losses(request, policy.maxAttempts, Commits);
    LossesConclude(policy, request, Ignored);
    LossesConclude(policy, request, Commits);
  }

  lemma LossesConclude(policy: Policy, request: Request, first: Effect)
    requires policy.maxAttempts > 0 && request.Submit?
    ensures
      var events := Losses(request, policy.maxAttempts, first);
      && Finished(policy, request, events)
      && Conclude(policy, request, events)
         == Err(Fault(RetryError, None, None, Some(policy.maxAttempts), None))
  {
    LossesSeen(policy, request, policy.maxAttempts, first);
  }
}
