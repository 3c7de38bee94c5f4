/** `insert_batches`: plan, send, poll and classify, batch after batch, and what that leaves in the table. */
module InsertBatches {
  import opened Wrappers
  import opened Escaping
  import opened Payload
  import opened Body
  import opened Packing
  import opened Planner
  import opened Server
  import opened Transport
  import opened SyncPoll
  import opened Submissions
  import opened Execution
  import Utf8

  // ---------------------------------------------------------------- what the service stores

  /** A row where an INSERT put it. */
  datatype Placed = Placed(site: Site, row: Row)

  function Place(site: Site, rows: seq<Row>): (placed: seq<Placed>)
    ensures |placed| == |rows|
    ensures forall i | 0 <= i < |rows| :: placed[i] == Placed(site, rows[i])
  {
    seq(|rows|, i requires 0 <= i < |rows| => Placed(site, rows[i]))
  }

  /** The service executes what it reads in the bytes it received. */
  function Placing(content: seq<Utf8.byte>): Option<seq<Placed>> {
    match Interpret(content)
    case None => None
    case Some(reading) => Some(Place(reading.site, reading.rows))
  }

  lemma PlaceConcat(site: Site, a: seq<Row>, b: seq<Row>)
    ensures Place(site, a + b) == Place(site, a) + Place(site, b)
  {
  }

  /** Where a table's name and columns lead, under a session's settings. */
  function SiteOf(session: Session, table: string, columns: seq<string>): Site {
    Site(ReadSettings(ContextFields(session)), Split(table), columns)
  }

  /** The service reads in a batch's bytes exactly the batch's rows, for the table and columns asked for. */
  lemma BatchReads(plan: Plan, table: string, columns: seq<string>, rows: seq<Row>, batch: PreparedBatch)
    requires columns != [] && InsertPrefix(table, columns).Ok?
    requires plan.prefix == InsertPrefix(table, columns).value && plan.width == |columns|
    requires IsBatch(plan, rows, batch)
    ensures Placing(batch.content) == Some(Place(SiteOf(plan.session, table, columns), rows))
    ensures HasSettings(plan.session, SiteOf(plan.session, table, columns).settings)
  {
    InterpretPayload(plan.session, table, columns, rows);
  }

  // ---------------------------------------------------------------- one batch

  /** What sending one batch did to the service, and what its end says of that. */
  ghost predicate Landed<T(!new)>(base: State<T>, s: State<T>, id: Id, content: bytes, rows: seq<T>, end: BatchEnd) {
    base.read(content) == Some(rows) && Tracks(base, s, id, content) && EndHolds(s, id, end)
  }

  lemma BatchLands<T(!new)>(s: State<T>, policy: Policy, p: Progress, content: bytes, rows: seq<T>, x: Exchange, end: BatchEnd)
    requires Quiet(s) && p.failed.requestId !in s.history && Legal(s, x.Events())
    requires p == Begun(p.failed.index, p.failed.startRow, p.failed.rowCount, p.failed.requestId)
    requires BatchRun(policy, p, content, x, end) && s.read(content) == Some(rows)
    ensures Landed(s, Replay(s, x.Events()), p.failed.requestId, content, rows, end)
  {
    OutcomeIsSound(s, policy, p, content, x, end);
    BatchTracks(s, policy, p, content, x, end);
  }

  lemma ConfirmedLanded<T(!new)>(base: State<T>, s: State<T>, id: Id, content: bytes, rows: seq<T>, end: BatchEnd)
    requires Landed(base, s, id, content, rows, end) && end.Confirmed?
    ensures Quiet(s) && s.read == base.read && s.table == base.table + rows
  {
  }

  /** The table after a batch broke off, by its outcome, and all that can still happen to it. */
  ghost predicate Fate<T(!new)>(s: State<T>, id: Id, before: seq<T>, rows: seq<T>, outcome: Outcome) {
    && (forall other | other in s.history && s.history[other].Active? ::
          other == id && outcome.Unknown? && s.read(s.history[other].content) == Some(rows))
    && match outcome
       case NotExecuted => id !in s.history && s.table == before
       case Failed => !CommittedIn(s, id) && s.table == before
       case Succeeded => CommittedIn(s, id) && s.table == before + rows
       case Unknown => s.table == (if CommittedIn(s, id) then before + rows else before)
  }

  lemma BrokenLanded<T(!new)>(base: State<T>, s: State<T>, id: Id, content: bytes, rows: seq<T>, end: BatchEnd)
    requires Landed(base, s, id, content, rows, end) && end.Broken?
    ensures Fate(s, id, base.table, rows, end.verdict.outcome)
  {
  }

  /** Whatever finishes later, each outcome stays true; only `unknown` leaves anything to finish. */
  lemma FateStays<T(!new)>(s: State<T>, id: Id, before: seq<T>, rows: seq<T>, outcome: Outcome, t: Settlement)
    requires Fate(s, id, before, rows, outcome)
    ensures Fate(Settle(s, t), id, before, rows, outcome)
    ensures !outcome.Unknown? ==> Settle(s, t) == s
  {
  }

  // ---------------------------------------------------------------- a whole run

  /** What made a BatchWriteError: the source or a row of it, the `on_query` hook, or the exchange with the service. */
  datatype Cause = AtSource | AtHook | AtService

  datatype InsertError = BadConfig(config: ConfigError) | Stopped(write: BatchWriteError, cause: Cause)

  /** Where to put which rows: the job `insert_batches` was given. */
  datatype Job = Job(plan: Plan, caps: Caps<Row>, site: Site, stream: seq<Item<Row>>)
  {
    /** How many records were pulled for the batches up to one of `count` rows from row `start` on. */
    function Consumed(start: nat, count: nat): nat {
      start + count + Lookahead(plan.maxRows, |stream|, start, count)
    }

    predicate Holds(from: nat, n: nat) {
      from + n <= |stream| && AllRecords(stream[from..from + n])
    }

    /** `n` rows of the source, from row `from` on, placed. */
    function Part(from: nat, n: nat): seq<Placed>
    {
      if Holds(from, n) then Place(site, Rows(stream[from..from + n])) else []
    }
  }

  predicate JobOk(job: Job, table: string) {
    && InsertPrefix(table, job.site.columns) == Ok(job.plan.prefix) && job.site == SiteOf(job.plan.session, table, job.site.columns)
    && job.site.columns != [] && job.plan.width == |job.site.columns| && job.caps.maxRows == job.plan.maxRows
  }

  /** Where each confirmed batch starts, and where the next would. */
  function Starts(completed: seq<Summary>): seq<nat> {
    seq(|completed|, i requires 0 <= i < |completed| => completed[i].startRow) + [TotalRows(completed)]
  }

  /** The confirmed batches are the first that `Grow` cuts from the stream. */
  ghost predicate Packed(caps: Caps<Row>, stream: seq<Item<Row>>, completed: seq<Summary>) {
    && TotalRows(completed) <= |stream|
    && Cuts(caps, stream, 0) == Starts(completed)[..|completed|] + Cuts(caps, stream, TotalRows(completed))
  }

  /** Exactly the first `n` rows of the source have been added to the table, and nothing is running. */
  ghost predicate Loaded(job: Job, table: seq<Placed>, s: State<Placed>, n: nat) {
    forall k: nat {:trigger Inside(k)} | Inside(k) ::
      job.Holds(0, n) && s.table == table + job.Part(0, n) && Quiet(s) && s.read == Placing
  }

  ghost predicate Progressed(job: Job, completed: seq<Summary>) {
    forall k: nat {:trigger Inside(k)} | Inside(k) :: Tiled(completed) && Packed(job.caps, job.stream, completed)
  }

  /** Between batches: the confirmed ones are what the planner cuts first, and their rows are in the table. */
  ghost predicate Standing(job: Job, table: seq<Placed>, s: State<Placed>, completed: seq<Summary>) {
    Progressed(job, completed) && Loaded(job, table, s, TotalRows(completed))
  }

  /** The batch to send next: the rows after those confirmed, as the planner cuts them. */
  ghost predicate IsNext(job: Job, completed: seq<Summary>, batch: PreparedBatch, rows: seq<Row>) {
    forall k: nat {:trigger Inside(k)} | Inside(k) ::
      && TotalRows(completed) <= |job.stream|
      && Grow(job.caps, job.stream, TotalRows(completed), []) == Emit(|rows|)
      && Taken(job.stream, TotalRows(completed), rows) && IsBatch(job.plan, rows, batch)
  }

  /** What a BatchWriteError says and what it leaves behind. */
  ghost predicate StoppedWell(job: Job, table: seq<Placed>, s: State<Placed>, e: BatchWriteError, cause: Cause) {
    && e.nextRow == TotalRows(e.completed) <= |job.stream|
    && e.nextRow <= e.consumed <= e.nextRow + job.plan.maxRows
    && match cause
       case AtSource =>
         && e.failedBatch.None? && e.outcome.NotExecuted? && Standing(job, table, s, e.completed)
         && (e.phase.Input? || e.phase.Validation?)
         && Grow(job.caps, job.stream, e.nextRow, []) == Stop(e.phase, e.consumed)
       case AtHook =>
         && e.failedBatch.None? && e.outcome.NotExecuted? && Standing(job, table, s, e.completed)
         && Grow(job.caps, job.stream, e.nextRow, []).Emit? && e.phase.Validation?
         && e.consumed == job.Consumed(e.nextRow, Grow(job.caps, job.stream, e.nextRow, []).count)
       case AtService =>
         && e.failedBatch.Some? && Progressed(job, e.completed)
         && BrokeOff(job, table, s, e, e.failedBatch.value)
  }

  /** `StoppedWell`, carried unopened. */
  ghost predicate Reported(job: Job, table: seq<Placed>, s: State<Placed>, e: BatchWriteError, cause: Cause) {
    forall k: nat {:trigger Inside(k)} | Inside(k) :: StoppedWell(job, table, s, e, cause)
  }

  lemma Report(job: Job, table: seq<Placed>, s: State<Placed>, e: BatchWriteError, cause: Cause)
    requires StoppedWell(job, table, s, e, cause)
    ensures Reported(job, table, s, e, cause)
  {
  }

  /** The failed batch is the next one cut from the source; its outcome tells what became of exactly its rows. */
  ghost predicate BrokeOff(job: Job, table: seq<Placed>, s: State<Placed>, e: BatchWriteError, failed: FailedBatch) {
    && failed.index == |e.completed| && failed.startRow == e.nextRow <= |job.stream|
    && Grow(job.caps, job.stream, e.nextRow, []) == Emit(failed.rowCount)
    && e.consumed == job.Consumed(e.nextRow, failed.rowCount)
    && job.Holds(0, e.nextRow) && job.Holds(e.nextRow, failed.rowCount)
    && Fate(s, failed.requestId, table + job.Part(0, e.nextRow), job.Part(e.nextRow, failed.rowCount), e.outcome)
    && (e.phase.Submission? || e.phase.Execution?)
    && (e.outcome.Failed? || e.outcome.Succeeded? ==> e.phase.Execution?)
    && (failed.attempts >= 2 ==> e.outcome.Unknown? || e.outcome.Succeeded?)
  }

  lemma TakenPart(job: Job, n: nat, rows: seq<Row>)
    requires Taken(job.stream, n, rows)
    ensures job.Holds(n, |rows|) && job.Part(n, |rows|) == Place(job.site, rows)
    ensures Rows(job.stream[n..n + |rows|]) == rows
  {
    var part := job.stream[n..n + |rows|];
    assert forall i | 0 <= i < |rows| :: part[i] == job.stream[n + i] == Record(rows[i]);
    assert Rows(part) == rows;
  }

  lemma RowsMore(stream: seq<Item<Row>>, n: nat, rows: seq<Row>)
    requires Taken(stream, n, rows) && AllRecords(stream[0..n])
    ensures AllRecords(stream[0..n + |rows|]) && Rows(stream[0..n + |rows|]) == Rows(stream[0..n]) + rows
  {
    var before, all := stream[0..n], stream[0..n + |rows|];
    assert forall i | 0 <= i < n :: all[i] == before[i];
    assert forall i | n <= i < n + |rows| :: all[i] == stream[n + (i - n)] == Record(rows[i - n]);
    assert forall i | 0 <= i < |all| :: Rows(all)[i] == (Rows(before) + rows)[i];
  }

  lemma PartMore(job: Job, n: nat, rows: seq<Row>)
    requires Taken(job.stream, n, rows) && job.Holds(0, n)
    ensures job.Holds(0, n + |rows|) && job.Part(0, n + |rows|) == job.Part(0, n) + Place(job.site, rows)
  {
    RowsMore(job.stream, n, rows);
    PlaceConcat(job.site, Rows(job.stream[0..n]), rows);
  }

  lemma Reassociate<T>(a: seq<T>, b: seq<T>, c: seq<T>)
    ensures a + b + c == a + (b + c)
  {
  }

  lemma LoadMore(job: Job, table: seq<Placed>, s: State<Placed>, n: nat, rows: seq<Row>, s': State<Placed>, m: nat)
    requires Loaded(job, table, s, n) && Taken(job.stream, n, rows) && m == n + |rows|
    requires s'.table == s.table + Place(job.site, rows) && s'.read == s.read && Quiet(s')
    ensures Loaded(job, table, s', m)
  {
    assert Inside(0);
    PartMore(job, n, rows);
    Reassociate(table, job.Part(0, n), Place(job.site, rows));
  }

  lemma PackMore(caps: Caps<Row>, stream: seq<Item<Row>>, completed: seq<Summary>, summary: Summary)
    requires Packed(caps, stream, completed) && summary.startRow == TotalRows(completed)
    requires Grow(caps, stream, TotalRows(completed), []) == Emit(summary.rowCount)
    requires 0 < summary.rowCount && TotalRows(completed) + summary.rowCount <= |stream|
    ensures Packed(caps, stream, completed + [summary])
  {
    var more, start := completed + [summary], TotalRows(completed);
    assert more[..|more| - 1] == completed;
    assert Starts(more)[..|more|] == Starts(completed)[..|completed|] + [start];
    assert Starts(completed)[..|completed|] + ([start] + Cuts(caps, stream, start + summary.rowCount))
        == Starts(completed)[..|completed|] + [start] + Cuts(caps, stream, start + summary.rowCount);
  }

  function ErrorOf(completed: seq<Summary>, consumed: nat, verdict: Verdict): BatchWriteError {
    BatchWriteError(completed, TotalRows(completed), consumed, Some(verdict.failed), verdict.phase, verdict.outcome)
  }

  lemma Progresses(job: Job, completed: seq<Summary>)
    requires Tiled(completed) && Packed(job.caps, job.stream, completed)
    ensures Progressed(job, completed)
  {
  }

  lemma BreaksOff(
    job: Job, table: seq<Placed>, base: State<Placed>, s: State<Placed>, completed: seq<Summary>, consumed: nat,
    batch: PreparedBatch, rows: seq<Row>, v: Verdict)
    requires Standing(job, table, base, completed) && IsNext(job, completed, batch, rows)
    requires consumed == job.Consumed(TotalRows(completed), |rows|)
    requires v.failed.index == |completed| && v.failed.startRow == TotalRows(completed) && v.failed.rowCount == |rows|
    requires Fate(s, v.failed.requestId, base.table, Place(job.site, rows), v.outcome)
    requires v.phase.Submission? || v.phase.Execution?
    requires v.outcome.Failed? || v.outcome.Succeeded? ==> v.phase.Execution?
    requires v.failed.attempts >= 2 ==> v.outcome.Unknown? || v.outcome.Succeeded?
    ensures StoppedWell(job, table, s, ErrorOf(completed, consumed, v), AtService)
  {
    assert Inside(0);
    TakenPart(job, TotalRows(completed), rows);
  }

  /** A batch that broke off leaves what its error says. */
  lemma DeliveredBroken(
    job: Job, name: string, table: seq<Placed>, s: State<Placed>, completed: seq<Summary>, consumed: nat,
    batch: PreparedBatch, rows: seq<Row>, policy: Policy, p: Progress, x: Exchange, end: BatchEnd)
    requires JobOk(job, name) && Standing(job, table, s, completed) && IsNext(job, completed, batch, rows)
    requires consumed == job.Consumed(TotalRows(completed), |rows|)
    requires p == Begun(|completed|, TotalRows(completed), batch.rowCount, p.failed.requestId)
    requires p.failed.requestId !in s.history && Legal(s, x.Events()) && BatchRun(policy, p, batch.content, x, end)
    requires end.Broken?
    ensures StoppedWell(job, table, Replay(s, x.Events()), ErrorOf(completed, consumed, end.verdict), AtService)
  {
    assert Inside(0);
    var placed, s' := Place(job.site, rows), Replay(s, x.Events());
    BatchReads(job.plan, name, job.site.columns, rows, batch);
    BatchLands(s, policy, p, batch.content, placed, x, end);
    BrokenLanded(s, s', p.failed.requestId, batch.content, placed, end);
    RetriedIsUnknown(policy, p, batch.content, x, end);
    BreaksOff(job, table, s, s', completed, consumed, batch, rows, end.verdict);
  }

  lemma OpenNext(job: Job, completed: seq<Summary>, batch: PreparedBatch, rows: seq<Row>)
    requires IsNext(job, completed, batch, rows)
    ensures TotalRows(completed) + |rows| <= |job.stream| && rows != []
    ensures Grow(job.caps, job.stream, TotalRows(completed), []) == Emit(|rows|)
    ensures Taken(job.stream, TotalRows(completed), rows) && IsBatch(job.plan, rows, batch)
  {
    assert Inside(0);
  }

  lemma OpenLoaded(job: Job, table: seq<Placed>, s: State<Placed>, n: nat)
    requires Loaded(job, table, s, n)
    ensures Quiet(s) && s.read == Placing
  {
    assert Inside(0);
  }

  /** A confirmed batch is in the table. */
  lemma DeliveredConfirmed(
    job: Job, name: string, table: seq<Placed>, s: State<Placed>, completed: seq<Summary>,
    batch: PreparedBatch, rows: seq<Row>, policy: Policy, p: Progress, x: Exchange, end: BatchEnd)
    requires JobOk(job, name) && Standing(job, table, s, completed) && IsNext(job, completed, batch, rows)
    requires p == Begun(|completed|, TotalRows(completed), batch.rowCount, p.failed.requestId)
    requires p.failed.requestId !in s.history && Legal(s, x.Events()) && BatchRun(policy, p, batch.content, x, end)
    requires end.Confirmed?
    ensures
      var summary := Summary(|completed|, TotalRows(completed), batch.rowCount, end.count);
      Standing(job, table, Replay(s, x.Events()), completed + [summary])
  {
    OpenNext(job, completed, batch, rows);
    OpenLoaded(job, table, s, TotalRows(completed));
    var placed, s' := Place(job.site, rows), Replay(s, x.Events());
    BatchReads(job.plan, name, job.site.columns, rows, batch);
    BatchLands(s, policy, p, batch.content, placed, x, end);
    ConfirmedLanded(s, s', p.failed.requestId, batch.content, placed, end);
    Extended(job, table, s, completed, rows, s', Summary(|completed|, TotalRows(completed), batch.rowCount, end.count));
  }

  lemma ProgressMore(job: Job, completed: seq<Summary>, summary: Summary)
    requires Progressed(job, completed)
    requires summary.index == |completed| && summary.startRow == TotalRows(completed) && summary.rowCount > 0
    requires TotalRows(completed) + summary.rowCount <= |job.stream|
    requires Grow(job.caps, job.stream, TotalRows(completed), []) == Emit(summary.rowCount)
    ensures Progressed(job, completed + [summary])
    ensures TotalRows(completed + [summary]) == TotalRows(completed) + summary.rowCount
  {
    assert Inside(0);
    TiledSnoc(completed, summary);
    PackMore(job.caps, job.stream, completed, summary);
    Progresses(job, completed + [summary]);
  }

  lemma Extended(
    job: Job, table: seq<Placed>, s: State<Placed>, completed: seq<Summary>, rows: seq<Row>, s': State<Placed>, summary: Summary)
    requires Standing(job, table, s, completed) && summary.index == |completed|
    requires summary.startRow == TotalRows(completed) && summary.rowCount == |rows| > 0
    requires TotalRows(completed) + |rows| <= |job.stream| && Taken(job.stream, TotalRows(completed), rows)
    requires Grow(job.caps, job.stream, TotalRows(completed), []) == Emit(|rows|)
    requires s'.table == s.table + Place(job.site, rows) && s'.read == s.read && Quiet(s')
    ensures Standing(job, table, s', completed + [summary])
  {
    ProgressMore(job, completed, summary);
    LoadMore(job, table, s, TotalRows(completed), rows, s', TotalRows(completed + [summary]));
  }

  lemma HookBroke(
    job: Job, table: seq<Placed>, s: State<Placed>, completed: seq<Summary>, consumed: nat, batch: PreparedBatch, rows: seq<Row>)
    requires Standing(job, table, s, completed) && IsNext(job, completed, batch, rows)
    requires consumed == job.Consumed(TotalRows(completed), |rows|)
    ensures
      var e := BatchWriteError(completed, TotalRows(completed), consumed, None, Validation, NotExecuted);
      StoppedWell(job, table, s, e, AtHook)
  {
    assert Inside(0);
  }

  lemma StopBounds(caps: Caps<Row>, stream: seq<Item<Row>>, n: nat, phase: BatchPhase, consumed: nat)
    requires n <= |stream| && Grow(caps, stream, n, []) == Stop(phase, consumed)
    ensures n <= consumed <= n + caps.maxRows && (phase.Input? || phase.Validation?)
  {
    GrowStop(caps, stream, n, []);
  }

  lemma SourceBroke(
    job: Job, name: string, table: seq<Placed>, s: State<Placed>, completed: seq<Summary>, phase: BatchPhase, consumed: nat)
    requires JobOk(job, name) && Standing(job, table, s, completed) && TotalRows(completed) <= |job.stream|
    requires Grow(job.caps, job.stream, TotalRows(completed), []) == Stop(phase, consumed)
    ensures
      var e := BatchWriteError(completed, TotalRows(completed), consumed, None, phase, NotExecuted);
      StoppedWell(job, table, s, e, AtSource)
  {
    StopBounds(job.caps, job.stream, TotalRows(completed), phase, consumed);
  }

  /** A finished run: every row of the source is in the table, once and in order, batch by batch as planned. */
  ghost predicate AllLoaded(job: Job, table: seq<Placed>, s: State<Placed>, completed: seq<Summary>) {
    && AllRecords(job.stream) && s.table == table + Place(job.site, Rows(job.stream)) && Quiet(s)
    && Tiled(completed) && TotalRows(completed) == |job.stream|
    && Starts(completed) == Cuts(job.caps, job.stream, 0)
  }

  lemma Finishes(job: Job, table: seq<Placed>, s: State<Placed>, completed: seq<Summary>)
    requires Standing(job, table, s, completed) && TotalRows(completed) == |job.stream| && job.caps.maxRows > 0
    ensures AllLoaded(job, table, s, completed)
  {
    assert Inside(0);
    var n := |job.stream|;
    assert job.stream[0..n] == job.stream;
    GrowNotDone(job.caps, job.stream, n, []);
    assert Cuts(job.caps, job.stream, n) == [n];
  }

  /** `cuts` cut `rows`, in order, into statements of at most `maxRows` rows and `maxBytes` bytes. */
  ghost predicate CutsWithin(plan: Plan, rows: seq<Row>, cuts: seq<nat>) {
    && cuts != [] && cuts[0] == 0 && cuts[|cuts| - 1] == |rows|
    && forall i {:trigger cuts[i]} | 0 <= i < |cuts| - 1 ::
         && cuts[i] < cuts[i + 1] <= |rows| && cuts[i + 1] - cuts[i] <= plan.maxRows
         && Batchable(plan, rows[cuts[i]..cuts[i + 1]]) && |Content(plan, rows[cuts[i]..cuts[i + 1]])| <= plan.maxBytes
  }

  /** No way of cutting the same rows, in order, into statements within both caps uses fewer statements. */
  lemma FewestStatements(job: Job, table: seq<Placed>, s: State<Placed>, completed: seq<Summary>, other: seq<nat>)
    requires AllLoaded(job, table, s, completed) && job.caps == CapsOf(job.plan) && Usable(job.plan)
    requires CutsWithin(job.plan, Rows(job.stream), other)
    ensures |completed| + 1 <= |other|
  {
    var rows := Rows(job.stream);
    forall i {:trigger other[i]} | 0 <= i < |other| - 1
      ensures Piece(job.caps, rows, other[i], other[i + 1])
    {
      CapsExactly(job.plan, rows[other[i]..other[i + 1]]);
    }
    PlanCapsHereditary(job.plan);
    PlanIsOptimal(job.caps, job.stream, other);
  }

  lemma Starting(job: Job, s: State<Placed>)
    requires Quiet(s) && s.read == Placing
    ensures Standing(job, s.table, s, [])
  {
    var none: seq<Summary> := [];
    assert Starts(none)[..|none|] == [];
    assert [] + Cuts(job.caps, job.stream, 0) == Cuts(job.caps, job.stream, 0);
    assert s.table + job.Part(0, 0) == s.table;
  }

  /**
   * The polls of an exchange keep to the session's `statement_timeout`, counted from the answer to the submission: all
   * but the last were answered before it ran out, and one that gave up was answered, running, when it had.
   */
  ghost predicate TimedBy(
    session: Session, policy: Policy, handle: Option<string>, x: Exchange, interval: nat, times: seq<int>, start: nat)
  {
    x.polling.Some? ==>
      var wait := if session.timeout.Some? then session.timeout.value * 1_000_000_000 else 600_000_000_000;
      var n, p := start + |x.submission|, x.polling.value;
      && handle.Some? && 0 < n <= |times| && Punctual(policy, handle.value, times, n, p, times[n - 1] + wait)
      && (p.Polls() >= 2 ==> (p.Polls() - 2) * interval < wait)
  }

  /** The submission in `events` was answered with `response`. */
  ghost predicate Acked(policy: Policy, p: Progress, content: bytes, events: seq<Event>, response: Response) {
    var request := Submit(p.failed.requestId, false, content);
    && Finished(policy, request, events) && Conclude(policy, request, events) == Ok(response)
  }

  // ---------------------------------------------------------------- what was sent

  /** One batch that was sent: what was known of it at the start, its bytes, the exchange and how that ended. */
  datatype Sending = Sending(p: Progress, content: bytes, x: Exchange, end: BatchEnd)

  /** The events of all exchanges, one after the other. */
  function LogOf(sent: seq<Sending>): seq<Event> {
    if sent == [] then [] else LogOf(sent[..|sent| - 1]) + sent[|sent| - 1].x.Events()
  }

  lemma LogSnoc(sent: seq<Sending>, s: Sending)
    ensures LogOf(sent + [s]) == LogOf(sent) + s.x.Events()
  {
    assert (sent + [s])[..|sent|] == sent;
  }

  /** `s` sent exactly the `rowCount` rows of the source from `startRow` on, as batch `index`, within both caps. */
  ghost predicate SentFor(job: Job, policy: Policy, index: nat, startRow: nat, rowCount: nat, s: Sending) {
    forall k: nat {:trigger Inside(k)} | Inside(k) ::
      && job.Holds(startRow, rowCount) && Placing(s.content) == Some(job.Part(startRow, rowCount))
      && rowCount <= job.plan.maxRows && |s.content| <= job.plan.maxBytes
      && s.p == Begun(index, startRow, rowCount, s.p.failed.requestId)
      && BatchRun(policy, s.p, s.content, s.x, s.end)
  }

  /** Each confirmed batch was sent, and its exchange ended with the count its summary reports. */
  ghost predicate AllSentFor(job: Job, policy: Policy, completed: seq<Summary>, sent: seq<Sending>) {
    && |sent| == |completed|
    && forall i: nat {:trigger Inside(i)} | Inside(i) && i < |sent| ::
         && SentFor(job, policy, i, completed[i].startRow, completed[i].rowCount, sent[i])
         && sent[i].end == Confirmed(completed[i].rowsAffected)
  }

  lemma AllSentForSnoc(job: Job, policy: Policy, completed: seq<Summary>, sent: seq<Sending>, summary: Summary, s: Sending)
    requires AllSentFor(job, policy, completed, sent)
    requires SentFor(job, policy, |completed|, summary.startRow, summary.rowCount, s)
    requires s.end == Confirmed(summary.rowsAffected)
    ensures AllSentFor(job, policy, completed + [summary], sent + [s])
  {
  }

  /** The failed batch was sent, and its exchange ended with the verdict the error reports. */
  ghost predicate BrokeFor(job: Job, policy: Policy, e: BatchWriteError, s: Sending) {
    && e.failedBatch.Some? && s.end == Broken(Verdict(e.failedBatch.value, e.phase, e.outcome))
    && SentFor(job, policy, |e.completed|, e.nextRow, e.failedBatch.value.rowCount, s)
  }

  /** What was sent, for how the run ended: the confirmed batches and, if the service stopped it, the failed one. */
  ghost predicate SentAll(job: Job, policy: Policy, r: Result<seq<Summary>, InsertError>, sent: seq<Sending>) {
    match r
    case Ok(completed) => AllSentFor(job, policy, completed, sent)
    case Err(BadConfig(_)) => sent == []
    case Err(Stopped(e, cause)) =>
      if cause.AtService?
      then sent != [] && AllSentFor(job, policy, e.completed, sent[..|sent| - 1]) && BrokeFor(job, policy, e, sent[|sent| - 1])
      else AllSentFor(job, policy, e.completed, sent)
  }

  /**
   * Exactly when each outcome and phase is reported, for the exchange that made the error: from the number of POSTs of the
   * failed batch, the answer to its submission and the service's last word on it.
   */
  lemma StoppedExactly(job: Job, policy: Policy, r: Result<seq<Summary>, InsertError>, sent: seq<Sending>)
    requires SentAll(job, policy, r, sent) && r.Err? && r.error.Stopped? && r.error.cause.AtService?
    ensures
      var outcome, x := r.error.write.outcome, sent[|sent| - 1].x;
      var posts, word := Posts(x.submission), LastWord(policy, x);
      && r.error.write.failedBatch.value.attempts == posts
      && (outcome.Succeeded? <==> word == Some(200))
      && (outcome.Failed? <==> word == Some(422) && posts <= 1)
      && (outcome.NotExecuted? <==>
            x.polling.None? && (posts == 0 || (posts == 1 && word in {Some(400), Some(401), Some(403)})))
    ensures
      var x := sent[|sent| - 1].x;
      var answered := FinalStatus(policy, x.submission);
      r.error.write.phase
      == if answered == Some(200) || (answered == Some(202) && HandleSeen(x.submission)) || LastWord(policy, x) == Some(422)
         then BatchPhase.Execution else BatchPhase.Submission
  {
    assert Inside(0);
    var s := sent[|sent| - 1];
    OutcomeExactly(policy, s.p, s.content, s.x, s.end);
    RetriedIsUnknown(policy, s.p, s.content, s.x, s.end);
  }

  /**
   * Each summary reports the count of its exchange's last answer, a 200; and the service stopped the run only at an
   * exchange whose last answer was no 200 that reported a count.
   */
  ghost predicate AsReported(policy: Policy, r: Result<seq<Summary>, InsertError>, sent: seq<Sending>) {
    match r
    case Ok(completed) => AllReported(policy, completed, sent) && |sent| == |completed|
    case Err(BadConfig(_)) => sent == []
    case Err(Stopped(e, cause)) =>
      && AllReported(policy, e.completed, sent) && |sent| == |e.completed| + (if cause.AtService? then 1 else 0)
      && (cause.AtService? ==> forall n: nat {:trigger Inside(n)} | Inside(n) :: !Reports(policy, sent[|sent| - 1].x, n))
  }

  ghost predicate AllReported(policy: Policy, completed: seq<Summary>, sent: seq<Sending>) {
    && |completed| <= |sent|
    && forall i: nat {:trigger Inside(i)} | Inside(i) && i < |completed| ::
         Reports(policy, sent[i].x, completed[i].rowsAffected)
  }

  lemma ReportedIfSent(job: Job, policy: Policy, index: nat, startRow: nat, rowCount: nat, s: Sending, n: nat)
    requires SentFor(job, policy, index, startRow, rowCount, s)
    ensures s.end == Confirmed(n) <==> Reports(policy, s.x, n)
  {
    assert Inside(0);
    ConfirmedExactly(policy, s.p, s.content, s.x, s.end, n);
  }

  lemma AllReportedIfSent(job: Job, policy: Policy, completed: seq<Summary>, sent: seq<Sending>)
    requires AllSentFor(job, policy, completed, sent)
    ensures AllReported(policy, completed, sent)
  {
    forall i: nat {:trigger Inside(i)} | Inside(i) && i < |completed|
      ensures Reports(policy, sent[i].x, completed[i].rowsAffected)
    {
      ReportedIfSent(
        job, policy, i, completed[i].startRow, completed[i].rowCount, sent[i], completed[i].rowsAffected);
    }
  }

  lemma SentAsReported(job: Job, policy: Policy, r: Result<seq<Summary>, InsertError>, sent: seq<Sending>)
    requires SentAll(job, policy, r, sent)
    ensures AsReported(policy, r, sent)
  {
    match r
    case Ok(completed) => AllReportedIfSent(job, policy, completed, sent);
    case Err(BadConfig(_)) =>
    case Err(Stopped(e, cause)) =>
      if cause.AtService? {
        var k := |sent| - 1;
        AllReportedIfSent(job, policy, e.completed, sent[..k]);
        forall n: nat {:trigger Inside(n)} | Inside(n)
          ensures !Reports(policy, sent[k].x, n)
        {
          ReportedIfSent(job, policy, |e.completed|, e.nextRow, e.failedBatch.value.rowCount, sent[k], n);
        }
      } else {
        AllReportedIfSent(job, policy, e.completed, sent);
      }
  }

  /** What a stopped run returns. */
  lemma ComesToStop(
    job: Job, policy: Policy, table: seq<Placed>, s: State<Placed>, e: BatchWriteError, cause: Cause,
    earlier: seq<Event>, sent: seq<Sending>, log: seq<Event>)
    requires Reported(job, table, s, e, cause) && Told(job, policy, e, cause, earlier, sent, log)
    ensures StoppedWell(job, table, s, e, cause) && log == earlier + LogOf(sent)
    ensures SentAll(job, policy, Err(Stopped(e, cause)), sent) && AsReported(policy, Err(Stopped(e, cause)), sent)
  {
    OpenReported(job, table, s, e, cause);
    SentAsReported(job, policy, Err(Stopped(e, cause)), sent);
  }

  lemma OpenReported(job: Job, table: seq<Placed>, s: State<Placed>, e: BatchWriteError, cause: Cause)
    requires Reported(job, table, s, e, cause)
    ensures StoppedWell(job, table, s, e, cause)
  {
    assert Inside(0);
  }

  lemma SendingMade(
    job: Job, name: string, completed: seq<Summary>, startRow: nat, consumed: nat, batch: PreparedBatch, rows: seq<Row>,
    policy: Policy, s: Sending)
    requires JobOk(job, name) && IsNext(job, completed, batch, rows) && startRow == TotalRows(completed)
    requires s.p == Begun(|completed|, startRow, batch.rowCount, s.p.failed.requestId) && s.content == batch.content
    requires BatchRun(policy, s.p, s.content, s.x, s.end)
    ensures SentFor(job, policy, |completed|, startRow, batch.rowCount, s)
    ensures s.end.Broken? ==> BrokeFor(job, policy, ErrorOf(completed, consumed, s.end.verdict), s)
  {
    OpenNext(job, completed, batch, rows);
    BatchReads(job.plan, name, job.site.columns, rows, batch);
    TakenPart(job, startRow, rows);
    if s.end.Broken? {
      RetriedIsUnknown(policy, s.p, s.content, s.x, s.end);
    }
  }

  /** The log since `earlier` is that of the batches sent, all of them confirmed. */
  ghost predicate Kept(
    job: Job, policy: Policy, completed: seq<Summary>, earlier: seq<Event>, sent: seq<Sending>, log: seq<Event>)
  {
    log == earlier + LogOf(sent) && AllSentFor(job, policy, completed, sent)
  }

  /** The same when the run was stopped. */
  ghost predicate Told(
    job: Job, policy: Policy, e: BatchWriteError, cause: Cause, earlier: seq<Event>, sent: seq<Sending>, log: seq<Event>)
  {
    log == earlier + LogOf(sent) && SentAll(job, policy, Err(Stopped(e, cause)), sent)
  }

  lemma KeptSnoc(
    job: Job, policy: Policy, completed: seq<Summary>, earlier: seq<Event>, sent: seq<Sending>, log: seq<Event>,
    summary: Summary, s: Sending, later: seq<Event>)
    requires Kept(job, policy, completed, earlier, sent, log) && later == log + s.x.Events()
    requires SentFor(job, policy, |completed|, summary.startRow, summary.rowCount, s)
    requires s.end == Confirmed(summary.rowsAffected)
    ensures Kept(job, policy, completed + [summary], earlier, sent + [s], later)
  {
    LogSnoc(sent, s);
    Reassociate(earlier, LogOf(sent), s.x.Events());
    AllSentForSnoc(job, policy, completed, sent, summary, s);
  }

  lemma ToldSnoc(
    job: Job, policy: Policy, e: BatchWriteError, earlier: seq<Event>, sent: seq<Sending>, log: seq<Event>,
    s: Sending, later: seq<Event>)
    requires Kept(job, policy, e.completed, earlier, sent, log) && later == log + s.x.Events()
    requires BrokeFor(job, policy, e, s)
    ensures Told(job, policy, e, AtService, earlier, sent + [s], later)
  {
    LogSnoc(sent, s);
    Reassociate(earlier, LogOf(sent), s.x.Events());
    assert (sent + [s])[..|sent|] == sent;
  }

  /** If every exchange confirmed its batch, only the source or the hook can have stopped the run. */
  lemma AllConfirmedReturns(job: Job, policy: Policy, r: Result<seq<Summary>, InsertError>, sent: seq<Sending>)
    requires SentAll(job, policy, r, sent) && forall i | 0 <= i < |sent| :: sent[i].end.Confirmed?
    ensures r.Err? && r.error.Stopped? ==> !r.error.cause.AtService?
  {
  }

  // ---------------------------------------------------------------- the client

  class Client {
    const wire: Wire<Placed>
    const session: Session
    const pollInterval: nat
    /** Whether the `on_query` hook raises on its n-th call. */
    const hookRaises: nat -> bool
    var hookCalls: nat

    constructor (wire: Wire<Placed>, session: Session, pollInterval: nat, hookRaises: nat -> bool)
      ensures this.wire == wire && this.session == session && this.pollInterval == pollInterval && hookCalls == 0
    {
      this.wire, this.session, this.pollInterval, this.hookRaises := wire, session, pollInterval, hookRaises;
      hookCalls := 0;
    }

    method Notify() returns (ok: bool)
      modifies `hookCalls
      ensures hookCalls == old(hookCalls) + 1 && ok == !hookRaises(old(hookCalls))
    {
      ok := !hookRaises(hookCalls);
      hookCalls := hookCalls + 1;
    }

    /** `raise execution.error(exc)`. */
    method Fail(execution: BatchExecution, cause: Fault) returns (end: BatchEnd)
      modifies execution
      ensures end == Broken(Judged(old(execution.Now()), cause))
    {
      var outcome := execution.Error(cause);
      end := Broken(Verdict(execution.failed, execution.phase, outcome));
    }

    /** Read the affected-row count of a finished statement. */
    method ReadCount(execution: BatchExecution, count: Option<nat>) returns (end: BatchEnd)
      modifies execution
      ensures end == Counted(old(execution.Now()), count)
    {
      if count.None? {
        end := Fail(execution, NO_COUNT);
      } else {
        end := Confirmed(count.value);
      }
    }

    /** Poll the statement to its end. */
    method PollBatch(execution: BatchExecution, handle: string, ghost q: Progress, ghost content: bytes,
                     ghost submission: seq<Event>, ghost from: State<Placed>, ghost earlier: seq<Event>)
      returns (end: BatchEnd, ghost polling: Polling)
      requires wire.Valid() && wire.log == earlier + submission && Legal(from, submission)
      requires wire.server == Replay(from, submission) && execution.Now() == q
      requires submission != [] && wire.times[|wire.times| - 1] == wire.now
      modifies wire, execution
      ensures wire.Valid() && wire.Follows(from, earlier, submission + polling.Events())
      ensures PolledRun(wire.policy, q, handle, polling, end)
      ensures TimedBy(session, wire.policy, Some(handle), Exchange(submission, Some(polling)), pollInterval, wire.times, |earlier|)
    {
      ghost var middle, log := wire.server, wire.log;
      var polled, cancelError;
      polled, cancelError, polling := Poll(wire, handle, PollTimeout(session), pollInterval, true);
      wire.Join(from, earlier, submission, middle, log, polling.Events());
      if polled.Err? {
        end := Fail(execution, polled.error);
        return;
      }
      execution.succeeded := true;
      end := ReadCount(execution, polled.value.count);
    }

    /** The submission was answered: poll the statement to its end if need be, and read the count. */
    method Complete(execution: BatchExecution, response: Response, ghost p: Progress, ghost content: bytes,
                    ghost submission: seq<Event>, ghost from: State<Placed>, ghost earlier: seq<Event>)
      returns (end: BatchEnd, ghost x: Exchange)
      requires wire.Valid() && wire.log == earlier + submission && Legal(from, submission)
      requires wire.server == Replay(from, submission) && wire.Follows(from, earlier, submission)
      requires submission != [] && wire.times[|wire.times| - 1] == wire.now
      requires Acked(wire.policy, p, content, submission, response) && execution.Now() == p
      modifies wire, execution
      ensures wire.Valid() && wire.Follows(from, earlier, x.Events()) && x.submission == submission
      ensures BatchRun(wire.policy, p, content, x, end)
      ensures TimedBy(session, wire.policy, response.Handle(), x, pollInterval, wire.times, |earlier|)
    {
      x := Exchange(submission, None);
      assert x.Events() == submission;
      execution.Received(response.Handle(), response.attempts, response.Running());
      if !response.Running() {
        end := ReadCount(execution, response.count);
        return;
      }
      var handle := response.Handle();
      if handle.None? {
        end := Fail(execution, NO_HANDLE);
        return;
      }
      ghost var polling;
      end, polling := PollBatch(execution, handle.value, execution.Now(), content, submission, from, earlier);
      x := Exchange(submission, Some(polling));
    }

    /** Submit one batch under a fresh id, poll it to its end if need be, and classify whatever goes wrong. */
    method SendBatch(index: nat, startRow: nat, rowCount: nat, content: bytes)
      returns (end: BatchEnd, ghost p: Progress, ghost x: Exchange)
      requires wire.Valid()
      modifies wire
      ensures wire.Valid() && wire.Follows(old(wire.server), old(wire.log), x.Events())
      ensures p == Begun(index, startRow, rowCount, p.failed.requestId) && p.failed.requestId !in old(wire.server.history)
      ensures BatchRun(wire.policy, p, content, x, end)
      ensures
        var handle := HandleOf(Conclude(wire.policy, Submit(p.failed.requestId, false, content), x.submission));
        TimedBy(session, wire.policy, handle, x, pollInterval, wire.times, |old(wire.log)|)
    {
      var id := wire.NewId();
      var execution := new BatchExecution(index, startRow, rowCount, id);
      p := execution.Now();
      var response;
      ghost var submission;
      response, submission := wire.Send(Submit(id, false, content));
      wire.Opened(old(wire.server), old(wire.log), submission);
      if response.Err? {
        x := Exchange(submission, None);
        assert x.Events() == submission;
        end := Fail(execution, response.error);
        return;
      }
      end, x := Complete(execution, response.value, p, content, submission, old(wire.server), old(wire.log));
    }

    /** Between batches: what was confirmed is in the table, and the planner stands after it. */
    ghost predicate Ready(planner: BatchPlanner, job: Job, table: seq<Placed>)
      reads wire, planner, planner.source
    {
      && wire.Valid() && Plans(planner, job) && planner.confirmedRows == planner.emitted
      && Standing(job, table, wire.server, planner.completed)
    }

    ghost predicate Plans(planner: BatchPlanner, job: Job)
      reads planner, planner.source
    {
      planner.Valid() && planner.plan == job.plan && planner.caps == job.caps && planner.Stream() == job.stream
    }

    /** Send a planned batch. */
    method SendPlanned(completed: seq<Summary>, startRow: nat, ghost consumed: nat, batch: PreparedBatch, ghost rows: seq<Row>,
                       ghost job: Job, ghost table: seq<Placed>, ghost name: string)
      returns (end: BatchEnd, ghost s: Sending)
      requires wire.Valid() && JobOk(job, name) && startRow == TotalRows(completed)
      requires Standing(job, table, wire.server, completed) && IsNext(job, completed, batch, rows)
      requires consumed == job.Consumed(startRow, |rows|)
      modifies wire
      ensures wire.Valid()
      ensures end.Confirmed? ==>
        var summary := Summary(|completed|, startRow, batch.rowCount, end.count);
        Standing(job, table, wire.server, completed + [summary])
      ensures end.Broken? ==>
        Reported(job, table, wire.server, ErrorOf(completed, consumed, end.verdict), AtService)
      ensures s.end == end && wire.log == old(wire.log) + s.x.Events()
      ensures SentFor(job, wire.policy, |completed|, startRow, batch.rowCount, s)
      ensures end.Broken? ==> BrokeFor(job, wire.policy, ErrorOf(completed, consumed, end.verdict), s)
    {
      ghost var base, earlier := wire.server, wire.log;
      ghost var p, x;
      end, p, x := SendBatch(|completed|, startRow, batch.rowCount, batch.content);
      s := Sending(p, batch.content, x, end);
      wire.Opened(base, earlier, x.Events());
      SendingMade(job, name, completed, startRow, consumed, batch, rows, wire.policy, s);
      match end
      case Broken(_) =>
        DeliveredBroken(job, name, table, base, completed, consumed, batch, rows, wire.policy, p, x, end);
        Report(job, table, wire.server, ErrorOf(completed, consumed, end.verdict), AtService);
      case Confirmed(_) =>
        DeliveredConfirmed(job, name, table, base, completed, batch, rows, wire.policy, p, x, end);
    }

    method ConfirmBatch(planner: BatchPlanner, batch: PreparedBatch, count: nat, ghost job: Job, ghost table: seq<Placed>)
      requires wire.Valid() && Plans(planner, job) && planner.emitted == planner.confirmedRows + batch.rowCount
      requires
        var summary := Summary(|planner.completed|, planner.confirmedRows, batch.rowCount, count);
        Standing(job, table, wire.server, planner.completed + [summary])
      modifies planner`completed, planner`confirmedRows
      ensures Ready(planner, job, table)
      ensures
        var summary := Summary(|old(planner.completed)|, old(planner.confirmedRows), batch.rowCount, count);
        planner.completed == old(planner.completed) + [summary]
    {
      planner.Confirm(batch, count);
    }

    /** Announce, send and confirm one batch. */
    method Deliver(planner: BatchPlanner, batch: PreparedBatch, ghost rows: seq<Row>,
                   ghost job: Job, ghost table: seq<Placed>, ghost name: string,
                   ghost earlier: seq<Event>, ghost before: seq<Sending>)
      returns (t: LoopTurn, ghost sent: seq<Sending>)
      requires Kept(job, wire.policy, planner.completed, earlier, before, wire.log)
      requires wire.Valid() && Plans(planner, job) && planner.emitted == planner.confirmedRows + |rows|
      requires Standing(job, table, wire.server, planner.completed) && JobOk(job, name)
      requires IsNext(job, planner.completed, batch, rows) && batch.rowCount == |rows|
      requires planner.consumedRows == job.Consumed(planner.confirmedRows, |rows|)
      modifies wire, `hookCalls, planner`completed, planner`confirmedRows
      ensures t.Continues? ==> Ready(planner, job, table) && |planner.completed| == |old(planner.completed)| + 1
      ensures t.Breaks? ==> Reported(job, table, wire.server, t.write, t.cause) && t.write.completed == old(planner.completed)
      ensures !t.Completes? && hookCalls == old(hookCalls) + 1
      ensures t.Breaks? && t.cause.AtHook? <==> hookRaises(old(hookCalls))
      ensures t.Breaks? ==> !t.cause.AtSource?
      ensures t.Continues? ==> Kept(job, wire.policy, planner.completed, earlier, sent, wire.log)
      ensures t.Breaks? ==> Told(job, wire.policy, t.write, t.cause, earlier, sent, wire.log)
    {
      var heard := Notify();
      if !heard {
        HookBroke(job, table, wire.server, planner.completed, planner.consumedRows, batch, rows);
        t := Breaks(planner.Error(Validation, NotExecuted, None), AtHook);
        Report(job, table, wire.server, t.write, AtHook);
        return t, before;
      }
      t, sent := Dispatch(planner, batch, rows, job, table, name, earlier, before);
    }

    /** Send and confirm one batch. */
    method Dispatch(planner: BatchPlanner, batch: PreparedBatch, ghost rows: seq<Row>,
                    ghost job: Job, ghost table: seq<Placed>, ghost name: string,
                    ghost earlier: seq<Event>, ghost before: seq<Sending>)
      returns (t: LoopTurn, ghost sent: seq<Sending>)
      requires Kept(job, wire.policy, planner.completed, earlier, before, wire.log)
      requires wire.Valid() && Plans(planner, job) && planner.emitted == planner.confirmedRows + |rows|
      requires Standing(job, table, wire.server, planner.completed) && JobOk(job, name)
      requires IsNext(job, planner.completed, batch, rows) && batch.rowCount == |rows|
      requires planner.consumedRows == job.Consumed(planner.confirmedRows, |rows|)
      modifies wire, planner`completed, planner`confirmedRows
      ensures t.Continues? || (t.Breaks? && t.cause.AtService?)
      ensures t.Continues? ==> Ready(planner, job, table) && |planner.completed| == |old(planner.completed)| + 1
      ensures t.Continues? ==> Kept(job, wire.policy, planner.completed, earlier, sent, wire.log)
      ensures t.Breaks? ==> Reported(job, table, wire.server, t.write, t.cause) && t.write.completed == old(planner.completed)
      ensures t.Breaks? ==> Told(job, wire.policy, t.write, t.cause, earlier, sent, wire.log)
    {
      ghost var log, completed, startRow := wire.log, planner.completed, planner.confirmedRows;
      var end;
      ghost var s;
      end, s := SendPlanned(
        planner.completed, planner.confirmedRows, planner.consumedRows, batch, rows, job, table, name);
      match end
      case Broken(verdict) =>
        t := Breaks(planner.Error(verdict.phase, verdict.outcome, Some(verdict.failed)), AtService);
        ToldSnoc(job, wire.policy, t.write, earlier, before, log, s, wire.log);
        return t, before + [s];
      case Confirmed(count) =>
        ConfirmBatch(planner, batch, count, job, table);
        KeptSnoc(job, wire.policy, completed, earlier, before, log, Summary(|completed|, startRow, batch.rowCount, count), s, wire.log);
        return Continues, before + [s];
    }

    /** The hook is called once for each batch before it is sent, and only a raising hook stops the run as such. */
    ghost predicate Announced(t: LoopTurn, before: seq<Summary>, completed: seq<Summary>, calls: nat, callsNow: nat) {
      match t
      case Continues => callsNow == calls + 1 && !hookRaises(calls) && |completed| == |before| + 1
      case Completes => callsNow == calls && completed == before
      case Breaks(write, cause) =>
        && write.completed == before && callsNow == calls + (if cause.AtSource? then 0 else 1)
        && (!cause.AtSource? ==> (cause.AtHook? <==> hookRaises(calls)))
    }

    /** One turn of the loop of `insert_batches`. */
    method Turn(planner: BatchPlanner, ghost job: Job, ghost table: seq<Placed>, ghost name: string,
                ghost earlier: seq<Event>, ghost before: seq<Sending>)
      returns (t: LoopTurn, ghost sent: seq<Sending>)
      requires Ready(planner, job, table) && JobOk(job, name)
      requires Kept(job, wire.policy, planner.completed, earlier, before, wire.log)
      modifies wire, `hookCalls, planner, planner.source
      ensures t.Continues? ==> Ready(planner, job, table) && old(planner.emitted) < planner.emitted
      ensures t.Completes? ==> Ready(planner, job, table) && planner.emitted == |job.stream|
      ensures t.Breaks? ==> Reported(job, table, wire.server, t.write, t.cause)
      ensures Announced(t, old(planner.completed), planner.completed, old(hookCalls), hookCalls)
      ensures !t.Breaks? ==> Kept(job, wire.policy, planner.completed, earlier, sent, wire.log)
      ensures t.Breaks? ==> Told(job, wire.policy, t.write, t.cause, earlier, sent, wire.log)
    {
      sent := before;
      var step;
      ghost var rows;
      step, rows := planner.NextBatch();
      match step
      case Nothing =>
        GrowNotDone(planner.caps, job.stream, planner.emitted, []);
        return Completes, before;
      case Refused(error) =>
        SourceBroke(job, name, table, wire.server, planner.completed, error.phase, error.consumed);
        Report(job, table, wire.server, error, AtSource);
        return Breaks(error, AtSource), before;
      case Prepared(batch) =>
        t, sent := Deliver(planner, batch, rows, job, table, name, earlier, before);
    }

    /**
     * `insert_batches`. A normal return leaves the table extended by exactly the source's rows, each once and in order,
     * in the fewest statements the caps allow; a BatchWriteError leaves what `StoppedWell` says.
     */
    method InsertBatches(table: string, columns: seq<string>, source: Source, maxRows: int, maxBytes: int)
      returns (r: Result<seq<Summary>, InsertError>, ghost job: Job, ghost sent: seq<Sending>)
      requires wire.Valid() && Quiet(wire.server) && wire.server.read == Placing
      requires source.pos == 0 && source.stops == 0
      modifies wire, `hookCalls, source
      ensures (r.Err? && r.error.BadConfig?)
        <==> columns == [] || !(0 < maxRows <= 200_000) || maxBytes <= 0 || InsertPrefix(table, columns).Err?
      ensures r.Err? && r.error.BadConfig? ==> unchanged(wire) && unchanged(source)
      ensures !(r.Err? && r.error.BadConfig?) ==>
        && job.plan == Plan(session, InsertPrefix(table, columns).value, |columns|, maxRows, maxBytes)
        && job == Job(job.plan, CapsOf(job.plan), job.site, source.Stream())
        && job.site.target == Escaping.Split(table) && job.site.columns == columns && HasSettings(session, job.site.settings)
      ensures r.Ok? ==> AllLoaded(job, old(wire.server.table), wire.server, r.value)
      ensures r.Err? && r.error.Stopped? ==>
        StoppedWell(job, old(wire.server.table), wire.server, r.error.write, r.error.cause)
      ensures wire.log == old(wire.log) + LogOf(sent) && SentAll(job, wire.policy, r, sent) && AsReported(wire.policy, r, sent)
      ensures r.Ok? ==> Heard(old(hookCalls), hookCalls, |r.value|, false)
      ensures r.Err? && r.error.Stopped? ==>
        Heard(old(hookCalls), hookCalls, |r.error.write.completed| + (if r.error.cause.AtSource? then 0 else 1), r.error.cause.AtHook?)
    {
      job := Job(Plan(session, "", 0, 0, 0), CapsOf(Plan(session, "", 0, 0, 0)), SiteOf(session, table, []), []);
      var created := CreatePlanner(session, table, columns, source, maxRows, maxBytes);
      if created.Err? {
        return Err(BadConfig(created.error)), job, [];
      }
      var planner := created.value;
      job := Job(planner.plan, planner.caps, SiteOf(session, table, columns), source.Stream());
      ContextSettings(session);
      Starting(job, wire.server);
      var t;
      t, sent := RunLoop(planner, job, table);
      if t.Breaks? {
        ComesToStop(job, wire.policy, old(wire.server.table), wire.server, t.write, t.cause, old(wire.log), sent, wire.log);
        return Err(Stopped(t.write, t.cause)), job, sent;
      }
      Finishes(job, old(wire.server.table), wire.server, planner.completed);
      SentAsReported(job, wire.policy, Ok(planner.completed), sent);
      return Ok(planner.completed), job, sent;
    }

    /** The loop of `insert_batches`. */
    method RunLoop(planner: BatchPlanner, ghost job: Job, ghost name: string) returns (t: LoopTurn, ghost sent: seq<Sending>)
      requires Ready(planner, job, wire.server.table) && JobOk(job, name) && planner.completed == []
      modifies wire, `hookCalls, planner, planner.source
      ensures t.Completes? ==>
        && Ready(planner, job, old(wire.server.table)) && planner.emitted == |job.stream|
        && Kept(job, wire.policy, planner.completed, old(wire.log), sent, wire.log)
        && Heard(old(hookCalls), hookCalls, |planner.completed|, false)
      ensures t.Breaks? ==>
        && Reported(job, old(wire.server.table), wire.server, t.write, t.cause)
        && Told(job, wire.policy, t.write, t.cause, old(wire.log), sent, wire.log)
        && Heard(old(hookCalls), hookCalls, |t.write.completed| + (if t.cause.AtSource? then 0 else 1), t.cause.AtHook?)
      ensures !t.Continues?
    {
      sent := [];
      assert wire.log + [] == wire.log;
      while true
        invariant Ready(planner, job, old(wire.server.table))
        invariant Heard(old(hookCalls), hookCalls, |planner.completed|, false)
        invariant Kept(job, wire.policy, planner.completed, old(wire.log), sent, wire.log)
        decreases |job.stream| - planner.emitted
      {
        ghost var calls, done := hookCalls, |planner.completed|;
        t, sent := Turn(planner, job, old(wire.server.table), name, old(wire.log), sent);
        if hookCalls == calls + 1 {
          HeardOne(old(hookCalls), calls, done, hookCalls, done + 1);
        }
        if !t.Continues? {
          return;
        }
        Bounded(planner, job);
      }
    }

    /** The hook was called `n` times, and raised at the last call or never. */
    ghost predicate Heard(before: nat, now: nat, n: nat, raised: bool) {
      forall k: nat {:trigger Inside(k)} | Inside(k) ::
        && now == before + n && (raised ==> n > 0)
        && forall i {:trigger hookRaises(i)} | before <= i < now :: hookRaises(i) <==> raised && i == now - 1
    }

    lemma HeardOne(before: nat, now: nat, n: nat, later: nat, m: nat)
      requires Heard(before, now, n, false) && later == now + 1 && m == n + 1
      ensures Heard(before, later, m, hookRaises(now))
    {
      assert Inside(0);
    }

    lemma Bounded(planner: BatchPlanner, job: Job)
      requires Plans(planner, job)
      ensures planner.emitted <= |job.stream|
    {
      planner.OpenValid();
    }
  }

  datatype LoopTurn = Continues | Completes | Breaks(write: BatchWriteError, cause: Cause)

  /** `statement_timeout`, in ticks, bounds polling too. */
  function PollTimeout(session: Session): Option<int> {
    match session.timeout case None => None case Some(seconds) => Some(seconds * SECOND)
  }
}
