/** The single-pass batch planner: buffers, byte fragments and a running size instead of re-serialising. */
module Planner {
  import opened Wrappers
  import opened Escaping
  import opened Payload
  import opened Body
  import opened Packing
  import Json

  datatype Outcome = NotExecuted | Failed | Unknown | Succeeded

  datatype Summary = Summary(index: nat, startRow: nat, rowCount: nat, rowsAffected: nat)

  datatype FailedBatch = FailedBatch(
    index: nat, startRow: nat, rowCount: nat, requestId: nat, handle: Option<string>, attempts: nat)

  datatype BatchWriteError = BatchWriteError(
    completed: seq<Summary>,
    nextRow: nat,
    consumed: nat,
    failedBatch: Option<FailedBatch>,
    phase: BatchPhase,
    outcome: Outcome)

  datatype PreparedBatch = PreparedBatch(sql: string, params: seq<Value>, content: bytes, rowCount: nat)

  datatype BatchStep = Nothing | Prepared(batch: PreparedBatch) | Refused(error: BatchWriteError)

  datatype Rec = Rec(values: Row, encoded: seq<bytes>)

  datatype Weight = TooBig | NoRoom | Joins(fragment: bytes, size: nat)

  datatype Turn = Faults(error: BatchWriteError) | Ends | Takes(row: Row, fragment: bytes, size: nat)

  datatype Pull = Yields(item: Item<Row>) | Stops | Throws

  /** Within both caps, judged on the whole serialised body. */
  function CapsOf(plan: Plan): Caps<Row> {
    Caps(plan.maxRows, rows => Batchable(plan, rows) && |Content(plan, rows)| <= plan.maxBytes)
  }

  /** The caps a batch must keep, in full: rows, shape, and the length of the body it would be sent as. */
  lemma CapsExactly(plan: Plan, rows: seq<Row>)
    requires Usable(plan)
    ensures CapsOf(plan).maxRows == plan.maxRows
    ensures CapsOf(plan).Allow(rows)
      <==> && Sendable(plan.session) && rows != [] && Rectangular(rows, plan.width)
           && |rows| <= plan.maxRows && |Content(plan, rows)| <= plan.maxBytes
  {
  }

  lemma PlanCapsHereditary(plan: Plan)
    ensures Hereditary(CapsOf(plan))
  {
    var caps := CapsOf(plan);
    forall rows: seq<Row>, a: nat, b: nat {:trigger caps.Allow(rows), rows[a..b]} |
      a < b <= |rows| && caps.Allow(rows)
      ensures caps.Allow(rows[a..b])
    {
      FeasiblePart(plan, rows, a, b);
    }
  }

  /** Growing from `start` has come to `rows`. */
  ghost predicate GrownTo(caps: Caps<Row>, stream: seq<Item<Row>>, start: nat, rows: seq<Row>) {
    && start + |rows| <= |stream|
    && forall k: nat {:trigger Inside(k)} | Inside(k) ::
         Grow(caps, stream, start, []) == Grow(caps, stream, start + |rows|, rows)
  }

  ghost predicate StopsAt(caps: Caps<Row>, stream: seq<Item<Row>>, at: nat, rows: seq<Row>, step: Step) {
    && at < |stream| && |rows| < caps.maxRows
    && step == (if stream[at].Raises? then Stop(Input, at) else Stop(Validation, at + 1))
    && (stream[at].Record? ==> !caps.fits([stream[at].row]))
  }

  ghost predicate EndsAt(caps: Caps<Row>, stream: seq<Item<Row>>, at: nat, rows: seq<Row>) {
    && at <= |stream| && |rows| < caps.maxRows
    && (at < |stream| ==>
          stream[at].Record? && caps.fits([stream[at].row]) && !caps.fits(rows + [stream[at].row]))
  }

  ghost predicate JoinsAt(caps: Caps<Row>, stream: seq<Item<Row>>, at: nat, rows: seq<Row>, row: Row) {
    && at < |stream| && |rows| < caps.maxRows
    && stream[at] == Record(row) && caps.fits([row]) && caps.fits(rows + [row])
  }

  lemma GrowStopsAt(caps: Caps<Row>, stream: seq<Item<Row>>, at: nat, rows: seq<Row>, step: Step)
    requires StopsAt(caps, stream, at, rows, step)
    ensures Grow(caps, stream, at, rows) == step
  {
  }

  lemma GrowEndsAt(caps: Caps<Row>, stream: seq<Item<Row>>, at: nat, rows: seq<Row>)
    requires EndsAt(caps, stream, at, rows)
    ensures Grow(caps, stream, at, rows) == if rows == [] then Done else Emit(|rows|)
  {
    if at < |stream| {
      assert [] + [stream[at].row] == [stream[at].row];
    }
  }

  lemma GrowJoinsAt(caps: Caps<Row>, stream: seq<Item<Row>>, start: nat, rows: seq<Row>, row: Row)
    requires Taken(stream, start, rows) && JoinsAt(caps, stream, start + |rows|, rows, row)
    requires GrownTo(caps, stream, start, rows)
    ensures GrownTo(caps, stream, start, rows + [row]) && Taken(stream, start, rows + [row])
  {
    assert Inside(0);
  }

  /** What taking one more row does to the buffers. */
  lemma NextBuffers(enc: Encoding, width: nat, rows: seq<Row>, row: Row)
    requires Rectangular(rows, width) && |row| == width && AllBindable(row)
    ensures Rectangular(rows + [row], width)
    ensures Flatten(rows + [row]) == Flatten(rows) + row && |Flatten(rows)| == Offset(|rows|, width)
    ensures Fragments(enc, rows + [row], width) == Fragments(enc, rows, width) + [Fragment(EncodeRow(enc, row), Offset(|rows|, width))]
  {
    var more := rows + [row];
    assert more[..|rows|] == rows && more[|rows|] == row;
    FlattenShape(rows, width);
  }

  /** A batch's running size decides whether it fits. */
  lemma SizeDecides(plan: Plan, m: Measure, caps: Caps<Row>, rows: seq<Row>)
    requires Faithful(plan, m, caps) && m.sendable && rows != [] && Rectangular(rows, plan.width)
    ensures caps.fits(rows) <==> RunningSize(m.encode, m.overhead, plan.width, rows) <= plan.maxBytes
  {
  }

  /** What sizing needs of the session: whether its context serialises, and then its bytes and their cost. */
  datatype Measure = Measure(encode: Encoding, sendable: bool, context: bytes, overhead: nat)

  function MeasureOf(plan: Plan): Measure {
    if Sendable(plan.session)
    then Measure(Encoded, true, ContextBytes(ContextFields(plan.session)), SingleOverhead(plan))
    else Measure(Encoded, false, [], 0)
  }

  // The clauses of `Faithful`. Each is for use where the term in its trigger is computed.

  ghost predicate EncodesValues(m: Measure) {
    forall v {:trigger Encoded(v)} :: m.encode(v) == Encoded(v)
  }

  ghost predicate KnowsSendable(plan: Plan, m: Measure) {
    forall fields: seq<Json.Field> {:trigger Json.AllSerializable(fields)} |
      fields == ContextFields(plan.session) :: m.sendable == Json.AllSerializable(fields)
  }

  ghost predicate KnowsContext(plan: Plan, m: Measure) {
    forall fields: seq<Json.Field> {:trigger ContextBytes(fields)} |
      fields == ContextFields(plan.session) && Json.AllSerializable(fields) ::
      && m.context == ContextBytes(fields)
      && m.overhead == |Splice(plan.prefix + Placeholder(plan.width), ContextBytes(fields), [])|
  }

  ghost predicate FitsOnlyUsable(plan: Plan, m: Measure, caps: Caps<Row>) {
    forall row: Row {:trigger caps.fits([row])} |
      caps.fits([row]) :: m.sendable && |row| == plan.width && AllBindable(row)
  }

  ghost predicate SizesDecide(plan: Plan, m: Measure, caps: Caps<Row>) {
    forall rows: seq<Row> {:trigger RunningSize(m.encode, m.overhead, plan.width, rows)} |
      m.sendable && rows != [] && Rectangular(rows, plan.width) ::
      caps.fits(rows) <==> RunningSize(m.encode, m.overhead, plan.width, rows) <= plan.maxBytes
  }

  /**
   * `m` is what computing on the plan's context gives, and the running size it starts judges batches as `caps` does.
   */
  ghost predicate Faithful(plan: Plan, m: Measure, caps: Caps<Row>) {
    && caps.maxRows == plan.maxRows && EncodesValues(m) && KnowsSendable(plan, m) && KnowsContext(plan, m)
    && FitsOnlyUsable(plan, m, caps) && SizesDecide(plan, m, caps)
  }

  /** The running size judges every batch as its serialised body does. */
  lemma RunningSizeFaithful(plan: Plan)
    requires Usable(plan)
    ensures Faithful(plan, MeasureOf(plan), CapsOf(plan))
  {
    var m, caps := MeasureOf(plan), CapsOf(plan);
    forall rows: seq<Row> {:trigger RunningSize(m.encode, m.overhead, plan.width, rows)} |
      m.sendable && rows != [] && Rectangular(rows, plan.width)
      ensures caps.fits(rows) <==> RunningSize(m.encode, m.overhead, plan.width, rows) <= plan.maxBytes
    {
      ContentSize(plan, rows);
    }
    forall row: Row {:trigger caps.fits([row])} | caps.fits([row])
      ensures m.sendable && |row| == plan.width && AllBindable(row)
    {
      FitsAlone(plan, row);
    }
  }

  lemma FitsAlone(plan: Plan, row: Row)
    requires CapsOf(plan).fits([row])
    ensures Sendable(plan.session) && |row| == plan.width && AllBindable(row)
  {
    assert [row][0] == row;
  }

  /** The user's iterable: `iter()` may fail, and advancing it may yield, stop or raise. */
  class Source {
    const items: seq<Item<Row>>
    const iterable: bool
    var pos: nat
    var stops: nat

    constructor (items: seq<Item<Row>>, iterable: bool)
      ensures this.items == items && this.iterable == iterable && pos == 0 && stops == 0
    {
      this.items, this.iterable, this.pos, this.stops := items, iterable, 0, 0;
    }

    /** What the caller can observe of the iterable, as a sequence. */
    function Stream(): seq<Item<Row>> {
      if iterable then items else [Raises]
    }

    method Next() returns (p: Pull)
      requires pos <= |items|
      modifies this
      ensures pos <= |items|
      ensures pos == if old(pos) < |items| then old(pos) + 1 else old(pos)
      ensures stops == if old(pos) < |items| then old(stops) else old(stops) + 1
      ensures p == if old(pos) == |items| then Stops
                   else if items[old(pos)].Raises? then Throws else Yields(items[old(pos)])
    {
      if pos == |items| {
        stops := stops + 1;
        return Stops;
      }
      var item := items[pos];
      pos := pos + 1;
      return if item.Raises? then Throws else Yields(item);
    }
  }

  /** Batches confirmed so far, end to end from row 0. */
  function TotalRows(completed: seq<Summary>): nat {
    if completed == [] then 0 else TotalRows(completed[..|completed| - 1]) + completed[|completed| - 1].rowCount
  }

  predicate Tiled(completed: seq<Summary>) {
    forall i | 0 <= i < |completed| :: completed[i].index == i && completed[i].startRow == TotalRows(completed[..i])
  }

  /**
   * The record held back after a batch of `count` rows from row `start` on, in a source of `length` items: one, unless the
   * batch is full or ends the source.
   */
  function Lookahead(maxRows: nat, length: nat, start: nat, count: nat): nat {
    if count < maxRows && start + count < length then 1 else 0
  }

  class BatchPlanner {
    const plan: Plan
    const placeholder: string
    const source: Source
    var started: bool
    var context: Option<bytes>
    var singleOverhead: nat
    var pending: Option<Rec>
    var exhausted: bool
    var consumedRows: nat
    var confirmedRows: nat
    var completed: seq<Summary>
    /** Rows in the batches handed out so far. */
    ghost var emitted: nat

    ghost function Stream(): seq<Item<Row>> {
      source.Stream()
    }

    ghost const measure: Measure
    ghost const caps: Caps<Row>

    /** `rows` is what the stream holds from `emitted` on, and everything before was emitted. */
    ghost predicate Placed(rows: seq<Row>)
      reads `emitted
    {
      Taken(Stream(), emitted, rows) && AllRecords(Stream()[..emitted])
    }

    /** The state with `n` rows buffered for the batch that starts at `emitted`, and `held` further records pulled. */
    ghost predicate Counts(n: nat, held: nat)
      reads `started, `context, `singleOverhead, `pending, `exhausted, `consumedRows, `emitted, source
    {
      && Usable(plan) && placeholder == Placeholder(plan.width)
      && consumedRows == emitted + n + held + (if pending.Some? then 1 else 0) <= |Stream()|
      && (started ==> source.iterable) && (!started ==> consumedRows == 0 && !exhausted)
      && source.pos == consumedRows && source.pos <= |source.items|
      && source.stops == (if exhausted then 1 else 0)
      && (exhausted ==> started && source.pos == |source.items|)
      && (pending.Some? ==> held == 0 && PendingReady(pending.value, emitted + n))
      && (emitted + n > 0 || pending.Some? ==> context.Some?)
      && (context.Some? ==> measure.sendable && context.value == measure.context && singleOverhead == measure.overhead)
    }

    /** The lookahead record is the stream's next one, validated and encoded, and small enough to be sent alone. */
    ghost predicate PendingReady(rec: Rec, at: nat) {
      && at < |Stream()| && Stream()[at] == Record(rec.values)
      && |rec.values| == plan.width && AllBindable(rec.values) && rec.encoded == EncodeRow(measure.encode, rec.values)
      && caps.fits([rec.values])
    }

    ghost predicate Valid()
      reads this, source
    {
      && confirmedRows == TotalRows(completed) <= emitted && Tiled(completed)
      && forall k: nat {:trigger Inside(k)} | Inside(k) :: Placed([]) && Counts(0, 0) && Faithful(plan, measure, caps)
    }

    lemma OpenValid()
      requires Valid()
      ensures Placed([]) && Counts(0, 0) && Faithful(plan, measure, caps)
    {
      assert Inside(0);
    }

    constructor (plan: Plan, source: Source)
      requires Usable(plan) && source.pos == 0 && source.stops == 0
      ensures Valid() && emitted == 0 && completed == [] && confirmedRows == 0
      ensures this.plan == plan && this.source == source && caps == CapsOf(plan)
    {
      this.plan, this.placeholder, this.source := plan, Placeholder(plan.width), source;
      started, context, singleOverhead, pending := false, None, 0, None;
      exhausted, consumedRows, confirmedRows, completed := false, 0, 0, [];
      emitted, measure, caps := 0, MeasureOf(plan), CapsOf(plan);
      RunningSizeFaithful(plan);
    }

    function Error(phase: BatchPhase, outcome: Outcome, failedBatch: Option<FailedBatch>): BatchWriteError
      reads this
    {
      BatchWriteError(completed, confirmedRows, consumedRows, failedBatch, phase, outcome)
    }

    /** `_record`: the next record, validated and encoded. */
    method NextRecord() returns (r: Result<Option<Rec>, BatchWriteError>)
      requires source.pos <= |source.items| && (started ==> source.iterable)
      requires (!started ==> source.pos == 0 && !exhausted) && Faithful(plan, measure, caps)
      modifies this`started, this`exhausted, this`consumedRows, source
      ensures source.pos <= |source.items| && (started ==> source.iterable)
      ensures old(exhausted) ==> r == Ok(None) && unchanged(this) && unchanged(source)
      ensures !old(exhausted) ==>
        var at := old(source.pos);
        var stream := Stream();
        if at == |stream| then
          r == Ok(None) && exhausted && started && consumedRows == old(consumedRows)
          && source.pos == at && source.stops == old(source.stops) + 1
        else if stream[at].Raises? then
          r == Err(Error(Input, NotExecuted, None)) && consumedRows == old(consumedRows)
        else
          && !exhausted && started && consumedRows == old(consumedRows) + 1
          && source.pos == at + 1 && source.stops == old(source.stops)
          && if stream[at].Record? && |stream[at].row| == plan.width && AllBindable(stream[at].row)
             then r == Ok(Some(Rec(stream[at].row, EncodeRow(measure.encode, stream[at].row))))
             else r == Err(Error(Validation, NotExecuted, None))
    {
      if exhausted {
        return Ok(None);
      }
      if !started {
        if !source.iterable {
          return Err(Error(Input, NotExecuted, None));
        }
        started := true;
      }
      var p := source.Next();
      match p
      case Stops =>
        exhausted := true;
        return Ok(None);
      case Throws =>
        return Err(Error(Input, NotExecuted, None));
      case Yields(item) =>
        consumedRows := consumedRows + 1;
        if !item.Record? || |item.row| != plan.width || !AllBindable(item.row) {
          return Err(Error(Validation, NotExecuted, None));
        }
        var encoded := EncodeValues(item.row, measure, plan, caps);
        return Ok(Some(Rec(item.row, encoded)));
    }

    /** The record for the next place in the batch: the lookahead if there is one, else one pulled from the source. */
    method Take(ghost n: nat) returns (r: Result<Option<Rec>, BatchWriteError>)
      requires Counts(n, 0) && Faithful(plan, measure, caps)
      modifies `started, `exhausted, `consumedRows, `pending, source
      ensures
        var at := emitted + n;
        if at == |Stream()| then r == Ok(None) && Counts(n, 0)
        else if Stream()[at].Raises? then r == Err(Error(Input, NotExecuted, None)) && consumedRows == at
        else if Stream()[at].Record? && |Stream()[at].row| == plan.width && AllBindable(Stream()[at].row) then
          r == Ok(Some(Rec(Stream()[at].row, EncodeRow(measure.encode, Stream()[at].row)))) && Counts(n, 1)
        else r == Err(Error(Validation, NotExecuted, None)) && consumedRows == at + 1
    {
      if pending.Some? {
        r := Ok(pending);
        pending := None;
        return;
      }
      r := NextRecord();
    }

    /** The context bytes and the fixed part of a one-row body, computed before the first row is sized. */
    method PrepareContext() returns (ok: bool)
      requires placeholder == Placeholder(plan.width) && Faithful(plan, measure, caps)
      requires context.Some? ==> measure.sendable
      modifies `context, `singleOverhead
      ensures ok <==> measure.sendable
      ensures old(context).Some? || !ok ==> context == old(context) && singleOverhead == old(singleOverhead)
      ensures old(context).None? && ok ==> context == Some(measure.context) && singleOverhead == measure.overhead
    {
      if context.None? {
        var encoded, overhead;
        ok, encoded, overhead := EncodeContext(plan, measure, caps);
        if !ok {
          return;
        }
        context, singleOverhead := Some(encoded), overhead;
      }
      return true;
    }

    /** Size one more row arithmetically: alone at offset 0, and at the end of the batch. */
    method Weigh(rec: Rec, params: seq<Value>, fragments: seq<bytes>, rowCount: nat, size: nat, ghost rows: seq<Row>)
      returns (w: Weight)
      requires Faithful(plan, measure, caps) && placeholder == Placeholder(plan.width)
      requires measure.sendable && singleOverhead == measure.overhead
      requires Buffered(rows, params, fragments, rowCount, size) && rowCount < plan.maxRows
      requires |rec.values| == plan.width && AllBindable(rec.values) && rec.encoded == EncodeRow(measure.encode, rec.values)
      ensures w.TooBig? <==> !caps.fits([rec.values])
      ensures w.NoRoom? <==> caps.fits([rec.values]) && !caps.fits(rows + [rec.values])
      ensures w.Joins? ==>
        Buffered(rows + [rec.values], params + rec.values, fragments + [w.fragment], rowCount + 1, w.size)
    {
      assert Inside(0);
      NextBuffers(measure.encode, plan.width, rows, rec.values);
      RunningSizeSnoc(measure.encode, measure.overhead, plan.width, rows, rec.values);
      RunningSizeSnoc(measure.encode, measure.overhead, plan.width, [], rec.values);
      SizeDecides(plan, measure, caps, rows + [rec.values]);
      SizeDecides(plan, measure, caps, [] + [rec.values]);
      assert [] + [rec.values] == [rec.values];
      var first := Fragment(rec.encoded, 0);
      var singleSize := singleOverhead + |first|;
      if singleSize > plan.maxBytes {
        return TooBig;
      }
      var fragment := if rowCount == 0 then first else Fragment(rec.encoded, |params|);
      var candidate := if rowCount == 0 then singleSize else size + 2 + |placeholder| + 1 + |fragment|;
      if candidate > plan.maxBytes {
        return NoRoom;
      }
      return Joins(fragment, candidate);
    }

    /** Judge a record just pulled: prepare the context if this is the first, then size the record. */
    method Judge(rec: Rec, params: seq<Value>, fragments: seq<bytes>, rowCount: nat, size: nat, ghost rows: seq<Row>)
      returns (w: Weight)
      requires Counts(|rows|, 1) && Faithful(plan, measure, caps)
      requires Buffered(rows, params, fragments, rowCount, size) && rowCount < plan.maxRows
      requires |rec.values| == plan.width && AllBindable(rec.values) && rec.encoded == EncodeRow(measure.encode, rec.values)
      modifies `context, `singleOverhead
      ensures Counts(|rows|, 1) && (w.TooBig? || context.Some?)
      ensures w.TooBig? <==> !caps.fits([rec.values])
      ensures w.NoRoom? <==> caps.fits([rec.values]) && !caps.fits(rows + [rec.values])
      ensures w.Joins? ==>
        Buffered(rows + [rec.values], params + rec.values, fragments + [w.fragment], rowCount + 1, w.size)
    {
      var ready := PrepareContext();
      if !ready {
        return TooBig;
      }
      w := Weigh(rec, params, fragments, rowCount, size, rows);
    }

    /** Keep a record that does not fit as the lookahead. */
    method Stash(rec: Rec, ghost n: nat)
      requires Counts(n, 1) && pending.None? && context.Some? && PendingReady(rec, emitted + n)
      modifies `pending
      ensures Counts(n, 0)
    {
      pending := Some(rec);
    }

    lemma HeldJoins(n: nat)
      requires Counts(n, 1) && context.Some?
      ensures Counts(n + 1, 0) && pending.None?
    {
    }

    /** What one turn of the loop in `next_batch` did: a row joined, or the batch is full, or a fault stopped it. */
    ghost predicate Turned(
        turn: Turn, rows: seq<Row>, params: seq<Value>, fragments: seq<bytes>, rowCount: nat)
      reads this, source
    {
      var at := emitted + |rows|;
      match turn
      case Faults(error) =>
        StopsAt(caps, Stream(), at, rows, Stop(error.phase, error.consumed)) && error == Error(error.phase, NotExecuted, None)
      case Ends => EndsAt(caps, Stream(), at, rows) && Counts(|rows|, 0) && (at < |Stream()| ==> pending.Some?)
      case Takes(row, fragment, size) =>
        && JoinsAt(caps, Stream(), at, rows, row)
        && Counts(|rows| + 1, 0) && pending.None?
        && Buffered(rows + [row], params + row, fragments + [fragment], rowCount + 1, size)
    }

    method Place(rec: Rec, params: seq<Value>, fragments: seq<bytes>, rowCount: nat, size: nat, ghost rows: seq<Row>)
      returns (turn: Turn)
      requires Counts(|rows|, 1) && Faithful(plan, measure, caps)
      requires Buffered(rows, params, fragments, rowCount, size) && rowCount < plan.maxRows
      requires |rec.values| == plan.width && AllBindable(rec.values) && rec.encoded == EncodeRow(measure.encode, rec.values)
      requires Stream()[emitted + |rows|] == Record(rec.values)
      modifies `context, `singleOverhead, `pending
      ensures Turned(turn, rows, params, fragments, rowCount)
    {
      var weight := Judge(rec, params, fragments, rowCount, size, rows);
      match weight
      case TooBig =>
        return Faults(Error(Validation, NotExecuted, None));
      case NoRoom =>
        Stash(rec, |rows|);
        return Ends;
      case Joins(fragment, more) =>
        HeldJoins(|rows|);
        return Takes(rec.values, fragment, more);
    }

    /** One turn of the loop in `next_batch`. */
    method Turn(params: seq<Value>, fragments: seq<bytes>, rowCount: nat, size: nat, ghost rows: seq<Row>)
      returns (turn: Turn)
      requires Counts(|rows|, 0) && Faithful(plan, measure, caps) && (pending.Some? ==> rows == [])
      requires Buffered(rows, params, fragments, rowCount, size) && rowCount < plan.maxRows
      modifies `started, `context, `singleOverhead, `pending, `exhausted, `consumedRows, source
      ensures Turned(turn, rows, params, fragments, rowCount)
    {
      var taken := Take(|rows|);
      if taken.Err? {
        return Faults(taken.error);
      }
      if taken.value.None? {
        return Ends;
      }
      turn := Place(taken.value.value, params, fragments, rowCount, size, rows);
    }

    /** The loop of `next_batch`: fill the buffers until a cap or the source ends the batch, or a fault stops it. */
    method Fill()
      returns (last: Turn, params: seq<Value>, fragments: seq<bytes>, rowCount: nat, size: nat, ghost rows: seq<Row>)
      requires Placed([]) && Counts(0, 0) && Faithful(plan, measure, caps)
      modifies `started, `context, `singleOverhead, `pending, `exhausted, `consumedRows, source
      ensures Buffered(rows, params, fragments, rowCount, size) && Placed(rows)
      ensures GrownTo(caps, Stream(), emitted, rows)
      ensures |rows| == plan.maxRows ==> pending.None?
      ensures if last.Takes? then rowCount == plan.maxRows && Counts(|rows|, 0)
              else Turned(last, rows, params, fragments, rowCount)
    {
      last, params, fragments, rowCount, size, rows := Takes([], [], 0), [], [], 0, 0, [];
      while rowCount < plan.maxRows
        invariant Placed(rows) && Counts(|rows|, 0) && last.Takes? && (pending.Some? ==> rows == [])
        invariant Buffered(rows, params, fragments, rowCount, size)
        invariant GrownTo(caps, Stream(), emitted, rows)
        decreases plan.maxRows - rowCount
      {
        last := Turn(params, fragments, rowCount, size, rows);
        if !last.Takes? {
          break;
        }
        GrowJoinsAt(caps, Stream(), emitted, rows, last.row);
        params, fragments, size := params + last.row, fragments + [last.fragment], last.size;
        rowCount := rowCount + 1;
        rows := rows + [last.row];
      }
    }

    /** What the way the loop ended says of the batch. */
    lemma FillDecides(last: Turn, rows: seq<Row>, params: seq<Value>, fragments: seq<bytes>, rowCount: nat)
      requires GrownTo(caps, Stream(), emitted, rows) && caps.maxRows == plan.maxRows
      requires if last.Takes? then |rows| == plan.maxRows > 0 else Turned(last, rows, params, fragments, rowCount)
      ensures
        Grow(caps, Stream(), emitted, [])
        == if last.Faults? then Stop(last.error.phase, last.error.consumed)
           else if rows == [] then Done else Emit(|rows|)
    {
      var at := emitted + |rows|;
      assert Inside(0);
      match last
      case Faults(error) => GrowStopsAt(caps, Stream(), at, rows, Stop(error.phase, error.consumed));
      case Ends => GrowEndsAt(caps, Stream(), at, rows);
      case Takes(_, _, _) =>
    }

    /** The buffers hold exactly `rows`, and `size` is what they will take on the wire. */
    ghost predicate BuffersHold(rows: seq<Row>, params: seq<Value>, fragments: seq<bytes>, size: nat) {
      && Rectangular(rows, plan.width)
      && params == Flatten(rows) && fragments == Fragments(measure.encode, rows, plan.width)
      && (rows != [] ==>
            && measure.sendable && caps.fits(rows)
            && size == RunningSize(measure.encode, measure.overhead, plan.width, rows))
    }

    ghost predicate Buffered(rows: seq<Row>, params: seq<Value>, fragments: seq<bytes>, rowCount: nat, size: nat) {
      && rowCount == |rows| <= plan.maxRows
      && forall k: nat {:trigger Inside(k)} | Inside(k) :: BuffersHold(rows, params, fragments, size)
    }

    /**
     * `next_batch`: the next statement to send, or nothing, or a fault. The simple recursion `Grow` decides,
     * judging whole serialised bodies; the bytes returned are the serialised payload of exactly the next rows.
     */
    method NextBatch() returns (r: BatchStep, ghost rows: seq<Row>)
      requires Valid()
      modifies `started, `context, `singleOverhead, `pending, `exhausted, `consumedRows, `emitted, source
      ensures Advances(r, rows, old(emitted))
      ensures !r.Refused? ==> Valid() && emitted == old(emitted) + |rows|
      ensures !r.Refused? ==>
        consumedRows == emitted + Lookahead(plan.maxRows, |Stream()|, old(emitted), |rows|)
    {
      OpenValid();
      var last, params, fragments, rowCount, size;
      last, params, fragments, rowCount, size, rows := Fill();
      FillDecides(last, rows, params, fragments, rowCount);
      if last.Faults? {
        return Refused(last.error), rows;
      }
      FillSettles(last, rows, params, fragments, rowCount);
      if rowCount == 0 {
        Idle();
        return Nothing, [];
      }
      var batch := HandOver(params, fragments, rowCount, size, rows);
      return Prepared(batch), rows;
    }

    /** The batch is complete: its rows are counted, and at most one record is held back. */
    ghost predicate Filled(rows: seq<Row>)
      reads this, source
    {
      forall k: nat {:trigger Inside(k)} | Inside(k) ::
        && Placed(rows) && Counts(|rows|, 0) && Faithful(plan, measure, caps)
        && consumedRows == emitted + |rows| + Lookahead(plan.maxRows, |Stream()|, emitted, |rows|)
    }

    lemma FillSettles(last: Turn, rows: seq<Row>, params: seq<Value>, fragments: seq<bytes>, rowCount: nat)
      requires Placed(rows) && Faithful(plan, measure, caps) && (|rows| == plan.maxRows ==> pending.None?)
      requires if last.Takes? then |rows| == plan.maxRows && Counts(|rows|, 0)
               else Turned(last, rows, params, fragments, rowCount)
      requires !last.Faults?
      ensures Filled(rows)
    {
    }

    lemma Idle()
      requires Filled([]) && confirmedRows == TotalRows(completed) <= emitted && Tiled(completed)
      ensures Valid() && consumedRows == emitted + Lookahead(plan.maxRows, |Stream()|, emitted, 0)
    {
      assert Inside(0);
    }

    /** Assemble the batch and count it as handed out. */
    method HandOver(params: seq<Value>, fragments: seq<bytes>, rowCount: nat, size: nat, ghost rows: seq<Row>)
      returns (batch: PreparedBatch)
      requires Filled(rows) && rows != [] && Buffered(rows, params, fragments, rowCount, size)
      requires confirmedRows == TotalRows(completed) <= emitted && Tiled(completed)
      modifies `emitted
      ensures IsBatch(plan, rows, batch) && Taken(Stream(), old(emitted), rows)
      ensures Valid() && emitted == old(emitted) + |rows|
      ensures consumedRows == emitted + Lookahead(plan.maxRows, |Stream()|, old(emitted), |rows|)
    {
      OpenFilled(rows);
      batch := Assemble(params, fragments, rowCount, size, rows);
      HandOut(rows);
    }

    lemma OpenFilled(rows: seq<Row>)
      requires Filled(rows)
      ensures Placed(rows) && Counts(|rows|, 0) && Faithful(plan, measure, caps)
      ensures consumedRows == emitted + |rows| + Lookahead(plan.maxRows, |Stream()|, emitted, |rows|)
    {
      assert Inside(0);
    }

    /** Splice the body; its length is the size already counted, so the budget check never fires. */
    method Assemble(params: seq<Value>, fragments: seq<bytes>, rowCount: nat, size: nat, ghost rows: seq<Row>)
      returns (batch: PreparedBatch)
      requires Usable(plan) && placeholder == Placeholder(plan.width) && context == Some(measure.context)
      requires rows != [] && Faithful(plan, measure, caps) && Buffered(rows, params, fragments, rowCount, size)
      ensures IsBatch(plan, rows, batch)
    {
      var sql := plan.prefix + Repeat(placeholder, rowCount);
      var content := Splice(sql, context.value, JoinBytes(fragments));
      ContentOfBuffers(rows, params, fragments, rowCount, size);
      if |content| != size || |content| > plan.maxBytes {
        assert false;
      }
      return PreparedBatch(sql, params, content, rowCount);
    }

    /** What `next_batch` promises of its result, given where its batch starts. */
    ghost predicate Advances(r: BatchStep, rows: seq<Row>, start: nat)
      reads this
    {
      start <= |Stream()| &&
      match r
      case Nothing => Grow(caps, Stream(), start, []).Done? && rows == []
      case Prepared(batch) =>
        && Grow(caps, Stream(), start, []) == Emit(|rows|)
        && Taken(Stream(), start, rows) && IsBatch(plan, rows, batch)
      case Refused(error) =>
        && Grow(caps, Stream(), start, []) == Stop(error.phase, error.consumed)
        && error == BatchWriteError(completed, confirmedRows, error.consumed, None, error.phase, NotExecuted)
    }

    lemma ContentOfBuffers(rows: seq<Row>, params: seq<Value>, fragments: seq<bytes>, rowCount: nat, size: nat)
      requires Usable(plan) && rows != [] && Faithful(plan, measure, caps)
      requires Buffered(rows, params, fragments, rowCount, size)
      ensures Batchable(plan, rows) && params == Flatten(rows)
      ensures Splice(Sql(plan, |rows|), measure.context, JoinBytes(fragments)) == Content(plan, rows)
      ensures |Content(plan, rows)| == size <= plan.maxBytes
    {
      assert Inside(0);
      assert Json.AllSerializable(ContextFields(plan.session));
      assert measure.context == ContextBytes(ContextFields(plan.session));
      SameFragments(measure.encode, rows, plan.width);
      SpliceIsContent(plan, rows);
      SizeDecides(plan, measure, caps, rows);
      RunningSizeSum(measure.encode, measure.overhead, plan.width, rows);
      RunningSizeSum(Encoded, measure.overhead, plan.width, rows);
      ContentSize(plan, rows);
    }

    ghost method HandOut(rows: seq<Row>)
      requires Placed(rows) && Counts(|rows|, 0)
      modifies `emitted
      ensures emitted == old(emitted) + |rows| && Placed([]) && Counts(0, 0)
    {
      forall j | emitted <= j < emitted + |rows|
        ensures Stream()[j].Record?
      {
        assert Stream()[emitted + (j - emitted)] == Record(rows[j - emitted]);
      }
      emitted := emitted + |rows|;
    }

    /** Record a batch the server has acknowledged. */
    method Confirm(batch: PreparedBatch, rowsAffected: nat)
      requires Valid() && confirmedRows + batch.rowCount <= emitted
      modifies `completed, `confirmedRows
      ensures Valid()
      ensures completed == old(completed) + [Summary(|old(completed)|, old(confirmedRows), batch.rowCount, rowsAffected)]
      ensures confirmedRows == old(confirmedRows) + batch.rowCount
    {
      var summary := Summary(|completed|, confirmedRows, batch.rowCount, rowsAffected);
      TiledSnoc(completed, summary);
      completed := completed + [summary];
      confirmedRows := confirmedRows + batch.rowCount;
    }
  }

  /** Validate the settings of `insert_batches` and build its planner; nothing is read from the source. */
  method CreatePlanner(session: Session, table: string, columns: seq<string>, source: Source, maxRows: int, maxBytes: int)
    returns (r: Result<BatchPlanner, ConfigError>)
    requires source.pos == 0 && source.stops == 0
    ensures r.Ok? <==>
      columns != [] && 0 < maxRows <= 200_000 && 0 < maxBytes && InsertPrefix(table, columns).Ok?
    ensures r == Err(NoColumns) <==> columns == []
    ensures r == Err(BadLimit) <==> columns != [] && (maxRows <= 0 || maxBytes <= 0)
    ensures r == Err(TooManyRows) <==> columns != [] && maxRows > 200_000 && maxBytes > 0
    ensures r.Ok? ==>
      && fresh(r.value) && r.value.Valid() && r.value.source == source
      && r.value.emitted == 0 && r.value.completed == [] && r.value.confirmedRows == 0
      && r.value.plan == Plan(session, InsertPrefix(table, columns).value, |columns|, maxRows, maxBytes)
      && r.value.caps == CapsOf(r.value.plan)
  {
    if columns == [] {
      return Err(NoColumns);
    }
    if maxRows <= 0 || maxBytes <= 0 {
      return Err(BadLimit);
    }
    if maxRows > 200_000 {
      return Err(TooManyRows);
    }
    var prefix := InsertPrefix(table, columns);
    if prefix.Err? {
      return Err(BadName(prefix.error));
    }
    var planner := new BatchPlanner(Plan(session, prefix.value, |columns|, maxRows, maxBytes), source);
    return Ok(planner);
  }

  lemma TiledSnoc(completed: seq<Summary>, s: Summary)
    requires Tiled(completed) && s.index == |completed| && s.startRow == TotalRows(completed)
    ensures Tiled(completed + [s]) && TotalRows(completed + [s]) == TotalRows(completed) + s.rowCount
  {
    var more := completed + [s];
    assert more[..|more| - 1] == completed;
    forall i | 0 <= i < |more|
      ensures more[i].index == i && more[i].startRow == TotalRows(more[..i])
    {
      assert more[..i] == completed[..i];
    }
  }

  /** `build_payload("", None)` without its statement. */
  method PayloadContext(session: Session) returns (fields: seq<Json.Field>)
    ensures fields == ContextFields(session)
  {
    var payload := BuildPayload(session, "", []);
    fields := payload.value.fields[1..];
    ContextOfPayload(session);
  }

  /** The encoded bindings of one record. */
  method EncodeValues(row: Row, ghost m: Measure, ghost plan: Plan, ghost caps: Caps<Row>) returns (encoded: seq<bytes>)
    requires Faithful(plan, m, caps)
    ensures encoded == EncodeRow(m.encode, row)
  {
    encoded := EncodeRow(Encoded, row);
    SameEncoding(m.encode, row);
  }

  lemma {:induction false} SameEncoding(enc: Encoding, row: Row)
    requires forall v {:trigger Encoded(v)} :: enc(v) == Encoded(v)
    ensures EncodeRow(enc, row) == EncodeRow(Encoded, row)
  {
    if row != [] {
      SameEncoding(enc, row[1..]);
      assert enc(row[0]) == Encoded(row[0]);
    }
  }

  lemma {:induction false} SameFragments(enc: Encoding, rows: seq<Row>, width: nat)
    requires forall v {:trigger Encoded(v)} :: enc(v) == Encoded(v)
    ensures Fragments(enc, rows, width) == Fragments(Encoded, rows, width)
  {
    if rows != [] {
      SameFragments(enc, rows[..|rows| - 1], width);
      SameEncoding(enc, rows[|rows| - 1]);
    }
  }

  method EncodeContext(plan: Plan, ghost m: Measure, ghost caps: Caps<Row>)
    returns (ok: bool, context: bytes, overhead: nat)
    requires Faithful(plan, m, caps)
    ensures ok == m.sendable
    ensures ok ==> context == m.context && overhead == m.overhead
  {
    var fields := PayloadContext(plan.session);
    context, overhead := [], 0;
    ok := Json.AllSerializable(fields);
    if ok {
      context := ContextBytes(fields);
      overhead := |Splice(plan.prefix + Placeholder(plan.width), context, [])|;
    }
  }

  lemma ContextOfPayload(session: Session)
    ensures PayloadOf(session, "", []).fields[1..] == ContextFields(session)
  {
  }

  /** `batch` carries exactly `rows`, and its bytes are the serialised payload within the byte cap. */
  ghost predicate IsBatch(plan: Plan, rows: seq<Row>, batch: PreparedBatch) {
    && Batchable(plan, rows) && batch.rowCount == |rows| <= plan.maxRows
    && batch.sql == Sql(plan, |rows|)
    && batch.params == Flatten(rows)
    && batch.content == Content(plan, rows) && |batch.content| <= plan.maxBytes
  }
}
