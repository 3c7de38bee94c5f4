/** Result partitions: fetched all at once, streamed row by row, and streamed in batches. */
module Streaming {
  import opened Wrappers

  /**
   * The `data` of a response body: an array of rows; nothing, or something Python takes for false; or something else,
   * which `list()` turns into rows or refuses.
   */
  datatype Data<Raw> = Rows(rows: seq<Raw>) | Absent | Other(asList: Option<seq<Raw>>)

  /** What draining yields, and the exception that cuts it short, if any. */
  datatype Run<R, E> = Run(rows: seq<R>, end: Option<E>)
  {
    function Summary(): Result<seq<R>, E> {
      if end.Some? then Err(end.value) else Ok(rows)
    }
  }

  /**
   * A finished statement's result: how many partitions its metadata lists, the data in its first body, what fetching
   * each further partition gives, and how a row is converted.
   */
  datatype ResultSet<!Raw, !R, !E> = ResultSet(
    count: nat, first: Data<Raw>, page: nat -> Result<Data<Raw>, E>, coerce: Raw -> Result<R, E>, notArray: E, notIterable: E)
  {
    /** The index of the last partition. */
    function Last(): nat {
      if count == 0 then 0 else count - 1
    }

    function Part(i: nat): Result<Data<Raw>, E> {
      if i == 0 then Ok(first) else page(i)
    }

    /** `_stream_data`. */
    function StreamData(i: nat): Result<seq<Raw>, E> {
      match Part(i)
      case Err(e) => Err(e)
      case Ok(data) => if data.Rows? then Ok(data.rows) else Err(notArray)
    }

    /** `_rows`. */
    function ListOf(i: nat): Result<seq<Raw>, E> {
      match Part(i)
      case Err(e) => Err(e)
      case Ok(Rows(rows)) => Ok(rows)
      case Ok(Absent) => Ok([])
      case Ok(Other(Some(rows))) => Ok(rows)
      case Ok(Other(None)) => Err(notIterable)
    }

    /** The rows of partitions `0 .. k`, one after the other, or the first failure. */
    function Fetched(k: nat): Result<seq<Raw>, E> {
      if k == 0 then ListOf(0)
      else match Fetched(k - 1)
        case Err(e) => Err(e)
        case Ok(before) => match ListOf(k) case Err(e) => Err(e) case Ok(rows) => Ok(before + rows)
    }

    /** `coerce_rows`. */
    function CoerceAll(rows: seq<Raw>): Result<seq<R>, E> {
      if rows == [] then Ok([])
      else match coerce(rows[0])
        case Err(e) => Err(e)
        case Ok(r) => match CoerceAll(rows[1..]) case Err(e) => Err(e) case Ok(rest) => Ok([r] + rest)
    }

    /** What `query` returns or raises: fetch everything, then convert everything. */
    function Eager(): Result<seq<R>, E> {
      match Fetched(Last()) case Err(e) => Err(e) case Ok(rows) => CoerceAll(rows)
    }

    /** What is left to stream from row `offset` of partition `i`, whose rows are `data`. */
    function Drain(i: nat, data: seq<Raw>, offset: nat): Run<R, E>
      requires i <= Last() && offset <= |data|
      decreases Last() - i, |data| - offset
    {
      if offset < |data| then
        match coerce(data[offset])
        case Err(e) => Run([], Some(e))
        case Ok(r) => var rest := Drain(i, data, offset + 1); Run([r] + rest.rows, rest.end)
      else if i == Last() then Run([], None)
      else match StreamData(i + 1)
        case Err(e) => Run([], Some(e))
        case Ok(next) => Drain(i + 1, next, 0)
    }

    function Whole(): Run<R, E> {
      match StreamData(0) case Err(e) => Run([], Some(e)) case Ok(data) => Drain(0, data, 0)
    }

    /** Every partition arrives and holds an array. */
    ghost predicate WellFormed() {
      forall i: nat {:trigger StreamData(i)} | i <= Last() :: StreamData(i).Ok?
    }

    /** How many rows come before partition `i`. */
    function RowsBefore(i: nat): nat {
      if i == 0 then 0
      else RowsBefore(i - 1) + (match StreamData(i - 1) case Ok(rows) => |rows| case Err(_) => 0)
    }
  }

  // ---------------------------------------------------------------- eager fetching

  /** How many partitions a result has: those its metadata lists, and always the first. */
  function Total(count: nat): nat {
    if count < 1 then 1 else count
  }

  /** The rows `list()` makes of a partition's data, absent data being no rows. */
  predicate ListsAs<Raw(==), E(==)>(part: Result<Data<Raw>, E>, list: seq<Raw>) {
    part == Ok(Rows(list)) || (part == Ok(Absent) && list == []) || part == Ok(Other(Some(list)))
  }

  /** `lists` are the rows of the partitions from the first on, as `list()` makes them. */
  ghost predicate Lists<Raw, R, E>(s: ResultSet<Raw, R, E>, lists: seq<seq<Raw>>) {
    forall i: nat {:trigger s.Part(i)} | i < |lists| :: ListsAs(s.Part(i), lists[i])
  }

  /** Why no list can be made of a partition: it does not arrive, or `list()` refuses its data. */
  ghost predicate Unlisted<Raw, R, E>(s: ResultSet<Raw, R, E>, i: nat, e: E) {
    s.Part(i) == Err(e) || (s.Part(i) == Ok(Other(None)) && e == s.notIterable)
  }

  lemma ListsSnoc<Raw, R, E>(s: ResultSet<Raw, R, E>, lists: seq<seq<Raw>>, i: nat)
    requires Lists(s, lists) && i == |lists| && s.ListOf(i).Ok?
    ensures Lists(s, lists + [s.ListOf(i).value]) && Flatten(lists + [s.ListOf(i).value]) == Flatten(lists) + s.ListOf(i).value
  {
    FlattenSnoc(lists, s.ListOf(i).value);
  }

  /** Fetching the first `k + 1` partitions gives their rows, one after the other, or the first failure among them. */
  lemma {:induction false} FetchedExactly<Raw, R, E>(s: ResultSet<Raw, R, E>, k: nat) returns (lists: seq<seq<Raw>>)
    ensures Lists(s, lists) && |lists| <= k + 1
    ensures s.Fetched(k).Ok? <==> |lists| == k + 1
    ensures s.Fetched(k).Ok? ==> s.Fetched(k).value == Flatten(lists)
    ensures s.Fetched(k).Err? ==> Unlisted(s, |lists|, s.Fetched(k).error)
  {
    if k == 0 {
      lists := [];
      if s.ListOf(0).Ok? {
        ListsSnoc(s, lists, 0);
        assert [] + s.ListOf(0).value == s.ListOf(0).value;
        lists := lists + [s.ListOf(0).value];
      }
    } else {
      lists := FetchedExactly(s, k - 1);
      if s.Fetched(k).Ok? {
        ListsSnoc(s, lists, k);
        lists := lists + [s.ListOf(k).value];
      }
    }
  }

  /** `fetch_all_partitions`: every partition the metadata lists, each once and in order, up to a failure. */
  method FetchAllPartitions<Raw, R, E>(s: ResultSet<Raw, R, E>)
    returns (r: Result<seq<Raw>, E>, requests: seq<nat>, ghost lists: seq<seq<Raw>>)
    ensures r == s.Fetched(s.Last())
    ensures Lists(s, lists) && |lists| <= Total(s.count) && (r.Ok? <==> |lists| == Total(s.count))
    ensures r.Ok? ==> r.value == Flatten(lists)
    ensures r.Err? ==> Unlisted(s, |lists|, r.error)
    ensures forall i | 0 <= i < |requests| :: requests[i] == i + 1
    ensures |requests| == (if r.Ok? then Total(s.count) - 1 else |lists|)
  {
    lists := FetchedExactly(s, s.Last());
    requests := [];
    r := s.ListOf(0);
    if r.Err? {
      FailedEarly(s, 0, s.Last());
      FetchedUpTo(s, 0, lists);
      return;
    }
    var rows := r.value;
    var index := 1;
    while index < s.count
      invariant 1 <= index && (index <= s.count || index == 1)
      invariant s.Fetched(index - 1) == Ok(rows) && requests == UpTo(index - 1)
    {
      requests := requests + [index];
      var part := s.ListOf(index);
      if part.Err? {
        FailedEarly(s, index, s.Last());
        FetchedUpTo(s, index, lists);
        return Err(part.error), requests, lists;
      }
      rows := rows + part.value;
      index := index + 1;
    }
    return Ok(rows), requests, lists;
  }

  /** If partition `k` is the first that fails, `k` partitions could be listed. */
  lemma FetchedUpTo<Raw, R, E>(s: ResultSet<Raw, R, E>, k: nat, lists: seq<seq<Raw>>)
    requires s.ListOf(k).Err? && (k > 0 ==> s.Fetched(k - 1).Ok?)
    requires Lists(s, lists) && s.ListOf(|lists|).Err?
    ensures |lists| == k
  {
    if |lists| < k {
      FetchedBefore(s, |lists|, k - 1);
    }
  }

  lemma {:induction false} FetchedBefore<Raw, R, E>(s: ResultSet<Raw, R, E>, i: nat, k: nat)
    requires i <= k && s.Fetched(k).Ok?
    ensures s.ListOf(i).Ok?
  {
    if i < k {
      FetchedBefore(s, i, k - 1);
    }
  }

  /** The indices `1 .. k`. */
  function UpTo(k: nat): (indices: seq<nat>)
    ensures |indices| == k && forall i | 0 <= i < k :: indices[i] == i + 1
  {
    seq(k, i => i + 1)
  }

  lemma {:induction false} FailedEarly<Raw, R, E>(s: ResultSet<Raw, R, E>, k: nat, n: nat)
    requires k <= n && s.Fetched(k).Err?
    ensures s.Fetched(n) == s.Fetched(k)
  {
    if k < n {
      FailedEarly(s, k, n - 1);
    }
  }

  /** Converting rows gives each one converted, or the error of the first that cannot be. */
  lemma {:induction false} CoercedExactly<Raw, R, E>(s: ResultSet<Raw, R, E>, rows: seq<Raw>) returns (good: nat)
    ensures good <= |rows| && (s.CoerceAll(rows).Ok? <==> good == |rows|)
    ensures forall i | 0 <= i < good :: s.coerce(rows[i]).Ok?
    ensures s.CoerceAll(rows).Ok? ==> |s.CoerceAll(rows).value| == |rows|
    ensures s.CoerceAll(rows).Ok? ==> forall i | 0 <= i < |rows| :: s.coerce(rows[i]) == Ok(s.CoerceAll(rows).value[i])
    ensures s.CoerceAll(rows).Err? ==> s.coerce(rows[good]) == Err(s.CoerceAll(rows).error)
  {
    good := 0;
    if rows != [] && s.coerce(rows[0]).Ok? {
      var rest := CoercedExactly(s, rows[1..]);
      good := rest + 1;
    }
  }

  // ---------------------------------------------------------------- streaming

  datatype Pull<R, E> = Yields(row: R) | Stops | Raises(error: E)

  datatype Phase = Fresh | Running | Closed

  /** The generator `iter_result_rows`, suspended at its `yield` while `Running`. */
  class RowStream<Raw, R, E> {
    const source: ResultSet<Raw, R, E>
    var phase: Phase
    var index: nat
    var offset: nat
    var data: seq<Raw>
    /** The partitions asked for, in order. */
    var requests: seq<nat>
    ghost var yielded: nat

    ghost predicate Valid()
      reads this
    {
      && requests == UpTo(|requests|) && |requests| <= source.Last()
      && (phase.Fresh? ==> requests == [] && yielded == 0)
      && (phase.Running? ==> AtRow())
    }

    /** Suspended at the row yielded last, which is in the partition fetched last. */
    ghost predicate AtRow()
      reads this
    {
      && index == |requests| <= source.Last() && source.StreamData(index) == Ok(data) && offset < |data|
      && yielded == source.RowsBefore(index) + offset + 1
    }

    ghost function Remaining(): Run<R, E>
      reads this
      requires Valid()
    {
      match phase
      case Fresh => source.Whole()
      case Running => source.Drain(index, data, offset + 1)
      case Closed => Run([], None)
    }

    constructor (source: ResultSet<Raw, R, E>)
      ensures Valid() && this.source == source && Remaining() == source.Whole() && yielded == 0 && requests == []
    {
      this.source, phase, index, offset, data, requests := source, Fresh, 0, 0, [], [];
      yielded := 0;
    }

    /** Closing forgets the buffered rows. */
    method Close()
      modifies `phase, `data
      ensures phase.Closed? && data == []
    {
      phase, data := Closed, [];
    }

    /** Looking at row `offset` of the partition fetched last, everything before it having been yielded. */
    ghost predicate Seeking()
      reads this
    {
      && index == |requests| <= source.Last() && requests == UpTo(|requests|)
      && source.StreamData(index) == Ok(data) && offset <= |data|
      && yielded == source.RowsBefore(index) + offset
    }

    /** What resuming the generator does, given what was left to drain. */
    ghost predicate Pulled(p: Pull<R, E>, left: Run<R, E>, before: nat)
      reads this
    {
      && Valid()
      && match p
         case Yields(row) =>
           left == Run([row] + Remaining().rows, Remaining().end) && phase.Running? && yielded == before + 1
         case Stops => left == Run([], None) && phase.Closed? && yielded == before
         case Raises(e) => left == Run([], Some(e)) && phase.Closed? && yielded == before
    }

    /** Past the end of a partition: fetch the next one, if there is one. */
    method FetchNext() returns (p: Option<Pull<R, E>>)
      requires Seeking() && offset == |data|
      modifies `phase, `index, `offset, `data, `requests
      ensures p.None? ==>
        Seeking() && index == old(index) + 1
        && old(source.Drain(index, data, offset)) == source.Drain(index, data, offset)
      ensures p.Some? ==> Pulled(p.value, old(source.Drain(index, data, offset)), yielded) && !p.value.Yields?
      ensures p.Some? && p.value.Stops? ==> |requests| == Total(source.count) - 1
    {
      if index + 1 >= source.count {
        Close();
        return Some(Stops);
      }
      index := index + 1;
      requests := requests + [index];
      var next := source.StreamData(index);
      if next.Err? {
        Close();
        return Some(Raises(next.error));
      }
      data, offset := next.value, 0;
      return None;
    }

    /** Find the next row, fetching partitions as needed. */
    method Seek() returns (p: Pull<R, E>)
      requires Seeking()
      modifies this
      ensures Pulled(p, old(source.Drain(index, data, offset)), old(yielded))
      ensures p.Stops? ==> |requests| == Total(source.count) - 1
    {
      ghost var left := source.Drain(index, data, offset);
      while true
        invariant Seeking() && yielded == old(yielded) && left == source.Drain(index, data, offset)
        decreases source.Last() - index
      {
        if offset < |data| {
          var row := source.coerce(data[offset]);
          if row.Err? {
            Close();
            return Raises(row.error);
          }
          phase, yielded := Running, yielded + 1;
          return Yields(row.value);
        }
        var end := FetchNext();
        if end.Some? {
          return end.value;
        }
      }
    }

    /**
     * Resume the generator. It yields the next row of those left, having fetched exactly the partitions up to the one
     * that holds it; or it stops, or raises, where draining does.
     */
    method Next() returns (p: Pull<R, E>)
      requires Valid()
      modifies this
      ensures Pulled(p, old(Remaining()), old(yielded))
      ensures p.Stops? && !old(phase).Closed? ==> |requests| == Total(source.count) - 1
      ensures forall i | 0 <= i < |requests| :: requests[i] == i + 1
      ensures old(phase).Closed? ==> p.Stops? && requests == old(requests)
    {
      if phase.Closed? {
        return Stops;
      }
      if phase.Fresh? {
        var start := source.StreamData(0);
        if start.Err? {
          Close();
          return Raises(start.error);
        }
        index, offset, data := 0, 0, start.value;
      } else {
        offset := offset + 1;
      }
      p := Seek();
    }
  }

  // ---------------------------------------------------------------- what a whole stream yields

  /** From partition `from` on, the partitions are `arrays`. */
  ghost predicate Arrays<Raw, R, E>(s: ResultSet<Raw, R, E>, from: nat, arrays: seq<seq<Raw>>) {
    forall i: nat {:trigger arrays[i]} | i < |arrays| :: s.Part(from + i) == Ok(Rows(arrays[i]))
  }

  /** Why a partition cannot be streamed: it does not arrive, or it holds no array. */
  ghost predicate NoArray<Raw, R, E>(s: ResultSet<Raw, R, E>, i: nat, e: E) {
    s.Part(i) == Err(e) || (s.Part(i).Ok? && !s.Part(i).value.Rows? && e == s.notArray)
  }

  /**
   * A run over `raw`, the rows up to partition `next`: it yields them converted, one by one, and ends with all of them
   * if `next` is past the last partition, with the error of the first row that cannot be converted, or with what is
   * wrong with partition `next`.
   */
  ghost predicate Streamed<Raw, R, E>(s: ResultSet<Raw, R, E>, raw: seq<Raw>, next: nat, w: Run<R, E>) {
    && next <= Total(s.count) && |w.rows| <= |raw|
    && (forall i | 0 <= i < |w.rows| :: s.coerce(raw[i]) == Ok(w.rows[i]))
    && (w.end.None? ==> next == Total(s.count) && |w.rows| == |raw|)
    && (w.end.Some? ==>
          if |w.rows| < |raw| then s.coerce(raw[|w.rows|]) == Err(w.end.value)
          else next < Total(s.count) && NoArray(s, next, w.end.value))
  }

  lemma StreamedCons<Raw, R, E>(s: ResultSet<Raw, R, E>, row: Raw, raw: seq<Raw>, next: nat, r: R, w: Run<R, E>)
    requires s.coerce(row) == Ok(r) && Streamed(s, raw, next, w)
    ensures Streamed(s, [row] + raw, next, Run([r] + w.rows, w.end))
  {
  }

  lemma ArraysCons<Raw, R, E>(s: ResultSet<Raw, R, E>, from: nat, first: seq<Raw>, rest: seq<seq<Raw>>)
    requires s.Part(from) == Ok(Rows(first)) && Arrays(s, from + 1, rest)
    ensures Arrays(s, from, [first] + rest)
  {
    forall i: nat | i < |rest| + 1
      ensures s.Part(from + i) == Ok(Rows(([first] + rest)[i]))
    {
      if i > 0 {
        assert s.Part(from + 1 + (i - 1)) == Ok(Rows(rest[i - 1]));
      }
    }
  }

  /** What is left of partition `i` from row `offset` on, and the partitions `more` after it, are what draining yields. */
  ghost predicate Drained<Raw, R, E>(s: ResultSet<Raw, R, E>, i: nat, data: seq<Raw>, offset: nat, more: seq<seq<Raw>>)
    requires i <= s.Last() && offset <= |data|
  {
    && Arrays(s, i + 1, more)
    && Streamed(s, data[offset..] + Flatten(more), i + 1 + |more|, s.Drain(i, data, offset))
  }

  lemma DrainedRow<Raw, R, E>(s: ResultSet<Raw, R, E>, i: nat, data: seq<Raw>, offset: nat, more: seq<seq<Raw>>)
    requires i <= s.Last() && offset < |data| && s.coerce(data[offset]).Ok? && Drained(s, i, data, offset + 1, more)
    ensures Drained(s, i, data, offset, more)
  {
    var raw := data[offset + 1..] + Flatten(more);
    var r, w := s.coerce(data[offset]).value, s.Drain(i, data, offset + 1);
    StreamedCons(s, data[offset], raw, i + 1 + |more|, r, w);
    assert data[offset..] + Flatten(more) == [data[offset]] + raw;
  }

  lemma DrainedPart<Raw, R, E>(
    s: ResultSet<Raw, R, E>, i: nat, data: seq<Raw>, next: seq<Raw>, rest: seq<seq<Raw>>)
    requires i < s.Last() && s.StreamData(i + 1) == Ok(next) && Drained(s, i + 1, next, 0, rest)
    ensures Drained(s, i, data, |data|, [next] + rest)
  {
    ArraysCons(s, i + 1, next, rest);
    FlattenCons(next, rest);
    assert data[|data|..] + Flatten([next] + rest) == next[0..] + Flatten(rest);
  }

  lemma {:induction false} DrainExactly<Raw, R, E>(s: ResultSet<Raw, R, E>, i: nat, data: seq<Raw>, offset: nat)
    returns (more: seq<seq<Raw>>)
    requires i <= s.Last() && offset <= |data|
    ensures Drained(s, i, data, offset, more)
    decreases s.Last() - i, |data| - offset
  {
    more := [];
    if offset < |data| {
      if s.coerce(data[offset]).Ok? {
        more := DrainExactly(s, i, data, offset + 1);
        DrainedRow(s, i, data, offset, more);
      }
    } else if i < s.Last() && s.StreamData(i + 1).Ok? {
      var next := s.StreamData(i + 1).value;
      var rest := DrainExactly(s, i + 1, next, 0);
      more := [next] + rest;
      DrainedPart(s, i, data, next, rest);
    }
  }

  /**
   * A stream yields the rows of all partitions, however many its metadata lists, converted and in order, and then
   * stops; unless a row cannot be converted, or a partition does not arrive or holds no array, which is raised after
   * the rows before it.
   */
  lemma StreamExactly<Raw, R, E>(s: ResultSet<Raw, R, E>) returns (arrays: seq<seq<Raw>>)
    ensures Arrays(s, 0, arrays) && Streamed(s, Flatten(arrays), |arrays|, s.Whole())
  {
    arrays := [];
    if s.StreamData(0).Ok? {
      var data := s.StreamData(0).value;
      var more := DrainExactly(s, 0, data, 0);
      ArraysCons(s, 0, data, more);
      FlattenCons(data, more);
      assert data[0..] == data;
      arrays := [data] + more;
    }
  }

  // ---------------------------------------------------------------- streaming against eager fetching

  /** The rows of the partitions after `i`, if all of them arrive as arrays. */
  function Tail<Raw, R, E>(s: ResultSet<Raw, R, E>, i: nat): seq<Raw>
    requires i <= s.Last()
    decreases s.Last() - i
  {
    if i == s.Last() then []
    else (match s.StreamData(i + 1) case Ok(rows) => rows case Err(_) => []) + Tail(s, i + 1)
  }

  lemma {:induction false} FetchedAll<Raw, R, E>(s: ResultSet<Raw, R, E>, i: nat)
    requires i <= s.Last() && s.WellFormed()
    ensures s.Fetched(i).Ok? && s.Fetched(s.Last()) == Ok(s.Fetched(i).value + Tail(s, i))
    decreases s.Last() - i
  {
    FetchedOk(s, i);
    if i < s.Last() {
      assert s.StreamData(i + 1).Ok?;
      FetchedAll(s, i + 1);
      var a, b := s.Fetched(i).value, s.StreamData(i + 1).value;
      assert a + b + Tail(s, i + 1) == a + (b + Tail(s, i + 1));
    } else {
      assert s.Fetched(i).value + [] == s.Fetched(i).value;
    }
  }

  lemma {:induction false} FetchedOk<Raw, R, E>(s: ResultSet<Raw, R, E>, i: nat)
    requires i <= s.Last() && s.WellFormed()
    ensures s.Fetched(i).Ok?
  {
    assert s.StreamData(i).Ok?;
    if i > 0 {
      FetchedOk(s, i - 1);
    }
  }

  /** Converting row by row, stopping at the first row that fails. */
  function Convert<Raw, R, E>(s: ResultSet<Raw, R, E>, rows: seq<Raw>): Run<R, E> {
    if rows == [] then Run([], None)
    else match s.coerce(rows[0])
      case Err(e) => Run([], Some(e))
      case Ok(r) => var rest := Convert(s, rows[1..]); Run([r] + rest.rows, rest.end)
  }

  lemma {:induction false} ConvertSummary<Raw, R, E>(s: ResultSet<Raw, R, E>, rows: seq<Raw>)
    ensures Convert(s, rows).Summary() == s.CoerceAll(rows)
  {
    if rows != [] {
      ConvertSummary(s, rows[1..]);
    }
  }

  lemma {:induction false} DrainConverts<Raw, R, E>(s: ResultSet<Raw, R, E>, i: nat, data: seq<Raw>, offset: nat)
    requires s.WellFormed() && i <= s.Last() && offset <= |data|
    ensures s.Drain(i, data, offset) == Convert(s, data[offset..] + Tail(s, i))
    decreases s.Last() - i, |data| - offset
  {
    var rows := data[offset..] + Tail(s, i);
    if offset < |data| {
      DrainConverts(s, i, data, offset + 1);
      assert rows[1..] == data[offset + 1..] + Tail(s, i);
    } else if i < s.Last() {
      assert s.StreamData(i + 1).Ok?;
      var next := s.StreamData(i + 1).value;
      DrainConverts(s, i + 1, next, 0);
      assert rows == next[0..] + Tail(s, i + 1);
    }
  }

  /**
   * When every partition arrives and holds an array, streaming yields the rows `query` returns, in order, empty
   * partitions included; and where a row cannot be converted, both raise the same.
   */
  lemma StreamingIsEager<Raw, R, E>(s: ResultSet<Raw, R, E>)
    requires s.WellFormed()
    ensures s.Fetched(s.Last()).Ok? && s.Whole() == Convert(s, s.Fetched(s.Last()).value)
    ensures s.Whole().Summary() == s.Eager()
  {
    assert s.StreamData(0).Ok?;
    FetchedAll(s, 0);
    var data := s.StreamData(0).value;
    DrainConverts(s, 0, data, 0);
    assert data[0..] == data;
    ConvertSummary(s, data + Tail(s, 0));
  }

  /** Every partition arrives, and each that holds no array holds nothing. */
  ghost predicate ArraysOrNothing<Raw, R, E>(s: ResultSet<Raw, R, E>) {
    forall i: nat {:trigger s.Part(i)} | i <= s.Last() :: s.Part(i).Ok? && !s.Part(i).value.Other?
  }

  lemma {:induction false} EagerTakesNothing<Raw, R, E>(s: ResultSet<Raw, R, E>, k: nat)
    requires ArraysOrNothing(s) && k <= s.Last()
    ensures s.Fetched(k).Ok?
  {
    assert s.Part(k).Ok?;
    if k > 0 {
      EagerTakesNothing(s, k - 1);
    }
  }

  lemma {:induction false} DrainStopsAtNothing<Raw, R, E>(s: ResultSet<Raw, R, E>, i: nat, data: seq<Raw>, offset: nat, j: nat)
    requires i < j <= s.Last() && s.StreamData(j).Err? && offset <= |data|
    ensures s.Drain(i, data, offset).end.Some?
    decreases s.Last() - i, |data| - offset
  {
    if offset < |data| {
      if s.coerce(data[offset]).Ok? {
        DrainStopsAtNothing(s, i, data, offset + 1, j);
      }
    } else if s.StreamData(i + 1).Ok? {
      DrainStopsAtNothing(s, i + 1, s.StreamData(i + 1).value, 0, j);
    }
  }

  /**
   * The two differ on a missing array: when partitions hold arrays or nothing and all their rows convert, `query`
   * always succeeds, and streaming does so, with the same rows, exactly if no array is missing.
   */
  lemma MissingDataDiffers<Raw, R, E>(s: ResultSet<Raw, R, E>)
    requires ArraysOrNothing(s) && s.Eager().Ok?
    ensures s.Whole().end.None? <==> s.WellFormed()
    ensures s.WellFormed() ==> s.Whole().Summary() == s.Eager()
  {
    if s.WellFormed() {
      StreamingIsEager(s);
    } else {
      var j: nat :| j <= s.Last() && s.StreamData(j).Err?;
      if j > 0 && s.StreamData(0).Ok? {
        DrainStopsAtNothing(s, 0, s.StreamData(0).value, 0, j);
      }
    }
  }

  // ---------------------------------------------------------------- batches

  datatype BatchPull<R, E> = Batch(rows: seq<R>) | NoMore | Broke(error: E)

  /** The generator `query_batches`, over a stream of rows. */
  class BatchStream<Raw, R, E> {
    const stream: RowStream<Raw, R, E>
    const size: int

    constructor (stream: RowStream<Raw, R, E>, size: int)
      requires size > 0
      ensures this.stream == stream && this.size == size
    {
      this.stream, this.size := stream, size;
    }

    /**
     * Resume the generator: the next `size` rows, as soon as they are there; or the rest, if they are fewer and any;
     * or the end. An exception discards the batch being filled.
     */
    method Next() returns (b: BatchPull<R, E>)
      requires stream.Valid() && size > 0
      modifies stream
      ensures stream.Valid()
      ensures
        var left := old(stream.Remaining());
        match b
        case Batch(rows) =>
          && left == Run(rows + stream.Remaining().rows, stream.Remaining().end)
          && stream.yielded == old(stream.yielded) + |rows|
          && (if |rows| == size then stream.phase.Running?
              else 0 < |rows| < size && stream.phase.Closed? && stream.Remaining() == Run([], None))
        case NoMore => left == Run([], None) && stream.phase.Closed?
        case Broke(e) => left.end == Some(e) && |left.rows| < size && stream.phase.Closed?
    {
      var batch: seq<R> := [];
      while true
        invariant stream.Valid() && |batch| < size && stream.yielded == old(stream.yielded) + |batch|
        invariant old(stream.Remaining()) == Run(batch + stream.Remaining().rows, stream.Remaining().end)
        decreases size - |batch|
      {
        var p := stream.Next();
        match p
        case Stops =>
          assert batch + [] == batch;
          return if batch == [] then NoMore else Batch(batch);
        case Raises(e) =>
          assert batch + [] == batch;
          return Broke(e);
        case Yields(row) =>
          ghost var rest := stream.Remaining().rows;
          assert batch + ([row] + rest) == batch + [row] + rest;
          batch := batch + [row];
          if |batch| == size {
            return Batch(batch);
          }
      }
    }
  }

  /** `rows` in runs of `size`, the last one perhaps shorter. */
  function Chunks<R>(rows: seq<R>, size: nat): seq<seq<R>>
    requires size > 0
  {
    if rows == [] then []
    else if |rows| <= size then [rows]
    else [rows[..size]] + Chunks(rows[size..], size)
  }

  lemma {:induction false} ChunksHold<R>(rows: seq<R>, size: nat)
    requires size > 0
    ensures
      var batches := Chunks(rows, size);
      && Flatten(batches) == rows
      && (forall i | 0 <= i < |batches| - 1 :: |batches[i]| == size)
      && (batches != [] ==> 0 < |batches[|batches| - 1]| <= size)
  {
    if |rows| > size {
      ChunksHold(rows[size..], size);
      FlattenCons(rows[..size], Chunks(rows[size..], size));
      assert rows[..size] + rows[size..] == rows;
    } else if rows != [] {
      FlattenSnoc([], rows);
      assert [] + [rows] == [rows];
    }
  }

  lemma ChunksStep<R>(rows: seq<R>, rest: seq<R>, size: nat)
    requires 0 < |rows| <= size && (|rows| == size || rest == [])
    ensures Chunks(rows + rest, size) == [rows] + Chunks(rest, size)
  {
    if rest == [] {
      assert rows + rest == rows;
    } else {
      assert (rows + rest)[..size] == rows && (rows + rest)[size..] == rest;
    }
  }

  lemma ChunksMore<R>(batches: seq<seq<R>>, left: seq<R>, rows: seq<R>, rest: seq<R>, size: nat)
    requires left == rows + rest && 0 < |rows| <= size && (|rows| == size || rest == [])
    ensures batches + Chunks(left, size) == batches + [rows] + Chunks(rest, size)
  {
    ChunksStep(rows, rest, size);
  }

  /**
   * Take batches until there are no more, or an exception: together they are the stream's rows in runs of `size`, except
   * for fewer than `size` rows that an exception cost.
   */
  method DrainBatches<Raw, R, E>(s: ResultSet<Raw, R, E>, size: int)
    returns (batches: seq<seq<R>>, end: Option<E>, ghost lost: seq<R>)
    requires size > 0
    ensures end == s.Whole().end
    ensures Chunks(s.Whole().rows, size) == batches + Chunks(lost, size)
    ensures |lost| < size && (end.None? ==> lost == [])
  {
    var stream := new RowStream(s);
    var b := new BatchStream(stream, size);
    batches := [];
    while true
      invariant stream.Valid() && b.stream == stream && b.size == size && fresh(stream)
      invariant stream.Remaining().end == s.Whole().end
      invariant Chunks(s.Whole().rows, size) == batches + Chunks(stream.Remaining().rows, size)
      decreases |stream.Remaining().rows|
    {
      ghost var left := stream.Remaining().rows;
      var next := b.Next();
      match next {
        case Batch(rows) =>
          ChunksMore(batches, left, rows, stream.Remaining().rows, size);
          batches := batches + [rows];
        case NoMore =>
          return batches, None, [];
        case Broke(e) =>
          return batches, Some(e), left;
      }
    }
  }
}
