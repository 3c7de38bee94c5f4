/**
 * What the batch planner must do, said without its buffers: grow a batch row by row, asking of each
 * longer batch whether it fits, until a cap, the end of the source or a fault stops it.
 * `fits` is any test of a batch's bytes; Planner gives it the length of the whole serialised body.
 */
module Packing {
  import opened Wrappers

  /** One thing the source's iterator does when advanced: a record, something unusable, or an exception. */
  datatype Item<T> = Record(row: T) | Unusable | Raises

  datatype BatchPhase = Input | Validation | Submission | Execution

  datatype Step =
    | Done
    | Emit(count: nat)
    | Stop(phase: BatchPhase, consumed: nat)

  datatype Caps<!T> = Caps(maxRows: nat, fits: seq<T> -> bool)
  {
    predicate Allow(rows: seq<T>) {
      rows != [] && |rows| <= maxRows && fits(rows)
    }
  }

  /** The batch being filled has taken `taken` and `stream[pos]` is next. */
  function Grow<T>(caps: Caps<T>, stream: seq<Item<T>>, pos: nat, taken: seq<T>): Step
    requires pos <= |stream|
    decreases |stream| - pos
  {
    if |taken| >= caps.maxRows then Emit(|taken|)
    else if pos == |stream| then if taken == [] then Done else Emit(|taken|)
    else match stream[pos]
      case Raises => Stop(Input, pos)
      case Unusable => Stop(Validation, pos + 1)
      case Record(row) =>
        if !caps.fits([row]) then Stop(Validation, pos + 1)
        else if !caps.fits(taken + [row]) then Emit(|taken|)
        else Grow(caps, stream, pos + 1, taken + [row])
  }

  predicate AllRecords<T>(items: seq<Item<T>>) {
    forall i | 0 <= i < |items| :: items[i].Record?
  }

  function Rows<T>(items: seq<Item<T>>): (rows: seq<T>)
    requires AllRecords(items)
    ensures |rows| == |items|
    ensures forall i | 0 <= i < |items| :: rows[i] == items[i].row
  {
    seq(|items|, i requires 0 <= i < |items| => items[i].row)
  }

  /** `rows` is what the stream holds from `start` on. */
  ghost predicate Taken<T>(stream: seq<Item<T>>, start: nat, rows: seq<T>) {
    && start + |rows| <= |stream|
    && forall i {:trigger rows[i]} | 0 <= i < |rows| :: stream[start + i] == Record(rows[i])
  }

  /** A batch within the caps that nothing more could join. */
  ghost predicate Maximal<T>(caps: Caps<T>, stream: seq<Item<T>>, start: nat, rows: seq<T>) {
    && Taken(stream, start, rows) && caps.Allow(rows)
    && (|rows| == caps.maxRows || start + |rows| == |stream|
        || (stream[start + |rows|].Record? && !caps.Allow(rows + [stream[start + |rows|].row])))
  }

  /** Every emitted batch is within the caps and as long as the caps and the source allow. */
  lemma {:induction false} GrowMaximal<T>(caps: Caps<T>, stream: seq<Item<T>>, start: nat, taken: seq<T>)
    returns (rows: seq<T>)
    requires caps.maxRows > 0 && Taken(stream, start, taken) && (taken == [] || caps.Allow(taken))
    requires Grow(caps, stream, start + |taken|, taken).Emit?
    ensures |rows| == Grow(caps, stream, start + |taken|, taken).count && Maximal(caps, stream, start, rows)
    decreases |stream| - start - |taken|
  {
    var pos := start + |taken|;
    if |taken| < caps.maxRows && pos < |stream| {
      var row := stream[pos].row;
      assert taken == [] ==> taken + [row] == [row];
      if caps.fits(taken + [row]) {
        rows := GrowMaximal(caps, stream, start, taken + [row]);
        return;
      }
    }
    rows := taken;
  }

  /** A stop is at the first fault, with nothing but good records pulled before it. */
  lemma {:induction false} GrowStop<T>(caps: Caps<T>, stream: seq<Item<T>>, start: nat, taken: seq<T>)
    requires Taken(stream, start, taken) && Grow(caps, stream, start + |taken|, taken).Stop?
    ensures
      var stop := Grow(caps, stream, start + |taken|, taken);
      var at := if stop.phase == Input then stop.consumed else stop.consumed - 1;
      && start + |taken| <= at < |stream| && at < start + caps.maxRows
      && AllRecords(stream[start..at])
      && (if stop.phase == Input then stream[at].Raises?
          else stop.phase == Validation && (stream[at].Unusable? || (stream[at].Record? && !caps.fits([stream[at].row]))))
    decreases |stream| - start - |taken|
  {
    var pos := start + |taken|;
    assert forall i | 0 <= i < |taken| :: stream[start..pos][i] == Record(taken[i]);
    if stream[pos].Record? && caps.fits([stream[pos].row]) {
      GrowStop(caps, stream, start, taken + [stream[pos].row]);
    }
  }

  lemma {:induction false} GrowNotDone<T>(caps: Caps<T>, stream: seq<Item<T>>, pos: nat, taken: seq<T>)
    requires pos <= |stream| && caps.maxRows > 0
    ensures Grow(caps, stream, pos, taken).Done? <==> taken == [] && pos == |stream|
    decreases |stream| - pos
  {
    if pos < |stream| && stream[pos].Record? {
      GrowNotDone(caps, stream, pos + 1, taken + [stream[pos].row]);
    }
  }

  // ---------------------------------------------------------------- splits of a whole source

  ghost predicate Piece<T>(caps: Caps<T>, rows: seq<T>, a: nat, b: nat) {
    a < b <= |rows| && caps.Allow(rows[a..b])
  }

  /** An in-order split of `rows` into statements within both caps, as the indices where it cuts. */
  ghost predicate SplitsAt<T>(caps: Caps<T>, rows: seq<T>, cuts: seq<nat>) {
    && cuts != [] && cuts[0] == 0 && cuts[|cuts| - 1] == |rows|
    && forall i {:trigger cuts[i]} | 0 <= i < |cuts| - 1 :: Piece(caps, rows, cuts[i], cuts[i + 1])
  }

  ghost predicate Full<T>(caps: Caps<T>, rows: seq<T>, a: nat, b: nat) {
    b >= |rows| || (a <= b && !caps.Allow(rows[a..b + 1]))
  }

  ghost predicate Greedy<T>(caps: Caps<T>, rows: seq<T>, cuts: seq<nat>) {
    forall i {:trigger cuts[i]} | 0 <= i < |cuts| - 1 :: Full(caps, rows, cuts[i], cuts[i + 1])
  }

  /** Any part of a batch that the caps allow is allowed too. */
  ghost predicate Hereditary<T(!new)>(caps: Caps<T>) {
    forall rows: seq<T>, a: nat, b: nat {:trigger caps.Allow(rows), rows[a..b]} |
      a < b <= |rows| && caps.Allow(rows) :: caps.Allow(rows[a..b])
  }

  lemma {:induction false} GreedyStaysAhead<T(!new)>(
      caps: Caps<T>, rows: seq<T>, greedy: seq<nat>, other: seq<nat>, j: nat)
    requires Hereditary(caps)
    requires SplitsAt(caps, rows, greedy) && Greedy(caps, rows, greedy) && SplitsAt(caps, rows, other)
    requires j < |greedy| && j < |other|
    ensures other[j] <= greedy[j] <= |rows|
  {
    if j > 0 {
      GreedyStaysAhead(caps, rows, greedy, other, j - 1);
      assert Piece(caps, rows, other[j - 1], other[j]);
      assert Piece(caps, rows, greedy[j - 1], greedy[j]) && Full(caps, rows, greedy[j - 1], greedy[j]);
      AheadStep(caps, rows, other[j - 1], other[j], greedy[j - 1], greedy[j]);
    }
  }

  lemma AheadStep<T(!new)>(caps: Caps<T>, rows: seq<T>, a: nat, b: nat, c: nat, d: nat)
    requires Hereditary(caps) && a <= c && Piece(caps, rows, a, b) && Piece(caps, rows, c, d) && Full(caps, rows, c, d)
    ensures b <= d
  {
    if d < b {
      WidePieceFits(caps, rows, a, b, c, d);
    }
  }

  lemma SliceOfSlice<T>(s: seq<T>, a: nat, b: nat, c: nat, d: nat)
    requires a <= c <= d <= b <= |s|
    ensures s[a..b][c - a..d - a] == s[c..d]
  {
    var part := s[a..b][c - a..d - a];
    assert |part| == d - c;
    assert forall i | 0 <= i < |part| :: part[i] == s[c..d][i];
  }

  lemma WidePieceFits<T(!new)>(caps: Caps<T>, rows: seq<T>, a: nat, b: nat, c: nat, d: nat)
    requires Hereditary(caps) && Piece(caps, rows, a, b) && a <= c < d < b
    ensures caps.Allow(rows[c..d + 1]) && d < |rows|
  {
    SliceOfSlice(rows, a, b, c, d + 1);
  }

  /** No in-order split of the same rows within both caps uses fewer statements than a greedy one. */
  lemma GreedyIsOptimal<T(!new)>(caps: Caps<T>, rows: seq<T>, greedy: seq<nat>, other: seq<nat>)
    requires Hereditary(caps)
    requires SplitsAt(caps, rows, greedy) && Greedy(caps, rows, greedy) && SplitsAt(caps, rows, other)
    ensures |greedy| <= |other|
  {
    var j := |other| - 1;
    if j < |greedy| {
      GreedyStaysAhead(caps, rows, greedy, other, j);
    }
  }

  /** Where the planner cuts the stream, from `start` on. */
  ghost function Cuts<T>(caps: Caps<T>, stream: seq<Item<T>>, start: nat): (cuts: seq<nat>)
    requires start <= |stream|
    ensures cuts != [] && cuts[0] == start
    decreases |stream| - start
  {
    var step := Grow(caps, stream, start, []);
    if step.Emit? && 0 < step.count && start + step.count <= |stream|
    then [start] + Cuts(caps, stream, start + step.count)
    else [start]
  }

  lemma StepIsGreedy<T>(caps: Caps<T>, stream: seq<Item<T>>, start: nat)
    requires caps.maxRows > 0 && start <= |stream| && AllRecords(stream)
    requires Grow(caps, stream, start, []).Emit?
    ensures
      var n := Grow(caps, stream, start, []).count;
      n > 0 && Piece(caps, Rows(stream), start, start + n)
      && (start + n >= |stream| || !caps.Allow(Rows(stream)[start..start + n + 1]))
  {
    var batch := GrowMaximal(caps, stream, start, []);
    var all, next := Rows(stream), start + |batch|;
    assert all[start..next] == batch;
    assert next < |stream| ==> all[start..next + 1] == batch + [stream[next].row];
  }

  lemma {:induction false} CutsAreGreedy<T>(caps: Caps<T>, stream: seq<Item<T>>, start: nat, i: nat)
    requires caps.maxRows > 0 && start <= |stream| && AllRecords(stream)
    requires i < |Cuts(caps, stream, start)| - 1
    ensures
      var cuts, rows := Cuts(caps, stream, start), Rows(stream);
      Piece(caps, rows, cuts[i], cuts[i + 1]) && Full(caps, rows, cuts[i], cuts[i + 1])
    decreases i
  {
    StepIsGreedy(caps, stream, start);
    if i > 0 {
      CutsAreGreedy(caps, stream, start + Grow(caps, stream, start, []).count, i - 1);
    }
  }

  lemma CutsSplit<T>(caps: Caps<T>, stream: seq<Item<T>>)
    requires caps.maxRows > 0 && AllRecords(stream)
    requires var cuts := Cuts(caps, stream, 0); cuts[|cuts| - 1] == |stream|
    ensures SplitsAt(caps, Rows(stream), Cuts(caps, stream, 0)) && Greedy(caps, Rows(stream), Cuts(caps, stream, 0))
  {
    var cuts, rows := Cuts(caps, stream, 0), Rows(stream);
    forall i {:trigger cuts[i]} | 0 <= i < |cuts| - 1
      ensures Piece(caps, rows, cuts[i], cuts[i + 1]) && Full(caps, rows, cuts[i], cuts[i + 1])
    {
      CutsAreGreedy(caps, stream, 0, i);
    }
  }

  /** When the planner packs a whole source, no in-order split of its rows uses fewer statements. */
  lemma PlanIsOptimal<T(!new)>(caps: Caps<T>, stream: seq<Item<T>>, other: seq<nat>)
    requires Hereditary(caps) && caps.maxRows > 0 && AllRecords(stream)
    requires var cuts := Cuts(caps, stream, 0); cuts[|cuts| - 1] == |stream|
    requires SplitsAt(caps, Rows(stream), other)
    ensures |Cuts(caps, stream, 0)| <= |other|
  {
    CutsSplit(caps, stream);
    GreedyIsOptimal(caps, Rows(stream), Cuts(caps, stream, 0), other);
  }
}
