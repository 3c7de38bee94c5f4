/** The synchronous `_poll`: ask, sleep, ask again, and give up at the deadline. */
module SyncPoll {
  import opened Wrappers
  import opened Server
  import opened Transport

  /** Ticks in a second of the monotonic clock. */
  const SECOND: int := 1_000_000_000

  const DEFAULT_POLL_TIMEOUT: int := 600 * SECOND

  function Wait(timeout: Option<int>): int {
    if timeout.None? then DEFAULT_POLL_TIMEOUT else timeout.value
  }

  const TIMED_OUT: Fault := Fault(TimeoutError, None, None, None, None)

  ghost predicate StillRunning(policy: Policy, handle: string, run: seq<Event>) {
    var last := Conclude(policy, Status(handle), run);
    last.Ok? && last.value.Running()
  }

  /** `runs` are so many polls that each found the statement running. */
  ghost predicate AllRunning(policy: Policy, handle: string, runs: seq<seq<Event>>) {
    forall i: nat {:trigger Inside(i)} | Inside(i) && i < |runs| ::
      Finished(policy, Status(handle), runs[i]) && StillRunning(policy, handle, runs[i])
  }

  lemma AllRunningSnoc(policy: Policy, handle: string, runs: seq<seq<Event>>, run: seq<Event>)
    requires AllRunning(policy, handle, runs) && Finished(policy, Status(handle), run) && StillRunning(policy, handle, run)
    ensures AllRunning(policy, handle, runs + [run])
  {
  }

  /** `requests` is `n` polls of `handle`, then one cancel if `cancelled`. */
  function Asked(handle: string, n: nat, cancelled: bool): seq<Request> {
    seq(n, _ => Status(handle)) + (if cancelled then [Cancel(handle)] else [])
  }

  /** How a poll ended: `waiting` found the statement running, `last` is the poll after them, `cancel` what followed. */
  datatype Polling = Polling(waiting: seq<seq<Event>>, last: seq<Event>, cancel: seq<seq<Event>>)
  {
    function Polls(): nat {
      |waiting| + 1
    }

    function Events(): seq<Event> {
      Flatten(waiting) + last + Flatten(cancel)
    }
  }

  /**
   * The last poll's result is returned or raised as it is, unless it still found the statement running: that is a
   * timeout, preceded by one cancel if the client owns the statement; how the cancel went changes nothing else.
   */
  ghost predicate Ended(policy: Policy, handle: string, owned: bool, p: Polling, r: Result<Response, Fault>) {
    && AllRunning(policy, handle, p.waiting) && Finished(policy, Status(handle), p.last)
    && if StillRunning(policy, handle, p.last) then
         && r == Err(TIMED_OUT) && |p.cancel| == (if owned then 1 else 0)
         && (owned ==> Finished(policy, Cancel(handle), p.cancel[0]))
       else r == Conclude(policy, Status(handle), p.last) && p.cancel == []
  }

  lemma ReturnedIsFinished(policy: Policy, handle: string, owned: bool, p: Polling, r: Result<Response, Fault>)
    requires Ended(policy, handle, owned, p, r) && r.Ok?
    ensures r.value.status == 200
    ensures p.last != [] && p.last[|p.last| - 1].Sent?
    ensures p.last[|p.last| - 1].request == Status(handle) && p.last[|p.last| - 1].reply.Answer?
    ensures p.last[|p.last| - 1].reply.status == 200
  {
  }

  ghost predicate CallsAre(calls: seq<Request>, earlier: seq<Request>, handle: string, n: nat) {
    forall k: nat {:trigger Inside(k)} | Inside(k) :: calls == earlier + Asked(handle, n, false)
  }

  lemma CallsSnoc(calls: seq<Request>, earlier: seq<Request>, handle: string, n: nat, cancelled: bool)
    requires CallsAre(calls, earlier, handle, n)
    ensures CallsAre(calls + [Status(handle)], earlier, handle, n + 1)
    ensures calls + [Status(handle)] + (if cancelled then [Cancel(handle)] else []) == earlier + Asked(handle, n + 1, cancelled)
  {
    assert Inside(0);
    assert Asked(handle, n, false) + [Status(handle)] == Asked(handle, n + 1, false);
    assert Asked(handle, n + 1, false) + [Cancel(handle)] == Asked(handle, n + 1, true);
  }

  lemma NoCalls(calls: seq<Request>, handle: string)
    ensures CallsAre(calls, calls, handle, 0)
  {
  }

  lemma NoMoreEvents(events: seq<Event>)
    ensures events + Flatten([]) == events
  {
  }

  function Slept(n: nat, interval: nat): int {
    n * interval
  }

  lemma SleptOnce(n: nat, interval: nat)
    ensures Slept(n + 1, interval) == Slept(n, interval) + interval
  {
  }

  function CancelError(policy: Policy, handle: string, cancel: seq<seq<Event>>): Option<Fault> {
    if cancel == [] then None
    else match Conclude(policy, Cancel(handle), cancel[0]) case Ok(_) => None case Err(fault) => Some(fault)
  }

  // ---------------------------------------------------------------- when each poll was answered

  /** The `n`-th event of a log with these times was over before `deadline`; or not before it. */
  ghost predicate Early(times: seq<int>, n: nat, deadline: int) {
    0 < n <= |times| && times[n - 1] < deadline
  }

  ghost predicate Late(times: seq<int>, n: nat, deadline: int) {
    0 < n <= |times| && times[n - 1] >= deadline
  }

  /** Each of `runs`, the first of which began after `start` events, was answered before `deadline`. */
  ghost predicate AllEarly(times: seq<int>, start: nat, runs: seq<seq<Event>>, deadline: int) {
    forall i: nat {:trigger Inside(i)} | Inside(i) && i < |runs| ::
      Early(times, start + |Flatten(runs[..i + 1])|, deadline)
  }

  lemma AllEarlySnoc(
    times: seq<int>, start: nat, runs: seq<seq<Event>>, deadline: int, later: seq<int>, run: seq<Event>)
    requires AllEarly(times, start, runs, deadline) && times <= later
    requires |later| == start + |Flatten(runs + [run])| && later != [] && later[|later| - 1] < deadline
    ensures AllEarly(later, start, runs + [run], deadline)
  {
    var more := runs + [run];
    forall i: nat {:trigger Inside(i)} | Inside(i) && i < |more|
      ensures Early(later, start + |Flatten(more[..i + 1])|, deadline)
    {
      if i < |runs| {
        assert more[..i + 1] == runs[..i + 1];
      } else {
        assert more[..i + 1] == more;
      }
    }
  }

  lemma AllEarlyKept(times: seq<int>, start: nat, runs: seq<seq<Event>>, deadline: int, later: seq<int>)
    requires AllEarly(times, start, runs, deadline) && times <= later
    ensures AllEarly(later, start, runs, deadline)
  {
  }

  /**
   * The polls in `waiting` were answered before the deadline; and if the last one found the statement running too, it was
   * answered at or past the deadline, and a cancel came after it.
   */
  ghost predicate Punctual(policy: Policy, handle: string, times: seq<int>, start: nat, p: Polling, deadline: int) {
    && AllEarly(times, start, p.waiting, deadline)
    && (StillRunning(policy, handle, p.last) ==> Late(times, start + |Flatten(p.waiting)| + |p.last|, deadline))
  }

  /** The noted failure of a cancel: none if it was answered 200 or 202, else the exception of its last attempt. */
  lemma CancelErrorExactly(policy: Policy, handle: string, run: seq<Event>)
    requires Finished(policy, Cancel(handle), run)
    ensures
      var noted := CancelError(policy, handle, [run]);
      var answered := run != [] && run[|run| - 1].Sent? && run[|run| - 1].reply.Answer?
                      && run[|run| - 1].reply.status !in policy.retryStatuses;
      && (noted.None? <==> answered && run[|run| - 1].reply.status in {200, 202})
      && (noted.Some? ==> noted.value.status == if answered then Some(run[|run| - 1].reply.status) else None)
  {
  }

  /** What follows a poll that timed out. */
  method GiveUp<T(!new)>(
    wire: Wire<T>, handle: string, owned: bool, ghost from: State<T>, ghost earlier: seq<Event>, ghost before: seq<Event>)
    returns (cancelError: Option<Fault>, ghost cancel: seq<seq<Event>>)
    requires wire.Valid() && wire.Follows(from, earlier, before)
    modifies wire`tick, wire`now, wire`server, wire`log, wire`times, wire`calls
    ensures wire.Valid() && wire.Follows(from, earlier, before + Flatten(cancel))
    ensures wire.now >= old(wire.now) && old(wire.times) <= wire.times
    ensures wire.calls == old(wire.calls) + (if owned then [Cancel(handle)] else [])
    ensures |cancel| == (if owned then 1 else 0) && (owned ==> Finished(wire.policy, Cancel(handle), cancel[0]))
    ensures cancelError == CancelError(wire.policy, handle, cancel)
  {
    if !owned {
      NoMoreEvents(before);
      return None, [];
    }
    var result;
    ghost var run;
    result, run := wire.SendNext(Cancel(handle), from, earlier, before);
    FlattenSnoc([], run);
    assert Flatten([run]) == run;
    return if result.Err? then Some(result.error) else None, [run];
  }

  /** After the polls in `waiting`, all of which found the statement running. */
  ghost predicate Waited<T(!new)>(
    wire: Wire<T>, handle: string, from: State<T>, earlier: seq<Event>, asked: seq<Request>, waiting: seq<seq<Event>>,
    deadline: int)
    reads wire
  {
    && wire.Valid() && wire.Follows(from, earlier, Flatten(waiting))
    && CallsAre(wire.calls, asked, handle, |waiting|) && AllRunning(wire.policy, handle, waiting)
    && |wire.times| == |earlier| + |Flatten(waiting)| && AllEarly(wire.times, |earlier|, waiting, deadline)
  }

  /** Everything a poll promises, given its deadline, except how often it asks. */
  ghost predicate Polled<T(!new)>(
    wire: Wire<T>, handle: string, owned: bool, from: State<T>, earlier: seq<Event>, asked: seq<Request>,
    p: Polling, r: Result<Response, Fault>, cancelError: Option<Fault>, deadline: int)
    reads wire
  {
    && wire.Valid() && wire.Follows(from, earlier, p.Events())
    && wire.calls == asked + Asked(handle, p.Polls(), StillRunning(wire.policy, handle, p.last) && owned)
    && Ended(wire.policy, handle, owned, p, r) && cancelError == CancelError(wire.policy, handle, p.cancel)
    && Punctual(wire.policy, handle, wire.times, |earlier|, p, deadline)
  }

  datatype Turn = Again | Done(result: Result<Response, Fault>, cancelError: Option<Fault>)

  /** One turn of the loop: poll, and return, give up, or find that it must wait. */
  method Ask<T(!new)>(
    wire: Wire<T>, handle: string, deadline: int, owned: bool,
    ghost from: State<T>, ghost earlier: seq<Event>, ghost asked: seq<Request>, ghost waiting: seq<seq<Event>>)
    returns (t: Turn, ghost last: seq<Event>, ghost cancel: seq<seq<Event>>)
    requires Waited(wire, handle, from, earlier, asked, waiting, deadline)
    modifies wire`tick, wire`now, wire`server, wire`log, wire`times, wire`calls
    ensures t.Again? ==>
      Waited(wire, handle, from, earlier, asked, waiting + [last], deadline) && old(wire.now) < wire.now < deadline
    ensures t.Done? ==>
      Polled(wire, handle, owned, from, earlier, asked, Polling(waiting, last, cancel), t.result, t.cancelError, deadline)
    ensures old(wire.times) <= wire.times
  {
    CallsSnoc(wire.calls, asked, handle, |waiting|, false);
    CallsSnoc(wire.calls, asked, handle, |waiting|, owned);
    ghost var times := wire.times;
    var response;
    response, last := wire.SendNext(Status(handle), from, earlier, Flatten(waiting));
    ghost var answered := wire.times;
    if response.Err? || !response.value.Running() {
      NoMoreEvents(Flatten(waiting) + last);
      AllEarlyKept(times, |earlier|, waiting, deadline, answered);
      return Done(response, None), last, [];
    }
    assert last != [];
    FlattenSnoc(waiting, last);
    if wire.now >= deadline {
      var cancelError;
      cancelError, cancel := GiveUp(wire, handle, owned, from, earlier, Flatten(waiting) + last);
      AllEarlyKept(times, |earlier|, waiting, deadline, wire.times);
      return Done(Err(TIMED_OUT), cancelError), last, cancel;
    }
    AllRunningSnoc(wire.policy, handle, waiting, last);
    AllEarlySnoc(times, |earlier|, waiting, deadline, answered, last);
    return Again, last, [];
  }

  /**
   * `_poll`, with the statement owned by the client or not. It gives up only on a statement that a poll answered at or past
   * `start + wait` found running, every earlier poll having been answered before that.
   */
  method Poll<T(!new)>(wire: Wire<T>, handle: string, timeout: Option<int>, interval: nat, owned: bool)
    returns (r: Result<Response, Fault>, cancelError: Option<Fault>, ghost p: Polling)
    requires wire.Valid()
    modifies wire`tick, wire`now, wire`server, wire`log, wire`times, wire`calls
    ensures
      var wait := if timeout.Some? then timeout.value else 600_000_000_000;
      && Polled(wire, handle, owned, old(wire.server), old(wire.log), old(wire.calls), p, r, cancelError, old(wire.now) + wait)
      && (p.Polls() >= 2 ==> (p.Polls() - 2) * interval < wait)
    ensures old(wire.times) <= wire.times
  {
    var deadline := wire.now + (if timeout.None? then DEFAULT_POLL_TIMEOUT else timeout.value);
    ghost var waiting := [];
    wire.Nothing();
    NoCalls(wire.calls, handle);
    while true
      invariant Waited(wire, handle, old(wire.server), old(wire.log), old(wire.calls), waiting, deadline)
      invariant wire.now >= old(wire.now) + Slept(|waiting|, interval)
      invariant |waiting| >= 1 ==> Slept(|waiting| - 1, interval) < Wait(timeout)
      invariant old(wire.times) <= wire.times
      decreases deadline - wire.now
    {
      var t;
      ghost var last, cancel;
      t, last, cancel := Ask(wire, handle, deadline, owned, old(wire.server), old(wire.log), old(wire.calls), waiting);
      if t.Done? {
        return t.result, t.cancelError, Polling(waiting, last, cancel);
      }
      SleptOnce(|waiting|, interval);
      waiting := waiting + [last];
      wire.Sleep(interval);
    }
  }
}
