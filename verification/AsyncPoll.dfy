/**
 * The asynchronous `_poll` and `_cancel_after_task_cancel`, first as a machine that takes one input per await,
 * then as the code that drives it.
 */
module AsyncPoll {
  import opened Wrappers
  import opened SyncPoll

  /** One task per poll may be running its last cancel request; it goes by the poll's id. */
  type TaskId = nat

  const CANCEL_ON_TASK_CANCEL_TIMEOUT: int := 5 * SECOND

  /** How a poll ends. A timeout notes whether its own cancel, if it made one, failed. */
  datatype End = Returned | Raised | TimedOut(cancelled: Option<bool>) | WasCancelled

  /** Which await the poll stands at. */
  datatype Location = Asking | Sleeping | TimeoutCancel | Waiting | Finished(end: End)

  /** The request started after a cancellation. One that is abandoned settles in time. */
  datatype CancelTask = NoTask | Requested | Completed | Abandoned | Settled

  datatype State = State(
    self: TaskId, owned: bool, interval: nat, deadline: int,
    loc: Location, now: int, pending: nat,
    task: CancelTask, waitUntil: int, abandoned: set<TaskId>, cancelled: set<TaskId>,
    issued: nat, cutOff: bool, caught: bool)

  /** What ends an await, after `elapsed` ticks: an answer, an error, the timer, or a CancelledError. */
  datatype Input =
    | Answered(elapsed: nat, running: bool)
    | Failed(elapsed: nat)
    | Woken(elapsed: nat)
    | CancelAnswered(elapsed: nat, ok: bool)
    | Interrupted(elapsed: nat)
    | Resumed(elapsed: nat, done: bool, interrupted: bool)
    | Settles(task: TaskId)

  /** What can end the await at `loc`, with `pending` cancellations to come and `left` ticks of the bounded wait. */
  predicate Ends(loc: Location, pending: nat, interval: nat, left: int, i: Input) {
    match i
    case Answered(elapsed, _) => loc.Asking? && elapsed >= 1
    case Failed(_) => loc.Asking?
    case Woken(elapsed) => loc.Sleeping? && elapsed >= interval
    case CancelAnswered(_, _) => loc.TimeoutCancel?
    case Interrupted(_) => (loc.Asking? || loc.Sleeping? || loc.TimeoutCancel?) && pending > 0
    case Resumed(elapsed, done, interrupted) =>
      loc.Waiting? && (interrupted ==> pending > 0) && (done || interrupted || elapsed >= left)
    case Settles(_) => false
  }

  predicate Enabled(s: State, i: Input) {
    if i.Settles? then i.task in s.abandoned else Ends(s.loc, s.pending, s.interval, s.waitUntil - s.now, i)
  }

  function Step(s: State, i: Input): State
    requires Enabled(s, i)
  {
    match i
    case Answered(elapsed, running) =>
      var t := s.(now := s.now + elapsed);
      if !running then t.(loc := Finished(Returned))
      else if t.now < t.deadline then t.(loc := Sleeping)
      else if t.owned then t.(loc := TimeoutCancel, issued := t.issued + 1)
      else t.(loc := Finished(TimedOut(None)))
    case Failed(elapsed) => s.(now := s.now + elapsed, loc := Finished(Raised))
    case Woken(elapsed) => s.(now := s.now + elapsed, loc := Asking)
    case CancelAnswered(elapsed, ok) => s.(now := s.now + elapsed, loc := Finished(TimedOut(Some(ok))))
    case Interrupted(elapsed) =>
      var t := s.(now := s.now + elapsed, pending := s.pending - 1, caught := true, cutOff := s.loc.TimeoutCancel?);
      if !t.owned then t.(loc := Finished(WasCancelled))
      else t.(loc := Waiting, task := Requested, issued := t.issued + 1,
              waitUntil := t.now + CANCEL_ON_TASK_CANCEL_TIMEOUT)
    case Resumed(elapsed, done, interrupted) =>
      var t := s.(now := s.now + elapsed, pending := if interrupted then s.pending - 1 else s.pending);
      if done then t.(task := Completed, loc := Finished(WasCancelled))
      else if t.now >= t.waitUntil then
        t.(task := Abandoned, abandoned := t.abandoned + {t.self}, cancelled := t.cancelled + {t.self},
           loc := Finished(WasCancelled))
      else t
    case Settles(task) =>
      s.(abandoned := s.abandoned - {task}, task := if task == s.self then Settled else s.task)
  }

  /**
   * `abandoned` and `cancelled` are the request tasks in the abandoned set and those `cancel()` was called on.
   * A poll begins with `pending` cancellations that may yet arrive, among other polls' abandoned requests. */
  predicate Initial(s: State) {
    && s.loc.Asking? && s.task.NoTask? && s.issued == 0 && !s.cutOff && !s.caught
    && s.self !in s.abandoned && s.self !in s.cancelled
  }

  ghost predicate Possible(s: State, inputs: seq<Input>)
    decreases |inputs|, 0
  {
    inputs == [] ||
    (Possible(s, inputs[..|inputs| - 1]) && Enabled(Run(s, inputs[..|inputs| - 1]), inputs[|inputs| - 1]))
  }

  ghost function Run(s: State, inputs: seq<Input>): State
    requires Possible(s, inputs)
    decreases |inputs|, 1
  {
    if inputs == [] then s else Step(Run(s, inputs[..|inputs| - 1]), inputs[|inputs| - 1])
  }

  lemma RunSnoc(s: State, inputs: seq<Input>, i: Input)
    requires Possible(s, inputs) && Enabled(Run(s, inputs), i)
    ensures Possible(s, inputs + [i]) && Run(s, inputs + [i]) == Step(Run(s, inputs), i)
  {
    assert (inputs + [i])[..|inputs|] == inputs;
  }

  // ---------------------------------------------------------------- safety over whole runs

  /** How many cancel requests a poll has made: the timeout's own, and one after a CancelledError. */
  function Issued(s: State): nat {
    if !s.owned then 0
    else (if s.loc.TimeoutCancel? || s.loc == Finished(TimedOut(Some(true))) || s.loc == Finished(TimedOut(Some(false)))
             || s.cutOff then 1 else 0)
         + (if s.caught then 1 else 0)
  }

  ghost predicate Safe(s: State) {
    && s.issued == Issued(s)
    && (s.caught <==> s.loc.Waiting? || s.loc == Finished(WasCancelled))
    && (s.cutOff ==> s.owned && s.caught)
    && (!s.owned ==> !s.loc.TimeoutCancel? && !s.loc.Waiting?)
    && (s.loc.Finished? && s.loc.end.TimedOut? ==> s.now >= s.deadline && (s.loc.end.cancelled.Some? <==> s.owned))
    && (s.loc.TimeoutCancel? ==> s.now >= s.deadline)
    && (s.task.NoTask? <==> !(s.owned && s.caught))
    && (s.loc.Waiting? <==> s.task.Requested?)
    && (s.self in s.abandoned <==> s.task.Abandoned?)
    && (s.self in s.cancelled <==> s.task.Abandoned? || s.task.Settled?)
    && (s.task.Abandoned? || s.task.Settled? ==> s.now >= s.waitUntil)
  }

  lemma StepSafe(s: State, i: Input)
    requires Safe(s) && Enabled(s, i)
    ensures Safe(Step(s, i))
  {
  }

  lemma {:induction false} RunSafe(s: State, inputs: seq<Input>)
    requires Initial(s) && Possible(s, inputs)
    ensures Safe(Run(s, inputs)) && Run(s, inputs).owned == s.owned && Run(s, inputs).deadline == s.deadline
    ensures Run(s, inputs).now >= s.now
  {
    if inputs != [] {
      RunSafe(s, inputs[..|inputs| - 1]);
      StepSafe(Run(s, inputs[..|inputs| - 1]), inputs[|inputs| - 1]);
    }
  }

  /**
   * Wherever cancellations land: a poll of a statement its caller holds never cancels it; a poll that owns its statement
   * and leaves by timeout has issued one cancel, and by CancelledError one or, if that cut off the timeout's own, two.
   */
  lemma CancelsItsOwn(s: State, inputs: seq<Input>)
    requires Initial(s) && Possible(s, inputs)
    ensures
      var t := Run(s, inputs);
      && (!s.owned ==> t.issued == 0)
      && (s.owned && t.loc.Finished? ==>
            match t.loc.end
            case Returned => t.issued == 0
            case Raised => t.issued == 0
            case TimedOut(_) => t.issued == 1
            case WasCancelled => t.issued == (if t.cutOff then 2 else 1))
  {
    RunSafe(s, inputs);
  }

  /** Some poll was answered with a finished statement; or failed. */
  predicate SawResult(inputs: seq<Input>) {
    inputs != [] && (SawResult(inputs[..|inputs| - 1]) || (inputs[|inputs| - 1].Answered? && !inputs[|inputs| - 1].running))
  }

  predicate SawFailure(inputs: seq<Input>) {
    inputs != [] && (SawFailure(inputs[..|inputs| - 1]) || inputs[|inputs| - 1].Failed?)
  }

  /** The timeout's own cancel was answered, and whether that was a success. */
  predicate SawCancel(inputs: seq<Input>, ok: bool) {
    inputs != [] &&
    var last := inputs[|inputs| - 1];
    SawCancel(inputs[..|inputs| - 1], ok) || (last.CancelAnswered? && last.ok == ok)
  }

  /** Some poll was answered with a running statement, at or past the deadline. */
  ghost predicate SawDeadline(s: State, inputs: seq<Input>)
    requires Possible(s, inputs)
  {
    inputs != [] &&
    var last := inputs[|inputs| - 1];
    SawDeadline(s, inputs[..|inputs| - 1]) || (last.Answered? && last.running && Run(s, inputs).now >= s.deadline)
  }

  ghost predicate Expired(s: State) {
    s.loc.TimeoutCancel? || (s.loc.Finished? && s.loc.end.TimedOut?) || s.cutOff
  }

  lemma EndStep(s: State, i: Input)
    requires Safe(s) && Enabled(s, i)
    ensures Step(s, i).loc == Finished(Returned) <==> s.loc == Finished(Returned) || (i.Answered? && !i.running)
    ensures Step(s, i).loc == Finished(Raised) <==> s.loc == Finished(Raised) || i.Failed?
    ensures forall ok :: Step(s, i).loc == Finished(TimedOut(Some(ok)))
                    <==> s.loc == Finished(TimedOut(Some(ok))) || (i.CancelAnswered? && i.ok == ok)
    ensures Expired(Step(s, i)) <==> Expired(s) || (i.Answered? && i.running && Step(s, i).now >= s.deadline)
  {
  }

  /**
   * A poll returns exactly if a poll was answered with a finished statement, raises exactly if one failed, and gives up on
   * the statement exactly if one found it running at or past the deadline. The timeout tells of its own cancel what that
   * was answered.
   */
  lemma {:induction false} EndsAsAnswered(s: State, inputs: seq<Input>)
    requires Initial(s) && Possible(s, inputs)
    ensures Run(s, inputs).loc == Finished(Returned) <==> SawResult(inputs)
    ensures Run(s, inputs).loc == Finished(Raised) <==> SawFailure(inputs)
    ensures Expired(Run(s, inputs)) <==> SawDeadline(s, inputs)
    ensures forall ok :: Run(s, inputs).loc == Finished(TimedOut(Some(ok))) <==> SawCancel(inputs, ok)
  {
    if inputs != [] {
      var n := |inputs| - 1;
      EndsAsAnswered(s, inputs[..n]);
      RunSafe(s, inputs[..n]);
      EndStep(Run(s, inputs[..n]), inputs[n]);
    }
  }

  predicate Interrupts(i: Input) {
    i.Interrupted? || (i.Resumed? && i.interrupted)
  }

  lemma CaughtStep(s: State, i: Input)
    requires Safe(s) && Enabled(s, i)
    ensures Step(s, i).caught <==> s.caught || Interrupts(i)
  {
  }

  /** A CancelledError that reaches the poll is what the poll raises in the end, never the timeout; and only then. */
  lemma {:induction false} CancelledErrorSurvives(s: State, inputs: seq<Input>)
    requires Initial(s) && Possible(s, inputs)
    ensures
      var t := Run(s, inputs);
      && (t.caught <==> exists k :: 0 <= k < |inputs| && Interrupts(inputs[k]))
      && (t.loc.Finished? ==> (t.loc.end.WasCancelled? <==> t.caught))
  {
    RunSafe(s, inputs);
    if inputs != [] {
      var n := |inputs| - 1;
      var init := inputs[..n];
      CancelledErrorSurvives(s, init);
      RunSafe(s, init);
      CaughtStep(Run(s, init), inputs[n]);
      InterruptsSnoc(init, inputs[n]);
      assert inputs == init + [inputs[n]];
    }
  }

  lemma InterruptsSnoc(init: seq<Input>, i: Input)
    ensures (exists k :: 0 <= k < |init + [i]| && Interrupts((init + [i])[k]))
      <==> (exists k :: 0 <= k < |init| && Interrupts(init[k])) || Interrupts(i)
  {
    var all := init + [i];
    if k :| 0 <= k < |init| && Interrupts(init[k]) {
      assert Interrupts(all[k]);
    }
    if Interrupts(i) {
      assert Interrupts(all[|init|]);
    }
    if k :| 0 <= k < |all| && Interrupts(all[k]) {
      if k < |init| {
        assert Interrupts(init[k]);
      }
    }
  }

  /**
   * The wait after a cancellation ends only with its request finished, or with the deadline passed and the request
   * cancelled; and that one is in the abandoned set from then until it settles.
   */
  lemma WaitEndsProperly(s: State, inputs: seq<Input>)
    requires Initial(s) && Possible(s, inputs) && s.owned && Run(s, inputs).loc == Finished(WasCancelled)
    ensures
      var t := Run(s, inputs);
      || (t.task.Completed? && t.self !in t.cancelled)
      || (t.now >= t.waitUntil && (t.task.Abandoned? || t.task.Settled?)
          && t.self in t.cancelled && (t.self in t.abandoned <==> t.task.Abandoned?))
  {
    RunSafe(s, inputs);
  }

  lemma OthersKept(s: State, i: Input, other: TaskId)
    requires Enabled(s, i) && other != s.self
    ensures other in Step(s, i).abandoned <==> other in s.abandoned && i != Settles(other)
    ensures other in Step(s, i).cancelled <==> other in s.cancelled
    ensures Step(s, i).self == s.self
  {
  }

  /** What other polls abandoned stays in the set exactly until it settles, and no poll cancels another's request. */
  lemma {:induction false} AbandonedUntilSettled(s: State, inputs: seq<Input>, other: TaskId)
    requires Possible(s, inputs) && other != s.self
    ensures other in Run(s, inputs).abandoned
      <==> other in s.abandoned && forall k | 0 <= k < |inputs| :: inputs[k] != Settles(other)
    ensures other in Run(s, inputs).cancelled <==> other in s.cancelled
    ensures Run(s, inputs).self == s.self
  {
    if inputs != [] {
      var n := |inputs| - 1;
      var init := inputs[..n];
      AbandonedUntilSettled(s, init, other);
      OthersKept(Run(s, init), inputs[n], other);
      assert forall k | 0 <= k < n :: inputs[k] == init[k];
    }
  }

  // ---------------------------------------------------------------- termination

  function TimeLeft(s: State): nat {
    if s.now < s.deadline then s.deadline - s.now else 0
  }

  /** At most so many more awaits until the poll ends. */
  function Bound(s: State): nat {
    match s.loc
    case Asking => 2 * TimeLeft(s) + s.pending + 3
    case Sleeping => 2 * TimeLeft(s) + s.pending + 4
    case TimeoutCancel => s.pending + 2
    case Waiting => s.pending + 1
    case Finished(_) => 0
  }

  function Awaits(inputs: seq<Input>): nat {
    if inputs == [] then 0
    else Awaits(inputs[..|inputs| - 1]) + (if inputs[|inputs| - 1].Settles? then 0 else 1)
  }

  lemma BoundFalls(s: State, i: Input)
    requires Enabled(s, i)
    ensures if i.Settles? then Bound(Step(s, i)) == Bound(s) else Bound(Step(s, i)) < Bound(s)
  {
  }

  /** Every run is finite, by the time left and the cancellations that may yet come. */
  lemma {:induction false} Terminates(s: State, inputs: seq<Input>)
    requires Possible(s, inputs)
    ensures Awaits(inputs) + Bound(Run(s, inputs)) <= Bound(s)
  {
    if inputs != [] {
      Terminates(s, inputs[..|inputs| - 1]);
      BoundFalls(Run(s, inputs[..|inputs| - 1]), inputs[|inputs| - 1]);
    }
  }

  /** How long the awaits took. */
  function Elapsed(inputs: seq<Input>): nat {
    if inputs == [] then 0
    else
      var last := inputs[|inputs| - 1];
      Elapsed(inputs[..|inputs| - 1]) + (if last.Settles? then 0 else last.elapsed)
  }

  function Interruptions(inputs: seq<Input>): nat {
    if inputs == [] then 0
    else Interruptions(inputs[..|inputs| - 1]) + (if Interrupts(inputs[|inputs| - 1]) then 1 else 0)
  }

  lemma {:induction false} RunClock(s: State, inputs: seq<Input>)
    requires Possible(s, inputs)
    ensures Run(s, inputs).now == s.now + Elapsed(inputs)
    ensures Run(s, inputs).pending == s.pending - Interruptions(inputs)
  {
    if inputs != [] {
      RunClock(s, inputs[..|inputs| - 1]);
    }
  }

  /** No await waits forever: each can end, without any cancellation. */
  function Unblock(loc: Location, interval: nat, left: int): (i: Input)
    requires !loc.Finished?
    ensures !Interrupts(i) && forall pending :: Ends(loc, pending, interval, left, i)
  {
    match loc
    case Asking => Answered(1, true)
    case Sleeping => Woken(interval)
    case TimeoutCancel => CancelAnswered(0, false)
    case Waiting => Resumed(if left > 0 then left else 0, false, false)
  }

  /** The timer of the bounded wait fires on time. */
  predicate Prompt(s: State, i: Input) {
    i.Resumed? ==> i.elapsed <= s.waitUntil - s.now
  }

  ghost predicate AllPrompt(s: State, inputs: seq<Input>)
    requires Possible(s, inputs)
  {
    inputs == [] ||
    (AllPrompt(s, inputs[..|inputs| - 1]) && Prompt(Run(s, inputs[..|inputs| - 1]), inputs[|inputs| - 1]))
  }

  lemma {:induction false} PossiblePrefix(s: State, inputs: seq<Input>, k: nat)
    requires Possible(s, inputs) && k <= |inputs|
    ensures Possible(s, inputs[..k])
  {
    if k < |inputs| {
      PossiblePrefix(s, inputs[..|inputs| - 1], k);
      assert inputs[..|inputs| - 1][..k] == inputs[..k];
    } else {
      assert inputs[..k] == inputs;
    }
  }

  lemma PromptStep(s: State, i: Input)
    requires Safe(s) && Enabled(s, i) && Prompt(s, i) && s.owned
    ensures s.caught && s.now <= s.waitUntil ==>
      var t := Step(s, i); t.caught && t.waitUntil == s.waitUntil && t.now <= t.waitUntil
    ensures i.Interrupted? ==>
      var t := Step(s, i); t.caught && t.waitUntil == t.now + CANCEL_ON_TASK_CANCEL_TIMEOUT
  {
  }

  /** However many cancellations it absorbs, a wait with a prompt timer is over five seconds after the first. */
  lemma {:induction false} WaitIsBounded(s: State, inputs: seq<Input>, k: nat)
    requires Initial(s) && Possible(s, inputs) && AllPrompt(s, inputs) && s.owned
    requires k < |inputs| && inputs[k].Interrupted? && Possible(s, inputs[..k + 1])
    ensures Run(s, inputs).now <= Run(s, inputs).waitUntil
    ensures Run(s, inputs).waitUntil == Run(s, inputs[..k + 1]).now + 5_000_000_000
    ensures Run(s, inputs).caught
  {
    var n := |inputs| - 1;
    var init := inputs[..n];
    RunSafe(s, init);
    PromptStep(Run(s, init), inputs[n]);
    assert Run(s, inputs) == Step(Run(s, init), inputs[n]);
    if k < n {
      assert init[..k + 1] == inputs[..k + 1];
      WaitIsBounded(s, init, k);
    } else {
      assert inputs[..k + 1] == inputs;
    }
  }

  // ---------------------------------------------------------------- the code

  /** What the environment does at one await: an abandoned request may settle, and the await ends. */
  datatype Choice = Choice(settles: Option<TaskId>, input: Input)

  /** The client and its event loop, with the module's set of abandoned requests. */
  class AsyncClient {
    const env: nat -> Choice
    const self: TaskId
    const pollInterval: nat
    var tick: nat
    var now: int
    var pending: nat
    var abandonedCancels: set<TaskId>
    /** The request tasks on which `cancel()` was called. */
    var cancelledTasks: set<TaskId>
    ghost var origin: State
    ghost var inputs: seq<Input>
    ghost var state: State

    constructor (env: nat -> Choice, self: TaskId, pollInterval: nat, now: int, pending: nat, abandoned: set<TaskId>)
      ensures this.self == self && this.pollInterval == pollInterval
      ensures this.now == now && this.pending == pending && abandonedCancels == abandoned && cancelledTasks == {}
    {
      this.env, this.self, this.pollInterval, this.tick := env, self, pollInterval, 0;
      this.now, this.pending, this.abandonedCancels, this.cancelledTasks := now, pending, abandoned, {};
    }

    /** The machine, given the same inputs, stands at `s`. */
    ghost predicate Reached(s: State)
      reads `origin, `inputs
    {
      forall k: nat {:trigger Inside(k)} | Inside(k) ::
        Initial(origin) && Possible(origin, inputs) && s == Run(origin, inputs)
    }

    /** The code stands where the machine does. */
    ghost predicate Follows()
      reads this
    {
      && Reached(state) && Safe(state)
      && state.self == self && state.interval == pollInterval && state.now == now && state.pending == pending
    }

    ghost method Advance(i: Input)
      requires Reached(state) && Safe(state) && Enabled(state, i)
      modifies `inputs, `state
      ensures state == Step(old(state), i) && Reached(state) && Safe(state)
    {
      assert Inside(0);
      RunSnoc(origin, inputs, i);
      StepSafe(state, i);
      inputs, state := inputs + [i], Step(state, i);
    }

    /** `_settle_cancel`, the callback of a request that finished. */
    method SettleCancel(task: TaskId)
      modifies `abandonedCancels
      ensures abandonedCancels == old(abandonedCancels) - {task}
    {
      abandonedCancels := abandonedCancels - {task};
    }

    /** `task.cancel()`. */
    method CancelTask(task: TaskId)
      modifies `cancelledTasks
      ensures cancelledTasks == old(cancelledTasks) + {task}
    {
      cancelledTasks := cancelledTasks + {task};
    }

    /** While the poll waits, the callback of an abandoned request may run. */
    method RunCallback(settles: Option<TaskId>)
      requires Follows() && !state.loc.Finished? && abandonedCancels == state.abandoned
      modifies `abandonedCancels, `inputs, `state
      ensures Follows() && abandonedCancels == state.abandoned && state == old(state).(abandoned := state.abandoned)
    {
      if settles.Some? && settles.value in abandonedCancels {
        SettleCancel(settles.value);
        Advance(Settles(settles.value));
      }
    }

    method Resume(i: Input)
      requires Follows() && !i.Settles? && Enabled(state, i)
      modifies `now, `pending, `inputs, `state
      ensures Follows() && state == Step(old(state), i)
    {
      Advance(i);
      now := now + i.elapsed;
      if Interrupts(i) {
        pending := pending - 1;
      }
    }

    /** Run the loop until the await at `loc` ends. `before` is where the machine stood when it did. */
    method Await(loc: Location, left: int) returns (i: Input, ghost before: State)
      requires Follows() && state.loc == loc && !loc.Finished? && abandonedCancels == state.abandoned
      requires loc.Waiting? ==> left == state.waitUntil - now
      modifies `tick, `now, `pending, `abandonedCancels, `inputs, `state
      ensures Follows() && before == old(state).(abandoned := before.abandoned)
      ensures !i.Settles? && Enabled(before, i) && state == Step(before, i) && before.abandoned == abandonedCancels
    {
      var choice := env(tick);
      tick := tick + 1;
      RunCallback(choice.settles);
      before := state;
      i := if Ends(loc, pending, pollInterval, left, choice.input) then choice.input else Unblock(loc, pollInterval, left);
      Resume(i);
    }

    /** `_cancel_after_task_cancel`: wait for the request, absorbing cancellations, but not past the deadline. */
    method CancelAfterTaskCancel()
      requires Follows() && state.loc.Waiting? && abandonedCancels == state.abandoned && cancelledTasks == state.cancelled
      requires state.waitUntil == now + CANCEL_ON_TASK_CANCEL_TIMEOUT
      modifies `tick, `now, `pending, `abandonedCancels, `cancelledTasks, `inputs, `state
      ensures Follows() && state.loc == Finished(WasCancelled)
      ensures abandonedCancels == state.abandoned && cancelledTasks == state.cancelled
    {
      var deadline := now + CANCEL_ON_TASK_CANCEL_TIMEOUT;
      var done := false;
      while !done
        invariant Follows() && deadline == state.waitUntil
        invariant if !done && now < deadline then state.loc.Waiting? else state.loc == Finished(WasCancelled)
        invariant state.abandoned == abandonedCancels + (if !done && now >= deadline then {self} else {})
        invariant state.cancelled == cancelledTasks + (if !done && now >= deadline then {self} else {})
        decreases Bound(state), !done
      {
        var remaining := deadline - now;
        if remaining <= 0 {
          abandonedCancels := abandonedCancels + {self};
          CancelTask(self);
          return;
        }
        var i;
        ghost var before;
        i, before := Await(Waiting, remaining);
        done := i.done;
      }
    }

    /** The loop of `_poll`, up to its end, its deadline or a cancellation. */
    method PollUntil(deadline: int, owned: bool) returns (end: Option<End>, interrupted: bool)
      requires Follows() && state.loc.Asking? && state.owned == owned && state.deadline == deadline
      requires abandonedCancels == state.abandoned && cancelledTasks == state.cancelled
      modifies `tick, `now, `pending, `abandonedCancels, `inputs, `state
      ensures Follows() && abandonedCancels == state.abandoned && cancelledTasks == state.cancelled
      ensures end.Some? ==> state.loc == Finished(end.value) && !end.value.WasCancelled?
      ensures end.None? && interrupted ==>
        state.owned == owned && if owned then state.loc.Waiting? && state.waitUntil == now + CANCEL_ON_TASK_CANCEL_TIMEOUT
        else state.loc == Finished(WasCancelled)
      ensures end.None? && !interrupted ==>
        state.owned == owned && state.loc == if owned then TimeoutCancel else Finished(TimedOut(None))
    {
      while true
        invariant Follows() && state.loc.Asking? && abandonedCancels == state.abandoned
        invariant state.owned == owned && state.deadline == deadline && cancelledTasks == state.cancelled
        decreases Bound(state)
      {
        var answer, slept;
        ghost var before;
        answer, before := Await(Asking, 0);
        if answer.Failed? {
          return Some(Raised), false;
        }
        if answer.Interrupted? {
          return None, true;
        }
        if !answer.running {
          return Some(Returned), false;
        }
        if now >= deadline {
          return None, false;
        }
        slept, before := Await(Sleeping, 0);
        if slept.Interrupted? {
          return None, true;
        }
      }
    }

    /** What `_poll` does after its loop: cancel, if the statement is the poll's own, and raise. */
    method GiveUp(interruptedBefore: bool, owned: bool) returns (end: End)
      requires Follows() && state.owned == owned
      requires abandonedCancels == state.abandoned && cancelledTasks == state.cancelled
      requires interruptedBefore ==>
        if owned then state.loc.Waiting? && state.waitUntil == now + CANCEL_ON_TASK_CANCEL_TIMEOUT
        else state.loc == Finished(WasCancelled)
      requires !interruptedBefore ==> state.loc == if owned then TimeoutCancel else Finished(TimedOut(None))
      modifies `tick, `now, `pending, `abandonedCancels, `cancelledTasks, `inputs, `state
      ensures Follows() && abandonedCancels == state.abandoned && cancelledTasks == state.cancelled
      ensures state.loc == Finished(end)
    {
      var interrupted, cancelled := interruptedBefore, None;
      if !interrupted && owned {
        var reply;
        ghost var before;
        reply, before := Await(TimeoutCancel, 0);
        if reply.Interrupted? {
          interrupted := true;
        } else {
          cancelled := Some(reply.ok);
        }
      }
      if interrupted && owned {
        CancelAfterTaskCancel();
      }
      return if interrupted then WasCancelled else TimedOut(cancelled);
    }

    /** `_poll`: what it does, await by await, is what the machine does. */
    method Poll(timeout: Option<int>, owned: bool) returns (end: End)
      requires self !in abandonedCancels && self !in cancelledTasks
      modifies this
      ensures origin.deadline == old(now) + (if timeout.Some? then timeout.value else 600_000_000_000)
      ensures origin == State(self, owned, pollInterval, origin.deadline, Asking, old(now), old(pending), NoTask, 0,
                              old(abandonedCancels), old(cancelledTasks), 0, false, false)
      ensures Initial(origin) && Possible(origin, inputs) && state == Run(origin, inputs) && state.loc == Finished(end)
      ensures now == state.now && pending == state.pending
      ensures abandonedCancels == state.abandoned && cancelledTasks == state.cancelled
    {
      var deadline := now + Wait(timeout);
      origin := State(self, owned, pollInterval, deadline, Asking, now, pending, NoTask, 0,
                      abandonedCancels, cancelledTasks, 0, false, false);
      state, inputs := origin, [];
      var left, interrupted := PollUntil(deadline, owned);
      if left.Some? {
        end := left.value;
      } else {
        end := GiveUp(interrupted, owned);
      }
      assert Inside(0);
    }
  }
}
