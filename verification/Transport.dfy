/** The retry loop `_send`: one logical request, up to `max_attempts` HTTP requests, one result or exception. */
module Transport {
  import opened Wrappers
  import opened Server

  datatype Policy = Policy(maxAttempts: int, retryStatuses: set<int>)

  /** The class of an exception, as far as callers look at it. */
  datatype ErrorKind =
    | AuthError | RequestError | ForbiddenError | ProgrammingError | RetryError
    | TimeoutError | LocalError | DecodingError | CountError

  /** An exception: its class and the attributes the batch classifier reads. */
  datatype Fault = Fault(
    kind: ErrorKind, status: Option<int>, handle: Option<string>, attempts: Option<nat>, causeHandle: Option<string>)

  datatype Response = Response(
    status: int, bodyHandle: Option<string>, count: Option<nat>, attempts: Option<nat>, submissionHandle: Option<string>)
  {
    predicate Running() {
      status == 202
    }

    /** `statement_handle`: the body's own handle if nonempty, else the one retained from this submission. */
    function Handle(): Option<string> {
      if Nonempty(bodyHandle) then bodyHandle else submissionHandle
    }
  }

  // ---------------------------------------------------------------- what a run of attempts amounts to

  predicate Retried(policy: Policy, ev: Event) {
    ev.Sent? && (ev.reply.Lost? || (ev.reply.Answer? && ev.reply.status in policy.retryStatuses))
  }

  function Posts(events: seq<Event>): nat {
    if events == [] then 0 else Posts(events[..|events| - 1]) + (if events[|events| - 1].Sent? then 1 else 0)
  }

  /** The latest nonempty handle in a retried answer. */
  function KnownHandle(policy: Policy, events: seq<Event>): (h: Option<string>)
    ensures h.Some? ==> Nonempty(h)
  {
    if events == [] then None
    else
      var ev := events[|events| - 1];
      if Retried(policy, ev) && ev.reply.Answer? && Nonempty(ev.reply.handle) then ev.reply.handle
      else KnownHandle(policy, events[..|events| - 1])
  }

  /** The exception class for a status that is neither a success nor retried. */
  function KindOf(status: int): ErrorKind {
    if status == 422 then ProgrammingError
    else if status == 401 then AuthError
    else if status == 403 then ForbiddenError
    else RequestError
  }

  /** `exc.submission_attempts` and the retained handle, as `_send` attaches them on the way out. */
  function Attach(fault: Fault, posts: Option<nat>, known: Option<string>): Fault {
    fault.(attempts := posts, handle := if Nonempty(fault.handle) || known.None? then fault.handle else known)
  }

  /** The result of a finished run of attempts at `request`. */
  function Conclude(policy: Policy, request: Request, events: seq<Event>): Result<Response, Fault> {
    var posts := if request.Submit? then Some(Posts(events)) else None;
    var known := if request.Submit? then KnownHandle(policy, events) else None;
    if events == [] || Retried(policy, events[|events| - 1]) then
      var cause := if events != [] && events[|events| - 1].reply.Answer? then events[|events| - 1].reply.handle else None;
      Err(Attach(Fault(RetryError, None, None, None, cause), posts, known))
    else match events[|events| - 1]
      case Unsigned => Err(Attach(Fault(LocalError, None, None, None, None), posts, known))
      case Sent(_, _, _, reply) =>
        if !reply.Answer? then Err(Attach(Fault(DecodingError, None, None, None, None), posts, known))
        else Interpreted(reply.status, reply.handle, reply.count, posts, known)
  }

  /** `_interpret`, with what `_send` attaches to its result. */
  function Interpreted(
    status: int, handle: Option<string>, count: Option<nat>, posts: Option<nat>, known: Option<string>): Result<Response, Fault>
  {
    if status == 200 || status == 202 then Ok(Response(status, handle, count, posts, known))
    else Err(Attach(Fault(KindOf(status), Some(status), handle, None, None), posts, known))
  }

  /** The HTTP request of attempt `k`: a submission is marked `retry=true` from its second attempt on. */
  function Attempt(request: Request, k: nat): Request {
    if request.Submit? && k > 0 then request.(retry := true) else request
  }

  ghost predicate Attempts(policy: Policy, request: Request, events: seq<Event>) {
    && |events| <= (if policy.maxAttempts < 0 then 0 else policy.maxAttempts)
    && (forall k | 0 <= k < |events| && events[k].Sent? :: events[k].request == Attempt(request, k))
    && (forall k {:trigger events[k]} | 0 <= k < |events| - 1 :: Retried(policy, events[k]))
  }

  /** A finished run: it gave up after all attempts, or its last one was not retried. */
  ghost predicate Finished(policy: Policy, request: Request, events: seq<Event>) {
    Attempts(policy, request, events)
    && (|events| >= policy.maxAttempts || (events != [] && !Retried(policy, events[|events| - 1])))
  }

  predicate AllRetried(policy: Policy, events: seq<Event>) {
    forall k {:trigger events[k]} | 0 <= k < |events| :: Retried(policy, events[k])
  }

  /** What the loop's variables hold after a run of retried attempts. */
  ghost predicate Gathered(
    policy: Policy, request: Request, events: seq<Event>, attempts: nat, known: Option<string>, cause: Option<string>)
  {
    && attempts == Posts(events)
    && known == (if request.Submit? then KnownHandle(policy, events) else None)
    && cause == (if events != [] && events[|events| - 1].Sent? && events[|events| - 1].reply.Answer?
                 then events[|events| - 1].reply.handle else None)
  }

  /** What one more attempt adds, and what the run comes to if it is the last. */
  lemma GatheredSnoc(
    policy: Policy, request: Request, events: seq<Event>, ev: Event, attempts: nat, known: Option<string>, cause: Option<string>)
    requires Gathered(policy, request, events, attempts, known, cause)
    ensures
      var more := events + [ev];
      var sent := if ev.Sent? then attempts + 1 else attempts;
      var posts := if request.Submit? then Some(sent) else None;
      if Retried(policy, ev) then
        var handle := if ev.reply.Answer? then ev.reply.handle else None;
        Gathered(policy, request, more, sent, if request.Submit? && Nonempty(handle) then handle else known, handle)
      else
        Conclude(policy, request, more)
        == if ev.Unsigned? then Err(Attach(Fault(LocalError, None, None, None, None), posts, known))
           else if ev.reply.Garbled? then Err(Attach(Fault(DecodingError, None, None, None, None), posts, known))
           else Interpreted(ev.reply.status, ev.reply.handle, ev.reply.count, posts, known)
  {
    assert (events + [ev])[..|events|] == events;
  }

  lemma GatheredAll(
    policy: Policy, request: Request, events: seq<Event>, attempts: nat, known: Option<string>, cause: Option<string>)
    requires Gathered(policy, request, events, attempts, known, cause) && AllRetried(policy, events)
    ensures
      var posts := if request.Submit? then Some(attempts) else None;
      Conclude(policy, request, events) == Err(Attach(Fault(RetryError, None, None, None, cause), posts, known))
  {
  }

  lemma AttemptsSnoc(policy: Policy, request: Request, events: seq<Event>, ev: Event)
    requires Attempts(policy, request, events) && AllRetried(policy, events) && |events| < policy.maxAttempts
    requires ev.Sent? ==> ev.request == Attempt(request, |events|)
    ensures Attempts(policy, request, events + [ev])
  {
  }

  // ---------------------------------------------------------------- the loop

  /** What the environment does at one turn: sign or not, settle, act, answer, and take time. */
  datatype Choice = Choice(signs: bool, before: Settlement, effect: Effect, reply: Reply, elapsed: nat)

  /** The event that follows from a choice; an answer the service could not give counts as lost. */
  function Choose<T(!new)>(s: State<T>, request: Request, c: Choice): (ev: Event)
    ensures ev.Sent? && ev.request == request && StepOk(s, ev)
  {
    var settled := Settle(s, c.before);
    var e := if EffectOk(settled, request, c.effect) then c.effect else Ignored;
    var r := if ReplyOk(Apply(settled, request, e), request, e, c.reply) then c.reply else Lost;
    Sent(c.before, request, e, r)
  }

  /** No legal event is missed: each is what some choice leads to. */
  lemma EveryEventCanHappen<T(!new)>(s: State<T>, ev: Event)
    requires ev.Sent? && StepOk(s, ev)
    ensures Choose(s, ev.request, Choice(true, ev.before, ev.effect, ev.reply, 0)) == ev
  {
  }

  lemma IdsBelow<T(!new)>(s: State<T>, ev: Event, bound: Id)
    requires StepOk(s, ev) && (forall id | id in s.history :: id < bound)
    requires ev.Sent? && ev.request.Submit? ==> ev.request.id < bound
    ensures forall id | id in Step(s, ev).history :: id < bound
  {
    forall id | id in Step(s, ev).history
      ensures id < bound
    {
      StartsStep(s, ev, id);
    }
  }

  lemma Regroup(a: seq<Event>, b: seq<Event>, ev: Event)
    ensures a + (b + [ev]) == a + b + [ev]
  {
  }

  /** The client's transport and the service behind it, driven by an arbitrary sequence of choices. */
  class Wire<T(!new)> {
    const env: nat -> Choice
    const policy: Policy
    var tick: nat
    var now: int
    var nextId: Id
    var server: State<T>
    ghost const origin: State<T>
    ghost var log: seq<Event>
    /** When each event of the log was over: an answer received, or its attempt failed. */
    ghost var times: seq<int>
    ghost var calls: seq<Request>

    /** The service's state is the outcome of the events so far, and every id in it was issued here or before. */
    ghost predicate Valid()
      reads this
    {
      |times| == |log| && forall k: nat {:trigger Inside(k)} | Inside(k) ::
        && Legal(origin, log) && server == Replay(origin, log)
        && forall id | id in server.history :: id < nextId
    }

    /** Since the service was in `from` and the log was `earlier`, exactly `events` happened. */
    ghost predicate Follows(from: State<T>, earlier: seq<Event>, events: seq<Event>)
      reads `server, `log
    {
      forall k: nat {:trigger Inside(k)} | Inside(k) ::
        log == earlier + events && Legal(from, events) && server == Replay(from, events)
    }

    /** Since the times were `earlier`, one was noted for each of `events`, and the last of them is now. */
    ghost predicate Stamped(earlier: seq<int>, events: seq<Event>)
      reads `times, `now
    {
      earlier <= times && |times| == |earlier| + |events| && (events != [] ==> times[|times| - 1] == now)
    }

    constructor (env: nat -> Choice, policy: Policy, server: State<T>, now: int, nextId: Id)
      requires forall id | id in server.history :: id < nextId
      ensures Valid() && this.server == server && this.policy == policy && log == [] && times == [] && calls == []
    {
      this.env, this.policy, this.tick, this.now, this.nextId := env, policy, 0, now, nextId;
      this.server, this.origin, this.log, this.times, this.calls := server, server, [], [], [];
    }

    /** `uuid.uuid4()`: an id never used before. */
    method NewId() returns (id: Id)
      requires Valid()
      modifies `nextId
      ensures Valid() && id == old(nextId) && nextId == id + 1 && id !in server.history
    {
      assert Inside(0);
      id := nextId;
      nextId := nextId + 1;
    }

    /** An id its caller chose; no generated id will equal it from here on. */
    method Reserve(id: Id)
      requires Valid()
      modifies `nextId
      ensures Valid() && id < nextId && old(nextId) <= nextId
    {
      assert Inside(0);
      if nextId <= id {
        nextId := id + 1;
      }
    }

    /** Sign, send, and wait for an answer or a failure. */
    method Transmit(request: Request) returns (ev: Event)
      requires Valid() && (request.Submit? ==> request.id < nextId)
      modifies `tick, `now, `server, `log, `times
      ensures Valid() && (ev.Sent? ==> ev.request == request)
      ensures log == old(log) + [ev] && StepOk(old(server), ev) && server == Step(old(server), ev)
      ensures times == old(times) + [now] && now > old(now)
    {
      assert Inside(0);
      var choice := env(tick);
      tick, now := tick + 1, now + 1 + choice.elapsed;
      ev := if choice.signs then Choose(server, request, choice) else Unsigned;
      IdsBelow(server, ev, nextId);
      ReplaySnoc(origin, log, ev);
      server, log, times := Step(server, ev), log + [ev], times + [now];
    }

    lemma Nothing()
      ensures Follows(server, log, [])
    {
      assert log + [] == log;
    }

    lemma Join(from: State<T>, earlier: seq<Event>, a: seq<Event>, middle: State<T>, later: seq<Event>, b: seq<Event>)
      requires later == earlier + a && Legal(from, a) && middle == Replay(from, a) && Follows(middle, later, b)
      ensures Follows(from, earlier, a + b)
    {
      assert Inside(0);
      ReplayConcat(from, a, b);
      assert earlier + (a + b) == earlier + a + b;
    }

    lemma Opened(from: State<T>, earlier: seq<Event>, events: seq<Event>)
      requires Follows(from, earlier, events)
      ensures log == earlier + events && Legal(from, events) && server == Replay(from, events)
    {
      assert Inside(0);
    }

    /** One attempt of a run that began when the service was in `from`. */
    method Try(request: Request, ghost from: State<T>, ghost earlier: seq<Event>, ghost events: seq<Event>)
      returns (ev: Event)
      requires Valid() && (request.Submit? ==> request.id < nextId) && Follows(from, earlier, events)
      modifies `tick, `now, `server, `log, `times
      ensures Valid() && (ev.Sent? ==> ev.request == request)
      ensures Follows(from, earlier, events + [ev]) && times == old(times) + [now] && now > old(now)
    {
      assert Inside(0);
      ev := Transmit(request);
      ReplaySnoc(from, events, ev);
      Regroup(earlier, events, ev);
    }

    /** Pass at least `ticks` of time. */
    method Sleep(ticks: nat)
      modifies `tick, `now
      ensures now >= old(now) + ticks
    {
      now := now + ticks + env(tick).elapsed;
      tick := tick + 1;
    }

    /** `_send`: its result is what the run of attempts it made amounts to. */
    method Send(request: Request) returns (r: Result<Response, Fault>, ghost events: seq<Event>)
      requires Valid() && (request.Submit? ==> request.id < nextId)
      modifies `tick, `now, `server, `log, `times, `calls
      ensures Valid() && calls == old(calls) + [request]
      ensures Follows(old(server), old(log), events)
      ensures Finished(policy, request, events) && r == Conclude(policy, request, events)
      ensures now >= old(now) + |events| && Stamped(old(times), events)
    {
      Nothing();
      calls := calls + [request];
      events := [];
      var params, attempts, known, cause := request, 0, None, None;
      var attempt := 0;
      while attempt < policy.maxAttempts
        invariant Valid() && calls == old(calls) + [request]
        invariant attempt == |events| && (attempt <= policy.maxAttempts || attempt == 0)
        invariant Follows(old(server), old(log), events)
        invariant Attempts(policy, request, events) && now >= old(now) + |events| && Stamped(old(times), events)
        invariant AllRetried(policy, events)
        invariant Gathered(policy, request, events, attempts, known, cause)
        invariant params == request || (attempt > 1 && params == Attempt(request, 1))
        decreases policy.maxAttempts - attempt
      {
        if attempt > 0 {
          if request.Submit? {
            params := params.(retry := true);
          }
          Sleep(0);
        }
        var ev := Try(params, old(server), old(log), events);
        AttemptsSnoc(policy, request, events, ev);
        GatheredSnoc(policy, request, events, ev, attempts, known, cause);
        events := events + [ev];
        var posts := if request.Submit? then Some(attempts) else None;
        if ev.Unsigned? {
          return Err(Attach(Fault(LocalError, None, None, None, None), posts, known)), events;
        }
        attempts := attempts + 1;
        posts := if request.Submit? then Some(attempts) else None;
        match ev.reply {
          case Lost =>
            cause := None;
          case Garbled =>
            return Err(Attach(Fault(DecodingError, None, None, None, None), posts, known)), events;
          case Answer(status, handle, count) =>
            if status !in policy.retryStatuses {
              return Interpreted(status, handle, count, posts, known), events;
            }
            cause := handle;
            if request.Submit? && Nonempty(handle) {
              known := handle;
            }
        }
        attempt := attempt + 1;
      }
      var posts := if request.Submit? then Some(attempts) else None;
      GatheredAll(policy, request, events, attempts, known, cause);
      r := Err(Attach(Fault(RetryError, None, None, None, cause), posts, known));
    }

    /** `Send` as one more call of a longer exchange. */
    method SendNext(request: Request, ghost from: State<T>, ghost earlier: seq<Event>, ghost before: seq<Event>)
      returns (r: Result<Response, Fault>, ghost events: seq<Event>)
      requires Valid() && (request.Submit? ==> request.id < nextId) && Follows(from, earlier, before)
      modifies `tick, `now, `server, `log, `times, `calls
      ensures Valid() && calls == old(calls) + [request]
      ensures Follows(from, earlier, before + events)
      ensures Finished(policy, request, events) && r == Conclude(policy, request, events)
      ensures now >= old(now) + |events| && Stamped(old(times), events)
    {
      assert Inside(0);
      r, events := Send(request);
      ReplayConcat(from, before, events);
      assert earlier + (before + events) == earlier + before + events;
    }
  }
}
