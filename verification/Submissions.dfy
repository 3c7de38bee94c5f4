/** What the retry loop promises of a submission, and `submit` and `resubmit`, which rely on it. */
module Submissions {
  import opened Wrappers
  import opened Server
  import opened Transport

  // ---------------------------------------------------------------- the wire contract

  /** `submission_attempts` on a result or an exception. */
  function AttemptsOf(r: Result<Response, Fault>): Option<nat> {
    match r case Ok(response) => response.attempts case Err(fault) => fault.attempts
  }

  /** The statement handle a result or an exception carries. */
  function HandleOf(r: Result<Response, Fault>): Option<string> {
    match r case Ok(response) => response.Handle() case Err(fault) => fault.handle
  }

  lemma {:induction false} AllSent(policy: Policy, events: seq<Event>)
    requires AllRetried(policy, events)
    ensures Posts(events) == |events|
  {
    if events != [] {
      AllSent(policy, events[..|events| - 1]);
    }
  }

  /**
   * All POSTs of one submission carry its id and body; the first is marked `retry=true` exactly for a resubmission
   * and every later one is; `submission_attempts` counts them and never exceeds `max_attempts`.
   */
  lemma WireContract(policy: Policy, request: Request, events: seq<Event>)
    requires Finished(policy, request, events) && request.Submit?
    ensures forall k | 0 <= k < |events| && events[k].Sent? ::
              && events[k].request == request.(retry := events[k].request.retry)
              && (events[k].request.retry <==> request.retry || k > 0)
    ensures forall k | 0 <= k < |events| - 1 :: events[k].Sent?
    ensures
      var posts := Posts(events);
      && AttemptsOf(Conclude(policy, request, events)) == Some(posts)
      && posts == |events| - (if events != [] && events[|events| - 1].Unsigned? then 1 else 0)
      && (policy.maxAttempts >= 0 ==> posts <= policy.maxAttempts)
  {
    forall k | 0 <= k < |events| - 1
      ensures events[k].Sent?
    {
      assert Retried(policy, events[k]);
    }
    if events != [] {
      AllSent(policy, events[..|events| - 1]);
    }
  }

  /** A request that got no answer, or one the policy retries. */
  predicate ToRetry(policy: Policy, ev: Event) {
    ev.Sent? && match ev.reply
                case Lost => true
                case Garbled => false
                case Answer(status, _, _) => status in policy.retryStatuses
  }

  /**
   * A request is sent again exactly after no answer or a retryable status, until `max_attempts`; and how it ends decides the
   * result: a response for 200 and 202, the exception of the status for any other, exhausted retries, or the exception of
   * a signing or decoding failure.
   */
  lemma RetriedAndRaised(policy: Policy, request: Request, events: seq<Event>)
    requires Finished(policy, request, events)
    ensures forall k | 0 <= k < |events| - 1 :: ToRetry(policy, events[k])
    ensures !request.Submit? ==> forall k | 0 <= k < |events| && events[k].Sent? :: events[k].request == request
    ensures |events| <= (if policy.maxAttempts < 0 then 0 else policy.maxAttempts)
    ensures |events| < policy.maxAttempts ==> events != [] && !ToRetry(policy, events[|events| - 1])
    ensures
      var r := Conclude(policy, request, events);
      if events == [] || ToRetry(policy, events[|events| - 1]) then
        r.Err? && r.error.kind == RetryError && r.error.status == None
      else match events[|events| - 1]
        case Unsigned => r.Err? && r.error.kind == LocalError && r.error.status == None
        case Sent(_, _, _, reply) =>
          if !reply.Answer? then r.Err? && r.error.kind == DecodingError && r.error.status == None
          else if reply.status in {200, 202} then r.Ok? && r.value.status == reply.status && r.value.count == reply.count
          else
            && r.Err? && r.error.status == Some(reply.status)
            && (r.error.kind == AuthError <==> reply.status == 401)
            && (r.error.kind == ForbiddenError <==> reply.status == 403)
            && (r.error.kind == ProgrammingError <==> reply.status == 422)
            && (r.error.kind == RequestError <==> reply.status !in {401, 403, 422})
  {
    forall k | 0 <= k < |events| - 1
      ensures ToRetry(policy, events[k])
    {
      assert Retried(policy, events[k]);
    }
  }

  // ---------------------------------------------------------------- handles

  /** A nonempty handle in an answer that was retried. */
  predicate Offers(policy: Policy, ev: Event) {
    Retried(policy, ev) && ev.reply.Answer? && Nonempty(ev.reply.handle)
  }

  lemma {:induction false} KnownHandleIsLatest(policy: Policy, events: seq<Event>)
    ensures
      match KnownHandle(policy, events)
      case None => forall k | 0 <= k < |events| :: !Offers(policy, events[k])
      case Some(h) =>
        exists k ::
          && 0 <= k < |events| && Offers(policy, events[k]) && events[k].reply.handle == Some(h)
          && forall j | k < j < |events| :: !Offers(policy, events[j])
  {
    if events != [] {
      var n := |events| - 1;
      KnownHandleIsLatest(policy, events[..n]);
      if Offers(policy, events[n]) {
        assert events[n].reply.handle == KnownHandle(policy, events);
      } else if KnownHandle(policy, events).Some? {
        var k :| 0 <= k < n && Offers(policy, events[k]) && events[k].reply.handle == KnownHandle(policy, events)
          && forall j | k < j < n :: !Offers(policy, events[..n][j]);
        assert forall j | k < j < |events| :: j < n ==> events[..n][j] == events[j];
      } else {
        assert forall j | 0 <= j < n :: events[..n][j] == events[j];
      }
    }
  }

  /** The handle in the answer that ended the run, if one did. */
  function FinalHandle(policy: Policy, events: seq<Event>): Option<string> {
    if events != [] && events[|events| - 1].Sent? && events[|events| - 1].reply.Answer? && !Retried(policy, events[|events| - 1])
    then events[|events| - 1].reply.handle else None
  }

  /**
   * A submission ends with its last answer's own handle if that is nonempty, else with the latest nonempty handle of
   * an earlier retried answer; a GET or a cancel ends with its last answer's own handle or none.
   */
  lemma HandleRetained(policy: Policy, request: Request, events: seq<Event>)
    requires Finished(policy, request, events)
    ensures
      var own, h := FinalHandle(policy, events), HandleOf(Conclude(policy, request, events));
      if Nonempty(own) then h == own
      else if request.Submit? && KnownHandle(policy, events).Some? then h == KnownHandle(policy, events)
      else !Nonempty(h)
  {
  }

  /** Each handle a submission ends with came in one of its answers, so it names its statement. */
  lemma HandleNamesStatement<T(!new)>(s: State<T>, policy: Policy, request: Request, events: seq<Event>)
    requires Legal(s, events) && Finished(policy, request, events) && request.Submit?
    requires Nonempty(HandleOf(Conclude(policy, request, events)))
    ensures
      var h, s' := HandleOf(Conclude(policy, request, events)).value, Replay(s, events);
      h in s'.handles && s'.handles[h] == request.id
  {
    HandleRetained(policy, request, events);
    WireContract(policy, request, events);
    KnownHandleIsLatest(policy, events);
    var h := HandleOf(Conclude(policy, request, events));
    var k: int;
    if Nonempty(FinalHandle(policy, events)) {
      k := |events| - 1;
    } else {
      k :| 0 <= k < |events| && Offers(policy, events[k]) && events[k].reply.handle == h;
    }
    HandlesNameId(s, events, k);
  }

  // ---------------------------------------------------------------- at most once, across restarts

  /** Nothing is submitted under `id` without `retry=true`. */
  ghost predicate OnlyMarked(events: seq<Event>, id: Id) {
    forall k | 0 <= k < |events| && Submits(events[k], id) :: events[k].request.retry
  }

  lemma ResubmissionsAreMarked(policy: Policy, request: Request, events: seq<Event>, id: Id)
    requires Finished(policy, request, events)
    requires request.Submit? && request.id == id ==> request.retry
    ensures OnlyMarked(events, id)
  {
  }

  lemma SubmissionThenMarked(policy: Policy, request: Request, first: seq<Event>, later: seq<Event>)
    requires Finished(policy, request, first) && request.Submit? && OnlyMarked(later, request.id)
    ensures OnlyFirstUnmarked(first + later, request.id)
  {
    var events := first + later;
    forall i, j | 0 <= i < j < |events| && Submits(events[i], request.id) && Submits(events[j], request.id)
      ensures events[j].request.retry
    {
      if j < |first| {
        assert events[j] == first[j];
      } else {
        assert events[j] == later[j - |first|];
      }
    }
  }

  lemma {:induction false} MarkedFlatten(runs: seq<seq<Event>>, id: Id)
    requires forall i | 0 <= i < |runs| :: OnlyMarked(runs[i], id)
    ensures OnlyMarked(Flatten(runs), id)
  {
    if runs != [] {
      var n := |runs| - 1;
      MarkedFlatten(runs[..n], id);
      var a, b := Flatten(runs[..n]), runs[n];
      forall k | 0 <= k < |a + b| && Submits((a + b)[k], id)
        ensures (a + b)[k].request.retry
      {
        if k < |a| {
          assert (a + b)[k] == a[k];
        } else {
          assert (a + b)[k] == b[k - |a|];
        }
      }
    }
  }

  /**
   * One submission, then any number of later runs, each a resubmission under the same id, a poll, a cancel, or
   * anything about other statements, each by a client with its own retry policy: the statement starts at most once.
   */
  lemma SubmitThenResubmits<T(!new)>(
    s: State<T>, policy: Policy, request: Request, first: seq<Event>,
    policies: seq<Policy>, requests: seq<Request>, runs: seq<seq<Event>>)
    requires request.Submit? && request.id !in s.history && Finished(policy, request, first)
    requires |policies| == |requests| == |runs|
    requires forall i | 0 <= i < |runs| :: Finished(policies[i], requests[i], runs[i])
    requires forall i | 0 <= i < |runs| && requests[i].Submit? && requests[i].id == request.id :: requests[i].retry
    requires Legal(s, first + Flatten(runs))
    ensures Count(Replay(s, first + Flatten(runs)).starts, request.id) <= Count(s.starts, request.id) + 1
  {
    forall i | 0 <= i < |runs|
      ensures OnlyMarked(runs[i], request.id)
    {
      ResubmissionsAreMarked(policies[i], requests[i], runs[i], request.id);
    }
    MarkedFlatten(runs, request.id);
    SubmissionThenMarked(policy, request, first, Flatten(runs));
    AtMostOnce(s, first + Flatten(runs), request.id);
  }

  // ---------------------------------------------------------------- submit and resubmit

  /** What the caller passes as `request_id`. */
  datatype GivenId = Absent | Uuid(id: Id) | Malformed

  datatype QueryHandle = QueryHandle(handle: string, requestId: Id)

  datatype SubmitError =
    | BadId
    | HookRaised
    | BadPayload(requestId: Id)
    | SendFailed(fault: Fault, attached: Option<Id>)

  /** Whether an exception of this kind belongs to the client's own hierarchy, and so gets a `request_id`. */
  predicate Ours(kind: ErrorKind) {
    kind !in {LocalError, DecodingError, CountError}
  }

  /** What the caller gets for a finished run under `id`. */
  function Handed(done: Result<Response, Fault>, id: Id): Result<QueryHandle, SubmitError> {
    match done
    case Err(fault) => Err(SendFailed(fault, if Ours(fault.kind) then Some(id) else None))
    case Ok(response) =>
      match response.Handle()
      case Some(handle) => Ok(QueryHandle(handle, id))
      case None => Err(SendFailed(Fault(RequestError, None, None, None, None), Some(id)))
  }

  /** The last answer's own nonempty handle, or else the latest in an earlier answer. */
  ghost predicate LatestHandle(events: seq<Event>, handle: string) {
    exists k ::
      && 0 <= k < |events| && events[k].Sent? && events[k].reply.Answer?
      && events[k].reply.handle == Some(handle) && handle != ""
      && forall j | k < j < |events| :: !(events[j].Sent? && events[j].reply.Answer? && Nonempty(events[j].reply.handle))
  }

  /**
   * What `submit` and `resubmit` hand back: the latest handle and the id, exactly if the last answer was a 200 or 202 and
   * some answer carried a handle. An exception carries the id exactly if it is none of signing or decoding.
   */
  lemma HandedExactly(policy: Policy, request: Request, events: seq<Event>)
    requires Finished(policy, request, events) && request.Submit?
    ensures
      var r := Handed(Conclude(policy, request, events), request.id);
      var last := if events == [] then Unsigned else events[|events| - 1];
      && (r.Ok? ==> r.value.requestId == request.id && LatestHandle(events, r.value.handle))
      && (r.Ok? <==>
            && last.Sent? && !ToRetry(policy, last) && last.reply.Answer? && last.reply.status in {200, 202}
            && exists k :: 0 <= k < |events| && events[k].Sent? && events[k].reply.Answer? && Nonempty(events[k].reply.handle))
      && (r.Err? ==>
            && r.error.SendFailed?
            && r.error.fault.kind == (match Conclude(policy, request, events) case Err(e) => e.kind case Ok(_) => RequestError)
            && r.error.attached == (if events != [] && (last.Unsigned? || last.reply.Garbled?) then None else Some(request.id)))
  {
    KnownHandleIsLatest(policy, events);
    RetriedAndRaised(policy, request, events);
    HandleRetained(policy, request, events);
    var n := |events| - 1;
    forall k | 0 <= k < n && events[k].Sent? && events[k].reply.Answer? && Nonempty(events[k].reply.handle)
      ensures Offers(policy, events[k])
    {
      assert ToRetry(policy, events[k]);
    }
    if KnownHandle(policy, events).Some? {
      var k :| 0 <= k < |events| && Offers(policy, events[k]) && events[k].reply.handle == KnownHandle(policy, events)
        && forall j | k < j < |events| :: !Offers(policy, events[j]);
      if !Nonempty(FinalHandle(policy, events)) && Conclude(policy, request, events).Ok? {
        assert LatestHandle(events, KnownHandle(policy, events).value);
      }
    }
    if Nonempty(FinalHandle(policy, events)) {
      assert LatestHandle(events, FinalHandle(policy, events).value);
    }
  }

  /**
   * `_submit_handle`: a bad id or a raising hook stops it before anything is sent, as does a payload that cannot be
   * built, with the id attached; otherwise one run of attempts under one id decides.
   */
  method SubmitHandle<T(!new)>(wire: Wire<T>, given: GivenId, content: Option<bytes>, hookRaises: bool, retry: bool)
    returns (r: Result<QueryHandle, SubmitError>, ghost id: Id, ghost events: seq<Event>)
    requires wire.Valid()
    modifies wire
    ensures wire.Valid() && wire.Follows(old(wire.server), old(wire.log), events)
    ensures (given.Malformed? || (given.Absent? && retry)) <==> r == Err(BadId)
    ensures r != Err(BadId) ==> (hookRaises <==> r == Err(HookRaised))
    ensures r != Err(BadId) ==> if given.Uuid? then id == given.id else id !in old(wire.server.history)
    ensures r == Err(BadId) || hookRaises || content.None? ==> events == []
    ensures r != Err(BadId) && !hookRaises && content.None? ==> r == Err(BadPayload(id))
    ensures r != Err(BadId) && !hookRaises && content.Some? ==>
      var request := Submit(id, retry, content.value);
      Finished(wire.policy, request, events) && r == Handed(Conclude(wire.policy, request, events), id)
  {
    id, events := 0, [];
    var chosen;
    match given {
      case Malformed =>
        return Err(BadId), id, [];
      case Absent =>
        if retry {
          return Err(BadId), id, [];
        }
        chosen := wire.NewId();
      case Uuid(uuid) =>
        chosen := uuid;
        wire.Reserve(chosen);
    }
    id := chosen;
    if hookRaises {
      return Err(HookRaised), id, [];
    }
    if content.None? {
      return Err(BadPayload(chosen)), id, [];
    }
    var done;
    done, events := wire.Send(Submit(chosen, retry, content.value));
    match done
    case Err(fault) =>
      return Err(SendFailed(fault, if Ours(fault.kind) then Some(chosen) else None)), id, events;
    case Ok(response) =>
      var handle := response.Handle();
      if handle.None? {
        return Err(SendFailed(Fault(RequestError, None, None, None, None), Some(chosen))), id, events;
      }
      return Ok(QueryHandle(handle.value, chosen)), id, events;
  }
}
