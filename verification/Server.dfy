/**
 * The statement service as a relation over its steps. A request may be lost before or after it acts,
 * and answered with any status; what an answer promises is `ReplyOk`, and what a `retry=true` request
 * with a known id may not do is `EffectOk`.
 */
module Server {
  import opened Wrappers
  import Utf8

  type bytes = seq<Utf8.byte>
  type Id = nat

  /** A statement the service has accepted under some request id. */
  datatype Execution<!T> = Active(content: bytes) | Committed(rows: seq<T>) | Aborted

  /** `read` is what the service takes a request body to insert, if anything. */
  datatype State<!T> = State(
    read: bytes -> Option<seq<T>>,
    table: seq<T>,
    history: map<Id, Execution<T>>,
    handles: map<string, Id>,
    starts: seq<Id>)

  datatype Request =
    | Submit(id: Id, retry: bool, content: bytes)
    | Status(handle: string)
    | Cancel(handle: string)

  /** What a request does to its statement. */
  datatype Effect = Ignored | Starts | Commits | Fails

  /** `count` is the affected-row count read strictly from the body, when there is one. */
  datatype Reply = Lost | Garbled | Answer(status: int, handle: Option<string>, count: Option<nat>)

  /** A running statement may finish at any time, one way or the other. */
  datatype Settlement = NoChange | Settles(id: Id, ok: bool)

  /** One turn of the client's transport: a local signing failure, or a request and what came of it. */
  datatype Event = Unsigned | Sent(before: Settlement, request: Request, effect: Effect, reply: Reply)

  predicate Nonempty(handle: Option<string>) {
    handle.Some? && handle.value != ""
  }

  function Settle<T>(s: State<T>, t: Settlement): State<T> {
    if t.NoChange? || t.id !in s.history || !s.history[t.id].Active? then s
    else
      match s.read(s.history[t.id].content)
      case Some(rows) =>
        if t.ok then s.(table := s.table + rows, history := s.history[t.id := Committed(rows)])
        else s.(history := s.history[t.id := Aborted])
      case None => s.(history := s.history[t.id := Aborted])
  }

  /** Resubmitting an id already in the history never executes again. */
  predicate EffectOk<T(!new)>(s: State<T>, request: Request, e: Effect) {
    e.Ignored?
    || (request.Submit?
        && !(request.retry && request.id in s.history)
        && (e.Commits? ==> s.read(request.content).Some?))
  }

  function Apply<T(!new)>(s: State<T>, request: Request, e: Effect): State<T>
    requires EffectOk(s, request, e)
  {
    match e
    case Ignored => s
    case Starts =>
      s.(history := s.history[request.id := Active(request.content)], starts := s.starts + [request.id])
    case Commits =>
      var rows := s.read(request.content).value;
      s.(table := s.table + rows, history := s.history[request.id := Committed(rows)], starts := s.starts + [request.id])
    case Fails =>
      s.(history := s.history[request.id := Aborted], starts := s.starts + [request.id])
  }

  predicate CommittedIn<T>(s: State<T>, id: Id) {
    id in s.history && s.history[id].Committed?
  }

  predicate AbortedIn<T>(s: State<T>, id: Id) {
    id in s.history && s.history[id].Aborted?
  }

  /** What an answer says of the state it leaves behind. Only 200, 202, 400, 401, 403 and 422 say anything. */
  predicate ReplyOk<T>(s: State<T>, request: Request, e: Effect, reply: Reply) {
    reply.Answer? ==>
      match request
      case Submit(id, _, _) =>
        && (reply.status == 200 ==> CommittedIn(s, id))
        && (reply.status == 202 ==> id in s.history)
        && (reply.status == 422 ==> e.Ignored? || e.Fails?)
        && (reply.status in {400, 401, 403} ==> e.Ignored?)
        && (Nonempty(reply.handle) && reply.handle.value in s.handles ==> s.handles[reply.handle.value] == id)
      case Status(handle) =>
        && (reply.status == 200 ==> handle in s.handles && CommittedIn(s, s.handles[handle]))
        && (reply.status == 422 ==> handle in s.handles && AbortedIn(s, s.handles[handle]))
      case Cancel(_) => true
  }

  /** A handle in an answer to a submission names that submission's statement from then on. */
  function Issue<T>(s: State<T>, request: Request, reply: Reply): State<T> {
    if request.Submit? && reply.Answer? && Nonempty(reply.handle)
    then s.(handles := s.handles[reply.handle.value := request.id])
    else s
  }

  predicate StepOk<T(!new)>(s: State<T>, ev: Event) {
    ev.Sent? ==>
      var settled := Settle(s, ev.before);
      EffectOk(settled, ev.request, ev.effect)
      && ReplyOk(Apply(settled, ev.request, ev.effect), ev.request, ev.effect, ev.reply)
  }

  function Step<T(!new)>(s: State<T>, ev: Event): State<T>
    requires StepOk(s, ev)
  {
    if ev.Unsigned? then s
    else Issue(Apply(Settle(s, ev.before), ev.request, ev.effect), ev.request, ev.reply)
  }

  ghost predicate Legal<T(!new)>(s: State<T>, events: seq<Event>)
    decreases |events|, 0
  {
    events == [] ||
    (Legal(s, events[..|events| - 1]) && StepOk(Replay(s, events[..|events| - 1]), events[|events| - 1]))
  }

  ghost function Replay<T(!new)>(s: State<T>, events: seq<Event>): State<T>
    requires Legal(s, events)
    decreases |events|, 1
  {
    if events == [] then s
    else Step(Replay(s, events[..|events| - 1]), events[|events| - 1])
  }

  lemma ReplaySnoc<T(!new)>(s: State<T>, events: seq<Event>, ev: Event)
    requires Legal(s, events) && StepOk(Replay(s, events), ev)
    ensures Legal(s, events + [ev]) && Replay(s, events + [ev]) == Step(Replay(s, events), ev)
  {
    assert (events + [ev])[..|events|] == events;
  }

  lemma {:induction false} ReplayConcat<T(!new)>(s: State<T>, a: seq<Event>, b: seq<Event>)
    requires Legal(s, a) && Legal(Replay(s, a), b)
    ensures Legal(s, a + b) && Replay(s, a + b) == Replay(Replay(s, a), b)
  {
    if b == [] {
      assert a + b == a;
    } else {
      var init, last := b[..|b| - 1], b[|b| - 1];
      ReplayConcat(s, a, init);
      ReplaySnoc(s, a + init, last);
      assert a + b == a + init + [last];
    }
  }

  lemma {:induction false} ReplaySplit<T(!new)>(s: State<T>, a: seq<Event>, b: seq<Event>)
    requires Legal(s, a + b)
    ensures Legal(s, a) && Legal(Replay(s, a), b) && Replay(s, a + b) == Replay(Replay(s, a), b)
  {
    if b == [] {
      assert a + b == a;
    } else {
      var init := b[..|b| - 1];
      assert (a + b)[..|a + b| - 1] == a + init;
      ReplaySplit(s, a, init);
    }
  }

  // ---------------------------------------------------------------- at most once

  function Count(ids: seq<Id>, id: Id): nat {
    if ids == [] then 0 else Count(ids[..|ids| - 1], id) + (if ids[|ids| - 1] == id then 1 else 0)
  }

  predicate Submits(ev: Event, id: Id) {
    ev.Sent? && ev.request.Submit? && ev.request.id == id
  }

  /** Among the submissions under `id`, only the first may lack `retry=true`. */
  ghost predicate OnlyFirstUnmarked(events: seq<Event>, id: Id) {
    forall i, j | 0 <= i < j < |events| && Submits(events[i], id) && Submits(events[j], id) :: events[j].request.retry
  }

  predicate Executes(ev: Event, id: Id) {
    Submits(ev, id) && !ev.effect.Ignored?
  }

  lemma SettleKeepsIds<T>(s: State<T>, t: Settlement)
    ensures Settle(s, t).starts == s.starts && Settle(s, t).history.Keys == s.history.Keys
  {
  }

  lemma CountSnoc(ids: seq<Id>, last: Id, id: Id)
    ensures Count(ids + [last], id) == Count(ids, id) + (if last == id then 1 else 0)
  {
    assert (ids + [last])[..|ids|] == ids;
  }

  lemma ApplyIds<T(!new)>(s: State<T>, request: Request, e: Effect)
    requires EffectOk(s, request, e)
    ensures
      var s' := Apply(s, request, e);
      if e.Ignored? then s' == s
      else s'.starts == s.starts + [request.id] && s'.history.Keys == s.history.Keys + {request.id}
  {
  }

  lemma StartsStep<T(!new)>(s: State<T>, ev: Event, id: Id)
    requires StepOk(s, ev)
    ensures Count(Step(s, ev).starts, id) == Count(s.starts, id) + (if Executes(ev, id) then 1 else 0)
    ensures id in Step(s, ev).history <==> id in s.history || Executes(ev, id)
    ensures Executes(ev, id) && ev.request.retry ==> id !in s.history
  {
    if ev.Sent? {
      var settled := Settle(s, ev.before);
      SettleKeepsIds(s, ev.before);
      assert id in settled.history.Keys <==> id in s.history.Keys;
      ApplyIds(settled, ev.request, ev.effect);
      if !ev.effect.Ignored? {
        CountSnoc(settled.starts, ev.request.id, id);
        assert id in Apply(settled, ev.request, ev.effect).history.Keys <==> id in settled.history.Keys + {ev.request.id};
      }
    }
  }

  /**
   * However submissions under one id are spread over calls, retries and restarts, and whatever else happens
   * between them, the statement starts at most once if only the first submission lacks `retry=true`.
   */
  lemma {:induction false} AtMostOnce<T(!new)>(s: State<T>, events: seq<Event>, id: Id)
    requires Legal(s, events) && id !in s.history && OnlyFirstUnmarked(events, id)
    ensures
      var s' := Replay(s, events);
      && Count(s'.starts, id) == Count(s.starts, id) + (if id in s'.history then 1 else 0)
      && (id in s'.history <==> exists i :: 0 <= i < |events| && Executes(events[i], id))
  {
    if events != [] {
      var n := |events| - 1;
      var init, ev := events[..n], events[n];
      AtMostOnce(s, init, id);
      StartsStep(Replay(s, init), ev, id);
      if id in Replay(s, init).history {
        var i :| 0 <= i < n && Executes(init[i], id);
        assert Executes(events[i], id);
      } else {
        assert forall i | 0 <= i < n :: events[i] == init[i];
      }
    }
  }

  // ---------------------------------------------------------------- one statement's effect on the table

  /** No statement is running. */
  ghost predicate Quiet<T(!new)>(s: State<T>) {
    forall id | id in s.history :: !s.history[id].Active?
  }

  /** The event submits nothing but `content` under `id`. */
  predicate About(ev: Event, id: Id, content: bytes) {
    ev.Sent? && ev.request.Submit? ==> ev.request.id == id && ev.request.content == content
  }

  /** From `base`, the table has been extended by the rows of `content` exactly if `id` committed. */
  ghost predicate Tracks<T(!new)>(base: State<T>, s: State<T>, id: Id, content: bytes) {
    && s.read == base.read
    && (forall other | other in s.history && other != id :: !s.history[other].Active?)
    && (if id !in s.history then s.table == base.table
        else match s.history[id]
          case Active(c) => c == content && s.table == base.table
          case Aborted => s.table == base.table
          case Committed(rows) => s.read(content) == Some(rows) && s.table == base.table + rows)
  }

  /** Whatever a running statement does later, the table stays in step with its fate. */
  lemma SettleTracks<T(!new)>(base: State<T>, s: State<T>, id: Id, content: bytes, t: Settlement)
    requires Tracks(base, s, id, content)
    ensures Tracks(base, Settle(s, t), id, content)
  {
  }

  lemma StepTracks<T(!new)>(base: State<T>, s: State<T>, ev: Event, id: Id, content: bytes)
    requires Tracks(base, s, id, content) && StepOk(s, ev) && About(ev, id, content)
    requires Submits(ev, id) && !ev.request.retry ==> id !in s.history
    ensures Tracks(base, Step(s, ev), id, content)
  {
    if ev.Sent? {
      SettleTracks(base, s, id, content, ev.before);
    }
  }

  lemma {:induction false} RunTracks<T(!new)>(base: State<T>, events: seq<Event>, id: Id, content: bytes)
    requires Legal(base, events) && Quiet(base) && id !in base.history && OnlyFirstUnmarked(events, id)
    requires forall i | 0 <= i < |events| :: About(events[i], id, content)
    ensures Tracks(base, Replay(base, events), id, content)
  {
    if events != [] {
      var n := |events| - 1;
      var init, ev := events[..n], events[n];
      RunTracks(base, init, id, content);
      AtMostOnce(base, init, id);
      if Submits(ev, id) && !ev.request.retry {
        forall i | 0 <= i < n
          ensures !Executes(init[i], id)
        {
          assert !Submits(events[i], id);
        }
      }
      StepTracks(base, Replay(base, init), ev, id, content);
    }
  }

  /** While every submission under `id` was ignored or failed, nothing of it is running or committed. */
  lemma {:induction false} OnlyFailures<T(!new)>(s: State<T>, events: seq<Event>, id: Id)
    requires Legal(s, events) && id !in s.history
    requires forall i | 0 <= i < |events| && Submits(events[i], id) :: events[i].effect.Ignored? || events[i].effect.Fails?
    ensures id in Replay(s, events).history ==> Replay(s, events).history[id].Aborted?
  {
    if events != [] {
      var n := |events| - 1;
      OnlyFailures(s, events[..n], id);
      assert forall i | 0 <= i < n :: events[i] == events[..n][i];
    }
  }

  /** Every handle a submission's answers gave names that submission's statement. */
  lemma {:induction false} HandlesNameId<T(!new)>(s: State<T>, events: seq<Event>, i: nat)
    requires Legal(s, events) && i < |events|
    requires events[i].Sent? && events[i].request.Submit? && events[i].reply.Answer? && Nonempty(events[i].reply.handle)
    ensures
      var s' := Replay(s, events);
      var h := events[i].reply.handle.value;
      h in s'.handles && s'.handles[h] == events[i].request.id
  {
    var n := |events| - 1;
    var init, ev := events[..n], events[n];
    if i < n {
      HandlesNameId(s, init, i);
    }
  }
}
