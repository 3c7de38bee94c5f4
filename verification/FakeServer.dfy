/** The in-process fake server: how it splits and serves a registered result, and a query run against it. */
module FakeServer {
  import opened Wrappers
  import opened Digits
  import Streaming
  import Transport

  // ---------------------------------------------------------------- splitting rows into partitions

  /** Ceiling division. */
  function Ceiling(n: nat, d: nat): nat
    requires d > 0
  {
    (n + d - 1) / d
  }

  /** Chunks of `Ceiling(n, p)` elements are at most `p`: chunk `p` would start past the end. */
  lemma EnoughChunks(n: nat, p: nat)
    requires p > 0
    ensures Times(p, Ceiling(n, p)) >= n
  {
    assert (n + p - 1) == p * ((n + p - 1) / p) + (n + p - 1) % p;
  }

  /** Where chunk `k` starts. */
  function Times(k: nat, size: nat): nat {
    k * size
  }

  lemma TimesNext(k: nat, size: nat)
    ensures Times(k + 1, size) == Times(k, size) + size
  {
  }

  lemma TimesGrows(a: nat, b: nat, size: nat)
    ensures a <= b ==> Times(a, size) <= Times(b, size)
  {
    if a <= b {
      assert b * size == a * size + (b - a) * size;
    }
  }

  /** Chunk `k` of `size` elements each, as far as `data` goes. */
  function Slice<T>(data: seq<T>, size: nat, k: nat): (chunk: seq<T>)
    ensures Times(k + 1, size) <= |data| ==> |chunk| == size
    ensures Times(k, size) >= |data| ==> chunk == []
  {
    TimesNext(k, size);
    var end := Times(k + 1, size);
    if Times(k, size) >= |data| then [] else data[Times(k, size)..if end < |data| then end else |data|]
  }

  lemma OneSlice<T>(data: seq<T>)
    ensures Flatten([data]) == data && Slice(data, Ceiling(|data|, 1), 0) == data
  {
    FlattenSnoc([], data);
    assert [] + [data] == [data];
    assert Ceiling(|data|, 1) == |data| && Times(0, |data|) == 0 && Times(1, |data|) == |data|;
  }

  lemma RoomForOne(n: nat, k: nat, p: nat, size: nat)
    requires Times(k, size) < n <= Times(p, size)
    ensures k < p
  {
    TimesGrows(p, k, size);
  }

  /** `chunks` are the first chunks of `size` elements each, and together the first `done` elements. */
  ghost predicate Cut<T>(data: seq<T>, size: nat, chunks: seq<seq<T>>, done: nat) {
    done <= |data| && Flatten(chunks) == data[..done] && Slices(data, size, chunks)
  }

  ghost predicate Slices<T>(data: seq<T>, size: nat, chunks: seq<seq<T>>) {
    forall k: nat {:trigger chunks[k]} | k < |chunks| :: chunks[k] == Slice(data, size, k)
  }

  lemma SlicesSnoc<T>(data: seq<T>, size: nat, chunks: seq<seq<T>>)
    requires Slices(data, size, chunks)
    ensures Slices(data, size, chunks + [Slice(data, size, |chunks|)])
  {
  }

  lemma CutSnoc<T>(data: seq<T>, size: nat, chunks: seq<seq<T>>, i: nat, end: nat)
    requires i <= end <= |data| && Cut(data, size, chunks, i) && data[i..end] == Slice(data, size, |chunks|)
    ensures Cut(data, size, chunks + [data[i..end]], end)
  {
    FlattenSnoc(chunks, data[i..end]);
    SlicesSnoc(data, size, chunks);
    assert data[..end] == data[..i] + data[i..end];
  }

  lemma SliceAt<T>(data: seq<T>, size: nat, k: nat, i: nat)
    requires i == Times(k, size) < |data|
    ensures Slice(data, size, k) == data[i..if i + size < |data| then i + size else |data|]
  {
    TimesNext(k, size);
  }

  /**
   * `_split`: exactly `partitions` chunks that together are the rows, in order, each of as many rows as even parts
   * rounded up have, as long as there are any left; a count below one raises.
   */
  method Split<T>(data: seq<T>, partitions: int) returns (r: Option<seq<seq<T>>>)
    ensures r.Some? <==> partitions >= 1
    ensures r.Some? ==> |r.value| == partitions && Flatten(r.value) == data
    ensures r.Some? && data != [] ==>
      forall k: nat {:trigger r.value[k]} | k < partitions :: r.value[k] == Slice(data, Ceiling(|data|, partitions), k)
  {
    if partitions < 1 {
      return None;
    }
    if partitions == 1 {
      OneSlice(data);
      return Some([data]);
    }
    var size := if Ceiling(|data|, partitions) == 0 then 1 else Ceiling(|data|, partitions);
    EnoughChunks(|data|, partitions);
    var chunks: seq<seq<T>> := [];
    var i := 0;
    while i < |data|
      invariant 0 <= i && Cut(data, size, chunks, if i < |data| then i else |data|)
      invariant i == Times(|chunks|, size) && |chunks| <= partitions
      decreases |data| - i
    {
      var end := if i + size < |data| then i + size else |data|;
      TimesNext(|chunks|, size);
      RoomForOne(|data|, |chunks|, partitions, size);
      SliceAt(data, size, |chunks|, i);
      CutSnoc(data, size, chunks, i, end);
      chunks := chunks + [data[i..end]];
      i := i + size;
    }
    while |chunks| < partitions
      invariant |chunks| <= partitions && Cut(data, size, chunks, |data|) && Times(|chunks|, size) >= |data|
    {
      TimesNext(|chunks|, size);
      assert data[|data|..] == [];
      CutSnoc(data, size, chunks, |data|, |data|);
      chunks := chunks + [[]];
    }
    return Some(chunks);
  }

  // ---------------------------------------------------------------- the server

  /** A registered result: its partitions, how many polls find it running, and the error it simulates, if any. */
  datatype Registered<!T> = Registered(chunks: seq<seq<T>>, polls: nat, error: Option<int>)

  datatype Progress<!T> = Progress(reg: Registered<T>, remaining: nat)

  datatype Request =
    | PostStatement(sql: string, asyncExec: bool)
    | GetStatement(handle: string, partition: Option<int>)
    | PostCancel(handle: string)

  datatype Body<T> =
    | ResultBody(handle: string, partitions: nat, data: seq<T>)
    | Page(data: seq<T>)
    | Pending(handle: string)
    | Failure(handle: string)

  /** A response, or the assertion error a gap in the wiring raises. */
  datatype Answer<T> = Answer(status: int, body: Body<T>) | SetupError

  class FakeSnowflake<T> {
    var exact: map<string, Registered<T>>
    var predicates: seq<(string -> bool, Registered<T>)>
    var state: map<string, Progress<T>>
    var counter: nat
    var requests: seq<Request>

    constructor ()
      ensures Valid() && exact == map[] && predicates == [] && requests == []
    {
      exact, predicates, state, counter, requests := map[], [], map[], 0, [];
    }

    /** Every result has a first partition, and no later handle is in use yet. */
    ghost predicate Valid()
      reads this
    {
      && (forall k: nat {:trigger HandleName(k)} | k > counter :: HandleName(k) !in state)
      && (forall handle | handle in state :: state[handle].reg.chunks != [])
      && (forall sql | sql in exact :: exact[sql].chunks != [])
      && (forall i | 0 <= i < |predicates| :: predicates[i].1.chunks != [])
    }

    static function HandleName(k: nat): string {
      "stmt-" + Str(k)
    }

    static lemma HandlesDiffer(j: nat, k: nat)
      ensures HandleName(j) == HandleName(k) ==> j == k
    {
      if HandleName(j) == HandleName(k) {
        assert HandleName(j)[5..] == Str(j) && HandleName(k)[5..] == Str(k);
        StrInjective(j, k);
      }
    }

    static function FirstMatch(predicates: seq<(string -> bool, Registered<T>)>, sql: string): Option<Registered<T>> {
      if predicates == [] then None
      else if predicates[0].0(sql) then Some(predicates[0].1)
      else FirstMatch(predicates[1..], sql)
    }

    /** The one found is that of the first predicate that holds. */
    static lemma {:induction false} FirstMatchExactly(
      predicates: seq<(string -> bool, Registered<T>)>, sql: string, k: nat)
      requires k < |predicates| && predicates[k].0(sql)
      requires forall j | 0 <= j < k :: !predicates[j].0(sql)
      ensures FirstMatch(predicates, sql) == Some(predicates[k].1)
    {
      if k > 0 {
        FirstMatchExactly(predicates[1..], sql, k - 1);
      }
    }

    static lemma {:induction false} NoMatch(predicates: seq<(string -> bool, Registered<T>)>, sql: string)
      requires forall j | 0 <= j < |predicates| :: !predicates[j].0(sql)
      ensures FirstMatch(predicates, sql) == None
    {
      if predicates != [] {
        NoMatch(predicates[1..], sql);
      }
    }

    /** A predicate registered last is asked last. */
    static lemma {:induction false} FirstMatchSnoc(
      predicates: seq<(string -> bool, Registered<T>)>, last: (string -> bool, Registered<T>), sql: string)
      ensures FirstMatch(predicates + [last], sql)
           == if FirstMatch(predicates, sql).Some? then FirstMatch(predicates, sql)
              else if last.0(sql) then Some(last.1) else None
    {
      if predicates == [] {
        assert [last][1..] == [];
      } else {
        assert (predicates + [last])[1..] == predicates[1..] + [last];
        FirstMatchSnoc(predicates[1..], last, sql);
      }
    }

    /** An exact registration, else the first predicate that holds. */
    function Lookup(sql: string): Option<Registered<T>>
      reads this
    {
      if sql in exact then Some(exact[sql]) else FirstMatch(predicates, sql)
    }

    static lemma {:induction false} MatchHasPartition(predicates: seq<(string -> bool, Registered<T>)>, sql: string)
      requires forall i | 0 <= i < |predicates| :: predicates[i].1.chunks != []
      ensures FirstMatch(predicates, sql).Some? ==> FirstMatch(predicates, sql).value.chunks != []
    {
      if predicates != [] {
        MatchHasPartition(predicates[1..], sql);
      }
    }

    /** `register`, given the rows already encoded for the wire. */
    method Register(sql: string, rows: seq<T>, partitions: int, polls: nat) returns (ok: bool)
      requires Valid()
      modifies `exact
      ensures Valid() && (ok <==> partitions >= 1)
      ensures ok ==> Lookup(sql).Some? && Flatten(Lookup(sql).value.chunks) == rows
      ensures ok ==> |Lookup(sql).value.chunks| == partitions && Lookup(sql).value.polls == polls
      ensures ok ==> Lookup(sql).value.error.None?
      ensures forall other | other != sql :: Lookup(other) == old(Lookup(other))
    {
      var chunks := Split(rows, partitions);
      if chunks.None? {
        return false;
      }
      exact := exact[sql := Registered(chunks.value, polls, None)];
      return true;
    }

    /** `register_match`: the result of every statement that matches and has none yet. */
    method RegisterMatch(matches: string -> bool, rows: seq<T>, partitions: int, polls: nat) returns (ok: bool)
      requires Valid()
      modifies `predicates
      ensures Valid() && (ok <==> partitions >= 1)
      ensures forall sql | old(Lookup(sql)).Some? || !matches(sql) || !ok :: Lookup(sql) == old(Lookup(sql))
      ensures ok ==> forall sql | old(Lookup(sql)).None? && matches(sql) ::
        && Lookup(sql).Some? && Flatten(Lookup(sql).value.chunks) == rows
        && |Lookup(sql).value.chunks| == partitions && Lookup(sql).value.polls == polls && Lookup(sql).value.error.None?
    {
      var chunks := Split(rows, partitions);
      if chunks.None? {
        return false;
      }
      var last := (matches, Registered(chunks.value, polls, None));
      forall sql: string
        ensures FirstMatch(predicates + [last], sql)
             == if FirstMatch(predicates, sql).Some? then FirstMatch(predicates, sql)
                else if matches(sql) then Some(last.1) else None
      {
        FirstMatchSnoc(predicates, last, sql);
      }
      predicates := predicates + [last];
      return true;
    }

    /** `register_error`. */
    method RegisterError(sql: string, status: int)
      requires Valid()
      modifies `exact
      ensures Valid() && Lookup(sql).Some? && Lookup(sql).value.error == Some(status)
      ensures forall other | other != sql :: Lookup(other) == old(Lookup(other))
    {
      exact := exact[sql := Registered([[]], 0, Some(status))];
    }

    /** `_result_response`: the first partition, and how many there are. */
    static function Served(handle: string, reg: Registered<T>): Answer<T> {
      Answer(200, ResultBody(handle, |reg.chunks|, if reg.chunks == [] then [] else reg.chunks[0]))
    }

    /** What a submission of a registered statement is answered, under the handle it gets. */
    static function Submitted(handle: string, reg: Registered<T>, asyncExec: bool): Answer<T> {
      if reg.error.Some? then Answer(reg.error.value, Failure(handle))
      else if asyncExec || reg.polls > 0 then Answer(202, Pending(handle))
      else Served(handle, reg)
    }

    method OnSubmit(sql: string, asyncExec: bool) returns (a: Answer<T>)
      requires Valid()
      modifies `state, `counter, `requests
      ensures Valid() && requests == old(requests) + [PostStatement(sql, asyncExec)]
      ensures
        match Lookup(sql)
        case None => a == SetupError && counter == old(counter) && state == old(state)
        case Some(reg) =>
          var handle := HandleName(old(counter) + 1);
          && counter == old(counter) + 1 && handle !in old(state) && reg.chunks != []
          && a == Submitted(handle, reg, asyncExec)
          && (match a
              case SetupError => false
              case Answer(status, body) =>
                && (reg.error.Some? ==> status == reg.error.value && body == Failure(handle))
                && (reg.error.None? ==> (status == 202 <==> asyncExec || reg.polls > 0))
                && (reg.error.None? && status == 202 ==> body == Pending(handle))
                && (reg.error.None? && status != 202 ==>
                      status == 200 && body == ResultBody(handle, |reg.chunks|, reg.chunks[0])))
          && state == if reg.error.Some? then old(state) else old(state)[handle := Progress(reg, reg.polls)]
    {
      requests := requests + [PostStatement(sql, asyncExec)];
      var reg := Lookup(sql);
      if reg.None? {
        return SetupError;
      }
      MatchHasPartition(predicates, sql);
      counter := counter + 1;
      var handle := HandleName(counter);
      if reg.value.error.Some? {
        return Answer(reg.value.error.value, Failure(handle));
      }
      forall k: nat {:trigger HandleName(k)} | k > counter
        ensures HandleName(k) != handle
      {
        HandlesDiffer(k, counter);
      }
      state := state[handle := Progress(reg.value, reg.value.polls)];
      if asyncExec || reg.value.polls > 0 {
        return Answer(202, Pending(handle));
      }
      return Served(handle, state[handle].reg);
    }

    method OnGet(handle: string, partition: Option<int>) returns (a: Answer<T>)
      requires Valid()
      modifies `state, `requests
      ensures Valid() && requests == old(requests) + [GetStatement(handle, partition)]
      ensures handle !in old(state) ==> a == SetupError && state == old(state)
      ensures handle in old(state) ==>
        var p := old(state)[handle];
        if partition.Some? then
          && state == old(state)
          && a == if 0 <= partition.value < |p.reg.chunks| then Answer(200, Page(p.reg.chunks[partition.value]))
                  else SetupError
        else if p.remaining > 0 then
          a == Answer(202, Pending(handle)) && state == old(state)[handle := p.(remaining := p.remaining - 1)]
        else a == Answer(200, ResultBody(handle, |p.reg.chunks|, p.reg.chunks[0])) && state == old(state)
    {
      requests := requests + [GetStatement(handle, partition)];
      if handle !in state {
        return SetupError;
      }
      if partition.Some? {
        var chunks := state[handle].reg.chunks;
        if !(0 <= partition.value < |chunks|) {
          return SetupError;
        }
        return Answer(200, Page(chunks[partition.value]));
      }
      if state[handle].remaining > 0 {
        state := state[handle := state[handle].(remaining := state[handle].remaining - 1)];
        return Answer(202, Pending(handle));
      }
      return Served(handle, state[handle].reg);
    }

    method OnCancel(handle: string)
      modifies `requests
      ensures requests == old(requests) + [PostCancel(handle)]
    {
      requests := requests + [PostCancel(handle)];
    }
  }

  // ---------------------------------------------------------------- a query against the fake

  /** A clock whose every request and every sleep takes what the environment says. */
  class Clock {
    const elapsed: nat -> nat
    var tick: nat
    var now: int

    constructor (elapsed: nat -> nat, now: int)
      ensures this.now == now
    {
      this.elapsed, this.tick, this.now := elapsed, 0, now;
    }

    method Pass()
      modifies this
      ensures now >= old(now)
    {
      now := now + elapsed(tick);
      tick := tick + 1;
    }
  }

  // ---------------------------------------------------------------- the retry loop, over the fake

  function Attempts(policy: Transport.Policy): nat {
    if policy.maxAttempts < 0 then 0 else policy.maxAttempts
  }

  /** What `_send` comes to: a response, an HTTP error, exhausted retries, or the fake's own assertion error. */
  datatype Sent<T> = Got(status: int, body: Body<T>) | Refused(status: int) | Exhausted | Wiring

  predicate Retryable<T>(policy: Transport.Policy, a: Answer<T>) {
    a.Answer? && a.status in policy.retryStatuses
  }

  /** The outcome of an answer that is not retried. */
  function Interpreted<T>(a: Answer<T>): Sent<T> {
    match a
    case SetupError => Wiring
    case Answer(status, body) => if status in {200, 202} then Got(status, body) else Refused(status)
  }

  /** The same request, sent `k` times. */
  function Repeated(request: Request, k: nat): (requests: seq<Request>)
    ensures |requests| == k
  {
    seq(k, _ => request)
  }

  lemma RepeatedSnoc(before: seq<Request>, request: Request, k: nat)
    ensures before + Repeated(request, k) + [request] == before + Repeated(request, k + 1)
  {
  }

  /** The status a registered statement's submissions are answered with. */
  function FirstStatus<T>(reg: Registered<T>): int {
    if reg.error.Some? then reg.error.value else if reg.polls > 0 then 202 else 200
  }

  /** Submit a statement, retrying as the policy says; every attempt gets a handle of its own. */
  method SubmitFake<T>(fake: FakeSnowflake<T>, clock: Clock, policy: Transport.Policy, sql: string)
    returns (r: Sent<T>)
    requires fake.Valid()
    modifies fake`state, fake`counter, fake`requests, clock
    ensures fake.Valid() && clock.now >= old(clock.now)
    ensures
      var n, post := Attempts(policy), PostStatement(sql, false);
      if n == 0 then r == Exhausted && fake.requests == old(fake.requests) && fake.state == old(fake.state)
      else match old(fake.Lookup(sql))
        case None => r == Wiring && fake.requests == old(fake.requests) + Repeated(post, 1)
        case Some(reg) =>
          if FirstStatus(reg) in policy.retryStatuses then
            r == Exhausted && fake.requests == old(fake.requests) + Repeated(post, n)
          else
            var handle := FakeSnowflake<T>.HandleName(old(fake.counter) + 1);
            && r == Interpreted(FakeSnowflake<T>.Submitted(handle, reg, false)) && reg.chunks != []
            && fake.requests == old(fake.requests) + Repeated(post, 1) && handle !in old(fake.state)
            && fake.state == if reg.error.Some? then old(fake.state) else old(fake.state)[handle := Progress(reg, reg.polls)]
  {
    var post := PostStatement(sql, false);
    var attempt := 0;
    assert fake.requests == fake.requests + Repeated(post, 0);
    while attempt < policy.maxAttempts
      invariant 0 <= attempt <= Attempts(policy) && fake.Valid() && clock.now >= old(clock.now)
      invariant fake.Lookup(sql) == old(fake.Lookup(sql))
      invariant fake.requests == old(fake.requests) + Repeated(post, attempt)
      invariant attempt == 0 ==> fake.state == old(fake.state) && fake.counter == old(fake.counter)
      invariant attempt > 0 ==> fake.Lookup(sql).Some? && FirstStatus(fake.Lookup(sql).value) in policy.retryStatuses
      decreases policy.maxAttempts - attempt
    {
      RepeatedSnoc(old(fake.requests), post, attempt);
      var answer := fake.OnSubmit(sql, false);
      clock.Pass();
      if !Retryable(policy, answer) {
        return Interpreted(answer);
      }
      attempt := attempt + 1;
    }
    return Exhausted;
  }

  /** What a GET of a known handle is answered. */
  function GetAnswer<T>(p: Progress<T>, handle: string, partition: Option<int>): Answer<T> {
    if partition.Some? then
      if 0 <= partition.value < |p.reg.chunks| then Answer(200, Page(p.reg.chunks[partition.value])) else SetupError
    else if p.remaining > 0 then Answer(202, Pending(handle))
    else FakeSnowflake<T>.Served(handle, p.reg)
  }

  /** GET a status, when a 202 is not retried, or a partition, which is never answered 202. */
  method GetFake<T>(fake: FakeSnowflake<T>, clock: Clock, policy: Transport.Policy, handle: string, partition: Option<int>)
    returns (r: Sent<T>)
    requires fake.Valid() && policy.maxAttempts > 0 && (partition.None? ==> 202 !in policy.retryStatuses)
    modifies fake`state, fake`requests, clock
    ensures fake.Valid() && clock.now >= old(clock.now)
    ensures
      var n, get := Attempts(policy), GetStatement(handle, partition);
      if handle !in old(fake.state) then
        r == Wiring && fake.state == old(fake.state) && fake.requests == old(fake.requests) + Repeated(get, 1)
      else
        var p := old(fake.state[handle]);
        var a := GetAnswer(p, handle, partition);
        && fake.state == (if a.Answer? && a.status == 202 then old(fake.state)[handle := p.(remaining := p.remaining - 1)]
                          else old(fake.state))
        && if Retryable(policy, a) then r == Exhausted && fake.requests == old(fake.requests) + Repeated(get, n)
           else r == Interpreted(a) && fake.requests == old(fake.requests) + Repeated(get, 1)
  {
    var get := GetStatement(handle, partition);
    var attempt := 0;
    assert fake.requests == fake.requests + Repeated(get, 0);
    while attempt < policy.maxAttempts
      invariant 0 <= attempt <= policy.maxAttempts && fake.Valid() && clock.now >= old(clock.now)
      invariant fake.state == old(fake.state) && fake.requests == old(fake.requests) + Repeated(get, attempt)
      invariant attempt > 0 ==>
        handle in fake.state && Retryable(policy, GetAnswer(fake.state[handle], handle, partition))
      decreases policy.maxAttempts - attempt
    {
      RepeatedSnoc(old(fake.requests), get, attempt);
      var answer := fake.OnGet(handle, partition);
      clock.Pass();
      if !Retryable(policy, answer) {
        return Interpreted(answer);
      }
      attempt := attempt + 1;
    }
    return Exhausted;
  }

  /** The cancel after a timeout: the fake answers 200, and how often it is sent depends on the policy alone. */
  method CancelFake<T>(fake: FakeSnowflake<T>, policy: Transport.Policy, handle: string)
    requires policy.maxAttempts > 0
    modifies fake`requests
    ensures fake.requests == old(fake.requests) + Repeated(PostCancel(handle), Cancels(policy))
  {
    var attempt := 0;
    assert fake.requests == fake.requests + Repeated(PostCancel(handle), 0);
    while attempt < policy.maxAttempts
      invariant 0 <= attempt <= policy.maxAttempts && (attempt > 0 ==> 200 in policy.retryStatuses)
      invariant fake.requests == old(fake.requests) + Repeated(PostCancel(handle), attempt)
    {
      RepeatedSnoc(old(fake.requests), PostCancel(handle), attempt);
      fake.OnCancel(handle);
      attempt := attempt + 1;
      if 200 !in policy.retryStatuses {
        return;
      }
    }
  }

  function Cancels(policy: Transport.Policy): nat {
    if 200 in policy.retryStatuses then Attempts(policy) else 1
  }

  // ---------------------------------------------------------------- the query

  datatype Outcome<T> = Rows(rows: seq<T>) | Failed(status: int) | RetriesExhausted | TimedOut | SetupFault

  /** The fetches of partitions `1 .. n - 1`. */
  function Fetches(handle: string, n: nat): (requests: seq<Request>)
    ensures |requests| == if n == 0 then 0 else n - 1
  {
    seq(if n == 0 then 0 else n - 1, i => GetStatement(handle, Some(i + 1)))
  }

  /** How polling ended: with what the last request came to, or by giving up. */
  datatype PollEnd<T> = Last(sent: Sent<T>) | GaveUp

  /** Poll until the result is there, or a poll finds it running past the deadline; then cancel. */
  method PollFake<T>(fake: FakeSnowflake<T>, clock: Clock, policy: Transport.Policy, handle: string, wait: int)
    returns (end: PollEnd<T>, ghost running: nat)
    requires fake.Valid() && policy.maxAttempts > 0 && 202 !in policy.retryStatuses
    modifies fake`state, fake`requests, clock
    ensures fake.Valid()
    ensures handle !in old(fake.state) ==>
      end == Last(Wiring) && |fake.requests| == |old(fake.requests)| + 1
    ensures handle in old(fake.state) ==>
      var p, get := old(fake.state[handle]), GetStatement(handle, None);
      && handle in fake.state && fake.state[handle].reg == p.reg
      && match end
         case Last(sent) =>
           && running == p.remaining
           && if 200 in policy.retryStatuses then
                sent == Exhausted && fake.requests == old(fake.requests) + Repeated(get, running) + Repeated(get, Attempts(policy))
              else
                && sent == Interpreted(FakeSnowflake<T>.Served(handle, p.reg))
                && fake.requests == old(fake.requests) + Repeated(get, running) + Repeated(get, 1)
         case GaveUp =>
           && clock.now >= old(clock.now) + wait && 0 < running <= p.remaining
           && fake.requests
              == old(fake.requests) + Repeated(get, running) + Repeated(PostCancel(handle), Cancels(policy))
  {
    var deadline := clock.now + wait;
    running := 0;
    assert fake.requests == fake.requests + Repeated(GetStatement(handle, None), 0);
    while true
      invariant fake.Valid() && clock.now >= old(clock.now)
      invariant handle in fake.state <==> handle in old(fake.state)
      invariant handle in fake.state ==>
        && fake.state[handle].reg == old(fake.state[handle].reg)
        && fake.state[handle].remaining + running == old(fake.state[handle].remaining)
      invariant handle !in fake.state ==> running == 0
      invariant fake.requests == old(fake.requests) + Repeated(GetStatement(handle, None), running)
      decreases if handle in fake.state then fake.state[handle].remaining else 0
    {
      var sent := GetFake(fake, clock, policy, handle, None);
      if !sent.Got? || sent.status != 202 {
        return Last(sent), running;
      }
      RepeatedSnoc(old(fake.requests), GetStatement(handle, None), running);
      assert Repeated(GetStatement(handle, None), 1) == [GetStatement(handle, None)];
      running := running + 1;
      if clock.now >= deadline {
        CancelFake(fake, policy, handle);
        return GaveUp, running;
      }
      clock.Pass();
    }
  }

  lemma FetchesSnoc(before: seq<Request>, handle: string, k: nat)
    requires k > 0
    ensures before + Fetches(handle, k) + Repeated(GetStatement(handle, Some(k)), 1) == before + Fetches(handle, k + 1)
  {
  }

  /** `fetch_all_partitions` over the fake. */
  method FetchFake<T>(
    fake: FakeSnowflake<T>, clock: Clock, policy: Transport.Policy, handle: string, first: seq<T>, count: nat)
    returns (r: Option<seq<T>>)
    requires fake.Valid() && handle in fake.state && policy.maxAttempts > 0
    requires 200 !in policy.retryStatuses
    requires count == |fake.state[handle].reg.chunks| && first == fake.state[handle].reg.chunks[0]
    modifies fake`state, fake`requests, clock
    ensures fake.Valid() && fake.state == old(fake.state) && r == Some(Flatten(fake.state[handle].reg.chunks))
    ensures fake.requests == old(fake.requests) + Fetches(handle, count)
  {
    ghost var chunks := fake.state[handle].reg.chunks;
    var rows := first;
    FlattenSnoc([], first);
    assert [] + [first] == [first] == chunks[..1];
    var index := 1;
    while index < count
      invariant fake.Valid() && fake.state == old(fake.state) && 1 <= index <= count
      invariant rows == Flatten(chunks[..index]) && fake.requests == old(fake.requests) + Fetches(handle, index)
    {
      var sent := GetFake(fake, clock, policy, handle, Some(index));
      if !sent.Got? || !sent.body.Page? {
        return None;
      }
      FlattenSnoc(chunks[..index], chunks[index]);
      assert chunks[..index] + [chunks[index]] == chunks[..index + 1];
      FetchesSnoc(old(fake.requests), handle, index);
      rows := rows + sent.body.data;
      index := index + 1;
    }
    assert chunks[..count] == chunks;
    return Some(rows);
  }

  /** The fake's partitions as the result set that eager fetching and streaming read. */
  function AsResultSet<T>(chunks: seq<seq<T>>, unavailable: Sent<T>): Streaming.ResultSet<T, T, Sent<T>>
    requires chunks != []
  {
    Streaming.ResultSet(
      |chunks|, Streaming.Data.Rows(chunks[0]),
      (i: nat) => if i < |chunks| then Ok(Streaming.Data.Rows(chunks[i])) else Err(unavailable),
      (row: T) => Ok(row), unavailable, unavailable)
  }

  /** Fetching all of it, and streaming it, give what `FetchFake` gives. */
  lemma FetchedFlatten<T>(chunks: seq<seq<T>>, unavailable: Sent<T>)
    requires chunks != []
    ensures AsResultSet(chunks, unavailable).Eager() == Ok(Flatten(chunks))
    ensures AsResultSet(chunks, unavailable).Whole() == Streaming.Run(Flatten(chunks), None)
  {
    var s := AsResultSet(chunks, unavailable);
    var lists := Streaming.FetchedExactly(s, s.Last());
    SameLists(chunks, unavailable, lists);
    AllArrive(chunks, unavailable);
    assert lists == chunks;
    var good := Streaming.CoercedExactly(s, Flatten(chunks));
    assert s.CoerceAll(Flatten(chunks)).value == Flatten(chunks);
    var arrays := Streaming.StreamExactly(s);
    SameArrays(chunks, unavailable, arrays);
    assert arrays == chunks;
    assert s.Whole().rows == Flatten(chunks);
  }

  lemma AllArrive<T>(chunks: seq<seq<T>>, unavailable: Sent<T>)
    requires chunks != []
    ensures
      var s := AsResultSet(chunks, unavailable);
      forall i: nat {:trigger s.Part(i)} | i < |chunks| :: s.Part(i) == Ok(Streaming.Data.Rows(chunks[i]))
  {
  }

  lemma SameLists<T>(chunks: seq<seq<T>>, unavailable: Sent<T>, lists: seq<seq<T>>)
    requires chunks != [] && |lists| <= |chunks| && Streaming.Lists(AsResultSet(chunks, unavailable), lists)
    ensures lists == chunks[..|lists|]
  {
    var s := AsResultSet(chunks, unavailable);
    forall i: nat | i < |lists|
      ensures lists[i] == chunks[i]
    {
      assert Streaming.ListsAs(s.Part(i), lists[i]);
    }
  }

  lemma SameArrays<T>(chunks: seq<seq<T>>, unavailable: Sent<T>, arrays: seq<seq<T>>)
    requires chunks != [] && |arrays| <= |chunks| && Streaming.Arrays(AsResultSet(chunks, unavailable), 0, arrays)
    ensures arrays == chunks[..|arrays|]
  {
    var s := AsResultSet(chunks, unavailable);
    forall i: nat | i < |arrays|
      ensures arrays[i] == chunks[i]
    {
      assert s.Part(0 + i) == Ok(Streaming.Data.Rows(arrays[i]));
    }
  }

  /** What a query of a registered statement comes to, after how many requests. */
  ghost predicate Queried<T>(policy: Transport.Policy, reg: Registered<T>, r: Outcome<T>, sent: int, late: bool) {
    var n, status := policy.maxAttempts, if reg.error.Some? then reg.error.value else if reg.polls > 0 then 202 else 200;
    var cancels := if 200 in policy.retryStatuses then n else 1;
    if status in policy.retryStatuses then r == RetriesExhausted && sent == n
    else if status !in {200, 202} then r == Failed(status) && sent == 1
    else if reg.error.Some? then
      if status == 200 then r == Rows([]) && sent == 1 else r == SetupFault && sent == 2
    else if reg.polls == 0 then r == Rows(Flatten(reg.chunks)) && sent == |reg.chunks|
    else if r.TimedOut? then
      late && 1 + cancels < sent <= 1 + reg.polls + cancels
    else if 200 in policy.retryStatuses then r == RetriesExhausted && sent == 1 + reg.polls + n
    else r == Rows(Flatten(reg.chunks)) && sent == 1 + (reg.polls + 1) + (|reg.chunks| - 1)
  }

  /**
   * `query` against the fake, under any retry policy. A registered result comes back whole and in order, whatever its
   * partitions and polls, in one submission, its polls and one more if it has any, and one fetch for each further
   * partition, unless the poll ran past its deadline; none of these requests is for a partition or handle the fake does
   * not have. A registered error is retried if its status is retryable and raised otherwise, except that a 200 is taken for an
   * empty result and a 202 for a running statement, which the fake then does not know.
   */
  method QueryFake<T>(fake: FakeSnowflake<T>, clock: Clock, policy: Transport.Policy, sql: string, wait: int)
    returns (r: Outcome<T>)
    requires fake.Valid()
    modifies fake`state, fake`counter, fake`requests, clock
    ensures fake.Valid()
    ensures
      var sent := |fake.requests| - |old(fake.requests)|;
      if policy.maxAttempts <= 0 then r == RetriesExhausted && sent == 0
      else match old(fake.Lookup(sql))
        case None => r == SetupFault && sent == 1
        case Some(reg) => Queried(policy, reg, r, sent, clock.now >= old(clock.now) + wait)
  {
    var submitted := SubmitFake(fake, clock, policy, sql);
    match submitted
    case Wiring => return SetupFault;
    case Exhausted => return RetriesExhausted;
    case Refused(status) => return Failed(status);
    case Got(status, first) =>
      var body := first;
      if status == 202 {
        var end;
        ghost var running;
        end, running := PollFake(fake, clock, policy, body.handle, wait);
        match end {
          case GaveUp =>
            return TimedOut;
          case Last(Wiring) =>
            return SetupFault;
          case Last(Exhausted) =>
            return RetriesExhausted;
          case Last(Refused(code)) =>
            return Failed(code);
          case Last(Got(_, polled)) =>
            body := polled;
        }
      }
      if !body.ResultBody? {
        return Rows([]);
      }
      var rows := FetchFake(fake, clock, policy, body.handle, body.data, body.partitions);
      return if rows.Some? then Rows(rows.value) else SetupFault;
  }
}
