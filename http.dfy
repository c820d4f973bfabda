/**
 * lib/http/api.ts: the axios instance's two interceptors and the single-flight
 * token refresh between them.
 *
 * The refresh is modelled as a sequential state machine over explicit events:
 * a caller asks for a refresh, the token generator succeeds with a result, or
 * the generator fails. `Step` is the specification; `RefreshCoordinator` holds
 * the module-level `isRefreshing` flag and `pendingQueue` and its methods are
 * proved to follow `Step`.
 */
module Http {
  import opened Js
  import opened Tokens
  import Auth

  const BaseUrl := "https://aysha.erpgulf.com"
  const Unauthorized := 401

  // ---------------------------------------------------------------------------
  // Request configuration and the request interceptor

  /** The parts of an axios request config that the interceptors read and write. */
  class RequestConfig {
    /** `config.headers`; `None` while it is undefined. */
    var headers: Option<map<string, string>>
    /** `config._retry` */
    var retried: bool

    constructor (headers: Option<map<string, string>>)
      ensures this.headers == headers && !retried
    {
      this.headers := headers;
      retried := false;
    }
  }

  /** `headers = headers || {}; headers.Authorization = 'Bearer ' + token` */
  function WithAuthorization(headers: Option<map<string, string>>, token: string): (r: map<string, string>)
    ensures "Authorization" in r && r["Authorization"] == "Bearer " + token
    ensures forall k :: k in r && k != "Authorization" ==> headers.Some? && k in headers.value && r[k] == headers.value[k]
    ensures headers.Some? ==> headers.value.Keys + {"Authorization"} == r.Keys
  {
    (if headers.Some? then headers.value else map[])["Authorization" := "Bearer " + token]
  }

  /**
   * The request interceptor: with a token in the store the request carries
   * `Authorization: Bearer <token>`; with none its headers are left as they were.
   */
  method AttachToken(config: RequestConfig, store: TokenStore)
    modifies config
    ensures config.retried == old(config.retried)
    ensures store.accessToken.Some? && store.accessToken.value != "" ==>
      config.headers == Some(WithAuthorization(old(config.headers), store.accessToken.value))
    ensures store.accessToken.None? || store.accessToken == Some("") ==> config.headers == old(config.headers)
  {
    var token := store.GetAccessToken();
    if token.Some? && token.value != "" {
      config.headers := Some(WithAuthorization(config.headers, token.value));
    }
  }

  // ---------------------------------------------------------------------------
  // The single-flight refresh, as a specification

  /** How a refresh ends for one caller: resolved with the new token (or null), or rejected with the error. */
  datatype Outcome = Resolved(token: Option<string>) | Rejected(error: string)

  /** `isRefreshing`, the callers waiting in `pendingQueue` (by id), and the token store's content. */
  datatype Machine = Machine(refreshing: bool, queue: seq<nat>, token: Option<string>)

  datatype Event =
    | Requested(caller: nat)
    | Succeeded(grant: Option<Auth.Grant>)
    | Failed(error: string)

  /** What an event produces. */
  datatype Reply =
    /** The caller starts the generator. */
    | CallGenerator
    /** The caller is queued behind the refresh in flight. */
    | Queued
    /** The generator finished: the outcome of the caller that started it, and of each waiter in queue order. */
    | Settled(own: Outcome, waiters: seq<(nat, Outcome)>)

  /** `t?.access_token ?? null` */
  function NewToken(grant: Option<Auth.Grant>): Option<string>
  {
    match grant
    case Some(g) => Some(g.accessToken)
    case None => None
  }

  /** Each waiter in order, with the one shared outcome. */
  function SettleAll(queue: seq<nat>, o: Outcome): (r: seq<(nat, Outcome)>)
    ensures |r| == |queue|
    ensures forall k :: 0 <= k < |r| ==> r[k] == (queue[k], o)
  {
    seq(|queue|, k requires 0 <= k < |queue| => (queue[k], o))
  }

  predicate IsCompletion(e: Event)
  {
    e.Succeeded? || e.Failed?
  }

  /** `refreshAccessToken` one event at a time. */
  function Step(m: Machine, e: Event): (r: (Machine, Reply))
    ensures r.1 == CallGenerator <==> e.Requested? && !m.refreshing
    ensures r.1.Settled? <==> IsCompletion(e)
    ensures r.0.refreshing <==> e.Requested?
    ensures e.Requested? ==> r.0.token == m.token && m.queue <= r.0.queue
    ensures r.1.Settled? ==> r.0.queue == [] && |r.1.waiters| == |m.queue|
  {
    match e
    case Requested(c) =>
      if m.refreshing then (m.(queue := m.queue + [c]), Queued)
      else (m.(refreshing := true), CallGenerator)
    case Succeeded(g) =>
      var t := NewToken(g);
      (Machine(false, [], Stored(t)), Settled(Resolved(t), SettleAll(m.queue, Resolved(t))))
    case Failed(err) =>
      (Machine(false, [], None), Settled(Rejected(err), SettleAll(m.queue, Rejected(err))))
  }

  /** Nobody waits unless a refresh is in flight, and the store never holds "". */
  predicate Inv(m: Machine)
  {
    (!m.refreshing ==> m.queue == []) && m.token != Some("")
  }

  const Initial := Machine(false, [], None)

  /** Every step keeps the invariant. */
  lemma StepKeepsInv(m: Machine, e: Event)
    requires Inv(m)
    ensures Inv(Step(m, e).0)
  {
  }

  /**
   * A refresh requested while one is in flight does not call the generator: it
   * appends exactly that caller to the queue and changes nothing else.
   */
  lemma RequestWhileRefreshing(m: Machine, c: nat)
    requires m.refreshing
    ensures Step(m, Requested(c)) == (Machine(true, m.queue + [c], m.token), Queued)
  {
  }

  /**
   * A completion clears the flag and empties the queue; every waiter, in queue
   * order, gets the same outcome as the caller that started the refresh. On
   * success that outcome is the new token (null when there is no grant) and
   * the store holds it; on failure it is the error and the store is cleared.
   */
  lemma CompletionSettlesEveryone(m: Machine, e: Event)
    requires IsCompletion(e)
    ensures var (m', r) := Step(m, e);
      && !m'.refreshing && m'.queue == []
      && r.Settled? && |r.waiters| == |m.queue|
      && (forall k :: 0 <= k < |m.queue| ==> r.waiters[k] == (m.queue[k], r.own))
      && (e.Succeeded? ==> r.own == Resolved(NewToken(e.grant)) && m'.token == Stored(NewToken(e.grant)))
      && (e.Failed? ==> r.own == Rejected(e.error) && m'.token == None)
  {
  }

  // ---------------------------------------------------------------------------
  // Runs of events

  function Run(m: Machine, es: seq<Event>): (Machine, seq<Reply>)
    decreases |es|
  {
    if es == [] then (m, [])
    else
      var (m1, r) := Step(m, es[0]);
      var (m2, rs) := Run(m1, es[1..]);
      (m2, [r] + rs)
  }

  function Calls(rs: seq<Reply>): nat
  {
    if rs == [] then 0 else (if rs[0] == CallGenerator then 1 else 0) + Calls(rs[1..])
  }

  function Completions(es: seq<Event>): nat
  {
    if es == [] then 0 else (if IsCompletion(es[0]) then 1 else 0) + Completions(es[1..])
  }

  function Flag(m: Machine): nat
  {
    if m.refreshing then 1 else 0
  }

  /**
   * Single flight: over any run, the generator is called at most once more
   * than it completes, and never while a refresh is in flight without a
   * completion in between.
   */
  lemma {:induction false} SingleFlight(m: Machine, es: seq<Event>)
    decreases |es|
    ensures Calls(Run(m, es).1) + Flag(m) <= Completions(es) + Flag(Run(m, es).0)
    ensures Calls(Run(m, es).1) <= Completions(es) + 1 - Flag(m)
  {
    if es != [] {
      var (m1, r) := Step(m, es[0]);
      SingleFlight(m1, es[1..]);
      assert Run(m, es).1 == [r] + Run(m1, es[1..]).1;
      assert ([r] + Run(m1, es[1..]).1)[1..] == Run(m1, es[1..]).1;
    }
  }

  /** A run in which a completion only arrives while a refresh is in flight, as with a real generator. */
  predicate ProperRun(m: Machine, es: seq<Event>)
    decreases |es|
  {
    es == [] || ((IsCompletion(es[0]) ==> m.refreshing) && ProperRun(Step(m, es[0]).0, es[1..]))
  }

  /**
   * In a proper run the generator calls are counted exactly: every call but
   * the one still in flight has completed.
   */
  lemma {:induction false} SingleFlightExact(m: Machine, es: seq<Event>)
    requires ProperRun(m, es)
    decreases |es|
    ensures Calls(Run(m, es).1) + Flag(m) == Completions(es) + Flag(Run(m, es).0)
  {
    if es != [] {
      var (m1, r) := Step(m, es[0]);
      SingleFlightExact(m1, es[1..]);
      assert Run(m, es).1 == [r] + Run(m1, es[1..]).1;
      assert ([r] + Run(m1, es[1..]).1)[1..] == Run(m1, es[1..]).1;
    }
  }

  lemma {:induction false} RunAppend(m: Machine, a: seq<Event>, b: seq<Event>)
    ensures Run(m, a + b) == (Run(Run(m, a).0, b).0, Run(m, a).1 + Run(Run(m, a).0, b).1)
    decreases |a|
  {
    if a == [] {
      assert a + b == b;
      assert Run(m, a).1 + Run(m, b).1 == Run(m, b).1;
    } else {
      var (m1, r) := Step(m, a[0]);
      assert (a + b)[0] == a[0];
      assert (a + b)[1..] == a[1..] + b;
      RunAppend(m1, a[1..], b);
      var (ma, ra) := Run(m1, a[1..]);
      assert Run(m, a) == (ma, [r] + ra);
      assert Run(m, a + b) == (Run(ma, b).0, [r] + (ra + Run(ma, b).1));
      assert [r] + (ra + Run(ma, b).1) == ([r] + ra) + Run(ma, b).1;
    }
  }

  function Requests(cs: seq<nat>): (es: seq<Event>)
    ensures |es| == |cs|
    ensures forall k :: 0 <= k < |cs| ==> es[k] == Requested(cs[k])
  {
    seq(|cs|, k requires 0 <= k < |cs| => Requested(cs[k]))
  }

  function QueuedReplies(n: nat): (r: seq<Reply>)
    ensures |r| == n
  {
    if n == 0 then [] else [Queued] + QueuedReplies(n - 1)
  }

  lemma {:induction false} RequestsWhileRefreshing(m: Machine, cs: seq<nat>)
    requires m.refreshing
    ensures Run(m, Requests(cs)) == (m.(queue := m.queue + cs), QueuedReplies(|cs|))
    decreases |cs|
  {
    if cs == [] {
      assert m.queue + cs == m.queue;
    } else {
      var es := Requests(cs);
      assert es[1..] == Requests(cs[1..]);
      RequestsWhileRefreshing(m.(queue := m.queue + [cs[0]]), cs[1..]);
      assert m.queue + [cs[0]] + cs[1..] == m.queue + cs;
    }
  }

  lemma {:induction false} QueuedRepliesCallNothing(n: nat)
    ensures Calls(QueuedReplies(n)) == 0
  {
    if n > 0 {
      assert ([Queued] + QueuedReplies(n - 1))[1..] == QueuedReplies(n - 1);
      QueuedRepliesCallNothing(n - 1);
    }
  }

  lemma {:induction false} CallsAppend(a: seq<Reply>, b: seq<Reply>)
    ensures Calls(a + b) == Calls(a) + Calls(b)
  {
    if a == [] {
      assert a + b == b;
    } else {
      assert (a + b)[1..] == a[1..] + b;
      CallsAppend(a[1..], b);
    }
  }

  /**
   * N callers that ask for a refresh while none is in flight cause exactly one
   * generator call; when it completes, the first caller and all N-1 others,
   * in the order they asked, receive one and the same outcome, and the
   * machine is idle again with an empty queue.
   */
  lemma ConcurrentRefreshesShareOneCall(m: Machine, cs: seq<nat>, done: Event)
    requires Inv(m) && !m.refreshing && |cs| > 0 && IsCompletion(done)
    ensures var (m', rs) := Run(m, Requests(cs) + [done]);
      && Calls(rs) == 1
      && !m'.refreshing && m'.queue == []
      && |rs| == |cs| + 1 && rs[|cs|].Settled?
      && |rs[|cs|].waiters| == |cs| - 1
      && forall k :: 0 <= k < |cs| - 1 ==> rs[|cs|].waiters[k] == (cs[k + 1], rs[|cs|].own)
  {
    var es := Requests(cs);
    var m1 := m.(refreshing := true);
    assert es == [Requested(cs[0])] + Requests(cs[1..]);
    RunAppend(m, [Requested(cs[0])], Requests(cs[1..]));
    assert Run(m1, []) == (m1, []);
    assert Run(m, [Requested(cs[0])]) == (m1, [CallGenerator] + []);
    assert [CallGenerator] + [] == [CallGenerator];
    RequestsWhileRefreshing(m1, cs[1..]);
    var m2 := m1.(queue := m1.queue + cs[1..]);
    assert m2.queue == cs[1..];
    assert Run(m, es) == (m2, [CallGenerator] + QueuedReplies(|cs| - 1));
    RunAppend(m, es, [done]);
    var (m3, r) := Step(m2, done);
    assert Run(m3, []) == (m3, []);
    assert Run(m2, [done]) == (m3, [r] + []);
    assert [r] + [] == [r];
    CallsAppend([CallGenerator] + QueuedReplies(|cs| - 1), [r]);
    CallsAppend([CallGenerator], QueuedReplies(|cs| - 1));
    QueuedRepliesCallNothing(|cs| - 1);
    assert Calls([r]) == 0;
    assert Calls([CallGenerator]) == 1;
  }

  // ---------------------------------------------------------------------------
  // The refresh state, in place

  class RefreshCoordinator {
    var isRefreshing: bool
    var pendingQueue: seq<nat>
    const store: TokenStore

    ghost function State(): Machine
      reads this, store
    {
      Machine(isRefreshing, pendingQueue, store.accessToken)
    }

    ghost predicate Valid()
      reads this, store
    {
      Inv(State())
    }

    constructor (store: TokenStore)
      requires store.Valid()
      ensures this.store == store && !isRefreshing && pendingQueue == []
      ensures Valid()
    {
      this.store := store;
      isRefreshing := false;
      pendingQueue := [];
    }

    /** A caller enters `refreshAccessToken`. */
    method Request(caller: nat) returns (r: Reply)
      requires Valid()
      modifies this
      ensures Valid()
      ensures (State(), r) == Step(old(State()), Requested(caller))
    {
      if isRefreshing {
        pendingQueue := pendingQueue + [caller];
        r := Queued;
      } else {
        isRefreshing := true;
        r := CallGenerator;
      }
    }

    /** Settles every pending waiter with one outcome, in queue order (`pendingQueue.forEach`). */
    method SettleQueue(o: Outcome) returns (settled: seq<(nat, Outcome)>)
      ensures settled == SettleAll(pendingQueue, o)
    {
      settled := [];
      var i := 0;
      while i < |pendingQueue|
        invariant 0 <= i <= |pendingQueue|
        invariant |settled| == i
        invariant forall k :: 0 <= k < i ==> settled[k] == (pendingQueue[k], o)
      {
        settled := settled + [(pendingQueue[i], o)];
        i := i + 1;
      }
    }

    /** The generator resolved with `grant`. */
    method GeneratorSucceeded(grant: Option<Auth.Grant>) returns (r: Reply)
      requires Valid()
      modifies this, store
      ensures Valid()
      ensures (State(), r) == Step(old(State()), Succeeded(grant))
    {
      var newToken := NewToken(grant);
      store.SetAccessToken(newToken);
      var settled := SettleQueue(Resolved(newToken));
      pendingQueue := [];
      isRefreshing := false;
      r := Settled(Resolved(newToken), settled);
    }

    /** The generator threw `err`. */
    method GeneratorFailed(err: string) returns (r: Reply)
      requires Valid()
      modifies this, store
      ensures Valid()
      ensures (State(), r) == Step(old(State()), Failed(err))
    {
      store.SetAccessToken(None);
      var settled := SettleQueue(Rejected(err));
      pendingQueue := [];
      isRefreshing := false;
      r := Settled(Rejected(err), settled);
    }
  }

  // ---------------------------------------------------------------------------
  // The response interceptor

  datatype Resolution = Resend | RejectOriginal

  /**
   * The decision on one error response: whether the request is sent again,
   * and its `_retry` mark afterwards. `refresh` is the outcome the refresh
   * gives this caller, consulted only when a refresh is started.
   */
  function OnError(retried: bool, status: Option<int>, refresh: Outcome): (r: (bool, bool))
    ensures r.0 ==> status == Some(Unauthorized) && !retried
    ensures r.0 ==> refresh.Resolved? && refresh.token.Some? && refresh.token.value != ""
    ensures r.1 <==> retried || status == Some(Unauthorized)
  {
    if status == Some(Unauthorized) && !retried then
      (refresh.Resolved? && refresh.token.Some? && refresh.token.value != "", true)
    else (false, retried)
  }

  /** The first half of the interceptor: a 401 on an unmarked request is marked and starts a refresh. */
  method BeginRetry(original: RequestConfig, status: Option<int>) returns (refresh: bool)
    modifies original
    ensures refresh <==> status == Some(Unauthorized) && !old(original.retried)
    ensures original.retried == (old(original.retried) || refresh)
    ensures original.headers == old(original.headers)
  {
    refresh := false;
    if status == Some(Unauthorized) && !original.retried {
      original.retried := true;
      refresh := true;
    }
  }

  /** The second half: a non-empty new token is set on the request, which is resent; otherwise the original error is rejected. */
  method FinishRetry(original: RequestConfig, o: Outcome) returns (d: Resolution)
    modifies original
    ensures d == Resend <==> o.Resolved? && o.token.Some? && o.token.value != ""
    ensures d == Resend ==> original.headers == Some(WithAuthorization(old(original.headers), o.token.value))
    ensures d == RejectOriginal ==> original.headers == old(original.headers)
    ensures original.retried == old(original.retried)
  {
    if o.Resolved? && o.token.Some? && o.token.value != "" {
      original.headers := Some(WithAuthorization(original.headers, o.token.value));
      d := Resend;
    } else {
      d := RejectOriginal;
    }
  }

  /** The whole interceptor for one error response, following `OnError`. */
  method HandleResponseError(original: RequestConfig, status: Option<int>, refresh: Outcome) returns (d: Resolution)
    modifies original
    ensures (d == Resend, original.retried) == OnError(old(original.retried), status, refresh)
    ensures d == Resend ==>
      && refresh.Resolved? && refresh.token.Some?
      && original.headers == Some(WithAuthorization(old(original.headers), refresh.token.value))
    ensures d == RejectOriginal ==> original.headers == old(original.headers)
  {
    var start := BeginRetry(original, status);
    d := RejectOriginal;
    if start {
      d := FinishRetry(original, refresh);
    }
  }

  /** How many times one request is resent over a sequence of error responses to it. */
  function Resends(retried: bool, errors: seq<(Option<int>, Outcome)>): nat
    decreases |errors|
  {
    if errors == [] then 0
    else
      var (resend, marked) := OnError(retried, errors[0].0, errors[0].1);
      (if resend then 1 else 0) + Resends(marked, errors[1..])
  }

  lemma {:induction false} MarkedNeverResent(errors: seq<(Option<int>, Outcome)>)
    ensures Resends(true, errors) == 0
  {
    if errors != [] {
      MarkedNeverResent(errors[1..]);
    }
  }

  /**
   * A request is resent at most once, however many error responses it gets;
   * an error that is not a 401 is never resent and leaves the mark unchanged.
   */
  lemma RetriedAtMostOnce(errors: seq<(Option<int>, Outcome)>)
    ensures Resends(false, errors) <= 1
    ensures forall retried, status, o :: status != Some(Unauthorized) ==> OnError(retried, status, o) == (false, retried)
  {
    if errors != [] {
      var (resend, marked) := OnError(false, errors[0].0, errors[0].1);
      if marked {
        MarkedNeverResent(errors[1..]);
      } else {
        RetriedAtMostOnce(errors[1..]);
      }
    }
  }
}
