/**
 * The single-flight token refresh of frontend/src/api/client.ts. Handlers run to their next await without
 * interruption, so each is one step; replies, the end of a refresh and the continuations of parked requests come
 * in any order.
 */
module TokenRefresh {
  datatype Phase =
    | InFlight     // sent, no reply yet
    | Parked       // waiting in failedQueue
    | Woken        // its promise was resolved, its continuation has not run yet
    | Refreshing   // its handler awaits the refresh call
    | Done(ok: bool)

  datatype Request = Request(phase: Phase, retry: bool)

  datatype Status = Fine | Unauthorized | OtherError

  /** The promise that request `id` parked during refresh number `round`. */
  datatype Ticket = Ticket(id: nat, round: nat)

  datatype Settlement = Settlement(ticket: Ticket, resolved: bool)

  /** `rounds` counts the refresh calls; `outcomes`, `parked` and `settled` record the history. */
  datatype State = State(
    requests: seq<Request>,
    isRefreshing: bool,
    failedQueue: seq<nat>,
    rounds: nat,
    outcomes: seq<bool>,
    parked: seq<Ticket>,
    settled: seq<Settlement>)
  {
    predicate Is(id: nat, phase: Phase) {
      id < |requests| && requests[id].phase == phase
    }

    function Move(id: nat, phase: Phase): State
      requires id < |requests|
    {
      this.(requests := requests[id := requests[id].(phase := phase)])
    }
  }

  datatype Event =
    | Send
    | Reply(id: nat, status: Status, hasRefreshToken: bool)
    | RefreshEnds(id: nat, succeeded: bool)
    | Continue(id: nat)

  const INIT := State([], false, [], 0, [], [], [])

  /** Every request of the queue enters `phase`. */
  function MoveAll(requests: seq<Request>, queue: seq<nat>, phase: Phase): seq<Request> {
    seq(|requests|, i requires 0 <= i < |requests| =>
      if i in queue then requests[i].(phase := phase) else requests[i])
  }

  function Settlements(queue: seq<nat>, round: nat, resolved: bool): seq<Settlement> {
    seq(|queue|, i requires 0 <= i < |queue| => Settlement(Ticket(queue[i], round), resolved))
  }

  /** processQueue: every parked promise is resolved or rejected, and the queue is emptied. */
  function ProcessQueue(s: State, resolved: bool): State {
    s.(requests := MoveAll(s.requests, s.failedQueue, if resolved then Woken else Done(false)),
       settled := s.settled + Settlements(s.failedQueue, s.rounds, resolved),
       failedQueue := [])
  }

  predicate Enabled(s: State, e: Event) {
    match e
    case Send => true
    case Reply(id, _, _) => s.Is(id, InFlight)
    case RefreshEnds(id, _) => s.Is(id, Refreshing)
    case Continue(id) => s.Is(id, Woken)
  }

  function OnReply(s: State, id: nat, status: Status, hasRefreshToken: bool): State
    requires id < |s.requests|
  {
    if status == Unauthorized && !s.requests[id].retry then
      if s.isRefreshing then
        s.Move(id, Parked).(failedQueue := s.failedQueue + [id], parked := s.parked + [Ticket(id, s.rounds)])
      else
        var marked := s.(requests := s.requests[id := s.requests[id].(retry := true)]);
        if hasRefreshToken then marked.Move(id, Refreshing).(isRefreshing := true, rounds := s.rounds + 1)
        else ProcessQueue(marked, false).Move(id, Done(false))
    else s.Move(id, Done(status == Fine))
  }

  function OnRefreshEnd(s: State, id: nat, succeeded: bool): State
    requires id < |s.requests|
  {
    ProcessQueue(s, succeeded).Move(id, if succeeded then InFlight else Done(false))
      .(isRefreshing := false, outcomes := s.outcomes + [succeeded])
  }

  function Step(s: State, e: Event): State {
    if !Enabled(s, e) then s
    else
      match e
      case Send => s.(requests := s.requests + [Request(InFlight, false)])
      case Reply(id, status, hasRefreshToken) => OnReply(s, id, status, hasRefreshToken)
      case RefreshEnds(id, succeeded) => OnRefreshEnd(s, id, succeeded)
      case Continue(id) => s.Move(id, InFlight)
  }

  function Exec(s: State, es: seq<Event>): State
    decreases |es|
  {
    if es == [] then s else Exec(Step(s, es[0]), es[1..])
  }

  // ---- Safety --------------------------------------------------------------------------------------------------

  function Tickets(queue: seq<nat>, round: nat): seq<Ticket> {
    seq(|queue|, i requires 0 <= i < |queue| => Ticket(queue[i], round))
  }

  function TicketsOf(settled: seq<Settlement>): seq<Ticket> {
    seq(|settled|, i requires 0 <= i < |settled| => settled[i].ticket)
  }

  ghost predicate SingleFlight(s: State) {
    && (forall i, j | 0 <= i < j < |s.requests| ::
          !(s.requests[i].phase == Refreshing && s.requests[j].phase == Refreshing))
    && (s.isRefreshing <==> exists i | 0 <= i < |s.requests| :: s.requests[i].phase == Refreshing)
    && (s.failedQueue != [] ==> s.isRefreshing)
    && (forall i | 0 <= i < |s.requests| :: s.requests[i].phase == Refreshing ==> s.requests[i].retry)
  }

  ghost predicate QueueIsParked(s: State) {
    && (forall i | 0 <= i < |s.failedQueue| :: s.failedQueue[i] < |s.requests|)
    && (forall i, j | 0 <= i < j < |s.failedQueue| :: s.failedQueue[i] != s.failedQueue[j])
    && (forall i: nat | i < |s.requests| :: s.requests[i].phase == Parked <==> i in s.failedQueue)
  }

  /** Tickets are settled in the order in which they were taken; what is not settled yet is the queue. */
  ghost predicate Ledger(s: State) {
    && s.parked == TicketsOf(s.settled) + Tickets(s.failedQueue, s.rounds)
    && s.rounds == |s.outcomes| + (if s.isRefreshing then 1 else 0)
    && (forall i, j | 0 <= i < j < |s.parked| :: s.parked[i] != s.parked[j])
    && (forall i | 0 <= i < |s.settled| ::
          var Settlement(ticket, resolved) := s.settled[i];
          0 < ticket.round <= |s.outcomes| && resolved == s.outcomes[ticket.round - 1])
  }

  ghost predicate Inv(s: State) {
    SingleFlight(s) && QueueIsParked(s) && Ledger(s)
  }

  /** A 401 while a refresh is in flight: the request parks. */
  lemma ParkKeepsInv(s: State, id: nat, status: Status, hasRefreshToken: bool)
    requires Inv(s) && s.Is(id, InFlight) && status == Unauthorized && !s.requests[id].retry && s.isRefreshing
    ensures Inv(OnReply(s, id, status, hasRefreshToken))
  {
    var s' := OnReply(s, id, status, hasRefreshToken);
    assert Tickets(s'.failedQueue, s.rounds) == Tickets(s.failedQueue, s.rounds) + [Ticket(id, s.rounds)];
    assert s'.parked == TicketsOf(s'.settled) + Tickets(s'.failedQueue, s'.rounds);
    var leader :| 0 <= leader < |s.requests| && s.requests[leader].phase == Refreshing;
    assert s'.requests[leader].phase == Refreshing;
    assert id !in s.failedQueue;
  }

  /** The first 401: the request leads a refresh, or ends for want of a token. */
  lemma LeadKeepsInv(s: State, id: nat, status: Status, hasRefreshToken: bool)
    requires Inv(s) && s.Is(id, InFlight) && status == Unauthorized && !s.requests[id].retry && !s.isRefreshing
    ensures Inv(OnReply(s, id, status, hasRefreshToken))
  {
    var s' := OnReply(s, id, status, hasRefreshToken);
    if hasRefreshToken {
      assert s'.requests[id].phase == Refreshing;
      assert Tickets(s'.failedQueue, s'.rounds) == Tickets(s.failedQueue, s.rounds);
    } else {
      assert s'.settled == s.settled && Tickets(s'.failedQueue, s'.rounds) == [];
    }
  }

  /** Any other reply ends the request. */
  lemma EndKeepsInv(s: State, id: nat, status: Status, hasRefreshToken: bool)
    requires Inv(s) && s.Is(id, InFlight) && (status != Unauthorized || s.requests[id].retry)
    ensures Inv(OnReply(s, id, status, hasRefreshToken))
  {
    var s' := OnReply(s, id, status, hasRefreshToken);
    if s.isRefreshing {
      var leader :| 0 <= leader < |s.requests| && s.requests[leader].phase == Refreshing;
      assert s'.requests[leader].phase == Refreshing;
    }
  }

  lemma ReplyKeepsInv(s: State, id: nat, status: Status, hasRefreshToken: bool)
    requires Inv(s) && s.Is(id, InFlight)
    ensures Inv(OnReply(s, id, status, hasRefreshToken))
  {
    if status != Unauthorized || s.requests[id].retry {
      EndKeepsInv(s, id, status, hasRefreshToken);
    } else if s.isRefreshing {
      ParkKeepsInv(s, id, status, hasRefreshToken);
    } else {
      LeadKeepsInv(s, id, status, hasRefreshToken);
    }
  }

  lemma RefreshEndKeepsInv(s: State, id: nat, succeeded: bool)
    requires Inv(s) && s.Is(id, Refreshing)
    ensures Inv(OnRefreshEnd(s, id, succeeded))
  {
    var s' := OnRefreshEnd(s, id, succeeded);
    assert id !in s.failedQueue;
    assert TicketsOf(s'.settled) == TicketsOf(s.settled) + Tickets(s.failedQueue, s.rounds);
    assert Tickets(s'.failedQueue, s'.rounds) == [];
    assert s'.parked == TicketsOf(s'.settled) + Tickets(s'.failedQueue, s'.rounds);
    assert forall i | 0 <= i < |s'.requests| :: s'.requests[i].phase != Refreshing && s'.requests[i].phase != Parked;
  }

  lemma SendKeepsInv(s: State)
    requires Inv(s)
    ensures Inv(Step(s, Send))
  {
    var s' := Step(s, Send);
    assert forall i | 0 <= i < |s.requests| :: s'.requests[i] == s.requests[i];
  }

  lemma ContinueKeepsInv(s: State, id: nat)
    requires Inv(s) && s.Is(id, Woken)
    ensures Inv(Step(s, Continue(id)))
  {
    var s' := Step(s, Continue(id));
    assert forall i | 0 <= i < |s.requests| && i != id :: s'.requests[i] == s.requests[i];
  }

  lemma StepKeepsInv(s: State, e: Event)
    requires Inv(s)
    ensures Inv(Step(s, e))
  {
    if Enabled(s, e) {
      match e
      case Send => SendKeepsInv(s);
      case Reply(id, status, hasRefreshToken) => ReplyKeepsInv(s, id, status, hasRefreshToken);
      case RefreshEnds(id, succeeded) => RefreshEndKeepsInv(s, id, succeeded);
      case Continue(id) => ContinueKeepsInv(s, id);
    }
  }

  lemma {:induction false} ExecKeepsInv(s: State, es: seq<Event>)
    requires Inv(s)
    ensures Inv(Exec(s, es))
    decreases |es|
  {
    if es != [] {
      StepKeepsInv(s, es[0]);
      ExecKeepsInv(Step(s, es[0]), es[1..]);
    }
  }

  lemma InitiallyInv()
    ensures Inv(INIT)
  {
    assert TicketsOf(INIT.settled) + Tickets(INIT.failedQueue, INIT.rounds) == [];
  }

  lemma ReachableInv(es: seq<Event>)
    ensures Inv(Exec(INIT, es))
  {
    InitiallyInv();
    ExecKeepsInv(INIT, es);
  }

  /** In every reachable state at most one refresh is in flight, and requests wait only for a refresh that is. */
  lemma RefreshIsSingleFlight(es: seq<Event>)
    ensures SingleFlight(Exec(INIT, es)) && QueueIsParked(Exec(INIT, es))
  {
    ReachableInv(es);
  }

  ghost predicate SettledExactlyOnce(s: State) {
    && (forall i, j | 0 <= i < j < |s.parked| :: s.parked[i] != s.parked[j])
    && TicketsOf(s.settled) <= s.parked
    && (!s.isRefreshing ==> TicketsOf(s.settled) == s.parked)
    && (forall i | 0 <= i < |s.settled| ::
          && 0 < s.settled[i].ticket.round <= |s.outcomes|
          && s.settled[i].resolved == s.outcomes[s.settled[i].ticket.round - 1])
  }

  lemma LedgerSettlesOnce(s: State)
    requires Inv(s)
    ensures SettledExactlyOnce(s)
  {
    if !s.isRefreshing {
      assert Tickets(s.failedQueue, s.rounds) == [];
    }
  }

  /**
   * Exactly-once settlement. No ticket is taken twice; the settled ones are, in order, an initial part of those
   * taken, each settled by the outcome of the very refresh it waited on; and when no refresh is in flight
   * nothing is left unsettled.
   */
  lemma EachParkedRequestIsSettledOnce(es: seq<Event>)
    ensures SettledExactlyOnce(Exec(INIT, es))
  {
    ReachableInv(es);
    LedgerSettlesOnce(Exec(INIT, es));
  }

  // ---- Termination ---------------------------------------------------------------------------------------------

  /** Requests not yet marked _retry: only these can start a refresh. */
  ghost function Unmarked(requests: seq<Request>): nat {
    if requests == [] then 0 else (if requests[0].retry then 0 else 1) + Unmarked(requests[1..])
  }

  function Weight(phase: Phase): nat {
    match phase
    case Woken => 3
    case InFlight => 2
    case Parked => 1
    case _ => 0
  }

  ghost function Work(requests: seq<Request>): nat {
    if requests == [] then 0 else Weight(requests[0].phase) + Work(requests[1..])
  }

  lemma {:induction false} WorkBound(requests: seq<Request>)
    ensures Work(requests) <= 3 * |requests| && Unmarked(requests) <= |requests|
    decreases |requests|
  {
    if requests != [] {
      WorkBound(requests[1..]);
    }
  }

  lemma {:induction false} OneMoved(requests: seq<Request>, i: nat, r: Request)
    requires i < |requests|
    ensures Work(requests[i := r]) == Work(requests) - Weight(requests[i].phase) + Weight(r.phase)
    ensures Unmarked(requests[i := r]) ==
            Unmarked(requests) - (if requests[i].retry then 0 else 1) + (if r.retry then 0 else 1)
    decreases i
  {
    if i == 0 {
      assert requests[i := r][1..] == requests[1..];
    } else {
      assert requests[i := r][1..] == requests[1..][i - 1 := r];
      OneMoved(requests[1..], i - 1, r);
    }
  }

  lemma {:induction false} SameMarks(a: seq<Request>, b: seq<Request>)
    requires |a| == |b| && forall i | 0 <= i < |a| :: a[i].retry == b[i].retry
    ensures Unmarked(a) == Unmarked(b)
    decreases |a|
  {
    if a != [] {
      SameMarks(a[1..], b[1..]);
    }
  }

  function Refreshes(s: State): nat {
    if s.isRefreshing then 1 else 0
  }

  /** Lexicographic in (unmarked requests, refresh in flight, outstanding work), for n requests, as one number. */
  ghost function Rank(n: nat, unmarked: nat, refreshes: nat, work: nat): nat {
    2 * (3 * n + 1) * unmarked + (3 * n + 1) * refreshes + work
  }

  ghost function Measure(s: State): nat {
    Rank(|s.requests|, Unmarked(s.requests), Refreshes(s), Work(s.requests))
  }

  lemma RankIsLexicographic(n: nat, u: nat, r: nat, w: nat, u': nat, r': nat, w': nat)
    requires r <= 1 && r' <= 1 && w' <= 3 * n
    requires u' < u || (u' == u && r' < r) || (u' == u && r' == r && w' < w)
    ensures Rank(n, u', r', w') < Rank(n, u, r, w)
  {
    var k := 3 * n + 1;
    if u' < u {
      NextMultiple(2 * k, u', u);
      assert r' == 0 || r' == 1;
    } else if r' < r {
      assert r == 1 && r' == 0;
    }
  }

  lemma NextMultiple(k: nat, a: nat, b: nat)
    requires a < b
    ensures k * a + k <= k * b
  {
    var rest := b - a - 1;
    assert b == a + 1 + rest && k * rest >= 0;
    assert k * b == k * a + k + k * rest;
  }

  lemma ReplyDecreases(s: State, id: nat, status: Status, hasRefreshToken: bool)
    requires Inv(s) && s.Is(id, InFlight)
    ensures var s' := OnReply(s, id, status, hasRefreshToken);
            var u, u' := Unmarked(s.requests), Unmarked(s'.requests);
            && |s'.requests| == |s.requests|
            && s'.rounds + u' <= s.rounds + u
            && (u' < u || (u' == u && Refreshes(s') == Refreshes(s) && Work(s'.requests) < Work(s.requests)))
  {
    var s' := OnReply(s, id, status, hasRefreshToken);
    assert s'.requests == s.requests[id := s'.requests[id]];
    OneMoved(s.requests, id, s'.requests[id]);
  }

  lemma EventDecreasesMeasure(s: State, e: Event)
    requires Inv(s) && Enabled(s, e) && !e.Send?
    ensures Measure(Step(s, e)) < Measure(s)
    ensures Step(s, e).rounds + Unmarked(Step(s, e).requests) <= s.rounds + Unmarked(s.requests)
  {
    var s' := Step(s, e);
    match e {
      case Reply(id, status, hasRefreshToken) => ReplyDecreases(s, id, status, hasRefreshToken);
      case RefreshEnds(id, succeeded) => SameMarks(s.requests, s'.requests);
      case Continue(id) => OneMoved(s.requests, id, s'.requests[id]);
    }
    WorkBound(s'.requests);
    RankIsLexicographic(|s.requests|, Unmarked(s.requests), Refreshes(s), Work(s.requests),
                        Unmarked(s'.requests), Refreshes(s'), Work(s'.requests));
  }

  ghost predicate Effective(s: State, es: seq<Event>)
    decreases |es|
  {
    es == [] || (!es[0].Send? && Enabled(s, es[0]) && Effective(Step(s, es[0]), es[1..]))
  }

  lemma {:induction false} EffectiveRunsAreShort(s: State, es: seq<Event>)
    requires Inv(s) && Effective(s, es)
    ensures |es| + Measure(Exec(s, es)) <= Measure(s)
    ensures Exec(s, es).rounds <= s.rounds + Unmarked(s.requests)
    decreases |es|
  {
    if es != [] {
      EventDecreasesMeasure(s, es[0]);
      StepKeepsInv(s, es[0]);
      EffectiveRunsAreShort(Step(s, es[0]), es[1..]);
    }
  }

  /**
   * From any reachable state with n requests and no new ones, whatever the server answers (401 for ever
   * included): at most n more refresh calls and at most 2n(3n+1) + 3n+1 + 3n more events.
   */
  lemma NoEndlessRefreshing(before: seq<Event>, after: seq<Event>)
    requires Effective(Exec(INIT, before), after)
    ensures var s := Exec(INIT, before);
            var n := |s.requests|;
            && Exec(s, after).rounds - s.rounds <= n
            && |after| <= 2 * (3 * n + 1) * n + (3 * n + 1) + 3 * n
  {
    var s := Exec(INIT, before);
    ReachableInv(before);
    EffectiveRunsAreShort(s, after);
    MeasureBound(s);
  }

  function EventBound(n: nat): nat {
    2 * (3 * n + 1) * n + (3 * n + 1) + 3 * n
  }

  lemma MeasureBound(s: State)
    ensures Measure(s) <= EventBound(|s.requests|) && Unmarked(s.requests) <= |s.requests|
  {
    var k := 3 * |s.requests| + 1;
    WorkBound(s.requests);
    assert 2 * k * Unmarked(s.requests) <= 2 * k * |s.requests|;
    assert k * Refreshes(s) <= k;
  }

  /** Nothing is stuck: as long as some request has not ended, some event other than a new request can happen. */
  lemma UnfinishedRequestsCanProceed(es: seq<Event>, id: nat)
    requires id < |Exec(INIT, es).requests| && !Exec(INIT, es).requests[id].phase.Done?
    ensures exists e: Event :: !e.Send? && Enabled(Exec(INIT, es), e)
  {
    ReachableInv(es);
    var e := NextEvent(Exec(INIT, es), id);
  }

  lemma NextEvent(s: State, id: nat) returns (e: Event)
    requires Inv(s) && id < |s.requests| && !s.requests[id].phase.Done?
    ensures !e.Send? && Enabled(s, e)
  {
    match s.requests[id].phase
    case InFlight => e := Reply(id, Fine, true);
    case Woken => e := Continue(id);
    case Refreshing => e := RefreshEnds(id, true);
    case Parked =>
      var leader :| 0 <= leader < |s.requests| && s.requests[leader].phase == Refreshing;
      e := RefreshEnds(leader, true);
  }

  /** A run that nothing but a new request can extend has brought every request to its end. */
  lemma QuietMeansDone(es: seq<Event>, id: nat)
    requires id < |Exec(INIT, es).requests|
    requires forall e: Event :: !e.Send? ==> !Enabled(Exec(INIT, es), e)
    ensures Exec(INIT, es).requests[id].phase.Done?
  {
    if !Exec(INIT, es).requests[id].phase.Done? {
      UnfinishedRequestsCanProceed(es, id);
    }
  }

  /** The first 401 of a new request, at any time: it starts a refresh, or waits for the one in flight. */
  lemma FirstUnauthorized(es: seq<Event>)
    ensures var s := Exec(INIT, es);
            var id := |s.requests|;
            var s' := Step(Step(s, Send), Reply(id, Unauthorized, true));
            && Step(s, Send).Is(id, InFlight) && Step(s, Send).requests[..id] == s.requests
            && s'.isRefreshing
            && s'.rounds == s.rounds + (if s.isRefreshing then 0 else 1)
            && s'.Is(id, if s.isRefreshing then Parked else Refreshing)
  {
  }

  // ---- How often a request is sent ------------------------------------------------------------------------------

  /** Whether the step puts request `id` on the wire. */
  predicate IsSend(s: State, e: Event, id: nat) {
    Step(s, e).Is(id, InFlight) && !s.Is(id, InFlight)
  }

  predicate IsOwnRefresh(s: State, e: Event, id: nat) {
    e.RefreshEnds? && e.succeeded && e.id == id && s.Is(id, Refreshing)
  }

  function One(condition: bool): nat {
    if condition then 1 else 0
  }

  ghost function Sends(s: State, es: seq<Event>, id: nat): nat
    decreases |es|
  {
    if es == [] then 0 else One(IsSend(s, es[0], id)) + Sends(Step(s, es[0]), es[1..], id)
  }

  ghost function OwnRefreshes(s: State, es: seq<Event>, id: nat): nat
    decreases |es|
  {
    if es == [] then 0 else One(IsOwnRefresh(s, es[0], id)) + OwnRefreshes(Step(s, es[0]), es[1..], id)
  }

  /** The waits of request `id` that ended well. */
  ghost function Resolved(settled: seq<Settlement>, id: nat): nat {
    if settled == [] then 0
    else
      Resolved(settled[..|settled| - 1], id)
      + One(settled[|settled| - 1].resolved && settled[|settled| - 1].ticket.id == id)
  }

  lemma {:induction false} ResolvedByQueue(
    settled: seq<Settlement>, queue: seq<nat>, round: nat, resolved: bool, id: nat)
    requires forall i, j | 0 <= i < j < |queue| :: queue[i] != queue[j]
    ensures Resolved(settled + Settlements(queue, round, resolved), id) ==
            Resolved(settled, id) + One(resolved && id in queue)
    decreases |queue|
  {
    if queue == [] {
      assert settled + Settlements(queue, round, resolved) == settled;
    } else {
      var init, last := queue[..|queue| - 1], queue[|queue| - 1];
      ResolvedByQueue(settled, init, round, resolved, id);
      var all := settled + Settlements(queue, round, resolved);
      assert all[..|all| - 1] == settled + Settlements(init, round, resolved);
      assert queue == init + [last];
    }
  }

  /** A request is sent at first, after a wait that a refresh resolved, or after its own refresh: no other way. */
  lemma SendCauses(s: State, e: Event, id: nat)
    requires Inv(s)
    ensures IsSend(s, e, id) <==>
            || (e == Send && id == |s.requests|)
            || (e == Continue(id) && s.Is(id, Woken))
            || IsOwnRefresh(s, e, id)
  {
    if Enabled(s, e) && e.RefreshEnds? {
      assert e.id !in s.failedQueue;
    }
  }

  /** One step: what it adds to the sends is what it adds to the reasons for sending. */
  ghost predicate Accounts(s: State, s': State, sends: nat, own: nat, id: nat) {
    sends + One(s'.Is(id, Woken)) + Resolved(s.settled, id) + One(id < |s.requests|) ==
    own + One(s.Is(id, Woken)) + Resolved(s'.settled, id) + One(id < |s'.requests|)
  }

  lemma ReplyAccounts(s: State, i: nat, status: Status, hasRefreshToken: bool, id: nat)
    requires Inv(s) && s.Is(i, InFlight)
    ensures Accounts(s, OnReply(s, i, status, hasRefreshToken), 0, 0, id)
  {
    assert !s.isRefreshing ==> s.failedQueue == [];
    assert s.settled + Settlements([], s.rounds, false) == s.settled;
  }

  lemma RefreshEndAccounts(s: State, leader: nat, succeeded: bool, id: nat)
    requires Inv(s) && s.Is(leader, Refreshing)
    ensures var sent := One(succeeded && id == leader);
            Accounts(s, OnRefreshEnd(s, leader, succeeded), sent, sent, id)
  {
    ResolvedByQueue(s.settled, s.failedQueue, s.rounds, succeeded, id);
    assert leader !in s.failedQueue;
    assert id < |s.requests| ==> (s.requests[id].phase == Parked <==> id in s.failedQueue);
  }

  lemma StepAccounts(s: State, e: Event, id: nat)
    requires Inv(s)
    ensures Accounts(s, Step(s, e), One(IsSend(s, e, id)), One(IsOwnRefresh(s, e, id)), id)
  {
    SendCauses(s, e, id);
    if Enabled(s, e) {
      match e
      case Send =>
      case Reply(i, status, hasRefreshToken) => ReplyAccounts(s, i, status, hasRefreshToken, id);
      case RefreshEnds(leader, succeeded) => RefreshEndAccounts(s, leader, succeeded, id);
      case Continue(_) =>
    }
  }

  lemma {:induction false} RunAccounts(s: State, es: seq<Event>, id: nat)
    requires Inv(s)
    ensures Accounts(s, Exec(s, es), Sends(s, es, id), OwnRefreshes(s, es, id), id)
    decreases |es|
  {
    if es != [] {
      StepAccounts(s, es[0], id);
      StepKeepsInv(s, es[0]);
      RunAccounts(Step(s, es[0]), es[1..], id);
    }
  }

  /**
   * No request is lost or replayed without reason: it has been sent once to begin with, once more for each of its
   * waits that a refresh resolved, of which at most the last is still to come, and once for each refresh of its own.
   */
  lemma SendsAreAccountedFor(es: seq<Event>, id: nat)
    requires id < |Exec(INIT, es).requests|
    ensures var s := Exec(INIT, es);
            Sends(INIT, es, id) + One(s.Is(id, Woken)) ==
            1 + Resolved(s.settled, id) + OwnRefreshes(INIT, es, id)
  {
    InitiallyInv();
    RunAccounts(INIT, es, id);
  }

  // ---- The module variables and handlers -----------------------------------------------------------------------

  class ApiClient {
    var requests: seq<Request>
    var isRefreshing: bool
    var failedQueue: seq<nat>
    ghost var rounds: nat
    ghost var outcomes: seq<bool>
    ghost var parked: seq<Ticket>
    ghost var settled: seq<Settlement>

    ghost function View(): State
      reads this
    {
      State(requests, isRefreshing, failedQueue, rounds, outcomes, parked, settled)
    }

    constructor ()
      ensures View() == INIT
    {
      requests, isRefreshing, failedQueue := [], false, [];
      rounds, outcomes, parked, settled := 0, [], [], [];
    }

    method ProcessQueueNow(error: bool)
      requires forall i | 0 <= i < |failedQueue| :: failedQueue[i] < |requests|
      modifies this`requests, this`failedQueue, this`settled
      ensures View() == ProcessQueue(old(View()), !error)
      ensures failedQueue == [] && |requests| == |old(requests)|
      ensures forall i | 0 <= i < |requests| ::
                requests[i] == if i !in old(failedQueue) then old(requests)[i]
                               else Request(if error then Done(false) else Woken, old(requests)[i].retry)
    {
      var k := 0;
      while k < |failedQueue|
        invariant k <= |failedQueue| && failedQueue == old(failedQueue)
        invariant requests == MoveAll(old(requests), failedQueue[..k], if error then Done(false) else Woken)
        invariant settled == old(settled) + Settlements(failedQueue[..k], rounds, !error)
      {
        var prom := failedQueue[k];
        assert failedQueue[..k + 1] == failedQueue[..k] + [prom];
        requests := requests[prom := requests[prom].(phase := if error then Done(false) else Woken)];
        settled := settled + [Settlement(Ticket(prom, rounds), !error)];
        k := k + 1;
      }
      assert failedQueue[..k] == failedQueue;
      failedQueue := [];
    }

    method OnResponse(id: nat, status: Status, hasRefreshToken: bool)
      requires Inv(View()) && View().Is(id, InFlight)
      modifies this
      ensures View() == OnReply(old(View()), id, status, hasRefreshToken)
      ensures Inv(View())
      ensures requests == old(requests)[id := requests[id]]
      ensures status != Unauthorized || old(requests)[id].retry ==>
                && requests[id] == old(requests)[id].(phase := Done(status == Fine))
                && isRefreshing == old(isRefreshing) && failedQueue == old(failedQueue)
      ensures status == Unauthorized && !old(requests)[id].retry && old(isRefreshing) ==>
                requests[id] == Request(Parked, false) && isRefreshing && failedQueue == old(failedQueue) + [id]
      ensures status == Unauthorized && !old(requests)[id].retry && !old(isRefreshing) ==>
                && requests[id] == Request(if hasRefreshToken then Refreshing else Done(false), true)
                && isRefreshing == hasRefreshToken && failedQueue == []
    {
      ReplyKeepsInv(View(), id, status, hasRefreshToken);
      if status == Unauthorized && !requests[id].retry {
        if isRefreshing {
          failedQueue := failedQueue + [id];
          parked := parked + [Ticket(id, rounds)];
          requests := requests[id := requests[id].(phase := Parked)];
          return;
        }
        requests := requests[id := requests[id].(retry := true)];
        isRefreshing := true;
        if !hasRefreshToken {
          ProcessQueueNow(true);
          isRefreshing := false;
          requests := requests[id := requests[id].(phase := Done(false))];
          return;
        }
        requests := requests[id := requests[id].(phase := Refreshing)];
        rounds := rounds + 1;
        return;
      }
      requests := requests[id := requests[id].(phase := Done(status == Fine))];
    }

    method OnRefreshEnded(id: nat, succeeded: bool)
      requires Inv(View()) && View().Is(id, Refreshing)
      modifies this
      ensures View() == OnRefreshEnd(old(View()), id, succeeded)
      ensures Inv(View()) && !isRefreshing && failedQueue == []
      ensures |requests| == |old(requests)| && outcomes == old(outcomes) + [succeeded]
      ensures requests[id].phase == if succeeded then InFlight else Done(false)
      ensures forall i | 0 <= i < |requests| && old(requests)[i].phase == Parked ::
                requests[i].phase == if succeeded then Woken else Done(false)
      ensures forall i | 0 <= i < |requests| :: requests[i].retry == old(requests)[i].retry
      ensures forall i | 0 <= i < |requests| && i != id && old(requests)[i].phase != Parked ::
                requests[i] == old(requests)[i]
    {
      RefreshEndKeepsInv(View(), id, succeeded);
      ProcessQueueNow(!succeeded);
      requests := requests[id := requests[id].(phase := if succeeded then InFlight else Done(false))];
      isRefreshing := false;
      outcomes := outcomes + [succeeded];
    }

    method OnContinue(id: nat)
      requires Inv(View()) && View().Is(id, Woken)
      modifies this`requests
      ensures View() == Step(old(View()), Continue(id))
      ensures Inv(View())
      ensures requests == old(requests)[id := Request(InFlight, old(requests)[id].retry)]
    {
      ContinueKeepsInv(View(), id);
      requests := requests[id := requests[id].(phase := InFlight)];
    }
  }
}
