/** Call signalling (server/ws/signaling.py): the two maps of `CallManager`
    under handlers that interleave at every await. A handler is cut where it
    awaits a send; what is left of it waits in a list of tasks and may be
    resumed at any later moment, told whether the send went through. */
module Calls {
  import opened Text

  type User = string
  type CallId = string

  datatype Status = Ringing | Active
  datatype Call = Call(caller: User, callee: User, status: Status) {
    predicate Has(u: User) { u == caller || u == callee }
  }

  datatype State = State(calls: map<CallId, Call>, userCalls: map<User, CallId>)

  datatype Reply = BadRequest | Unreachable | Busy | Registered

  // ---- The state changes between two awaits ----

  function Register(s: State, user: User, target: User, id: CallId): State {
    State(s.calls[id := Call(user, target, Ringing)], s.userCalls[user := id][target := id])
  }

  /** `_handle_call_request` up to its first send; `reachable` is that the target is online and nobody blocked. */
  function RequestStart(s: State, user: User, target: User, id: CallId, reachable: bool): (State, Reply) {
    if target == "" || id == "" then (s, BadRequest)
    else if !reachable then (s, Unreachable)
    else if target in s.userCalls then (s, Busy)
    else (Register(s, user, target, id), Registered)
  }

  predicate MayAccept(s: State, user: User, id: CallId) {
    id in s.calls && s.calls[id].callee == user && s.calls[id].status == Ringing
  }

  /** `_handle_call_accept`, and the auto-accept of `_handle_call_join`, up to the first send. */
  function AcceptStart(s: State, user: User, id: CallId): State {
    if MayAccept(s, user, id) then s.(calls := s.calls[id := s.calls[id].(status := Active)]) else s
  }

  predicate MayClose(s: State, user: User, id: CallId) {
    id in s.calls && s.calls[id].Has(user)
  }

  predicate MayTimeOut(s: State, user: User, id: CallId) {
    id in s.calls && s.calls[id].caller == user && s.calls[id].status == Ringing
  }

  /** `_cleanup_call`. */
  function Cleanup(s: State, id: CallId): State {
    if id in s.calls then State(s.calls - {id}, s.userCalls - {s.calls[id].caller, s.calls[id].callee})
    else s
  }

  /** `_get_call_partner`. */
  function Partner(s: State, user: User): Option<User> {
    if user in s.userCalls && s.userCalls[user] in s.calls then
      var call := s.calls[s.userCalls[user]];
      Some(if user == call.caller then call.callee else call.caller)
    else None
  }

  // ---- The manager ----

  class CallManager {
    var activeCalls: map<CallId, Call>
    var userCalls: map<User, CallId>

    ghost function View(): State
      reads this
    {
      State(activeCalls, userCalls)
    }

    constructor ()
      ensures View() == State(map[], map[])
    {
      activeCalls, userCalls := map[], map[];
    }

    method HandleCallRequest(user: User, target: User, id: CallId, reachable: bool) returns (r: Reply)
      modifies this
      ensures (View(), r) == RequestStart(old(View()), user, target, id, reachable)
    {
      if target == "" || id == "" { return BadRequest; }
      if !reachable { return Unreachable; }
      if target in userCalls { return Busy; }
      activeCalls := activeCalls[id := Call(user, target, Ringing)];
      userCalls := userCalls[user := id];
      userCalls := userCalls[target := id];
      return Registered;
    }

    method HandleCallAccept(user: User, id: CallId) returns (accepted: bool)
      modifies this
      ensures View() == AcceptStart(old(View()), user, id)
      ensures accepted == MayAccept(old(View()), user, id)
    {
      if id !in activeCalls || activeCalls[id].callee != user { return false; }
      if activeCalls[id].status != Ringing { return false; }
      activeCalls := activeCalls[id := activeCalls[id].(status := Active)];
      return true;
    }

    method CleanupCall(id: CallId)
      modifies this
      ensures View() == Cleanup(old(View()), id)
    {
      if id in activeCalls {
        var call := activeCalls[id];
        if call.caller in userCalls { userCalls := userCalls - {call.caller}; }
        if call.callee in userCalls { userCalls := userCalls - {call.callee}; }
        activeCalls := activeCalls - {id};
      }
    }

    method GetCallPartner(user: User) returns (r: Option<User>)
      ensures r == Partner(View(), user)
    {
      if user !in userCalls { return None; }
      var id := userCalls[user];
      if id !in activeCalls { return None; }
      var call := activeCalls[id];
      if user == call.caller { return Some(call.callee); } else { return Some(call.caller); }
    }
  }

  // ---- Interleaved handlers ----

  /** What is left of a handler after a send: a request cleans up if the send
      failed, an acceptance then ends the call, the others clean up. */
  datatype Task = Requesting(id: CallId) | Accepting(user: User, id: CallId) | Closing(id: CallId)

  /** `EndByRest` is the end-call endpoint, which asks for no part in the call. */
  datatype Event =
    | Request(user: User, target: User, id: CallId, reachable: bool)
    | Accept(user: User, id: CallId)
    | Join(user: User, id: CallId)
    | Reject(user: User, id: CallId)
    | End(user: User, id: CallId)
    | Timeout(user: User, id: CallId)
    | Disconnect(user: User)
    | EndByRest(id: CallId)
    | Resume(task: nat, delivered: bool)

  /** The manager, its suspended handlers, and what has happened: every call
      registered, and every acceptance with the user who made it. */
  datatype Machine = Machine(s: State, tasks: seq<Task>, registry: map<CallId, Call>, accepted: seq<(CallId, User)>)

  const IDLE := Machine(State(map[], map[]), [], map[], [])

  function StartAccept(m: Machine, user: User, id: CallId): Machine {
    if MayAccept(m.s, user, id)
    then m.(s := AcceptStart(m.s, user, id), tasks := m.tasks + [Accepting(user, id)],
            accepted := m.accepted + [(id, user)])
    else m
  }

  function StartClosing(m: Machine, allowed: bool, id: CallId): Machine {
    if allowed then m.(tasks := m.tasks + [Closing(id)]) else m
  }

  function Next(m: Machine, e: Event): Machine {
    match e
    case Request(user, target, id, reachable) =>
      var (s, r) := RequestStart(m.s, user, target, id, reachable);
      if r == Registered
      then m.(s := s, tasks := m.tasks + [Requesting(id)], registry := m.registry[id := Call(user, target, Ringing)])
      else m
    case Accept(user, id) => StartAccept(m, user, id)
    case Join(user, id) => StartAccept(m, user, id)
    case Reject(user, id) => StartClosing(m, MayClose(m.s, user, id), id)
    case End(user, id) => StartClosing(m, MayClose(m.s, user, id), id)
    case Timeout(user, id) => StartClosing(m, MayTimeOut(m.s, user, id), id)
    case EndByRest(id) => StartClosing(m, true, id)
    case Disconnect(user) =>
      if user in m.s.userCalls
      then StartClosing(m, MayClose(m.s, user, m.s.userCalls[user]), m.s.userCalls[user])
      else m
    case Resume(i, delivered) =>
      if i >= |m.tasks| then m
      else
        var rest := m.(tasks := m.tasks[..i] + m.tasks[i + 1..]);
        match m.tasks[i]
        case Requesting(id) => if delivered then rest else rest.(s := Cleanup(m.s, id))
        case Accepting(user, id) => if delivered then rest else StartClosing(rest, MayClose(m.s, user, id), id)
        case Closing(id) => rest.(s := Cleanup(m.s, id))
  }

  function Run(m: Machine, es: seq<Event>): Machine
    decreases |es|
  {
    if es == [] then m else Run(Next(m, es[0]), es[1..])
  }

  /** Clients never reuse a call id. */
  predicate FreshIds(m: Machine, es: seq<Event>)
    decreases |es|
  {
    es == [] || ((es[0].Request? ==> es[0].id !in m.registry) && FreshIds(Next(m, es[0]), es[1..]))
  }

  /** Nobody requests a call while in one. */
  predicate IdleCallers(m: Machine, es: seq<Event>)
    decreases |es|
  {
    es == [] || ((es[0].Request? ==> es[0].user !in m.s.userCalls) && IdleCallers(Next(m, es[0]), es[1..]))
  }

  // ---- What the maps say ----

  /** Every entry names a live call its user belongs to. */
  predicate Linked(s: State) {
    forall u | u in s.userCalls :: s.userCalls[u] in s.calls && s.calls[s.userCalls[u]].Has(u)
  }

  /** Both users of every live call are entered under it. */
  predicate Complete(s: State) {
    forall id | id in s.calls ::
      && s.calls[id].caller in s.userCalls && s.userCalls[s.calls[id].caller] == id
      && s.calls[id].callee in s.userCalls && s.userCalls[s.calls[id].callee] == id
  }

  /** Registering keeps every entry linked exactly when the id is not the call of someone else. */
  lemma RegisterLinkedExactly(s: State, user: User, target: User, id: CallId)
    requires Linked(s)
    ensures Linked(Register(s, user, target, id))
       <==> forall u | u in s.userCalls && s.userCalls[u] == id :: u == user || u == target
  {
    var s' := Register(s, user, target, id);
    if u :| u in s.userCalls && s.userCalls[u] == id && u != user && u != target {
      assert u in s'.userCalls && s'.userCalls[u] == id;
    }
  }

  /** An accepted request keeps the maps inverse to each other exactly when its caller is idle. */
  lemma RegisterCompleteExactly(s: State, user: User, target: User, id: CallId)
    requires Linked(s) && Complete(s) && target !in s.userCalls && id !in s.calls
    ensures Linked(Register(s, user, target, id))
    ensures Complete(Register(s, user, target, id)) <==> user !in s.userCalls
  {
    var s' := Register(s, user, target, id);
    if user in s.userCalls {
      var first := s.userCalls[user];
      assert first in s'.calls && s'.calls[first] == s.calls[first] && s'.userCalls[user] != first;
    }
  }

  /** What a busy caller leads to: when the first call is cleaned up, the
      second is still live but its caller has no entry and no partner. */
  lemma BusyCallerIsDropped(s: State, user: User, target: User, id: CallId)
    requires Linked(s) && Complete(s) && user in s.userCalls && target !in s.userCalls && id !in s.calls
    ensures var t := Cleanup(Register(s, user, target, id), s.userCalls[user]);
      id in t.calls && t.calls[id].caller == user && Partner(t, user) == None && Partner(t, target) == Some(user)
  {
  }

  lemma CleanupKeeps(s: State, id: CallId)
    ensures Linked(s) ==> Linked(Cleanup(s, id))
    ensures Linked(s) && Complete(s) ==> Complete(Cleanup(s, id))
    ensures id !in Cleanup(s, id).calls
  {
    if id in s.calls {
      var t := Cleanup(s, id);
      forall u | u in t.userCalls && Linked(s) ensures t.userCalls[u] in t.calls && t.calls[t.userCalls[u]].Has(u) {
        assert u in s.userCalls && t.userCalls[u] == s.userCalls[u];
      }
    }
  }

  // ---- What each event does to a call ----

  /** A request is answered by the first of its four tests that applies, and
      only the last answer changes anything: caller and callee are entered and
      the call rings. */
  lemma RequestExactly(s: State, user: User, target: User, id: CallId, reachable: bool)
    ensures var (s', r) := RequestStart(s, user, target, id, reachable);
      && (r == BadRequest <==> target == "" || id == "")
      && (r == Unreachable <==> target != "" && id != "" && !reachable)
      && (r == Busy <==> target != "" && id != "" && reachable && target in s.userCalls)
      && (r != Registered ==> s' == s)
      && (r == Registered ==>
            && s'.calls == s.calls[id := Call(user, target, Ringing)]
            && (forall u :: u in s'.userCalls <==> u in s.userCalls || u == user || u == target)
            && forall u | u in s'.userCalls ::
                 s'.userCalls[u] == if u == user || u == target then id else s.userCalls[u])
  {
  }

  /** The request that brings a call: both ids given, the target reachable and idle. */
  predicate Requests(m: Machine, e: Event, id: CallId) {
    e.Request? && e.id == id && id != "" && e.target != "" && e.reachable && e.target !in m.s.userCalls
  }

  /** The resumption that ends a call: of a handler that closes it, or of its
      request when the notice did not go through. */
  predicate Ends(m: Machine, e: Event, id: CallId) {
    e.Resume? && e.task < |m.tasks|
    && (m.tasks[e.task] == Closing(id) || (m.tasks[e.task] == Requesting(id) && !e.delivered))
  }

  /** A call is there after an event if such a request brings it, or it was
      there and is not ended. */
  lemma CallsExactly(m: Machine, e: Event, id: CallId)
    ensures id in Next(m, e).s.calls <==> Requests(m, e, id) || (id in m.s.calls && !Ends(m, e, id))
    ensures id in Next(m, e).s.calls ==> var call := Next(m, e).s.calls[id];
      if Requests(m, e, id) then call == Call(e.user, e.target, Ringing)
      else
        && call.caller == m.s.calls[id].caller && call.callee == m.s.calls[id].callee
        && (call.status == Active <==>
              m.s.calls[id].status == Active || ((e.Accept? || e.Join?) && e.id == id && e.user == call.callee))
  {
  }

  /** Who may have a call closed: a user of it who rejects or ends it or whose
      socket goes, its caller while it rings too long, the end-call endpoint,
      and an accepting callee still in it whose acceptance did not reach the caller. */
  predicate Closes(m: Machine, e: Event, id: CallId) {
    match e
    case Reject(user, d) => d == id && id in m.s.calls && user in {m.s.calls[id].caller, m.s.calls[id].callee}
    case End(user, d) => d == id && id in m.s.calls && user in {m.s.calls[id].caller, m.s.calls[id].callee}
    case Disconnect(user) =>
      user in m.s.userCalls && m.s.userCalls[user] == id
      && id in m.s.calls && user in {m.s.calls[id].caller, m.s.calls[id].callee}
    case Timeout(user, d) =>
      d == id && id in m.s.calls && user == m.s.calls[id].caller && m.s.calls[id].status == Ringing
    case EndByRest(d) => d == id
    case Resume(i, delivered) =>
      i < |m.tasks| && m.tasks[i].Accepting? && m.tasks[i].id == id && !delivered
      && id in m.s.calls && m.tasks[i].user in {m.s.calls[id].caller, m.s.calls[id].callee}
    case _ => false
  }

  /** The suspended handlers but the one resumed. */
  function Rest(m: Machine, e: Event): seq<Task> {
    if e.Resume? && e.task < |m.tasks| then m.tasks[..e.task] + m.tasks[e.task + 1..] else m.tasks
  }

  /** Exactly those events suspend a handler that will close the call; a
      request and an acceptance suspend theirs exactly when they go through. */
  lemma HandlersExactly(m: Machine, e: Event, id: CallId, u: User)
    ensures var rest, tasks := Rest(m, e), Next(m, e).tasks;
      && rest <= tasks && |tasks| <= |rest| + 1
      && (|tasks| == |rest| + 1 && tasks[|rest|] == Closing(id) <==> Closes(m, e, id))
      && (|tasks| == |rest| + 1 && tasks[|rest|] == Requesting(id) <==> Requests(m, e, id))
      && (|tasks| == |rest| + 1 && tasks[|rest|] == Accepting(u, id) <==>
            (e == Accept(u, id) || e == Join(u, id)) && id in m.s.calls
            && m.s.calls[id].callee == u && m.s.calls[id].status == Ringing)
  {
    hide Cleanup, AcceptStart;
  }

  /** Everything the runs keep when call ids are fresh. */
  ghost predicate Inv(m: Machine) {
    && Linked(m.s)
    && (forall id | id in m.s.calls ::
          && id in m.registry
          && m.registry[id].caller == m.s.calls[id].caller && m.registry[id].callee == m.s.calls[id].callee)
    && (forall id | id in m.s.calls ::
          m.s.calls[id].status == Active <==> exists i | 0 <= i < |m.accepted| :: m.accepted[i].0 == id)
    && AcceptedOnce(m)
  }

  /** Each acceptance was made by the callee of its call, and no call was accepted twice. */
  predicate AcceptedOnce(m: Machine) {
    && (forall i | 0 <= i < |m.accepted| ::
          m.accepted[i].0 in m.registry && m.registry[m.accepted[i].0].callee == m.accepted[i].1)
    && (forall i, j | 0 <= i < j < |m.accepted| :: m.accepted[i].0 != m.accepted[j].0)
  }

  lemma StartAcceptKeeps(m: Machine, user: User, id: CallId)
    requires Inv(m)
    ensures Inv(StartAccept(m, user, id))
    ensures Complete(m.s) ==> Complete(StartAccept(m, user, id).s)
  {
    if MayAccept(m.s, user, id) {
      var m' := StartAccept(m, user, id);
      var n := |m.accepted|;
      assert m'.accepted[n] == (id, user);
      forall d | d in m'.s.calls
        ensures m'.s.calls[d].status == Active <==> exists i | 0 <= i < |m'.accepted| :: m'.accepted[i].0 == d
      {
        if i :| 0 <= i < n && m.accepted[i].0 == d { assert m'.accepted[i].0 == d; }
      }
    }
  }

  lemma CleanupKeepsInv(m: Machine, id: CallId)
    requires Inv(m)
    ensures Inv(m.(s := Cleanup(m.s, id)))
  {
    CleanupKeeps(m.s, id);
  }

  lemma RequestKeeps(m: Machine, user: User, target: User, id: CallId, reachable: bool)
    requires Inv(m) && id !in m.registry
    ensures var m' := Next(m, Request(user, target, id, reachable));
      Inv(m') && (Complete(m.s) && user !in m.s.userCalls ==> Complete(m'.s))
  {
    var r := RequestStart(m.s, user, target, id, reachable).1;
    if r == Registered {
      var s' := Register(m.s, user, target, id);
      RegisterLinkedExactly(m.s, user, target, id);
      if Complete(m.s) { RegisterCompleteExactly(m.s, user, target, id); }
      hide Linked, Complete;
      assert Next(m, Request(user, target, id, reachable)) == m.(s := s', tasks := m.tasks + [Requesting(id)],
        registry := m.registry[id := Call(user, target, Ringing)]);
      NewCallIsRinging(m, user, target, id);
    }
  }

  /** Registering keeps what is known of statuses and acceptances. */
  lemma NewCallIsRinging(m: Machine, user: User, target: User, id: CallId)
    requires Inv(m) && id !in m.registry && Linked(Register(m.s, user, target, id))
    ensures Inv(m.(s := Register(m.s, user, target, id), tasks := m.tasks + [Requesting(id)],
                   registry := m.registry[id := Call(user, target, Ringing)]))
  {
    hide Linked, Complete;
  }

  lemma ResumeKeeps(m: Machine, i: nat, delivered: bool)
    requires Inv(m) && i < |m.tasks|
    ensures var m' := Next(m, Resume(i, delivered)); Inv(m') && (Complete(m.s) ==> Complete(m'.s))
  {
    hide Linked, Complete, Cleanup;
    if !m.tasks[i].Accepting? {
      CleanupKeepsInv(m, m.tasks[i].id);
      CleanupKeeps(m.s, m.tasks[i].id);
    }
  }

  lemma {:induction false} StepKeeps(m: Machine, e: Event)
    requires Inv(m) && (e.Request? ==> e.id !in m.registry)
    ensures Inv(Next(m, e))
    ensures Complete(m.s) && (e.Request? ==> e.user !in m.s.userCalls) ==> Complete(Next(m, e).s)
  {
    hide Linked, Complete, Cleanup;
    match e
    case Request(user, target, id, reachable) => RequestKeeps(m, user, target, id, reachable);
    case Accept(user, id) => StartAcceptKeeps(m, user, id);
    case Join(user, id) => StartAcceptKeeps(m, user, id);
    case Resume(i, delivered) => if i < |m.tasks| { ResumeKeeps(m, i, delivered); }
    case _ =>
  }

  lemma {:induction false} RunKeeps(m: Machine, es: seq<Event>)
    requires Inv(m) && FreshIds(m, es)
    ensures Inv(Run(m, es))
    ensures Complete(m.s) && IdleCallers(m, es) ==> Complete(Run(m, es).s)
    decreases |es|
  {
    hide Inv, Complete, Next;
    if es != [] {
      StepKeeps(m, es[0]);
      RunKeeps(Next(m, es[0]), es[1..]);
    }
  }

  // ---- Over every run ----

  /** With fresh call ids, whatever the interleaving, each entry names a live
      call its user belongs to, and each call is accepted at most once, by its callee. */
  lemma {:induction false} EntriesAreLive(es: seq<Event>)
    requires FreshIds(IDLE, es)
    ensures Linked(Run(IDLE, es).s)
    ensures AcceptedOnce(Run(IDLE, es))
  {
    RunKeeps(IDLE, es);
  }

  /** If callers are also idle, the two maps are inverse to each other: a user
      is entered under a call exactly if it is live and the user's, and the
      partner lookup is an involution that gives the other user of the call. */
  lemma {:induction false} MapsAreInverse(es: seq<Event>, u: User, id: CallId)
    requires FreshIds(IDLE, es) && IdleCallers(IDLE, es)
    ensures var s := Run(IDLE, es).s;
      && (u in s.userCalls && s.userCalls[u] == id <==> id in s.calls && s.calls[id].Has(u))
      && (Partner(s, u).Some? ==> Partner(s, Partner(s, u).value) == Some(u))
      && (Partner(s, u).Some? ==> var call := s.calls[s.userCalls[u]];
            {u, Partner(s, u).value} == {call.caller, call.callee})
      && (Partner(s, u).Some? <==> u in s.userCalls)
  {
    RunKeeps(IDLE, es);
  }

  /** Hence no user is in two live calls. */
  lemma {:induction false} LiveCallsAreDisjoint(es: seq<Event>, a: CallId, b: CallId, u: User)
    requires FreshIds(IDLE, es) && IdleCallers(IDLE, es)
    requires var s := Run(IDLE, es).s; a in s.calls && b in s.calls && s.calls[a].Has(u) && s.calls[b].Has(u)
    ensures a == b
  {
    MapsAreInverse(es, u, a);
    MapsAreInverse(es, u, b);
  }

  /** A call that is over stays over: no suspended handler brings it back. */
  lemma {:induction false} OverStaysOver(m: Machine, es: seq<Event>, id: CallId)
    requires FreshIds(m, es) && id in m.registry && id !in m.s.calls
    ensures id !in Run(m, es).s.calls
    decreases |es|
  {
    if es != [] {
      assert id in Next(m, es[0]).registry && id !in Next(m, es[0]).s.calls;
      OverStaysOver(Next(m, es[0]), es[1..], id);
    }
  }
}
