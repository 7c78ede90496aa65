/** Admission of attested subagents, as a step relation over any number of concurrent calls:
    `LocalBackend::admit` and `Backend::call` (crates/jkb-api/src/lib.rs), `Tickets::agent_lock` and
    the locks' release (crates/jkb-api/src/rbac.rs), `bind_agent` and `unbind_agent`
    (crates/jkb-core/src/roles.rs). */
module Admission {
  import opened Wrappers
  import opened Rbac
  import TicketStore

  /** Past this many entries `agent_lock` prunes the lock map. */
  const LOCK_MAP_BOUND: nat := 2 * TicketStore.MAX_SESSION_TICKETS

  type Thread = nat
  type LockId = nat
  type Token = TicketStore.Token

  /** A clone of an agent's lock, held from `agent_lock` to the end of the call. */
  datatype Hold = Hold(agent: Agent, lock: LockId)

  /** Where a call is. `Ready` is past the lock (when it has one) and before admission. */
  datatype Pc =
    | Asked
    | Looked(agent: Agent)
    | Cloned
    | Ready
    | BindNext(binder: Agent, task: Task)
    | Running(runner: Option<Agent>, scope: Option<Task>, target: Option<Task>, newly: Option<Task>)
    | Undoing(undoer: Agent, made: Task)

  /** `found` remembers the binding the call found when it acquired its agent's lock. */
  datatype Call = Call(caller: Caller, request: Request, hold: Option<Hold>, found: Option<Task>, pc: Pc)

  datatype State = State(
    live: map<Token, TicketStore.Ticket>,
    seen: set<Token>,
    locks: map<Agent, LockId>,
    nextLock: LockId,
    held: map<LockId, Thread>,
    bindings: map<Agent, Task>,
    calls: map<Thread, Call>,
    world: World)

  /** What `bind_agent` answers. */
  datatype Bound = Now | To | Elsewhere

  datatype Event =
    | Begin(caller: Caller, request: Request)
    | Look
    | Clone
    | Acquire
    | Refuse
    | Admitted(agent: Option<Agent>, target: Option<Task>)
    | MustBind(binder: Agent, task: Task)
    | Bind(answer: Bound)
    | Succeed(doneBy: Option<Agent>, doneScope: Option<Task>, doneTarget: Option<Task>)
    | Fail
    | Undo(committed: bool)
    | Mint(token: Token, ticket: TicketStore.Ticket)
    | Forget(tokens: set<Token>)
    | DropLocks(session: string, agentId: Option<string>)
    | Change(world: World)
    | Restart

  function TargetOf(w: World, request: Request): Option<Task> {
    if request.target.OneTask? && request.target.reference in w.refs
    then Some(w.refs[request.target.reference]) else None
  }

  /** Whether a call at `c` holds its agent's mutex. */
  predicate Serialized(c: Call) {
    c.hold.Some? && (c.pc.Ready? || c.pc.BindNext? || c.pc.Running? || c.pc.Undoing?)
  }

  // ---------------------------------------------------------------------------------------
  // The lock map
  // ---------------------------------------------------------------------------------------

  /** Some call holds a clone of `lock`, so its count is above the map's own. */
  predicate InUse(s: State, lock: LockId) {
    exists th :: th in s.calls && s.calls[th].hold.Some? && s.calls[th].hold.value.lock == lock
  }

  predicate HasLiveTicket(s: State, a: Agent) {
    exists t :: t in s.live && AgentOf(s.live[t]) == Some(a)
  }

  function Pruned(s: State): map<Agent, LockId> {
    if |s.locks| > LOCK_MAP_BOUND
    then map a | a in s.locks && (InUse(s, s.locks[a]) || HasLiveTicket(s, a)) :: s.locks[a]
    else s.locks
  }

  predicate Names(session: string, agentId: Option<string>, a: Agent) {
    a.session == session && (agentId.Some? ==> agentId.value == a.id)
  }

  function WithoutLocks(locks: map<Agent, LockId>, session: string, agentId: Option<string>): map<Agent, LockId> {
    map a | a in locks && !Names(session, agentId, a) :: locks[a]
  }

  /** No call of an agent the release names holds its lock: the one thing asked of the environment. */
  predicate NoneInFlight(s: State, session: string, agentId: Option<string>) {
    forall th :: th in s.calls && s.calls[th].hold.Some? ==> !Names(session, agentId, s.calls[th].hold.value.agent)
  }

  // ---------------------------------------------------------------------------------------
  // Steps
  // ---------------------------------------------------------------------------------------

  ghost predicate Init(s: State) {
    s.live == map[] && s.seen == {} && s.locks == map[] && s.held == map[] && s.calls == map[]
  }

  function At(s: State, th: Thread, pc: Pc): State
    requires th in s.calls
  {
    s.(calls := s.calls[th := s.calls[th].(pc := pc)])
  }

  /** The call returns: its clone and its mutex are dropped. */
  function Finish(s: State, th: Thread): State
    requires th in s.calls
  {
    var c := s.calls[th];
    s.(calls := s.calls - {th}, held := if Serialized(c) then s.held - {c.hold.value.lock} else s.held)
  }

  function BindAgent(bindings: map<Agent, Task>, a: Agent, task: Task): Bound {
    if a !in bindings then Now else if bindings[a] == task then To else Elsewhere
  }

  ghost predicate BeginStep(s: State, th: Thread, caller: Caller, request: Request, s': State) {
    && th !in s.calls
    && s' == s.(calls := s.calls[th := Call(caller, request, None, None, Asked)],
                seen := if caller.TicketCaller? then s.seen + {caller.token} else s.seen)
  }

  /** `agent_lock`'s lookup: a live ticket of a subagent, or nothing to lock. */
  ghost predicate LookStep(s: State, th: Thread, s': State) {
    && th in s.calls && s.calls[th].pc.Asked?
    && var caller := s.calls[th].caller;
       s' == At(s, th,
                if caller.TicketCaller? && caller.token in s.live && AgentOf(s.live[caller.token]).Some?
                then Looked(AgentOf(s.live[caller.token]).value) else Ready)
  }

  /** `agent_lock`'s second half, under the lock map's mutex: prune, then take or make the entry. */
  ghost predicate CloneStep(s: State, th: Thread, s': State) {
    && th in s.calls && s.calls[th].pc.Looked?
    && var a := s.calls[th].pc.agent;
       var kept := Pruned(s);
       var lock := if a in kept then kept[a] else s.nextLock;
       s' == s.(locks := kept[a := lock],
                nextLock := if a in kept then s.nextLock else s.nextLock + 1,
                calls := s.calls[th := s.calls[th].(pc := Cloned, hold := Some(Hold(a, lock)))])
  }

  ghost predicate AcquireStep(s: State, th: Thread, s': State) {
    && th in s.calls && s.calls[th].pc.Cloned? && s.calls[th].hold.Some?
    && var h := s.calls[th].hold.value;
       && h.lock !in s.held
       && s' == s.(held := s.held[h.lock := th],
                   calls := s.calls[th := s.calls[th].(pc := Ready, found := BindingOf(s.bindings, h.agent))])
  }

  /** A call may be refused while it is being admitted: by the decision, or by a failed read or write. */
  ghost predicate RefuseStep(s: State, th: Thread, s': State) {
    && th in s.calls && (s.calls[th].pc.Ready? || s.calls[th].pc.BindNext?)
    && s' == Finish(s, th)
  }

  ghost predicate AdmitStep(s: State, th: Thread, ev: Event, s': State) {
    && th in s.calls && s.calls[th].pc.Ready?
    && var c := s.calls[th];
       var resolved := Resolve(s.world, s.live, s.bindings, c.caller);
       && resolved.Ok?
       && var p := resolved.value;
          var decision := Authorize(s.world, p, c.request);
          && decision.Ok?
          && match decision.value
             case Run =>
               && ev == Admitted(AttestedAgent(p), TargetOf(s.world, c.request))
               && s' == At(s, th, Running(AttestedAgent(p), p.scope, TargetOf(s.world, c.request), None))
             case BindThenRun(a, task) =>
               && ev == MustBind(a, task)
               && s' == At(s, th, BindNext(a, task))
  }

  ghost predicate BindStep(s: State, th: Thread, answer: Bound, s': State) {
    && th in s.calls && s.calls[th].pc.BindNext?
    && var a, task := s.calls[th].pc.binder, s.calls[th].pc.task;
       && answer == BindAgent(s.bindings, a, task)
       && s' == (match answer
                 case Now =>
                   At(s, th, Running(Some(a), Some(task), Some(task), Some(task))).(bindings := s.bindings[a := task])
                 case To => At(s, th, Running(Some(a), Some(task), Some(task), None))
                 case Elsewhere => Finish(s, th))
  }

  ghost predicate SucceedStep(s: State, th: Thread, ev: Event, s': State) {
    && th in s.calls && s.calls[th].pc.Running?
    && var pc := s.calls[th].pc;
       && ev == Succeed(pc.runner, pc.scope, pc.target)
       && s' == Finish(s, th)
  }

  ghost predicate FailStep(s: State, th: Thread, s': State) {
    && th in s.calls && s.calls[th].pc.Running?
    && var pc := s.calls[th].pc;
       s' == if pc.newly.Some? && pc.runner.Some? then At(s, th, Undoing(pc.runner.value, pc.newly.value))
             else Finish(s, th)
  }

  /** Undo the binding the call made, unless the write fails. */
  ghost predicate UndoStep(s: State, th: Thread, committed: bool, s': State) {
    && th in s.calls && s.calls[th].pc.Undoing?
    && var a, made := s.calls[th].pc.undoer, s.calls[th].pc.made;
       s' == Finish(s, th).(bindings := if committed && BindingOf(s.bindings, a) == Some(made)
                                        then s.bindings - {a} else s.bindings)
  }

  /** Every step but the dropping of locks, which is guarded in [`Step`]. */
  ghost predicate OtherStep(s: State, th: Thread, ev: Event, s': State) {
    match ev
    case Begin(caller, request) => BeginStep(s, th, caller, request, s')
    case Look => LookStep(s, th, s')
    case Clone => CloneStep(s, th, s')
    case Acquire => AcquireStep(s, th, s')
    case Refuse => RefuseStep(s, th, s')
    case Admitted(_, _) => AdmitStep(s, th, ev, s')
    case MustBind(_, _) => AdmitStep(s, th, ev, s')
    case Bind(answer) => BindStep(s, th, answer, s')
    case Succeed(_, _, _) => SucceedStep(s, th, ev, s')
    case Fail => FailStep(s, th, s')
    case Undo(committed) => UndoStep(s, th, committed, s')
    // A token is 256 fresh random bits: none anyone has minted or presented before.
    case Mint(token, ticket) => token !in s.seen && s' == s.(live := s.live[token := ticket], seen := s.seen + {token})
    // A release or an expiry drops tickets; which ones is the ticket store's business.
    case Forget(tokens) => s' == s.(live := s.live - tokens)
    case DropLocks(session, agentId) => s' == s.(locks := WithoutLocks(s.locks, session, agentId))
    // Other writes to the database, and the op's own, at any time; none touches a binding.
    case Change(w) => s' == s.(world := w)
    // The daemon restarts: calls, tickets and locks go, bindings are in the database.
    case Restart => s' == s.(live := map[], locks := map[], held := map[], calls := map[])
  }

  ghost predicate Step(s: State, th: Thread, ev: Event, s': State) {
    && OtherStep(s, th, ev, s')
    && (ev.DropLocks? ==> NoneInFlight(s, ev.session, ev.agentId))
  }

  // ---------------------------------------------------------------------------------------
  // The invariant
  // ---------------------------------------------------------------------------------------

  /** What a call's token says of its agent, as long as it is live. */
  predicate TokenNames(s: State, c: Call, agent: Option<Agent>) {
    && (agent.Some? ==> c.caller.TicketCaller?)
    && (c.caller.TicketCaller? ==>
          c.caller.token in s.seen && (c.caller.token in s.live ==> AgentOf(s.live[c.caller.token]) == agent))
  }

  /** A call that holds a lock holds its agent's one lock, the mutex too once it is past it, and knows its
      agent's binding. */
  predicate HoldOk(s: State, th: Thread, c: Call)
    requires c.hold.Some?
  {
    var h := c.hold.value;
    && TokenNames(s, c, Some(h.agent))
    && h.agent in s.locks && s.locks[h.agent] == h.lock
    && (c.pc.Cloned? || Serialized(c))
    && (Serialized(c) ==> h.lock in s.held && s.held[h.lock] == th)
    && BindingKnown(s, c)
  }

  predicate BindingKnown(s: State, c: Call)
    requires c.hold.Some?
  {
    var a := c.hold.value.agent;
    match c.pc
    case Ready => BindingOf(s.bindings, a) == c.found
    case BindNext(b, _) => b == a && c.found == None && a !in s.bindings
    case Running(r, scope, target, newly) =>
      && r == Some(a) && BindingOf(s.bindings, a) == scope
      && (target.Some? ==> scope.Some?)
      && (if newly.Some? then c.found == None && scope == newly else c.found == scope)
    case Undoing(b, made) => b == a && c.found == None && BindingOf(s.bindings, a) == Some(made)
    case _ => true
  }

  /** A call without a lock is no attested subagent's, or not yet looked up. */
  predicate NoHoldOk(s: State, c: Call)
    requires c.hold.None?
  {
    match c.pc
    case Asked => c.caller.TicketCaller? ==> c.caller.token in s.seen
    case Looked(a) => TokenNames(s, c, Some(a))
    case Ready => TokenNames(s, c, None)
    case Running(r, _, _, newly) => r == None && newly == None
    case _ => false
  }

  predicate CallOk(s: State, th: Thread)
    requires th in s.calls
  {
    if s.calls[th].hold.Some? then HoldOk(s, th, s.calls[th]) else NoHoldOk(s, s.calls[th])
  }

  ghost predicate Inv(s: State) {
    && s.live.Keys <= s.seen
    && forall th :: th in s.calls ==> CallOk(s, th)
  }

  /** `a` is bound to `task` and no call in flight has a binding of `a` to undo. */
  ghost predicate BoundForGood(s: State, a: Agent, task: Task) {
    && BindingOf(s.bindings, a) == Some(task)
    && forall th :: th in s.calls ==> !MayUndo(s.calls[th], a)
  }

  predicate MayUndo(c: Call, a: Agent) {
    || (c.pc.Running? && c.pc.runner == Some(a) && c.pc.newly.Some?)
    || (c.pc.Undoing? && c.pc.undoer == a)
  }

  /** Two calls of one agent hold one mutex, so they are never both past it. */
  lemma OneCallPerAgent(s: State, x: Thread, y: Thread)
    requires Inv(s) && x in s.calls && y in s.calls
    requires s.calls[x].hold.Some? && s.calls[y].hold.Some?
    requires s.calls[x].hold.value.agent == s.calls[y].hold.value.agent
    ensures s.calls[x].hold.value.lock == s.calls[y].hold.value.lock
    ensures Serialized(s.calls[x]) && Serialized(s.calls[y]) ==> x == y
  {
    assert CallOk(s, x) && CallOk(s, y);
  }

  // ---------------------------------------------------------------------------------------
  // Every step keeps it
  // ---------------------------------------------------------------------------------------

  /** A call nothing the step changed concerns is still fine. */
  lemma Untouched(s: State, s': State, th: Thread)
    requires Inv(s) && th in s.calls && th in s'.calls && s'.calls[th] == s.calls[th]
    requires s.seen <= s'.seen
    requires forall t :: t in s'.live && t in s.seen ==> t in s.live && s.live[t] == s'.live[t]
    requires s.calls[th].hold.Some? ==>
               var h := s.calls[th].hold.value;
               && (h.agent in s.locks ==> h.agent in s'.locks && s'.locks[h.agent] == s.locks[h.agent])
               && (Serialized(s.calls[th]) ==>
                     && (h.lock in s.held ==> h.lock in s'.held && s'.held[h.lock] == s.held[h.lock])
                     && BindingOf(s'.bindings, h.agent) == BindingOf(s.bindings, h.agent))
    ensures CallOk(s', th)
  {
    assert CallOk(s, th);
  }

  lemma CloneKeepsInv(s: State, th: Thread, s': State)
    requires Inv(s) && CloneStep(s, th, s')
    ensures Inv(s')
  {
    var a := s.calls[th].pc.agent;
    assert CallOk(s, th);
    forall x | x in s'.calls ensures CallOk(s', x) {
      if x != th {
        if s.calls[x].hold.Some? {
          assert CallOk(s, x);
          assert InUse(s, s.calls[x].hold.value.lock);
        }
        Untouched(s, s', x);
      }
    }
  }

  /** What an admission decides: an attested subagent's op runs only inside its binding, and one that must
      bind has none. */
  lemma AdmissionScopes(s: State, c: Call, agent: Agent)
    requires TokenNames(s, c, Some(agent))
    requires Resolve(s.world, s.live, s.bindings, c.caller).Ok?
    requires Authorize(s.world, Resolve(s.world, s.live, s.bindings, c.caller).value, c.request).Ok?
    ensures var p := Resolve(s.world, s.live, s.bindings, c.caller).value;
            var decision := Authorize(s.world, p, c.request).value;
            && AttestedAgent(p) == Some(agent) && p.scope == BindingOf(s.bindings, agent)
            && (decision.Run? && TargetOf(s.world, c.request).Some? ==>
                  p.scope.Some? && InScope(s.world, p.scope.value, TargetOf(s.world, c.request).value))
            && (decision.BindThenRun? ==>
                  decision.agent == agent && p.scope.None? && TargetOf(s.world, c.request) == Some(decision.task))
  {
  }

  lemma UnattestedAdmission(s: State, c: Call)
    requires TokenNames(s, c, None)
    requires Resolve(s.world, s.live, s.bindings, c.caller).Ok?
    requires Authorize(s.world, Resolve(s.world, s.live, s.bindings, c.caller).value, c.request).Ok?
    ensures var p := Resolve(s.world, s.live, s.bindings, c.caller).value;
            AttestedAgent(p).None? && Authorize(s.world, p, c.request).value.Run?
  {
  }

  lemma AdmitKeepsInv(s: State, th: Thread, ev: Event, s': State)
    requires Inv(s) && AdmitStep(s, th, ev, s')
    ensures Inv(s')
  {
    var c := s.calls[th];
    assert CallOk(s, th);
    if c.hold.Some? {
      AdmissionScopes(s, c, c.hold.value.agent);
    } else {
      UnattestedAdmission(s, c);
    }
    forall x | x in s'.calls ensures CallOk(s', x) {
      if x != th {
        Untouched(s, s', x);
      }
    }
  }

  /** A step by the call that holds an agent's mutex, changing at most that agent's binding and that mutex,
      leaves every other call fine. */
  lemma OthersKeep(s: State, th: Thread, s': State, x: Thread)
    requires Inv(s) && th in s.calls && x in s.calls && x in s'.calls && x != th
    requires s'.calls[x] == s.calls[x] && s'.live == s.live && s'.seen == s.seen && s'.locks == s.locks
    requires s.calls[th].hold.None? ==> s'.held == s.held && s'.bindings == s.bindings
    requires s.calls[th].hold.Some? ==>
               var h := s.calls[th].hold.value;
               && Serialized(s.calls[th])
               && (forall l :: l in s.held && l != h.lock ==> l in s'.held && s'.held[l] == s.held[l])
               && (forall a :: a != h.agent ==> BindingOf(s'.bindings, a) == BindingOf(s.bindings, a))
    ensures CallOk(s', x)
  {
    assert CallOk(s, th) && CallOk(s, x);
    Untouched(s, s', x);
  }

  lemma BindKeepsInv(s: State, th: Thread, answer: Bound, s': State)
    requires Inv(s) && BindStep(s, th, answer, s')
    ensures Inv(s') && answer == Now
  {
    assert CallOk(s, th);
    forall x | x in s'.calls ensures CallOk(s', x) {
      if x != th {
        OthersKeep(s, th, s', x);
      }
    }
  }

  lemma ReturnKeepsInv(s: State, th: Thread, s': State)
    requires Inv(s) && th in s.calls && !s.calls[th].pc.Cloned?
    requires s' == Finish(s, th)
    ensures Inv(s')
  {
    assert CallOk(s, th);
    forall x | x in s'.calls ensures CallOk(s', x) {
      OthersKeep(s, th, s', x);
    }
  }

  lemma FailKeepsInv(s: State, th: Thread, s': State)
    requires Inv(s) && FailStep(s, th, s')
    ensures Inv(s')
  {
    if th in s'.calls {
      assert CallOk(s, th);
      forall x | x in s'.calls ensures CallOk(s', x) {
        if x != th {
          OthersKeep(s, th, s', x);
        }
      }
    } else {
      ReturnKeepsInv(s, th, s');
    }
  }

  lemma UndoKeepsInv(s: State, th: Thread, committed: bool, s': State)
    requires Inv(s) && UndoStep(s, th, committed, s')
    ensures Inv(s')
    ensures committed ==> BindingOf(s'.bindings, s.calls[th].pc.undoer) == s.calls[th].found
  {
    assert CallOk(s, th);
    forall x | x in s'.calls ensures CallOk(s', x) {
      OthersKeep(s, th, s', x);
    }
  }

  lemma EntryKeepsInv(s: State, th: Thread, ev: Event, s': State)
    requires Inv(s) && Step(s, th, ev, s')
    requires ev.Begin? || ev.Look? || ev.Acquire?
    ensures Inv(s')
  {
    forall x | x in s'.calls ensures CallOk(s', x) {
      if x in s.calls {
        assert CallOk(s, x);
        if s'.calls[x] == s.calls[x] {
          Untouched(s, s', x);
        }
      }
    }
  }

  lemma OutsideKeepsInv(s: State, th: Thread, ev: Event, s': State)
    requires Inv(s) && Step(s, th, ev, s')
    requires ev.Mint? || ev.Forget? || ev.DropLocks? || ev.Change? || ev.Restart?
    ensures Inv(s')
  {
    forall x | x in s'.calls ensures CallOk(s', x) {
      assert CallOk(s, x);
      Untouched(s, s', x);
    }
  }

  lemma StepKeepsInv(s: State, th: Thread, ev: Event, s': State)
    requires Inv(s) && Step(s, th, ev, s')
    ensures Inv(s')
  {
    hide Inv, BeginStep, LookStep, CloneStep, AcquireStep, AdmitStep, BindStep, FailStep, UndoStep;
    match ev
    case Clone => CloneKeepsInv(s, th, s');
    case Admitted(_, _) => AdmitKeepsInv(s, th, ev, s');
    case MustBind(_, _) => AdmitKeepsInv(s, th, ev, s');
    case Bind(answer) => BindKeepsInv(s, th, answer, s');
    case Succeed(_, _, _) => ReturnKeepsInv(s, th, s');
    case Refuse => ReturnKeepsInv(s, th, s');
    case Fail => FailKeepsInv(s, th, s');
    case Undo(committed) => UndoKeepsInv(s, th, committed, s');
    case Begin(_, _) => EntryKeepsInv(s, th, ev, s');
    case Look => EntryKeepsInv(s, th, ev, s');
    case Acquire => EntryKeepsInv(s, th, ev, s');
    case _ => OutsideKeepsInv(s, th, ev, s');
  }

  /** What keeps a settled binding settled: it stands, no other call moved, and the one that did may not undo it. */
  lemma OneCallMoved(s: State, th: Thread, s': State, a: Agent, task: Task)
    requires BoundForGood(s, a, task) && BindingOf(s'.bindings, a) == Some(task)
    requires forall x :: x in s'.calls && x != th ==> x in s.calls && s'.calls[x] == s.calls[x]
    requires th in s'.calls ==> !MayUndo(s'.calls[th], a)
    ensures BoundForGood(s', a, task)
  {
  }

  lemma EntryKeepsBound(s: State, th: Thread, ev: Event, s': State, a: Agent, task: Task)
    requires OtherStep(s, th, ev, s') && (ev.Begin? || ev.Look? || ev.Clone? || ev.Acquire?)
    requires BoundForGood(s, a, task)
    ensures BoundForGood(s', a, task)
  {
    hide Pruned, BindingOf, AgentOf;
    OneCallMoved(s, th, s', a, task);
  }

  lemma AdmitKeepsBound(s: State, th: Thread, ev: Event, s': State, a: Agent, task: Task)
    requires AdmitStep(s, th, ev, s') && BoundForGood(s, a, task)
    ensures BoundForGood(s', a, task)
  {
    hide Authorize, Resolve, AttestedAgent, TargetOf, BindingOf;
    OneCallMoved(s, th, s', a, task);
  }

  /** A bind that makes a binding found none, so its agent is another. */
  lemma BindKeepsBound(s: State, th: Thread, answer: Bound, s': State, a: Agent, task: Task)
    requires BindStep(s, th, answer, s') && BoundForGood(s, a, task)
    ensures BoundForGood(s', a, task)
  {
    OneCallMoved(s, th, s', a, task);
  }

  lemma FailKeepsBound(s: State, th: Thread, s': State, a: Agent, task: Task)
    requires FailStep(s, th, s') && BoundForGood(s, a, task)
    ensures BoundForGood(s', a, task)
  {
    assert !MayUndo(s.calls[th], a);
    OneCallMoved(s, th, s', a, task);
  }

  lemma UndoKeepsBound(s: State, th: Thread, committed: bool, s': State, a: Agent, task: Task)
    requires UndoStep(s, th, committed, s') && BoundForGood(s, a, task)
    ensures BoundForGood(s', a, task)
  {
    assert !MayUndo(s.calls[th], a);
    OneCallMoved(s, th, s', a, task);
  }

  lemma OutsideKeepsBound(s: State, th: Thread, ev: Event, s': State, a: Agent, task: Task)
    requires OtherStep(s, th, ev, s') && BoundForGood(s, a, task)
    requires ev.Refuse? || ev.Succeed? || ev.Mint? || ev.Forget? || ev.DropLocks? || ev.Change? || ev.Restart?
    ensures BoundForGood(s', a, task)
  {
    hide WithoutLocks, BindingOf;
    if th in s.calls {
      assert !MayUndo(s.calls[th], a);
    }
    OneCallMoved(s, th, s', a, task);
  }

  /** A binding no call in flight may undo survives every step. */
  lemma StepKeepsBinding(s: State, th: Thread, ev: Event, s': State, a: Agent, task: Task)
    requires Step(s, th, ev, s')
    requires BoundForGood(s, a, task)
    ensures BoundForGood(s', a, task)
  {
    hide BoundForGood, BeginStep, LookStep, CloneStep, AcquireStep, RefuseStep;
    hide AdmitStep, BindStep, SucceedStep, FailStep, UndoStep;
    match ev
    case Begin(_, _) => EntryKeepsBound(s, th, ev, s', a, task);
    case Look => EntryKeepsBound(s, th, ev, s', a, task);
    case Clone => EntryKeepsBound(s, th, ev, s', a, task);
    case Acquire => EntryKeepsBound(s, th, ev, s', a, task);
    case Admitted(_, _) => AdmitKeepsBound(s, th, ev, s', a, task);
    case MustBind(_, _) => AdmitKeepsBound(s, th, ev, s', a, task);
    case Bind(answer) => BindKeepsBound(s, th, answer, s', a, task);
    case Fail => FailKeepsBound(s, th, s', a, task);
    case Undo(committed) => UndoKeepsBound(s, th, committed, s', a, task);
    case _ => OutsideKeepsBound(s, th, ev, s', a, task);
  }

  /** Success settles the binding the call ran under. */
  lemma SuccessBindsForGood(s: State, th: Thread, s': State, a: Agent, task: Task, target: Option<Task>)
    requires Inv(s) && Step(s, th, Succeed(Some(a), Some(task), target), s')
    ensures BoundForGood(s', a, task)
  {
    assert CallOk(s, th);
    forall x | x in s'.calls ensures !MayUndo(s'.calls[x], a) {
      assert CallOk(s, x);
      if MayUndo(s.calls[x], a) {
        OneCallPerAgent(s, x, th);
      }
    }
  }

  // ---------------------------------------------------------------------------------------
  // Whole runs
  // ---------------------------------------------------------------------------------------

  /** One step of a run: the thread that took it, and what it did. */
  datatype Turn = Turn(thread: Thread, event: Event)

  ghost predicate IsRun(states: seq<State>, turns: seq<Turn>) {
    && |states| == |turns| + 1
    && Init(states[0])
    && forall i :: 0 <= i < |turns| ==> StepAt(states, turns, i)
  }

  ghost predicate StepAt(states: seq<State>, turns: seq<Turn>, i: nat) {
    i < |turns| && i + 1 < |states| && Step(states[i], turns[i].thread, turns[i].event, states[i + 1])
  }

  lemma {:induction false} RunKeepsInv(states: seq<State>, turns: seq<Turn>, n: nat)
    requires IsRun(states, turns) && n < |states|
    ensures Inv(states[n])
  {
    if n > 0 {
      RunKeepsInv(states, turns, n - 1);
      assert StepAt(states, turns, n - 1);
      StepKeepsInv(states[n - 1], turns[n - 1].thread, turns[n - 1].event, states[n]);
    }
  }

  /** In every run, once a call an attested subagent made within its task succeeded, the subagent stays
      bound to that task. */
  lemma {:induction false} BindingStays(
    states: seq<State>, turns: seq<Turn>, i: nat, j: nat, a: Agent, task: Task, target: Option<Task>)
    requires IsRun(states, turns) && i < j < |states|
    requires turns[i].event == Succeed(Some(a), Some(task), target)
    ensures BoundForGood(states[j], a, task)
    decreases j
  {
    if j == i + 1 {
      RunKeepsInv(states, turns, i);
      assert StepAt(states, turns, i);
      SuccessBindsForGood(states[i], turns[i].thread, states[j], a, task, target);
    } else {
      BindingStays(states, turns, i, j - 1, a, task, target);
      RunKeepsInv(states, turns, j - 1);
      assert StepAt(states, turns, j - 1);
      StepKeepsBinding(states[j - 1], turns[j - 1].thread, turns[j - 1].event, states[j], a, task);
    }
  }

  /** A task-targeted call of an attested subagent that succeeds always ran under a binding. */
  lemma TargetedSuccessIsBound(states: seq<State>, turns: seq<Turn>, i: nat, a: Agent, scope: Option<Task>,
                               target: Task)
    requires IsRun(states, turns) && i < |turns|
    requires turns[i].event == Succeed(Some(a), scope, Some(target))
    ensures scope.Some?
  {
    RunKeepsInv(states, turns, i);
    assert StepAt(states, turns, i);
    assert CallOk(states[i], turns[i].thread);
  }

  /** A worker does not hop: after a success on `task`, every later task-targeted write admitted to the
      subagent is in that task's scope, and none of its calls binds again. */
  lemma WorkerDoesNotHop(states: seq<State>, turns: seq<Turn>, i: nat, j: nat, a: Agent, task: Task,
                         target: Option<Task>)
    requires IsRun(states, turns) && i < j < |turns|
    requires turns[i].event == Succeed(Some(a), Some(task), target)
    ensures forall t :: turns[j].event == Admitted(Some(a), Some(t)) ==> InScope(states[j].world, task, t)
    ensures forall t :: turns[j].event != MustBind(a, t)
  {
    BindingStays(states, turns, i, j, a, task, target);
    RunKeepsInv(states, turns, j);
    assert StepAt(states, turns, j);
    if turns[j].event.Admitted? || turns[j].event.MustBind? {
      AdmitsWithinBinding(states[j], turns[j].thread, turns[j].event, states[j + 1], a, task);
    }
  }

  lemma AdmitsWithinBinding(s: State, th: Thread, ev: Event, s': State, a: Agent, task: Task)
    requires Inv(s) && AdmitStep(s, th, ev, s')
    requires BindingOf(s.bindings, a) == Some(task)
    ensures forall t :: ev == Admitted(Some(a), Some(t)) ==> InScope(s.world, task, t)
    ensures forall t :: ev != MustBind(a, t)
  {
    var c := s.calls[th];
    assert CallOk(s, th);
    if c.hold.Some? {
      AdmissionScopes(s, c, c.hold.value.agent);
    } else {
      UnattestedAdmission(s, c);
    }
  }

  /** The same, over the request and the tables: whatever a live ticket of the subagent is admitted to do to a task
      after that success, the task is the one it is bound to or in that one's scope, and nothing is bound first. */
  lemma WorkerStaysOnItsTask(
    states: seq<State>, turns: seq<Turn>, i: nat, j: nat, a: Agent, task: Task, target: Option<Task>,
    token: Token, reference: string)
    requires IsRun(states, turns) && i < j < |turns|
    requires turns[i].event == Succeed(Some(a), Some(task), target)
    requires turns[j].event.Admitted? || turns[j].event.MustBind?
    requires turns[j].thread in states[j].calls
    requires var c := states[j].calls[turns[j].thread];
             c.caller == TicketCaller(token) && c.request.target == OneTask(reference)
    requires token in states[j].live && states[j].live[token].session == a.session
    requires states[j].live[token].agentId == Some(a.id) && reference in states[j].world.refs
    ensures var w := states[j].world;
            task == w.refs[reference] || (task, w.refs[reference]) in w.scope
    ensures turns[j].event.Admitted?
  {
    BindingStays(states, turns, i, j, a, task, target);
    assert StepAt(states, turns, j);
    AdmittedInScope(states[j], states[j].calls[turns[j].thread], a, task, token, reference);
  }

  lemma AdmittedInScope(s: State, c: Call, a: Agent, task: Task, token: Token, reference: string)
    requires c.caller == TicketCaller(token) && c.request.target == OneTask(reference) && reference in s.world.refs
    requires token in s.live && s.live[token].session == a.session && s.live[token].agentId == Some(a.id)
    requires BindingOf(s.bindings, a) == Some(task)
    requires Resolve(s.world, s.live, s.bindings, c.caller).Ok?
    requires Authorize(s.world, Resolve(s.world, s.live, s.bindings, c.caller).value, c.request).Ok?
    ensures task == s.world.refs[reference] || (task, s.world.refs[reference]) in s.world.scope
    ensures Authorize(s.world, Resolve(s.world, s.live, s.bindings, c.caller).value, c.request).value.Run?
  {
    ResolveExactly(s.world, s.live, s.bindings, c.caller);
  }

  /** A mutex is held by a call in flight that is past it, so no lock outlives the calls that took it. */
  predicate HeldByItsCall(s: State, l: LockId)
    requires l in s.held
  {
    var th := s.held[l];
    th in s.calls && Serialized(s.calls[th]) && s.calls[th].hold.value.lock == l
  }

  ghost predicate MutexesOk(s: State) {
    forall l :: l in s.held ==> HeldByItsCall(s, l)
  }

  lemma EntryKeepsMutexes(s: State, th: Thread, ev: Event, s': State)
    requires MutexesOk(s) && OtherStep(s, th, ev, s') && (ev.Begin? || ev.Look? || ev.Clone? || ev.Acquire?)
    ensures MutexesOk(s')
  {
    hide Pruned, BindingOf;
    forall l | l in s'.held
      ensures HeldByItsCall(s', l)
    {
      assert l in s.held ==> HeldByItsCall(s, l);
    }
  }

  lemma AdmitKeepsMutexes(s: State, th: Thread, ev: Event, s': State)
    requires MutexesOk(s) && AdmitStep(s, th, ev, s')
    ensures MutexesOk(s')
  {
    hide Authorize, Resolve, AttestedAgent, TargetOf;
    forall l | l in s'.held
      ensures HeldByItsCall(s', l)
    {
      assert HeldByItsCall(s, l);
    }
  }

  lemma EndKeepsMutexes(s: State, th: Thread, ev: Event, s': State)
    requires MutexesOk(s) && OtherStep(s, th, ev, s')
    requires ev.Refuse? || ev.Bind? || ev.Succeed? || ev.Fail? || ev.Undo?
    ensures MutexesOk(s')
  {
    hide BindingOf;
    forall l | l in s'.held
      ensures HeldByItsCall(s', l)
    {
      assert HeldByItsCall(s, l);
    }
  }

  lemma StepKeepsMutexes(s: State, th: Thread, ev: Event, s': State)
    requires MutexesOk(s) && OtherStep(s, th, ev, s')
    ensures MutexesOk(s')
  {
    hide BeginStep, LookStep, CloneStep, AcquireStep, RefuseStep;
    hide AdmitStep, BindStep, SucceedStep, FailStep, UndoStep;
    match ev
    case Begin(_, _) => EntryKeepsMutexes(s, th, ev, s');
    case Look => EntryKeepsMutexes(s, th, ev, s');
    case Clone => EntryKeepsMutexes(s, th, ev, s');
    case Acquire => EntryKeepsMutexes(s, th, ev, s');
    case Admitted(_, _) => AdmitKeepsMutexes(s, th, ev, s');
    case MustBind(_, _) => AdmitKeepsMutexes(s, th, ev, s');
    case Refuse => EndKeepsMutexes(s, th, ev, s');
    case Bind(_) => EndKeepsMutexes(s, th, ev, s');
    case Succeed(_, _, _) => EndKeepsMutexes(s, th, ev, s');
    case Fail => EndKeepsMutexes(s, th, ev, s');
    case Undo(_) => EndKeepsMutexes(s, th, ev, s');
    case Restart =>
    case _ => SameMutexes(s, s');
  }

  lemma SameMutexes(s: State, s': State)
    requires MutexesOk(s) && s'.held == s.held && s'.calls == s.calls
    ensures MutexesOk(s')
  {
    forall l | l in s'.held
      ensures HeldByItsCall(s', l)
    {
      assert HeldByItsCall(s, l);
    }
  }

  /** In every reachable state a held mutex is held by a call in flight that is past it: a call that ends leaves none
      held. */
  lemma {:induction false} NoMutexLeaks(states: seq<State>, turns: seq<Turn>, n: nat, l: LockId)
    requires IsRun(states, turns) && n < |states| && l in states[n].held
    ensures var th := states[n].held[l];
            th in states[n].calls && states[n].calls[th].hold.Some? && states[n].calls[th].hold.value.lock == l
    ensures MutexesOk(states[n])
  {
    RunKeepsMutexes(states, turns, n);
    assert HeldByItsCall(states[n], l);
  }

  lemma {:induction false} RunKeepsMutexes(states: seq<State>, turns: seq<Turn>, n: nat)
    requires IsRun(states, turns) && n < |states|
    ensures MutexesOk(states[n])
  {
    hide Step, OtherStep;
    if n > 0 {
      RunKeepsMutexes(states, turns, n - 1);
      assert StepAt(states, turns, n - 1);
      StepIsOther(states[n - 1], turns[n - 1].thread, turns[n - 1].event, states[n]);
      StepKeepsMutexes(states[n - 1], turns[n - 1].thread, turns[n - 1].event, states[n]);
    }
  }

  lemma StepIsOther(s: State, th: Thread, ev: Event, s': State)
    requires Step(s, th, ev, s')
    ensures OtherStep(s, th, ev, s')
  {
    hide OtherStep;
  }

  /** Which locks survive: past the bound, cloning one agent's prunes every other that no call holds and no live ticket
      could ask for, and none besides; a release drops those of the session, or of the one agent, and none besides. */
  lemma LocksSurviveExactly(s: State, th: Thread, ev: Event, s': State, b: Agent)
    requires OtherStep(s, th, ev, s')
    ensures ev.Clone? && b != s.calls[th].pc.agent ==>
              (b in s'.locks <==>
                && b in s.locks
                && (|| |s.locks| <= 512
                    || (exists x :: x in s.calls && s.calls[x].hold.Some? && s.calls[x].hold.value.lock == s.locks[b])
                    || (exists t :: t in s.live && s.live[t].agentId.Some?
                                    && Agent(s.live[t].session, s.live[t].agentId.value) == b)))
    ensures ev.DropLocks? ==>
              (b in s'.locks <==>
                b in s.locks && !(b.session == ev.session && (ev.agentId.None? || ev.agentId.value == b.id)))
    ensures b in s.locks && b in s'.locks && !ev.Clone? ==> s'.locks[b] == s.locks[b]
  {
    hide Authorize, Resolve;
  }

  /** In every run a bind finds its subagent unbound: `To` and `Elsewhere` are never answered. */
  lemma BindAnswersNow(states: seq<State>, turns: seq<Turn>, i: nat, answer: Bound)
    requires IsRun(states, turns) && i < |turns|
    requires turns[i].event == Bind(answer)
    ensures answer == Now
  {
    RunKeepsInv(states, turns, i);
    assert StepAt(states, turns, i);
    BindKeepsInv(states[i], turns[i].thread, answer, states[i + 1]);
  }

  /** What a call found when it took its lock is remembered unchanged while it is in flight. */
  lemma {:induction false} FoundIsKept(states: seq<State>, turns: seq<Turn>, i: nat, j: nat, th: Thread, a: Agent)
    requires IsRun(states, turns) && i < j < |states|
    requires turns[i] == Turn(th, Acquire)
    requires forall k :: i < k <= j ==> th in states[k].calls
    requires states[j].calls[th].hold.Some? ==> states[j].calls[th].hold.value.agent == a
    ensures InFlightFor(states[j], th, a, BindingOf(states[i].bindings, a))
    decreases j
  {
    if j == i + 1 {
      assert StepAt(states, turns, i);
    } else {
      RunKeepsInv(states, turns, j - 1);
      assert StepAt(states, turns, j - 1);
      StepKeepsFound(states[j - 1], turns[j - 1].thread, turns[j - 1].event, states[j], th);
      FoundIsKept(states, turns, i, j - 1, th, a);
    }
  }

  /** `th` is past `a`'s lock, and found `a` bound as `found`. */
  ghost predicate InFlightFor(s: State, th: Thread, a: Agent, found: Option<Task>) {
    && th in s.calls && s.calls[th].hold.Some? && s.calls[th].hold.value.agent == a
    && Serialized(s.calls[th]) && s.calls[th].found == found
  }

  /** A call keeps its lock and, past it, what it found there. */
  ghost predicate SameFound(s: State, s': State, th: Thread)
    requires th in s.calls && th in s'.calls
  {
    && (s.calls[th].hold.Some? ==> s'.calls[th].hold == s.calls[th].hold)
    && (Serialized(s.calls[th]) ==> Serialized(s'.calls[th]) && s'.calls[th].found == s.calls[th].found)
  }

  lemma EntryKeepsFound(s: State, actor: Thread, ev: Event, s': State, th: Thread)
    requires OtherStep(s, actor, ev, s') && (ev.Begin? || ev.Look? || ev.Clone? || ev.Acquire?)
    requires th in s.calls && th in s'.calls && CallOk(s, th)
    ensures SameFound(s, s', th)
  {
    hide Pruned, BindingOf, BindingKnown;
  }

  lemma AdmitKeepsFound(s: State, actor: Thread, ev: Event, s': State, th: Thread)
    requires AdmitStep(s, actor, ev, s') && th in s.calls && th in s'.calls
    ensures SameFound(s, s', th)
  {
    hide Authorize, Resolve, AttestedAgent, TargetOf;
  }

  lemma LateKeepsFound(s: State, actor: Thread, ev: Event, s': State, th: Thread)
    requires OtherStep(s, actor, ev, s') && th in s.calls && th in s'.calls
    requires ev.Refuse? || ev.Bind? || ev.Succeed? || ev.Fail? || ev.Undo?
    ensures SameFound(s, s', th)
  {
    hide BindingOf;
  }

  lemma StepKeepsFound(s: State, actor: Thread, ev: Event, s': State, th: Thread)
    requires Inv(s) && Step(s, actor, ev, s') && th in s.calls && th in s'.calls
    ensures SameFound(s, s', th)
  {
    hide BeginStep, LookStep, CloneStep, AcquireStep, RefuseStep, AdmitStep, BindStep, SucceedStep, FailStep, UndoStep;
    hide CallOk;
    match ev
    case Begin(_, _) => EntryKeepsFound(s, actor, ev, s', th);
    case Look => EntryKeepsFound(s, actor, ev, s', th);
    case Clone => EntryKeepsFound(s, actor, ev, s', th);
    case Acquire => EntryKeepsFound(s, actor, ev, s', th);
    case Admitted(_, _) => AdmitKeepsFound(s, actor, ev, s', th);
    case MustBind(_, _) => AdmitKeepsFound(s, actor, ev, s', th);
    case Refuse => LateKeepsFound(s, actor, ev, s', th);
    case Bind(_) => LateKeepsFound(s, actor, ev, s', th);
    case Succeed(_, _, _) => LateKeepsFound(s, actor, ev, s', th);
    case Fail => LateKeepsFound(s, actor, ev, s', th);
    case Undo(_) => LateKeepsFound(s, actor, ev, s', th);
    case _ =>
  }

  /** The binding a call has made and not undone. */
  function Made(c: Call): Option<Task> {
    match c.pc
    case Running(_, _, _, newly) => newly
    case Undoing(_, made) => Some(made)
    case _ => None
  }

  /** A call that ends without succeeding - refused, failed, its undo committed or not, or cut off by a restart - leaves
      its subagent's binding as it found it exactly when it made none or its undo committed; else the subagent stays
      bound to what the call made. */
  lemma FailedCallRestoresBinding(states: seq<State>, turns: seq<Turn>, i: nat, j: nat, th: Thread, a: Agent)
    requires IsRun(states, turns) && i < j < |turns|
    requires turns[i] == Turn(th, Acquire)
    requires forall k :: i < k <= j ==> th in states[k].calls
    requires states[j].calls[th].hold.Some? ==> states[j].calls[th].hold.value.agent == a
    requires th !in states[j + 1].calls && EndsUnsuccessful(turns[j], th)
    ensures var found, left := BindingOf(states[i].bindings, a), BindingOf(states[j + 1].bindings, a);
            var made := Made(states[j].calls[th]);
            && (left == found <==> made.None? || turns[j].event == Undo(true))
            && (left != found ==> left == made)
  {
    FoundIsKept(states, turns, i, j, th, a);
    RunKeepsInv(states, turns, j);
    assert StepAt(states, turns, j);
    EndRestores(states[j], th, turns[j], states[j + 1]);
  }

  /** `th`'s own end without success, or the daemon's restart, whoever it is taken by. */
  predicate EndsUnsuccessful(turn: Turn, th: Thread) {
    || (turn.thread == th && (turn.event.Refuse? || turn.event.Fail? || turn.event.Undo? || turn.event.Bind?))
    || turn.event.Restart?
  }

  lemma EndRestores(s: State, th: Thread, turn: Turn, s': State)
    requires Inv(s) && Step(s, turn.thread, turn.event, s') && th in s.calls && th !in s'.calls
    requires EndsUnsuccessful(turn, th) && Serialized(s.calls[th])
    ensures var c := s.calls[th];
            var left := BindingOf(s'.bindings, c.hold.value.agent);
            && (left == c.found <==> Made(c).None? || turn.event == Undo(true))
            && (left != c.found ==> left == Made(c))
  {
    assert CallOk(s, th);
  }

  /** In every reachable state two calls of one subagent hold the same lock, whatever was pruned, and at most
      one of them is past it. */
  lemma OverlappingCallsShareMutex(states: seq<State>, turns: seq<Turn>, n: nat, x: Thread, y: Thread)
    requires IsRun(states, turns) && n < |states|
    requires x in states[n].calls && y in states[n].calls
    requires states[n].calls[x].hold.Some? && states[n].calls[y].hold.Some?
    requires states[n].calls[x].hold.value.agent == states[n].calls[y].hold.value.agent
    ensures states[n].calls[x].hold == states[n].calls[y].hold
    ensures Serialized(states[n].calls[x]) && Serialized(states[n].calls[y]) ==> x == y
  {
    RunKeepsInv(states, turns, n);
    OneCallPerAgent(states[n], x, y);
  }

  // ---------------------------------------------------------------------------------------
  // What dropping a lock in use would do
  // ---------------------------------------------------------------------------------------

  const WORKER := Agent("s", "a")
  const TICKET := TicketStore.Ticket("s", Some("a"), Some("implementer"), "u", 0, 0)
  const WRITE := Request(TaskWrite, OneTask("x"), Plain)
  const NO_REVIEWS := LandGate.Db(LandGate.Ledger(map[], map[], map[]), map[], map[], map[])
  const ONE_TASK := World(
    map["x" := 1], {}, map[], WorkflowState(Implement, {}, None), {(Implementer, TaskWrite)},
    map[0 := GrantRow(Coordinator, None, false, true)], map[], map["implementer" := Implementer], NO_REVIEWS)

  const EMPTY := State(map[], {}, map[], 0, map[], map[], map[], ONE_TASK)

  /** A first write by `WORKER` is running on thread 0, under the binding it made. */
  const FIRST_WRITE := State(
    map["t1" := TICKET], {"t1"}, map[WORKER := 0], 1, map[0 := 0], map[WORKER := 1],
    map[0 := Call(TicketCaller("t1"), WRITE, Some(Hold(WORKER, 0)), None,
                  Running(Some(WORKER), Some(1), Some(1), Some(1)))],
    ONE_TASK)

  /** The first write is still running, its lock is dropped, and a second ticket is out. */
  const LOCK_DROPPED := FIRST_WRITE.(live := map["t2" := TICKET], seen := {"t1", "t2"}, locks := map[])

  ghost predicate Takes(s: State, turn: Turn, s': State) {
    Step(s, turn.thread, turn.event, s')
  }

  /** A step the environment assumption rules out: a release that drops the lock of a call in flight. */
  ghost predicate DropsInUse(s: State, turn: Turn, s': State) {
    && OtherStep(s, turn.thread, turn.event, s')
    && turn.event.DropLocks? && !NoneInFlight(s, turn.event.session, turn.event.agentId)
  }

  /** What a run with one such step at `d` is. */
  ghost predicate RunDropping(states: seq<State>, turns: seq<Turn>, d: nat) {
    && d < |turns| && |states| == |turns| + 1 && Init(states[0])
    && DropsInUse(states[d], turns[d], states[d + 1])
    && forall i :: 0 <= i < |turns| && i != d ==> StepAt(states, turns, i)
  }

  // Each step on its own, said of the state it leads to.

  lemma MintTakes(s: State, th: Thread, token: Token, s': State)
    requires token !in s.seen && s' == s.(live := s.live[token := TICKET], seen := s.seen + {token})
    ensures Takes(s, Turn(th, Mint(token, TICKET)), s')
  {
  }

  lemma BeginTakes(s: State, th: Thread, token: Token, s': State)
    requires th !in s.calls && token in s.seen
    requires s' == s.(calls := s.calls[th := Call(TicketCaller(token), WRITE, None, None, Asked)])
    ensures Takes(s, Turn(th, Begin(TicketCaller(token), WRITE)), s')
  {
    assert s.seen + {token} == s.seen;
  }

  lemma LookTakes(s: State, th: Thread, token: Token, s': State)
    requires th in s.calls && s.calls[th].pc.Asked? && s.calls[th].caller == TicketCaller(token)
    requires token in s.live && s.live[token] == TICKET && s' == At(s, th, Looked(WORKER))
    ensures Takes(s, Turn(th, Look), s')
  {
  }

  lemma CloneTakes(s: State, th: Thread, s': State)
    requires th in s.calls && s.calls[th].pc == Looked(WORKER) && s.locks == map[]
    requires s' == s.(locks := map[WORKER := s.nextLock], nextLock := s.nextLock + 1,
                      calls := s.calls[th := s.calls[th].(pc := Cloned, hold := Some(Hold(WORKER, s.nextLock)))])
    ensures Takes(s, Turn(th, Clone), s')
  {
    assert s.locks[WORKER := s.nextLock] == map[WORKER := s.nextLock];
  }

  lemma AcquireTakes(s: State, th: Thread, s': State)
    requires th in s.calls && s.calls[th].pc.Cloned? && s.calls[th].hold.Some? && s.calls[th].hold.value.agent == WORKER
    requires s.calls[th].hold.value.lock !in s.held
    requires s' == s.(held := s.held[s.calls[th].hold.value.lock := th],
                      calls := s.calls[th := s.calls[th].(pc := Ready, found := BindingOf(s.bindings, WORKER))])
    ensures Takes(s, Turn(th, Acquire), s')
  {
  }

  lemma BindTakes(s: State, th: Thread, s': State)
    requires th in s.calls && s.calls[th].pc == BindNext(WORKER, 1) && s.bindings == map[]
    requires s' == At(s, th, Running(Some(WORKER), Some(1), Some(1), Some(1))).(bindings := s.bindings[WORKER := 1])
    ensures Takes(s, Turn(th, Bind(Now)), s')
  {
  }

  lemma ReleaseTakes(s: State, th: Thread, s1: State, s2: State)
    requires s.locks == map[WORKER := 0] && 0 in s.calls && s.calls[0].hold == Some(Hold(WORKER, 0))
    requires s1 == s.(live := s.live - {"t1"}) && s2 == s1.(locks := map[])
    ensures Takes(s, Turn(th, Forget({"t1"})), s1)
    ensures DropsInUse(s1, Turn(th, DropLocks("s", Some("a"))), s2)
  {
    assert WithoutLocks(s1.locks, "s", Some("a")) == map[];
    assert Names("s", Some("a"), s1.calls[0].hold.value.agent);
  }

  lemma SucceedTakes(s: State, th: Thread, s': State)
    requires th in s.calls && s.calls[th].pc == Running(Some(WORKER), Some(1), Some(1), None) && s' == Finish(s, th)
    ensures Takes(s, Turn(th, Succeed(Some(WORKER), Some(1), Some(1))), s')
  {
  }

  lemma FailAndUndoTake(s: State, th: Thread, s1: State, s2: State)
    requires th in s.calls && s.calls[th].pc == Running(Some(WORKER), Some(1), Some(1), Some(1))
    requires BindingOf(s.bindings, WORKER) == Some(1)
    requires s1 == At(s, th, Undoing(WORKER, 1)) && s2 == Finish(s1, th).(bindings := s1.bindings - {WORKER})
    ensures Takes(s, Turn(th, Fail), s1) && Takes(s1, Turn(th, Undo(true)), s2)
  {
  }

  /** A call of `WORKER` that finds no lock in the map and takes one of its own. */
  function Entered(s: State, th: Thread, token: Token): State {
    var call := Call(TicketCaller(token), WRITE, Some(Hold(WORKER, s.nextLock)), BindingOf(s.bindings, WORKER), Ready);
    s.(locks := map[WORKER := s.nextLock], nextLock := s.nextLock + 1, held := s.held[s.nextLock := th],
       calls := s.calls[th := call])
  }

  lemma Enters(s: State, th: Thread, token: Token) returns (s1: State, s2: State, s3: State)
    requires th !in s.calls && token in s.seen && token in s.live && s.live[token] == TICKET
    requires s.locks == map[] && s.nextLock !in s.held
    ensures Takes(s, Turn(th, Begin(TicketCaller(token), WRITE)), s1)
    ensures Takes(s1, Turn(th, Look), s2) && Takes(s2, Turn(th, Clone), s3)
    ensures Takes(s3, Turn(th, Acquire), Entered(s, th, token))
  {
    hide Takes;
    var c := Call(TicketCaller(token), WRITE, None, None, Asked);
    s1 := s.(calls := s.calls[th := c]);
    BeginTakes(s, th, token, s1);
    s2 := s.(calls := s.calls[th := c.(pc := Looked(WORKER))]);
    assert s1.calls[th := s2.calls[th]] == s2.calls;
    LookTakes(s1, th, token, s2);
    s3 := s.(locks := map[WORKER := s.nextLock], nextLock := s.nextLock + 1,
             calls := s.calls[th := c.(pc := Cloned, hold := Some(Hold(WORKER, s.nextLock)))]);
    assert s2.calls[th := s3.calls[th]] == s3.calls;
    CloneTakes(s2, th, s3);
    assert s3.calls[th := Entered(s, th, token).calls[th]] == Entered(s, th, token).calls;
    AcquireTakes(s3, th, Entered(s, th, token));
  }

  /** From an empty daemon: a ticket is minted, and a call under it binds its subagent and runs. */
  lemma FirstWrite() returns (s: seq<State>)
    ensures |s| == 7 && s[0] == EMPTY
    ensures Takes(s[0], Turn(0, Mint("t1", TICKET)), s[1])
    ensures Takes(s[1], Turn(0, Begin(TicketCaller("t1"), WRITE)), s[2])
    ensures Takes(s[2], Turn(0, Look), s[3]) && Takes(s[3], Turn(0, Clone), s[4]) && Takes(s[4], Turn(0, Acquire), s[5])
    ensures Takes(s[5], Turn(0, MustBind(WORKER, 1)), s[6]) && Takes(s[6], Turn(0, Bind(Now)), FIRST_WRITE)
  {
    hide Takes;
    var s1 := EMPTY.(live := map["t1" := TICKET], seen := {"t1"});
    MintTakes(EMPTY, 0, "t1", s1);
    var s2, s3, s4 := Enters(s1, 0, "t1");
    var s5 := Entered(s1, 0, "t1");
    var s6 := At(s5, 0, BindNext(WORKER, 1));
    FirstMustBind(s5, s5.calls[0]);
    FirstBinds(s6);
    s := [EMPTY, s1, s2, s3, s4, s5, s6];
  }

  lemma FirstBinds(s: State)
    requires s == FIRST_WRITE.(bindings := map[], calls := map[0 := FIRST_WRITE.calls[0].(pc := BindNext(WORKER, 1))])
    ensures Takes(s, Turn(0, Bind(Now)), FIRST_WRITE)
  {
    hide Takes;
    assert s.calls[0 := FIRST_WRITE.calls[0]] == FIRST_WRITE.calls;
    BindTakes(s, 0, FIRST_WRITE);
  }

  lemma FirstMustBind(s: State, c: Call)
    requires 0 in s.calls && s.calls[0] == c && c.pc.Ready? && c.caller == TicketCaller("t1") && c.request == WRITE
    requires s.world == ONE_TASK && s.live == map["t1" := TICKET] && s.bindings == map[]
    ensures Takes(s, Turn(0, MustBind(WORKER, 1)), At(s, 0, BindNext(WORKER, 1)))
  {
    var p := Principal({Implementer}, None, TicketKind(TICKET));
    assert Resolve(s.world, s.live, s.bindings, c.caller) == Ok(p);
    assert (Implementer, TaskWrite) in s.world.opGrants;
    assert Authorize(s.world, p, WRITE) == Ok(BindThenRun(WORKER, 1));
  }

  lemma ReleaseAndMint() returns (s: seq<State>)
    ensures |s| == 2
    ensures Takes(FIRST_WRITE, Turn(2, Forget({"t1"})), s[0])
    ensures DropsInUse(s[0], Turn(2, DropLocks("s", Some("a"))), s[1])
    ensures Takes(s[1], Turn(1, Mint("t2", TICKET)), LOCK_DROPPED)
  {
    hide Takes, DropsInUse;
    var s1 := FIRST_WRITE.(live := map[]);
    var s2 := s1.(locks := map[]);
    ReleaseTakes(FIRST_WRITE, 2, s1, s2);
    MintTakes(s2, 1, "t2", LOCK_DROPPED);
    s := [s1, s2];
  }

  /** Past a lock of its own, the second call succeeds on the task; the first call's undo then removes the binding it
      relied on. */
  lemma FirstUndoes(s: State) returns (s1: State, s2: State, s3: State, s4: State)
    requires s.world == ONE_TASK && s.live == map["t2" := TICKET] && s.bindings == map[WORKER := 1]
    requires 0 in s.calls && s.calls[0].pc == Running(Some(WORKER), Some(1), Some(1), Some(1))
    requires 1 in s.calls && s.calls[1].pc.Ready? && s.calls[1].caller == TicketCaller("t2")
             && s.calls[1].request == WRITE
    ensures Takes(s, Turn(1, Admitted(Some(WORKER), Some(1))), s1)
    ensures Takes(s1, Turn(1, Succeed(Some(WORKER), Some(1), Some(1))), s2)
    ensures Takes(s2, Turn(0, Fail), s3) && Takes(s3, Turn(0, Undo(true)), s4)
    ensures BindingOf(s2.bindings, WORKER) == Some(1) && BindingOf(s4.bindings, WORKER) == None
  {
    hide Takes, Serialized;
    s1 := At(s, 1, Running(Some(WORKER), Some(1), Some(1), None));
    SecondAdmitted(s, s.calls[1]);
    s2 := Finish(s1, 1);
    SucceedTakes(s1, 1, s2);
    s3 := At(s2, 0, Undoing(WORKER, 1));
    s4 := Finish(s3, 0).(bindings := s3.bindings - {WORKER});
    FailAndUndoTake(s2, 0, s3, s4);
  }

  lemma SecondAdmitted(s: State, c: Call)
    requires 1 in s.calls && s.calls[1] == c && c.pc.Ready? && c.caller == TicketCaller("t2") && c.request == WRITE
    requires s.world == ONE_TASK && s.live == map["t2" := TICKET] && s.bindings == map[WORKER := 1]
    ensures Takes(s, Turn(1, Admitted(Some(WORKER), Some(1))), At(s, 1, Running(Some(WORKER), Some(1), Some(1), None)))
  {
    var p := Principal({Implementer}, Some(1), TicketKind(TICKET));
    assert Resolve(s.world, s.live, s.bindings, c.caller) == Ok(p);
    assert (Implementer, TaskWrite) in s.world.opGrants;
    assert Authorize(s.world, p, WRITE) == Ok(Run);
  }

  /** From the running first write to the undo. */
  lemma SecondWrite() returns (s: seq<State>)
    ensures |s| == 12 && s[0] == FIRST_WRITE
    ensures Takes(s[0], Turn(2, Forget({"t1"})), s[1]) && DropsInUse(s[1], Turn(2, DropLocks("s", Some("a"))), s[2])
    ensures Takes(s[2], Turn(1, Mint("t2", TICKET)), s[3])
    ensures Takes(s[3], Turn(1, Begin(TicketCaller("t2"), WRITE)), s[4])
    ensures Takes(s[4], Turn(1, Look), s[5]) && Takes(s[5], Turn(1, Clone), s[6]) && Takes(s[6], Turn(1, Acquire), s[7])
    ensures Takes(s[7], Turn(1, Admitted(Some(WORKER), Some(1))), s[8])
    ensures Takes(s[8], Turn(1, Succeed(Some(WORKER), Some(1), Some(1))), s[9])
    ensures Takes(s[9], Turn(0, Fail), s[10]) && Takes(s[10], Turn(0, Undo(true)), s[11])
    ensures BindingOf(s[9].bindings, WORKER) == Some(1) && BindingOf(s[11].bindings, WORKER) == None
  {
    hide Takes, DropsInUse;
    var dropped := ReleaseAndMint();
    var s4, s5, s6 := Enters(LOCK_DROPPED, 1, "t2");
    var s7 := Entered(LOCK_DROPPED, 1, "t2");
    var s8, s9, s10, s11 := FirstUndoes(s7);
    s := [FIRST_WRITE, dropped[0], dropped[1], LOCK_DROPPED, s4, s5, s6, s7, s8, s9, s10, s11];
  }

  const DROPPING_TURNS := [
    Turn(0, Mint("t1", TICKET)), Turn(0, Begin(TicketCaller("t1"), WRITE)), Turn(0, Look), Turn(0, Clone),
    Turn(0, Acquire),
    Turn(0, MustBind(WORKER, 1)), Turn(0, Bind(Now)), Turn(2, Forget({"t1"})), Turn(2, DropLocks("s", Some("a"))),
    Turn(1, Mint("t2", TICKET)), Turn(1, Begin(TicketCaller("t2"), WRITE)), Turn(1, Look), Turn(1, Clone),
    Turn(1, Acquire),
    Turn(1, Admitted(Some(WORKER), Some(1))), Turn(1, Succeed(Some(WORKER), Some(1), Some(1))), Turn(0, Fail),
    Turn(0, Undo(true))]

  /** If a release drops the lock of a subagent with a call in flight, then in a run that is otherwise as every run is,
      from an empty daemon, a call succeeds on a task and the subagent is then left bound to nothing, free to bind
      another. */
  lemma DroppingALockInUseUnbinds() returns (states: seq<State>, turns: seq<Turn>)
    ensures RunDropping(states, turns, 8) && turns[8].event == DropLocks("s", Some("a"))
    ensures |turns| == 18 && turns[15].event == Succeed(Some(WORKER), Some(1), Some(1))
    ensures BindingOf(states[16].bindings, WORKER) == Some(1) && BindingOf(states[18].bindings, WORKER) == None
  {
    hide Step, DropsInUse, OtherStep;
    turns := DROPPING_TURNS;
    var first := FirstWrite();
    var second := SecondWrite();
    states := first + second;
    forall i | 0 <= i < |turns| && i != 8
      ensures StepAt(states, turns, i)
    {
      assert Takes(states[i], turns[i], states[i + 1]);
    }
  }
}
