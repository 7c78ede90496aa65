/** Who a caller is and what it may run: `resolve`, `authorize`, `admit_landing` and `repeats_landing`
    (crates/jkb-api/src/rbac.rs). */
module Rbac {
  import opened Wrappers
  import LandGate
  import TicketStore

  type Task = LandGate.Task

  datatype Role = Operator | Coordinator | Designer | Implementer | Reviewer | SystemicReviewer

  datatype Permission =
    | Read | Hook | TaskWrite | TaskStatus | TaskClaim | Review | Land | Workflow
    | Design | DesignApprove | Grant | Attest | ExecRequest | Admin

  /** Which tasks a request may change: none, the one it refers to, or what all tasks share. */
  datatype Target = Free | OneTask(reference: string) | Shared

  datatype Landed = Landed(branch: string, onto: string, head: Option<string>)

  datatype LandVerb = DoLand | LandCheck | RecordLanded

  /** What authorization reads of a request beyond its class and target. */
  datatype Shape = Landing(verb: LandVerb, landed: Landed) | Move | ReviewRound | Plain

  datatype Request = Request(permission: Permission, target: Target, shape: Shape)

  datatype Phase =
    | DesignPhase | DesignReview | Implement | ReviewPhase | SystemicReview | Landable | LandedPhase | Cancelled

  /** A task's live recorded landing. */
  datatype LandingRow = LandingRow(branch: Option<string>, onto: Option<string>, commit: Option<string>)

  datatype WorkflowState = WorkflowState(phase: Phase, lands: set<Role>, landing: Option<LandingRow>)

  datatype GrantRow = GrantRow(role: Role, scope: Option<Task>, revoked: bool, container: bool)

  /** What a call reads from the database, but the agent bindings. */
  datatype World = World(
    refs: map<string, Task>,
    scope: set<(Task, Task)>,
    workflows: map<Task, WorkflowState>,
    newWorkflow: WorkflowState,
    opGrants: set<(Role, Permission)>,
    grantRows: map<int, GrantRow>,
    grantTokens: map<string, int>,
    agentRoles: map<string, Role>,
    reviews: LandGate.Db)

  /** An attested subagent. */
  datatype Agent = Agent(session: string, id: string)

  datatype Kind = OperatorKind | GrantKind(row: GrantRow) | TicketKind(ticket: TicketStore.Ticket)

  datatype Principal = Principal(roles: set<Role>, scope: Option<Task>, kind: Kind)

  /** A token as its prefix tells it apart. */
  datatype Caller = OperatorCaller | TicketCaller(token: TicketStore.Token) | GrantCaller(token: string)

  datatype Refusal = Unauthorized | Forbidden

  datatype Admit = Run | BindThenRun(agent: Agent, task: Task)

  const OPERATOR := Principal({Operator}, None, OperatorKind)

  function AgentOf(t: TicketStore.Ticket): Option<Agent> {
    if t.agentId.Some? then Some(Agent(t.session, t.agentId.value)) else None
  }

  function AttestedAgent(p: Principal): Option<Agent> {
    if p.kind.TicketKind? then AgentOf(p.kind.ticket) else None
  }

  /** `target` is in `scope`'s reach: the task itself, or what its findings and subtasks add. */
  predicate InScope(w: World, scope: Task, target: Task) {
    scope == target || (scope, target) in w.scope
  }

  function BindingOf(bindings: map<Agent, Task>, a: Agent): Option<Task> {
    if a in bindings then Some(bindings[a]) else None
  }

  function Resolve(
    w: World, live: map<TicketStore.Token, TicketStore.Ticket>, bindings: map<Agent, Task>, caller: Caller)
    : Result<Principal, Refusal>
  {
    match caller
    case OperatorCaller => Ok(OPERATOR)
    case TicketCaller(token) =>
      if token !in live then Err(Unauthorized)
      else
        var t := live[token];
        if t.mintedBy !in w.grantRows || w.grantRows[t.mintedBy].revoked then Err(Unauthorized)
        else if t.agentId.None? then
          var minter := w.grantRows[t.mintedBy];
          Ok(Principal({minter.role}, minter.scope, TicketKind(t)))
        else
          var roles := if t.agentType.Some? && t.agentType.value in w.agentRoles
                          && w.agentRoles[t.agentType.value] != Operator
                       then {w.agentRoles[t.agentType.value]} else {};
          Ok(Principal(roles, BindingOf(bindings, Agent(t.session, t.agentId.value)), TicketKind(t)))
    case GrantCaller(token) =>
      if token !in w.grantTokens || w.grantTokens[token] !in w.grantRows
         || w.grantRows[w.grantTokens[token]].revoked
      then Err(Unauthorized)
      else
        var row := w.grantRows[w.grantTokens[token]];
        Ok(Principal({row.role}, row.scope, GrantKind(row)))
  }

  /** Who a token is, over the tables: nobody when it, or the credential that minted it, is unknown or revoked; else one
      role at most, never the operator's for an attested subagent, and held to the task bound to the subagent, or
      granted. */
  lemma ResolveExactly(
    w: World, live: map<TicketStore.Token, TicketStore.Ticket>, bindings: map<Agent, Task>, caller: Caller)
    ensures
      match (caller, Resolve(w, live, bindings, caller))
      case (OperatorCaller, r) => r == Ok(Principal({Operator}, None, OperatorKind))
      case (TicketCaller(token), r) =>
        var known := token in live && live[token].mintedBy in w.grantRows && !w.grantRows[live[token].mintedBy].revoked;
        && (r.Ok? <==> known)
        && (r.Err? ==> r.error == Unauthorized)
        && (r.Ok? ==>
              var t := live[token];
              && r.value.kind == TicketKind(t)
              && (t.agentId.None? ==>
                    && r.value.roles == {w.grantRows[t.mintedBy].role}
                    && r.value.scope == w.grantRows[t.mintedBy].scope)
              && (t.agentId.Some? ==>
                    var agent := Agent(t.session, t.agentId.value);
                    && (forall role :: role in r.value.roles <==>
                          role != Operator && t.agentType.Some? && t.agentType.value in w.agentRoles
                          && role == w.agentRoles[t.agentType.value])
                    && (r.value.scope.Some? <==> agent in bindings)
                    && (agent in bindings ==> r.value.scope == Some(bindings[agent]))))
      case (GrantCaller(token), r) =>
        && (r.Ok? <==> token in w.grantTokens && w.grantTokens[token] in w.grantRows
                       && !w.grantRows[w.grantTokens[token]].revoked)
        && (r.Err? ==> r.error == Unauthorized)
        && (r.Ok? ==>
              var row := w.grantRows[w.grantTokens[token]];
              r.value == Principal({row.role}, row.scope, GrantKind(row)))
  {
  }

  // ---------------------------------------------------------------------------------------
  // Landing
  // ---------------------------------------------------------------------------------------

  function Current(w: World, task: Task): WorkflowState {
    if task in w.workflows then w.workflows[task] else w.newWorkflow
  }

  predicate IsSettled(phase: Phase) {
    phase == LandedPhase || phase == Cancelled
  }

  predicate MayLand(wf: WorkflowState, roles: set<Role>) {
    Operator in roles || roles * wf.lands != {}
  }

  /** The request lands exactly what the task's live landing already records, with the workflow parked at
      `landed`. */
  predicate RepeatsLanding(wf: WorkflowState, landed: Landed) {
    && wf.phase == LandedPhase
    && wf.landing.Some?
    && wf.landing.value.onto == Some(landed.onto)
    && wf.landing.value.branch == Some(landed.branch)
    && (wf.landing.value.commit.Some? && landed.head.Some? ==> wf.landing.value.commit == landed.head)
  }

  /** The reviewers' records approve the head being landed. */
  ghost predicate HeadApproved(w: World, task: Task, landed: Landed) {
    LandGate.Approved(w.reviews.ledger, LandGate.GroupStates(w.reviews, task, landed.branch), landed.head)
  }

  /** When a caller who is not the operator may land: it needs a role the task's strategy lets land, and either
      the landing it repeats, or an open workflow and an approved head. */
  ghost predicate LandingAllowed(w: World, roles: set<Role>, task: Task, landed: Landed) {
    var wf := Current(w, task);
    && MayLand(wf, roles)
    && (RepeatsLanding(wf, landed) || (!IsSettled(wf.phase) && HeadApproved(w, task, landed)))
  }

  method AdmitLanding(w: World, p: Principal, request: Request, target: Task) returns (ok: bool)
    requires LandGate.DistinctRounds(w.reviews.ledger)
    ensures request.shape.Landing? ==> (ok <==> LandingAllowed(w, p.roles, target, request.shape.landed))
    ensures !request.shape.Landing? ==>
              (ok <==> MayLand(Current(w, target), p.roles) && !IsSettled(Current(w, target).phase))
  {
    var wf := Current(w, target);
    if !MayLand(wf, p.roles) {
      return false;
    }
    var repeats := request.shape.Landing? && RepeatsLanding(wf, request.shape.landed);
    if IsSettled(wf.phase) && !repeats {
      return false;
    }
    if !repeats && request.shape.Landing? {
      var landed := request.shape.landed;
      var verdict := LandGate.Landing(w.reviews, target, landed.branch, landed.head);
      return verdict.Passed?;
    }
    return true;
  }

  // ---------------------------------------------------------------------------------------
  // Authorization
  // ---------------------------------------------------------------------------------------

  predicate RoleAllows(w: World, p: Principal, permission: Permission) {
    if permission == Attest then p.kind.GrantKind? && p.kind.row.container
    else permission == Land || exists r :: r in p.roles && (r, permission) in w.opGrants
  }

  predicate IsScoped(p: Principal) {
    p.scope.Some? || AttestedAgent(p).Some?
  }

  /** An op that names no task: refused to a caller held to one when it writes shared state, to a landing,
      and to an attested reviewer not yet bound. */
  function Untargeted(p: Principal, request: Request): Result<Admit, Refusal> {
    if request.target.Shared? && IsScoped(p) then Err(Forbidden)
    else if request.permission == Land then Err(Forbidden)
    else if p.scope.None? && AttestedAgent(p).Some? && request.shape.ReviewRound? then Err(Forbidden)
    else Ok(Run)
  }

  /** An op on the task `target`, once its class is granted: inside the caller's scope, or binding an
      attested subagent that has none. */
  function Targeted(w: World, p: Principal, request: Request, target: Task): Result<Admit, Refusal> {
    if p.scope.Some? then (if InScope(w, p.scope.value, target) then Ok(Run) else Err(Forbidden))
    else if AttestedAgent(p).None? then Ok(Run)
    else if request.shape.Move? then Err(Forbidden)
    else Ok(BindThenRun(AttestedAgent(p).value, target))
  }

  ghost predicate LandClassAllowed(w: World, p: Principal, request: Request, target: Task) {
    request.permission == Land ==>
      if request.shape.Landing? then LandingAllowed(w, p.roles, target, request.shape.landed)
      else MayLand(Current(w, target), p.roles) && !IsSettled(Current(w, target).phase)
  }

  /** May `p` run `request`? */
  ghost function Authorize(w: World, p: Principal, request: Request): Result<Admit, Refusal> {
    if Operator in p.roles then Ok(Run)
    else if p.roles == {} || !RoleAllows(w, p, request.permission) then Err(Forbidden)
    else if request.permission == Attest then Ok(Run)
    else if !request.target.OneTask? then Untargeted(p, request)
    else if request.target.reference !in w.refs then Ok(Run)
    else
      var target := w.refs[request.target.reference];
      if !LandClassAllowed(w, p, request, target) then Err(Forbidden)
      else Targeted(w, p, request, target)
  }

  /** [`Authorize`], decided step by step as the daemon does, reading the gate's findings in chunks. */
  method Decide(w: World, p: Principal, request: Request) returns (r: Result<Admit, Refusal>)
    requires LandGate.DistinctRounds(w.reviews.ledger)
    ensures r == Authorize(w, p, request)
    ensures r.Err? ==> r.error == Forbidden
    // Who may, over the request, the caller and the tables.
    ensures
      var attested := p.kind.TicketKind? && p.kind.ticket.agentId.Some?;
      r.Ok? <==>
      || Operator in p.roles
      || (&& p.roles != {}
          && (match request.permission
              case Attest => p.kind.GrantKind? && p.kind.row.container
              case Land => true
              case _ => exists role :: role in p.roles && (role, request.permission) in w.opGrants)
          && (request.permission == Attest
              || match request.target
                 case OneTask(reference) =>
                   reference in w.refs ==>
                     var task := w.refs[reference];
                     && (p.scope.Some? ==> p.scope.value == task || (p.scope.value, task) in w.scope)
                     && (p.scope.None? && attested ==> !request.shape.Move?)
                     && (request.permission == Land ==>
                           var wf := if task in w.workflows then w.workflows[task] else w.newWorkflow;
                           var open := wf.phase != LandedPhase && wf.phase != Cancelled;
                           && p.roles * wf.lands != {}
                           && match request.shape
                              case Landing(_, landed) =>
                                || (&& wf.phase == LandedPhase && wf.landing.Some?
                                    && wf.landing.value.onto == Some(landed.onto)
                                    && wf.landing.value.branch == Some(landed.branch)
                                    && (wf.landing.value.commit.None? || landed.head.None?
                                        || wf.landing.value.commit == landed.head))
                                || (open && LandGate.Approved(w.reviews.ledger,
                                                              LandGate.GroupStates(w.reviews, task, landed.branch),
                                                              landed.head))
                              case _ => open)
                 case Shared => request.permission != Land && p.scope.None? && !attested
                 case Free =>
                   request.permission != Land && (p.scope.None? && attested ==> !request.shape.ReviewRound?)))
    // And what it does first: an attested subagent held to no task is bound to the one it names.
    ensures
      r.Ok? ==>
        r.value == if && Operator !in p.roles && request.permission != Attest && p.scope.None?
                      && p.kind.TicketKind? && p.kind.ticket.agentId.Some?
                      && request.target.OneTask? && request.target.reference in w.refs
                   then BindThenRun(Agent(p.kind.ticket.session, p.kind.ticket.agentId.value),
                                    w.refs[request.target.reference])
                   else Run
    ensures r.Ok? && Operator !in p.roles && request.permission == Land && request.shape.Landing?
            && request.target.OneTask? && request.target.reference in w.refs ==>
              LandingReviewed(w, p, w.refs[request.target.reference], request.shape.landed)
  {
    if Operator in p.roles {
      return Ok(Run);
    }
    if p.roles == {} || !RoleAllows(w, p, request.permission) {
      return Err(Forbidden);
    }
    if request.permission == Attest {
      return Ok(Run);
    }
    if !request.target.OneTask? {
      return Untargeted(p, request);
    }
    if request.target.reference !in w.refs {
      return Ok(Run);
    }
    var target := w.refs[request.target.reference];
    if request.permission == Land {
      var ok := AdmitLanding(w, p, request, target);
      if !ok {
        return Err(Forbidden);
      }
    }
    return Targeted(w, p, request, target);
  }

  /** What an admitted landing rests on: a role the task's strategy lets land, and the recorded landing repeated with
      the workflow parked at `landed`, or an unsettled workflow and a head the reviewers' records approve. */
  ghost predicate LandingReviewed(w: World, p: Principal, task: Task, landed: Landed) {
    var wf := Current(w, task);
    && p.roles * wf.lands != {}
    && (|| (RepeatsLanding(wf, landed) && wf.phase == LandedPhase)
        || (!IsSettled(wf.phase) && landed.head.Some? && HeadApproved(w, task, landed)))
  }

  /** A landing admitted to anyone but the operator is reviewed, or repeats one that was. */
  lemma AdmittedLandingIsReviewed(w: World, p: Principal, request: Request)
    requires Operator !in p.roles
    requires request.permission == Land && request.shape.Landing?
    requires Authorize(w, p, request).Ok?
    requires request.target.OneTask? && request.target.reference in w.refs
    ensures LandingReviewed(w, p, w.refs[request.target.reference], request.shape.landed)
  {
  }

  /** A landing is asked about with one of the three ops and then with another, the records unchanged: both are decided
      alike, each reading the gate for itself. */
  method DecideTwice(w: World, p: Principal, reference: string, landed: Landed, a: LandVerb, b: LandVerb)
    returns (x: Result<Admit, Refusal>, y: Result<Admit, Refusal>)
    requires LandGate.DistinctRounds(w.reviews.ledger)
    ensures x == y
    ensures x.Ok? && Operator !in p.roles && reference in w.refs ==> LandingReviewed(w, p, w.refs[reference], landed)
  {
    x := Decide(w, p, Request(Land, OneTask(reference), Landing(a, landed)));
    y := Decide(w, p, Request(Land, OneTask(reference), Landing(b, landed)));
  }
}
