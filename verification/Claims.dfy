/** Task claims as compare-and-set transactions: `swap`, `start`, `take`, `locate` and `abandon`
    (crates/jkb-api/src/sessions.rs), `claim` and `release` (crates/jkb-api/src/tasks.rs) and `reclaim`
    (crates/jkb-api/src/claims.rs). */
module Claims {
  import opened Wrappers

  const MAX_OWNER_BYTES: nat := 512
  const MAX_DEAD_OWNERS: nat := 1000

  // ---------------------------------------------------------------------------------------
  // Tasks
  // ---------------------------------------------------------------------------------------

  datatype Status = Open | InProgress | NeedsReview | Finished | Cancelled

  predicate Terminal(s: Status) {
    s == Finished || s == Cancelled
  }

  datatype Place = Place(branch: string, repo: string, onto: Option<string>)

  datatype Labels = Labels(branch: Option<string>, onto: Option<string>)

  const NO_LABELS := Labels(None, None)

  function LabelsOf(p: Place): Labels {
    Labels(Some(p.branch), p.onto)
  }

  datatype Event = Start | Abandon | OwnerGone | Note | NoPullRequest | OtherEvent

  datatype Row = Row(event: Event, from: Status, to: Status, agent: Option<string>, labels: Labels)

  /** A task: how far it is, who holds it (as stored), where its work is, and its history. */
  datatype Task = Task(
    status: Status, holder: Option<string>, branch: Option<string>, repo: Option<string>, history: seq<Row>)

  datatype Code = NotFound | Forbidden | Invalid

  datatype Liveness = Process(host: string) | Worktree(dir: string) | External

  /** How owner ids read: the spelling one is stored in, the owner one parses to, and what could show it gone. */
  datatype Names = Names(canon: string -> string, agent: string -> string, liveness: string -> Liveness)

  /** Who asks: this host, or a client that may write only some tasks and sees only some directories. */
  datatype Caller = Local | Remote(serverHost: string, mayWrite: nat -> bool, sees: string -> bool)

  predicate OwnerOk(owner: string) {
    0 < |owner| <= MAX_OWNER_BYTES
  }

  /** An owner a claim may be taken as: in the spelling it would be stored in. */
  predicate NewOwnerOk(names: Names, owner: string) {
    OwnerOk(owner) && names.canon(owner) == owner
  }

  /** What stops `caller` writing task `id`. */
  function Blocked(tasks: seq<Task>, id: nat, caller: Caller): Option<Code> {
    if id >= |tasks| then Some(NotFound)
    else if caller.Remote? && !caller.mayWrite(id) then Some(Forbidden)
    else None
  }

  /** The branch the history last named, other than by finding no pull request for it. */
  function LatestBranch(history: seq<Row>): Option<string> {
    if history == [] then None
    else
      var last := history[|history| - 1];
      if last.labels.branch.Some? && last.event != NoPullRequest then last.labels.branch
      else LatestBranch(history[..|history| - 1])
  }

  /** Where the work lands, as the history last said since it was last abandoned. */
  function LandTarget(history: seq<Row>): Option<string> {
    if history == [] then None
    else
      var last := history[|history| - 1];
      if last.event == Abandon then None
      else if last.labels.onto.Some? then last.labels.onto
      else LandTarget(history[..|history| - 1])
  }

  // ---------------------------------------------------------------------------------------
  // What each operation does to its task
  // ---------------------------------------------------------------------------------------

  /** How a verb asks for a claim: the owner to hold it, and the owner the caller judged gone. */
  datatype Take = Take(owner: string, displace: Option<string>)

  datatype StartAsk = StartAsk(take: Option<Take>, keep: Option<string>, place: Place)

  datatype Abandoned = Abandoned(released: bool, reopened: bool, status: Status)

  /** What a transaction on one task comes to: the task it leaves and the answer, or an error. */
  datatype Outcome<T> = Kept(task: Task, answer: T) | Failed(code: Code)

  /** The claim is still what the caller read and judged. */
  predicate Judged(t: Task, take: Take) {
    if take.displace.Some? then t.holder == take.displace else t.holder == None || t.holder == Some(take.owner)
  }

  function Moved(t: Task, event: Event, to: Status, agent: Option<string>, labels: Labels): Task {
    t.(status := to, history := t.history + [Row(event, t.status, to, agent, labels)])
  }

  function Started(t: Task, owner: string, labels: Labels): Task {
    Moved(t, Start, InProgress, Some(owner), labels).(holder := Some(owner))
  }

  function Located(t: Task, place: Place): Task {
    t.(branch := Some(place.branch), repo := Some(place.repo))
  }

  function Noted(t: Task, labels: Labels): Task {
    Moved(t, Note, t.status, None, labels)
  }

  /** A swap under `take`: nothing when the claim changed hands, refused on a finished task, else `take.owner`'s. */
  function SwapOf(t: Task, take: Take, labels: Labels): Outcome<bool> {
    if !Judged(t, take) then Kept(t, false)
    else if Terminal(t.status) then Failed(Invalid)
    else Kept(Started(t, take.owner, labels), true)
  }

  function StartOf(names: Names, t: Task, ask: StartAsk): Outcome<bool> {
    match (ask.take, ask.keep)
    case (Some(take), None) =>
      if !NewOwnerOk(names, take.owner) then Failed(Invalid)
      else
        var x := SwapOf(t, take, LabelsOf(ask.place));
        if x.Kept? && x.answer then Kept(Located(x.task, ask.place), true) else x
    case (None, Some(kept)) =>
      if !OwnerOk(kept) then Failed(Invalid)
      else if t.holder != Some(kept) then Kept(t, false)
      else Kept(Noted(Located(t, ask.place), LabelsOf(ask.place)), true)
    case _ => Failed(Invalid)
  }

  function LocateOf(t: Task, owner: string, place: Place): Outcome<bool> {
    if t.holder != Some(owner) then Kept(t, false)
    else if LatestBranch(t.history) == Some(place.branch) && (place.onto.None? || LandTarget(t.history) == place.onto)
    then Kept(Located(t, place), true)
    else Kept(Noted(Located(t, place), LabelsOf(place)), true)
  }

  function AbandonOf(t: Task, observed: Option<string>): Outcome<Abandoned> {
    if t.holder.Some? && t.holder != observed then Kept(t, Abandoned(false, false, t.status))
    else
      var free := t.(holder := None);
      if Terminal(t.status) then Kept(free, Abandoned(true, false, t.status))
      else Kept(Moved(free, Abandon, Open, None, NO_LABELS), Abandoned(true, true, Open))
  }

  function ClaimOf(names: Names, t: Task, owner: string): Outcome<bool> {
    match t.holder
    case None => if Terminal(t.status) then Kept(t, false) else Kept(Started(t, owner, NO_LABELS), true)
    case Some(held) =>
      if held == owner then if Terminal(t.status) then Kept(t, false) else Kept(Started(t, owner, NO_LABELS), true)
      else if names.canon(held) == owner || Terminal(t.status) || names.agent(held) != names.agent(owner)
      then Kept(t, false)
      else Failed(Invalid)
  }

  function ReleaseOf(t: Task, owner: string): Outcome<bool> {
    if t.holder == Some(owner) then Kept(t.(holder := None), true) else Kept(t, false)
  }

  // ---------------------------------------------------------------------------------------
  // Transactions
  // ---------------------------------------------------------------------------------------

  /** The store after a transaction, and what it answered. */
  datatype Txn<T> = Txn(tasks: seq<Task>, answer: Result<T, Code>)

  /** Whether a task's line in its file would still come back from it, unless it did not already. */
  predicate LineHolds(readable: (nat, Task) -> bool, id: nat, was: Task, now: Task) {
    readable(id, was) ==> readable(id, now)
  }

  /** A transaction that fails, or leaves a line unreadable, is rolled back. */
  function Committed<T>(readable: (nat, Task) -> bool, tasks: seq<Task>, id: nat, x: Outcome<T>): Txn<T>
    requires id < |tasks|
  {
    match x
    case Failed(code) => Txn(tasks, Err(code))
    case Kept(t, answer) =>
      if LineHolds(readable, id, tasks[id], t) then Txn(tasks[id := t], Ok(answer)) else Txn(tasks, Err(Invalid))
  }

  function StartTxn(world: World, tasks: seq<Task>, id: nat, ask: StartAsk, caller: Caller): Txn<bool> {
    if !world.placeOk(ask.place) then Txn(tasks, Err(Invalid))
    else
      var why := Blocked(tasks, id, caller);
      if why.Some? then Txn(tasks, Err(why.value))
      else Committed(world.readable, tasks, id, StartOf(world.names, tasks[id], ask))
  }

  function TakeTxn(world: World, tasks: seq<Task>, id: nat, take: Take, place: Place, caller: Caller): Txn<bool> {
    if !NewOwnerOk(world.names, take.owner) || !world.placeOk(place) || place.onto.None? then Txn(tasks, Err(Invalid))
    else
      var why := Blocked(tasks, id, caller);
      if why.Some? then Txn(tasks, Err(why.value))
      else if !LineHolds(world.readable, id, tasks[id], Located(tasks[id], place)) then Txn(tasks, Err(Invalid))
      else Committed(world.readable, tasks, id, SwapOf(tasks[id], take, NO_LABELS))
  }

  function LocateTxn(world: World, tasks: seq<Task>, id: nat, owner: string, place: Place, caller: Caller): Txn<bool> {
    if !OwnerOk(owner) || !world.placeOk(place) then Txn(tasks, Err(Invalid))
    else
      var why := Blocked(tasks, id, caller);
      if why.Some? then Txn(tasks, Err(why.value))
      else Committed(world.readable, tasks, id, LocateOf(tasks[id], owner, place))
  }

  function AbandonTxn(world: World, tasks: seq<Task>, id: nat, observed: Option<string>,
                      caller: Caller): Txn<Abandoned> {
    if observed.Some? && !OwnerOk(observed.value) then Txn(tasks, Err(Invalid))
    else
      var why := Blocked(tasks, id, caller);
      if why.Some? then Txn(tasks, Err(why.value))
      else Committed(world.readable, tasks, id, AbandonOf(tasks[id], observed))
  }

  function ClaimTxn(world: World, tasks: seq<Task>, id: nat, owner: string, caller: Caller): Txn<bool> {
    if !NewOwnerOk(world.names, owner) then Txn(tasks, Err(Invalid))
    else
      var why := Blocked(tasks, id, caller);
      if why.Some? then Txn(tasks, Err(why.value))
      else Committed(world.readable, tasks, id, ClaimOf(world.names, tasks[id], owner))
  }

  function ReleaseTxn(world: World, tasks: seq<Task>, id: nat, owner: string, caller: Caller): Txn<bool> {
    if !OwnerOk(owner) then Txn(tasks, Err(Invalid))
    else
      var why := Blocked(tasks, id, caller);
      if why.Some? then Txn(tasks, Err(why.value))
      else Committed(world.readable, tasks, id, ReleaseOf(tasks[id], owner))
  }

  /** What the operations are told by the code around them: how owners read, which task lines come back from their file,
      and which places are well formed. */
  datatype World = World(names: Names, readable: (nat, Task) -> bool, placeOk: Place -> bool)

  // ---------------------------------------------------------------------------------------
  // Reclaiming
  // ---------------------------------------------------------------------------------------

  datatype Reclaimed = Reclaimed(cleared: seq<nat>, refused: seq<string>, unwritable: seq<nat>)

  /** Whether `caller` can have proved `owner` gone. */
  predicate Provable(names: Names, caller: Caller, owner: string) {
    match names.liveness(owner)
    case External => false
    case Process(host) => !(caller.Remote? && host == caller.serverHost)
    case Worktree(dir) => caller.Remote? ==> caller.sees(dir)
  }

  function Unprovable(names: Names, caller: Caller, dead: seq<string>): seq<string> {
    if dead == [] then []
    else
      var last := dead[|dead| - 1];
      Unprovable(names, caller, dead[..|dead| - 1]) + if Provable(names, caller, last) then [] else [last]
  }

  predicate HeldByGone(names: Names, caller: Caller, dead: seq<string>, t: Task) {
    t.holder.Some? && t.holder.value in dead && Provable(names, caller, t.holder.value)
  }

  predicate MayWrite(caller: Caller, id: nat) {
    caller.Remote? ==> caller.mayWrite(id)
  }

  predicate Frees(names: Names, caller: Caller, dead: seq<string>, id: nat, t: Task) {
    HeldByGone(names, caller, dead, t) && MayWrite(caller, id) && !Terminal(t.status)
  }

  /** A task after the reclaim: its claim is dropped through the spelling its owner parses back to, so a claim stored in
      another spelling stays. */
  function ReclaimOf(names: Names, caller: Caller, dead: seq<string>, id: nat, t: Task): Task {
    if !Frees(names, caller, dead, id, t) then t
    else
      var moved := Moved(t, OwnerGone, t.status, None, NO_LABELS);
      if names.canon(t.holder.value) == t.holder.value then moved.(holder := None) else moved
  }

  function ReclaimAll(names: Names, caller: Caller, dead: seq<string>, tasks: seq<Task>): (r: seq<Task>)
    ensures |r| == |tasks|
  {
    seq(|tasks|, i requires 0 <= i < |tasks| => ReclaimOf(names, caller, dead, i, tasks[i]))
  }

  /** The ids below `k` of the claims reported freed. */
  function ClearedIds(names: Names, caller: Caller, dead: seq<string>, tasks: seq<Task>, k: nat): seq<nat>
    requires k <= |tasks|
  {
    if k == 0 then []
    else ClearedIds(names, caller, dead, tasks, k - 1)
         + if Frees(names, caller, dead, k - 1, tasks[k - 1]) then [k - 1] else []
  }

  function UnwritableIds(names: Names, caller: Caller, dead: seq<string>, tasks: seq<Task>, k: nat): seq<nat>
    requires k <= |tasks|
  {
    if k == 0 then []
    else UnwritableIds(names, caller, dead, tasks, k - 1)
         + if HeldByGone(names, caller, dead, tasks[k - 1]) && !MayWrite(caller, k - 1) then [k - 1] else []
  }

  predicate LinesHold(world: World, caller: Caller, dead: seq<string>, tasks: seq<Task>) {
    forall i :: 0 <= i < |tasks| ==>
      LineHolds(world.readable, i, tasks[i], ReclaimOf(world.names, caller, dead, i, tasks[i]))
  }

  function ReclaimTxn(world: World, tasks: seq<Task>, dead: seq<string>, caller: Caller): Txn<Reclaimed> {
    if |dead| > MAX_DEAD_OWNERS || exists i :: 0 <= i < |dead| && !OwnerOk(dead[i]) then Txn(tasks, Err(Invalid))
    else if !LinesHold(world, caller, dead, tasks) then Txn(tasks, Err(Invalid))
    else Txn(ReclaimAll(world.names, caller, dead, tasks),
             Ok(Reclaimed(ClearedIds(world.names, caller, dead, tasks, |tasks|), Unprovable(world.names, caller, dead),
                          UnwritableIds(world.names, caller, dead, tasks, |tasks|))))
  }

  // ---------------------------------------------------------------------------------------
  // The store
  // ---------------------------------------------------------------------------------------

  datatype Lifecycle = LifecycleMoved | LifecycleRefused

  class Store {
    const world: World
    var tasks: seq<Task>

    constructor (world: World)
      ensures this.world == world && tasks == []
    {
      this.world, tasks := world, [];
    }

    // --- the claim columns ---------------------------------------------------------------

    /** Drop the claim only while `owner` holds it. */
    method ClearIf(id: nat, owner: string) returns (cleared: bool)
      requires id < |tasks|
      modifies this
      ensures cleared <==> old(tasks[id].holder) == Some(owner)
      ensures tasks == if cleared then old(tasks)[id := old(tasks[id]).(holder := None)] else old(tasks)
    {
      if tasks[id].holder != Some(owner) {
        return false;
      }
      tasks := tasks[id := tasks[id].(holder := None)];
      return true;
    }

    /** Take the claim when it is free or already `owner`'s, byte for byte, and start the task. */
    method ClaimFor(id: nat, owner: string) returns (r: Result<bool, Code>)
      requires id < |tasks|
      modifies this
      ensures r.Err? <==> Terminal(old(tasks[id].status))
      ensures r.Err? ==> r.error == Invalid
      ensures r.Ok? ==> (r.value <==> old(tasks[id].holder) in {None, Some(owner)})
      ensures tasks == if r == Ok(true)
                       then old(tasks)[id := old(tasks[id]).(holder := Some(owner), status := InProgress)]
                       else old(tasks)
    {
      var t := tasks[id];
      if Terminal(t.status) {
        return Err(Invalid);
      }
      if !(t.holder == None || t.holder == Some(owner)) {
        return Ok(false);
      }
      tasks := tasks[id := t.(holder := Some(owner), status := InProgress)];
      return Ok(true);
    }

    method Record(id: nat, event: Event, from: Status, agent: Option<string>, labels: Labels)
      requires id < |tasks|
      modifies this
      ensures tasks == old(tasks)[id := old(tasks[id]).(
                         history := old(tasks[id].history) + [Row(event, from, old(tasks[id].status), agent, labels)])]
    {
      var t := tasks[id];
      tasks := tasks[id := t.(history := t.history + [Row(event, from, t.status, agent, labels)])];
    }

    // --- the lifecycle -------------------------------------------------------------------

    /** Start the task for `actor`: refused on a finished task and on one another owner holds; an error when its holder
        only parses as `actor`. */
    method PerformStart(id: nat, actor: string, labels: Labels) returns (r: Result<Lifecycle, Code>)
      requires id < |tasks|
      modifies this
      ensures var t, owner := old(tasks[id]), world.names.canon(actor);
              var held := t.holder.Some? && t.holder != Some(owner);
              && (r == Ok(LifecycleRefused) <==>
                    || Terminal(t.status)
                    || (t.holder.Some? && world.names.agent(t.holder.value) != world.names.agent(actor)))
              && (r == Ok(LifecycleRefused) ==> tasks == old(tasks))
              && (r == Ok(LifecycleMoved) ==> !held && tasks == old(tasks)[id := Started(t, owner, labels)])
              && (r.Err? ==> held && r.error == Invalid && |tasks| == |old(tasks)|)
    {
      var t := tasks[id];
      if Terminal(t.status) || (t.holder.Some? && world.names.agent(t.holder.value) != world.names.agent(actor)) {
        return Ok(LifecycleRefused);
      }
      var owner := world.names.canon(actor);
      var claimed := ClaimFor(id, owner);
      if claimed != Ok(true) {
        return Err(Invalid);
      }
      Record(id, Event.Start, t.status, Some(owner), labels);
      assert tasks == old(tasks)[id := Started(t, owner, labels)];
      return Ok(LifecycleMoved);
    }

    /** Put an unfinished task back and drop whatever claim it has. */
    method PerformAbandon(id: nat) returns (r: Lifecycle)
      requires id < |tasks|
      modifies this
      ensures r == LifecycleRefused <==> Terminal(old(tasks[id].status))
      ensures tasks == if r == LifecycleRefused then old(tasks)
                       else
                         var moved := Moved(old(tasks[id]), Event.Abandon, Open, None, NO_LABELS);
                         old(tasks)[id := moved.(holder := None)]
    {
      var t := tasks[id];
      if Terminal(t.status) {
        return LifecycleRefused;
      }
      tasks := tasks[id := t.(status := Open)];
      tasks := tasks[id := tasks[id].(holder := None)];
      Record(id, Event.Abandon, t.status, None, NO_LABELS);
      return LifecycleMoved;
    }

    /** Take the claim of an owner proved gone: a compare-and-set on the spelling `owner` parses back to. */
    method PerformOwnerGone(id: nat, owner: string) returns (r: Lifecycle)
      requires id < |tasks|
      modifies this
      ensures r == LifecycleRefused <==> Terminal(old(tasks[id].status))
      ensures var t := old(tasks[id]);
              var free := t.holder == Some(world.names.canon(owner));
              var moved := Moved(t, OwnerGone, t.status, None, NO_LABELS);
              tasks == if r == LifecycleRefused then old(tasks)
                       else old(tasks)[id := if free then moved.(holder := None) else moved]
    {
      var t := tasks[id];
      if Terminal(t.status) {
        return LifecycleRefused;
      }
      var cleared := ClearIf(id, world.names.canon(owner));
      Record(id, OwnerGone, t.status, None, NO_LABELS);
      return LifecycleMoved;
    }

    method SetPlace(id: nat, place: Place)
      requires id < |tasks|
      modifies this
      ensures tasks == old(tasks)[id := Located(old(tasks[id]), place)]
    {
      tasks := tasks[id := tasks[id].(repo := Some(place.repo))];
      tasks := tasks[id := tasks[id].(branch := Some(place.branch))];
    }

    /** Close a transaction on task `id`: roll back to `was` on an error, or when the task's line would no longer read
        back. */
    method Commit<T>(was: seq<Task>, id: nat, r: Result<T, Code>) returns (out: Result<T, Code>)
      requires id < |was| == |tasks|
      modifies this
      ensures out == if r.Ok? && !LineHolds(world.readable, id, was[id], old(tasks[id])) then Err(Invalid) else r
      ensures tasks == if out.Err? then was else old(tasks)
    {
      if r.Ok? && !LineHolds(world.readable, id, was[id], tasks[id]) {
        tasks := was;
        return Err(Invalid);
      }
      if r.Err? {
        tasks := was;
      }
      return r;
    }

    // --- the operations ------------------------------------------------------------------

    /** Move the claim to `take.owner` while it is still what the caller judged. */
    method Swap(id: nat, take: Take, labels: Labels) returns (r: Result<bool, Code>)
      requires id < |tasks| && NewOwnerOk(world.names, take.owner)
      modifies this
      ensures |tasks| == |old(tasks)|
      ensures match SwapOf(old(tasks[id]), take, labels)
              case Failed(code) => r == Err(code)
              case Kept(t, answer) => r == Ok(answer) && tasks == old(tasks)[id := t]
    {
      var judged;
      match take.displace {
        case Some(prev) => judged := ClearIf(id, prev);
        case None => judged := tasks[id].holder == None || tasks[id].holder == Some(take.owner);
      }
      if !judged {
        return Ok(false);
      }
      var outcome := PerformStart(id, take.owner, labels);
      match outcome {
        case Err(code) => return Err(code);
        case Ok(LifecycleRefused) => return Err(Invalid);
        case Ok(LifecycleMoved) => return Ok(true);
      }
    }

    method Start(id: nat, ask: StartAsk, caller: Caller) returns (r: Result<bool, Code>)
      modifies this
      ensures Txn(tasks, r) == StartTxn(world, old(tasks), id, ask, caller)
    {
      if !world.placeOk(ask.place) {
        return Err(Invalid);
      }
      var why := Blocked(tasks, id, caller);
      if why.Some? {
        return Err(why.value);
      }
      var was := tasks;
      var recorded := false;
      match (ask.take, ask.keep) {
        case (Some(take), None) =>
          if !NewOwnerOk(world.names, take.owner) {
            return Err(Invalid);
          }
          r := Swap(id, take, LabelsOf(ask.place));
          recorded := true;
        case (None, Some(kept)) =>
          if !OwnerOk(kept) {
            return Err(Invalid);
          }
          r := Ok(tasks[id].holder == Some(kept));
        case _ =>
          return Err(Invalid);
      }
      if r == Ok(true) {
        SetPlace(id, ask.place);
        if !recorded {
          Record(id, Note, tasks[id].status, None, LabelsOf(ask.place));
        }
      }
      r := Commit(was, id, r);
    }

    method Take(id: nat, take: Take, place: Place, caller: Caller) returns (r: Result<bool, Code>)
      modifies this
      ensures Txn(tasks, r) == TakeTxn(world, old(tasks), id, take, place, caller)
    {
      if !NewOwnerOk(world.names, take.owner) || !world.placeOk(place) || place.onto.None? {
        return Err(Invalid);
      }
      var why := Blocked(tasks, id, caller);
      if why.Some? {
        return Err(why.value);
      }
      var was := tasks;
      SetPlace(id, place);
      var tried := LineHolds(world.readable, id, was[id], tasks[id]);
      tasks := was;
      if !tried {
        return Err(Invalid);
      }
      r := Swap(id, take, NO_LABELS);
      r := Commit(was, id, r);
    }

    method Locate(id: nat, owner: string, place: Place, caller: Caller) returns (r: Result<bool, Code>)
      modifies this
      ensures Txn(tasks, r) == LocateTxn(world, old(tasks), id, owner, place, caller)
    {
      if !OwnerOk(owner) || !world.placeOk(place) {
        return Err(Invalid);
      }
      var why := Blocked(tasks, id, caller);
      if why.Some? {
        return Err(why.value);
      }
      var was := tasks;
      r := Ok(false);
      if tasks[id].holder == Some(owner) {
        SetPlace(id, place);
        var branchKnown := LatestBranch(tasks[id].history) == Some(place.branch);
        var ontoKnown := place.onto.None? || LandTarget(tasks[id].history) == place.onto;
        if !(branchKnown && ontoKnown) {
          Record(id, Note, tasks[id].status, None, LabelsOf(place));
        }
        r := Ok(true);
      }
      r := Commit(was, id, r);
    }

    method Abandon(id: nat, observed: Option<string>, caller: Caller) returns (r: Result<Abandoned, Code>)
      modifies this
      ensures Txn(tasks, r) == AbandonTxn(world, old(tasks), id, observed, caller)
    {
      if observed.Some? && !OwnerOk(observed.value) {
        return Err(Invalid);
      }
      var why := Blocked(tasks, id, caller);
      if why.Some? {
        return Err(why.value);
      }
      var was := tasks;
      var unjudged := false;
      match observed {
        case None =>
          unjudged := tasks[id].holder.Some?;
        case Some(prev) =>
          var cleared := ClearIf(id, prev);
          unjudged := !cleared && tasks[id].holder.Some?;
      }
      if unjudged {
        r := Ok(Abandoned(false, false, tasks[id].status));
      } else {
        var outcome := PerformAbandon(id);
        r := Ok(Abandoned(true, outcome == LifecycleMoved, tasks[id].status));
      }
      r := Commit(was, id, r);
    }

    method Claim(id: nat, owner: string, caller: Caller) returns (r: Result<bool, Code>)
      modifies this
      ensures Txn(tasks, r) == ClaimTxn(world, old(tasks), id, owner, caller)
    {
      if !NewOwnerOk(world.names, owner) {
        return Err(Invalid);
      }
      var why := Blocked(tasks, id, caller);
      if why.Some? {
        return Err(why.value);
      }
      var was := tasks;
      var held := tasks[id].holder;
      if held.Some? && held.value != owner && world.names.canon(held.value) == owner {
        r := Ok(false);
      } else {
        var outcome := PerformStart(id, owner, NO_LABELS);
        match outcome {
          case Err(code) => r := Err(code);
          case Ok(moved) => r := Ok(moved == LifecycleMoved);
        }
      }
      r := Commit(was, id, r);
    }

    method Release(id: nat, owner: string, caller: Caller) returns (r: Result<bool, Code>)
      modifies this
      ensures Txn(tasks, r) == ReleaseTxn(world, old(tasks), id, owner, caller)
    {
      if !OwnerOk(owner) {
        return Err(Invalid);
      }
      var why := Blocked(tasks, id, caller);
      if why.Some? {
        return Err(why.value);
      }
      var was := tasks;
      var cleared := ClearIf(id, owner);
      r := Commit(was, id, Ok(cleared));
    }

    /** Sort the owners a client calls dead into those it can have proved gone and those it cannot. */
    method Judge(dead: seq<string>, caller: Caller) returns (r: Result<(set<string>, seq<string>), Code>)
      ensures r.Err? <==> exists i :: 0 <= i < |dead| && !OwnerOk(dead[i])
      ensures r.Err? ==> r.error == Invalid
      ensures r.Ok? ==> (forall o :: o in r.value.0 <==> o in dead && Provable(world.names, caller, o))
      ensures r.Ok? ==> r.value.1 == Unprovable(world.names, caller, dead)
    {
      var gone: set<string>, refused := {}, [];
      for i := 0 to |dead|
        invariant forall j :: 0 <= j < i ==> OwnerOk(dead[j])
        invariant forall o :: o in gone <==> o in dead[..i] && Provable(world.names, caller, o)
        invariant refused == Unprovable(world.names, caller, dead[..i])
      {
        var owner := dead[i];
        if !OwnerOk(owner) {
          return Err(Invalid);
        }
        assert dead[..i + 1][..i] == dead[..i];
        if Provable(world.names, caller, owner) {
          gone := gone + {owner};
        } else {
          refused := refused + [owner];
        }
      }
      assert dead[..|dead|] == dead;
      return Ok((gone, refused));
    }

    /** Drop the claims of those of the `dead` whose end the caller can have established, on tasks it may write. */
    method Reclaim(dead: seq<string>, caller: Caller) returns (r: Result<Reclaimed, Code>)
      modifies this
      ensures Txn(tasks, r) == ReclaimTxn(world, old(tasks), dead, caller)
    {
      if |dead| > MAX_DEAD_OWNERS {
        return Err(Invalid);
      }
      var judged := Judge(dead, caller);
      if judged.Err? {
        return Err(judged.error);
      }
      var was := tasks;
      var cleared, unwritable := Free(judged.value.0, caller, dead);
      var ok := LinesOf(was, cleared, caller, dead);
      if !ok {
        tasks := was;
        return Err(Invalid);
      }
      return Ok(Reclaimed(cleared, judged.value.1, unwritable));
    }

    method Free(gone: set<string>, caller: Caller, ghost dead: seq<string>)
      returns (cleared: seq<nat>, unwritable: seq<nat>)
      requires forall o :: o in gone <==> o in dead && Provable(world.names, caller, o)
      modifies this
      ensures tasks == ReclaimAll(world.names, caller, dead, old(tasks))
      ensures cleared == ClearedIds(world.names, caller, dead, old(tasks), |old(tasks)|)
      ensures unwritable == UnwritableIds(world.names, caller, dead, old(tasks), |old(tasks)|)
    {
      ghost var was := tasks;
      cleared, unwritable := [], [];
      for i := 0 to |tasks|
        invariant |tasks| == |was|
        invariant forall j :: 0 <= j < i ==> tasks[j] == ReclaimOf(world.names, caller, dead, j, was[j])
        invariant forall j :: i <= j < |was| ==> tasks[j] == was[j]
        invariant cleared == ClearedIds(world.names, caller, dead, was, i)
        invariant unwritable == UnwritableIds(world.names, caller, dead, was, i)
      {
        var held := tasks[i].holder;
        if held.Some? && held.value in gone {
          if MayWrite(caller, i) {
            var outcome := PerformOwnerGone(i, held.value);
            if outcome == LifecycleMoved {
              cleared := cleared + [i];
            }
          } else {
            unwritable := unwritable + [i];
          }
        }
      }
    }

    /** Whether every freed task's line still reads back. */
    method LinesOf(was: seq<Task>, cleared: seq<nat>, caller: Caller, ghost dead: seq<string>) returns (ok: bool)
      requires tasks == ReclaimAll(world.names, caller, dead, was)
      requires cleared == ClearedIds(world.names, caller, dead, was, |was|)
      ensures ok <==> LinesHold(world, caller, dead, was)
    {
      ClearedExactly(world.names, caller, dead, was, |was|);
      for k := 0 to |cleared|
        invariant forall j :: 0 <= j < k ==> cleared[j] < |was|
        invariant forall j :: 0 <= j < k ==> LineHolds(world.readable, cleared[j], was[cleared[j]], tasks[cleared[j]])
      {
        assert cleared[k] in cleared;
        if !LineHolds(world.readable, cleared[k], was[cleared[k]], tasks[cleared[k]]) {
          return false;
        }
      }
      forall i | 0 <= i < |was|
        ensures LineHolds(world.readable, i, was[i], tasks[i])
      {
        assert i in cleared || tasks[i] == was[i];
      }
      return true;
    }
  }

  lemma {:induction false} ClearedExactly(names: Names, caller: Caller, dead: seq<string>, tasks: seq<Task>, k: nat)
    requires k <= |tasks|
    ensures forall i: nat :: i in ClearedIds(names, caller, dead, tasks, k) <==>
            i < k && Frees(names, caller, dead, i, tasks[i])
  {
    if k > 0 {
      ClearedExactly(names, caller, dead, tasks, k - 1);
    }
  }

  // ---------------------------------------------------------------------------------------
  // Every run
  // ---------------------------------------------------------------------------------------

  datatype Op =
    | StartOp(id: nat, ask: StartAsk, caller: Caller)
    | TakeOp(id: nat, take: Take, place: Place, caller: Caller)
    | LocateOp(id: nat, owner: string, place: Place, caller: Caller)
    | AbandonOp(id: nat, observed: Option<string>, caller: Caller)
    | ClaimOp(id: nat, owner: string, caller: Caller)
    | ReleaseOp(id: nat, owner: string, caller: Caller)
    | ReclaimOp(dead: seq<string>, caller: Caller)

  /** What an operation answered, as far as all of them share it. */
  datatype Reply = Yes | No | Refused(code: Code)

  function Replied<T>(x: Txn<T>, yes: T -> bool): Reply {
    match x.answer
    case Err(code) => Refused(code)
    case Ok(a) => if yes(a) then Yes else No
  }

  function After(world: World, tasks: seq<Task>, op: Op): seq<Task> {
    match op
    case StartOp(id, ask, caller) => StartTxn(world, tasks, id, ask, caller).tasks
    case TakeOp(id, take, place, caller) => TakeTxn(world, tasks, id, take, place, caller).tasks
    case LocateOp(id, owner, place, caller) => LocateTxn(world, tasks, id, owner, place, caller).tasks
    case AbandonOp(id, observed, caller) => AbandonTxn(world, tasks, id, observed, caller).tasks
    case ClaimOp(id, owner, caller) => ClaimTxn(world, tasks, id, owner, caller).tasks
    case ReleaseOp(id, owner, caller) => ReleaseTxn(world, tasks, id, owner, caller).tasks
    case ReclaimOp(dead, caller) => ReclaimTxn(world, tasks, dead, caller).tasks
  }

  function ReplyTo(world: World, tasks: seq<Task>, op: Op): Reply {
    match op
    case StartOp(id, ask, caller) => Replied(StartTxn(world, tasks, id, ask, caller), b => b)
    case TakeOp(id, take, place, caller) => Replied(TakeTxn(world, tasks, id, take, place, caller), b => b)
    case LocateOp(id, owner, place, caller) => Replied(LocateTxn(world, tasks, id, owner, place, caller), b => b)
    case AbandonOp(id, observed, caller) => Replied(AbandonTxn(world, tasks, id, observed, caller),
                                                    (a: Abandoned) => a.released)
    case ClaimOp(id, owner, caller) => Replied(ClaimTxn(world, tasks, id, owner, caller), b => b)
    case ReleaseOp(id, owner, caller) => Replied(ReleaseTxn(world, tasks, id, owner, caller), b => b)
    case ReclaimOp(dead, caller) => Replied(ReclaimTxn(world, tasks, dead, caller), (a: Reclaimed) => true)
  }

  /** An operation that names exactly `owner` as the one whose claim on `id` it may end. */
  predicate NamesOwner(op: Op, id: nat, owner: string) {
    match op
    case StartOp(i, ask, _) => i == id && ask.take.Some? && ask.take.value.displace == Some(owner)
    case TakeOp(i, take, _, _) => i == id && take.displace == Some(owner)
    case AbandonOp(i, observed, _) => i == id && observed == Some(owner)
    case ReleaseOp(i, o, _) => i == id && o == owner
    case ReclaimOp(dead, _) => owner in dead
    case LocateOp(_, _, _, _) => false
    case ClaimOp(_, _, _) => false
  }

  /** An operation that takes the claim on `id` for `owner`. */
  predicate TakesFor(op: Op, id: nat, owner: string) {
    match op
    case StartOp(i, ask, _) => i == id && ask.take.Some? && ask.take.value.owner == owner
    case TakeOp(i, take, _, _) => i == id && take.owner == owner
    case ClaimOp(i, o, _) => i == id && o == owner
    case _ => false
  }

  /** One step keeps every task, and changes a claim only as the operation says. */
  lemma StepChangesClaims(world: World, tasks: seq<Task>, op: Op, id: nat)
    requires id < |tasks|
    ensures |After(world, tasks, op)| == |tasks|
    ensures var was, now := tasks[id].holder, After(world, tasks, op)[id].holder;
            && (was.Some? && now != was ==> NamesOwner(op, id, was.value))
            && (now.Some? && now != was ==> TakesFor(op, id, now.value) && NewOwnerOk(world.names, now.value)
                                            && ReplyTo(world, tasks, op) == Yes)
  {
  }

  /** An operation that fails, or answers no, changes nothing. */
  lemma NoChangesNothing(world: World, tasks: seq<Task>, op: Op)
    requires ReplyTo(world, tasks, op) != Yes
    ensures After(world, tasks, op) == tasks
  {
  }

  /** What a run is made of: these operations, and other writes to the store, which may add tasks and move them on but
      leave every claim alone. */
  datatype Move = Do(op: Op) | Other

  predicate LeavesClaims(was: seq<Task>, now: seq<Task>) {
    && |was| <= |now|
    && (forall i :: 0 <= i < |was| ==> now[i].holder == was[i].holder)
    && (forall i :: |was| <= i < |now| ==> now[i].holder == None)
  }

  predicate Step(world: World, was: seq<Task>, m: Move, now: seq<Task>) {
    match m
    case Do(op) => now == After(world, was, op)
    case Other => LeavesClaims(was, now)
  }

  predicate StepAt(world: World, states: seq<seq<Task>>, moves: seq<Move>, i: nat)
    requires |states| == |moves| + 1 && i < |moves|
  {
    Step(world, states[i], moves[i], states[i + 1])
  }

  predicate IsRun(world: World, states: seq<seq<Task>>, moves: seq<Move>) {
    && |states| == |moves| + 1
    && forall i :: 0 <= i < |moves| ==> StepAt(world, states, moves, i)
  }

  lemma StepKeepsTasks(world: World, was: seq<Task>, m: Move, now: seq<Task>, id: nat)
    requires Step(world, was, m, now) && id < |was|
    ensures |was| <= |now|
    ensures was[id].holder.Some? && now[id].holder != was[id].holder ==>
            m.Do? && NamesOwner(m.op, id, was[id].holder.value)
    ensures now[id].holder.Some? && now[id].holder != was[id].holder ==>
              m.Do? && TakesFor(m.op, id, now[id].holder.value) && NewOwnerOk(world.names, now[id].holder.value)
              && ReplyTo(world, was, m.op) == Yes
  {
    if m.Do? {
      StepChangesClaims(world, was, m.op, id);
    }
  }

  predicate HeldBy(tasks: seq<Task>, id: nat, owner: string) {
    id < |tasks| && tasks[id].holder == Some(owner)
  }

  predicate NamedAt(moves: seq<Move>, k: int, id: nat, owner: string) {
    0 <= k < |moves| && moves[k].Do? && NamesOwner(moves[k].op, id, owner)
  }

  /** Over every run, a claim held by `owner` ends only at a step that named exactly `owner`. */
  lemma {:induction false} ClaimEndsOnlyByName(
    world: World, states: seq<seq<Task>>, moves: seq<Move>, i: nat, j: nat, id: nat, owner: string)
    requires IsRun(world, states, moves) && i <= j <= |moves|
    requires HeldBy(states[i], id, owner) && !HeldBy(states[j], id, owner)
    ensures exists k :: i <= k < j && NamedAt(moves, k, id, owner)
    decreases j - i
  {
    assert StepAt(world, states, moves, i);
    StepKeepsTasks(world, states[i], moves[i], states[i + 1], id);
    if HeldBy(states[i + 1], id, owner) {
      ClaimEndsOnlyByName(world, states, moves, i + 1, j, id, owner);
    } else {
      assert NamedAt(moves, i, id, owner);
    }
  }

  /** A taker's success, in a state of a run. */
  predicate TookAt(world: World, states: seq<seq<Task>>, moves: seq<Move>, i: nat, id: nat, owner: string)
    requires |states| == |moves| + 1
  {
    i < |moves| && moves[i].Do? && TakesFor(moves[i].op, id, owner) && ReplyTo(world, states[i], moves[i].op) == Yes
  }

  /** A taker that is answered yes holds the task, which is in progress, and its start ends the history. */
  lemma TakingHolds(world: World, tasks: seq<Task>, op: Op, id: nat, owner: string)
    requires TakesFor(op, id, owner) && ReplyTo(world, tasks, op) == Yes
    ensures id < |tasks| && HeldBy(After(world, tasks, op), id, owner) && NewOwnerOk(world.names, owner)
    ensures var was, now := tasks[id], After(world, tasks, op)[id];
            && !Terminal(was.status) && now.status == InProgress
            && (was.holder == None || was.holder == Some(owner) || NamesOwner(op, id, was.holder.value))
            && exists labels ::
                 now.history == was.history + [Row(Event.Start, was.status, InProgress, Some(owner), labels)]
  {
    var was, now := tasks[id], After(world, tasks, op)[id];
    var labels := now.history[|was.history|].labels;
    assert now.history == was.history + [Row(Event.Start, was.status, InProgress, Some(owner), labels)];
  }

  /** An operation on one task leaves every other task as it was. */
  lemma OnlyItsTask(world: World, tasks: seq<Task>, op: Op, other: nat)
    requires !op.ReclaimOp? && other < |tasks| && other != op.id
    ensures |After(world, tasks, op)| == |tasks| && After(world, tasks, op)[other] == tasks[other]
  {
  }

  /** Two workers never both take one task unless, after the first succeeded, some step named it as gone or done: no
      takeover discards a claim nobody judged. */
  lemma NoSilentTakeover(
    world: World, states: seq<seq<Task>>, moves: seq<Move>, i: nat, j: nat, id: nat, first: string, second: string)
    requires IsRun(world, states, moves) && i < j
    requires TookAt(world, states, moves, i, id, first) && TookAt(world, states, moves, j, id, second)
             && first != second
    ensures exists k :: i < k <= j && NamedAt(moves, k, id, first)
  {
    assert StepAt(world, states, moves, i) && StepAt(world, states, moves, j);
    TakingHolds(world, states[i], moves[i].op, id, first);
    TakingHolds(world, states[j], moves[j].op, id, second);
    ClaimEndsOnlyByName(world, states, moves, i + 1, j + 1, id, first);
  }

  /** Every claim is stored in the spelling its owner parses back to. */
  predicate Canonical(names: Names, tasks: seq<Task>) {
    forall i :: 0 <= i < |tasks| && tasks[i].holder.Some? ==>
        names.canon(tasks[i].holder.value) == tasks[i].holder.value
  }

  /** Claims taken through these operations stay canonically stored. */
  lemma {:induction false} RunKeepsCanonical(world: World, states: seq<seq<Task>>, moves: seq<Move>, n: nat)
    requires IsRun(world, states, moves) && n <= |moves| && Canonical(world.names, states[0])
    ensures Canonical(world.names, states[n])
  {
    if n > 0 {
      RunKeepsCanonical(world, states, moves, n - 1);
      var was, now := states[n - 1], states[n];
      assert StepAt(world, states, moves, n - 1);
      forall id | 0 <= id < |now| && now[id].holder.Some?
        ensures world.names.canon(now[id].holder.value) == now[id].holder.value
      {
        if id < |was| {
          StepKeepsTasks(world, was, moves[n - 1], now, id);
        } else {
          SameLength(world, was, moves[n - 1], now);
        }
      }
    }
  }

  lemma SameLength(world: World, was: seq<Task>, m: Move, now: seq<Task>)
    requires Step(world, was, m, now)
    ensures m.Do? ==> |was| == |now|
  {
  }

  // ---------------------------------------------------------------------------------------
  // Single operations
  // ---------------------------------------------------------------------------------------

  /** `abandon` answers `released` exactly when the task is unclaimed afterwards, and then it was unclaimed or held by
      exactly the owner the caller observed. */
  lemma ReleasedExactlyWhenFree(world: World, tasks: seq<Task>, id: nat, observed: Option<string>, caller: Caller)
    requires AbandonTxn(world, tasks, id, observed, caller).answer.Ok?
    ensures var x := AbandonTxn(world, tasks, id, observed, caller);
            && id < |tasks| == |x.tasks|
            && (x.answer.value.released <==> x.tasks[id].holder == None)
            && (x.answer.value.released <==> tasks[id].holder == None || tasks[id].holder == observed)
            && (x.answer.value.reopened <==> x.answer.value.released && !Terminal(tasks[id].status))
            && x.answer.value.status == x.tasks[id].status
            && (!x.answer.value.reopened ==> x.tasks[id].status == tasks[id].status)
            && (!x.answer.value.released ==> x.tasks == tasks)
  {
  }

  /** A claim `reclaim` reports freed is freed exactly when it was stored canonically; every other task is as it was. */
  lemma ReclaimFreesExactly(world: World, tasks: seq<Task>, dead: seq<string>, caller: Caller, id: nat)
    requires ReclaimTxn(world, tasks, dead, caller).answer.Ok? && id < |tasks|
    ensures var x := ReclaimTxn(world, tasks, dead, caller);
            var cleared := x.answer.value.cleared;
            && |x.tasks| == |tasks|
            && (id in cleared ==> tasks[id].holder.Some? && tasks[id].holder.value in dead
                                  && (x.tasks[id].holder == None <==>
                                      world.names.canon(tasks[id].holder.value) == tasks[id].holder.value))
            && (id in cleared ==>
                  x.tasks[id] == tasks[id].(
                    holder := x.tasks[id].holder,
                    history := tasks[id].history
                               + [Row(OwnerGone, tasks[id].status, tasks[id].status, None, Labels(None, None))]))
            && (id in cleared && x.tasks[id].holder.Some? ==> x.tasks[id].holder == tasks[id].holder)
            && (id !in cleared ==> x.tasks[id] == tasks[id])
  {
    ClearedExactly(world.names, caller, dead, tasks, |tasks|);
  }

  /** So, in a run that began with canonical claims, the claims reported freed are the ones freed. */
  lemma CanonicalReclaimIsHonest(world: World, tasks: seq<Task>, dead: seq<string>, caller: Caller, id: nat)
    requires ReclaimTxn(world, tasks, dead, caller).answer.Ok? && id < |tasks| && Canonical(world.names, tasks)
    ensures var x := ReclaimTxn(world, tasks, dead, caller);
            id in x.answer.value.cleared <==> tasks[id].holder.Some? && x.tasks[id].holder == None
  {
    ReclaimFreesExactly(world, tasks, dead, caller, id);
  }

  /** A claim written in an older spelling is reported freed and is not: the owner `host:007` is dropped as `host:7`. */
  lemma RespelledClaimIsReportedFreed() returns (world: World, tasks: seq<Task>)
    ensures var x := ReclaimTxn(world, tasks, ["host:007"], Local);
            x.answer.Ok? && x.answer.value.cleared == [0] && x.tasks[0].holder == Some("host:007") == tasks[0].holder
  {
    var names := Names((o: string) => if o == "host:007" then "host:7" else o, (o: string) => o,
                       (o: string) => Process("host"));
    world := World(names, (id: nat, t: Task) => true, (p: Place) => true);
    tasks := [Task(InProgress, Some("host:007"), None, None, [])];
    var dead := ["host:007"];
    assert dead[0] in dead && OwnerOk(dead[0]);
    assert Frees(names, Local, dead, 0, tasks[0]);
    assert ClearedIds(names, Local, dead, tasks, 0) == [];
    assert ClearedIds(names, Local, dead, tasks, 1) == [0];
  }

  /** Once a start or a locate has answered yes the history names where the work is, and the claim is still the one that
      was taken, kept or named. */
  lemma HistoryNamesThePlace(world: World, tasks: seq<Task>, op: Op)
    requires op.StartOp? || op.LocateOp?
    requires ReplyTo(world, tasks, op) == Yes
    ensures var place := if op.StartOp? then op.ask.place else op.place;
            var t := After(world, tasks, op)[op.id];
            && t.branch == Some(place.branch) && t.repo == Some(place.repo)
            && LatestBranch(t.history) == Some(place.branch)
            && (place.onto.Some? ==> LandTarget(t.history) == place.onto)
            && t.holder.Some?
  {
  }

  // ---------------------------------------------------------------------------------------
  // Each operation's answer, over the stored task
  // ---------------------------------------------------------------------------------------

  /** `claim` answers yes exactly on an unfinished task whose claim is free or byte-equal to the owner; it errs on a bad
      owner, a task that is not there or may not be written, a holder that only parses as the owner, or a line that
      would break. */
  lemma ClaimAnswersExactly(world: World, tasks: seq<Task>, id: nat, owner: string, caller: Caller)
    ensures
      var x := ClaimTxn(world, tasks, id, owner, caller);
      var good := 0 < |owner| <= 512 && world.names.canon(owner) == owner;
      var mine := id < |tasks| && (caller.Remote? ==> caller.mayWrite(id));
      && (!good ==> x == Txn(tasks, Err(Invalid)))
      && (good && id >= |tasks| ==> x == Txn(tasks, Err(NotFound)))
      && (good && id < |tasks| && !mine ==> x == Txn(tasks, Err(Forbidden)))
      && (good && mine ==>
            var t := tasks[id];
            var open := t.status != Finished && t.status != Cancelled;
            var taken := t.(holder := Some(owner), status := InProgress,
                            history := t.history + [Row(Event.Start, t.status, InProgress, Some(owner),
                                                        Labels(None, None))]);
            var lineOk := world.readable(id, t) ==> world.readable(id, taken);
            var free := t.holder == None || t.holder == Some(owner);
            var respelled := && t.holder.Some? && t.holder.value != owner
                             && world.names.agent(t.holder.value) == world.names.agent(owner)
                             && world.names.canon(t.holder.value) != owner;
            && (x.answer == Ok(true) <==> open && free && lineOk)
            && (x.answer == Err(Invalid) <==> open && ((free && !lineOk) || respelled))
            && x.answer in {Ok(true), Ok(false), Err(Invalid)}
            && x.tasks == if x.answer == Ok(true) then tasks[id := taken] else tasks)
  {
  }

  /** `take` answers yes exactly on an unfinished task whose claim is still what the caller judged: free or its own, or
      exactly the displaced owner's. */
  lemma TakeAnswersExactly(world: World, tasks: seq<Task>, id: nat, take: Take, place: Place, caller: Caller)
    requires 0 < |take.owner| <= 512 && world.names.canon(take.owner) == take.owner
    requires world.placeOk(place) && place.onto.Some?
    requires id < |tasks| && (caller.Remote? ==> caller.mayWrite(id))
    ensures
      var x := TakeTxn(world, tasks, id, take, place, caller);
      var t := tasks[id];
      var open := t.status != Finished && t.status != Cancelled;
      var judged := if take.displace.Some? then t.holder == take.displace
                    else t.holder == None || t.holder == Some(take.owner);
      var taken := t.(holder := Some(take.owner), status := InProgress,
                      history := t.history + [Row(Event.Start, t.status, InProgress, Some(take.owner),
                                                  Labels(None, None))]);
      var located := t.(branch := Some(place.branch), repo := Some(place.repo));
      var placeFits := world.readable(id, t) ==> world.readable(id, located);
      var lineOk := world.readable(id, t) ==> world.readable(id, taken);
      && (x.answer == Ok(true) <==> placeFits && judged && open && lineOk)
      && (x.answer == Ok(false) <==> placeFits && !judged)
      && (x.answer.Err? ==> x.answer.error == Invalid)
      && x.tasks == if x.answer == Ok(true) then tasks[id := taken] else tasks
  {
  }

  /** A `start` that takes answers yes exactly as `take` does, and places the task; one that keeps, exactly while the
      task is held by the owner named. */
  lemma StartAnswersExactly(world: World, tasks: seq<Task>, id: nat, ask: StartAsk, caller: Caller)
    requires world.placeOk(ask.place) && id < |tasks| && (caller.Remote? ==> caller.mayWrite(id))
    ensures
      var x := StartTxn(world, tasks, id, ask, caller);
      var t := tasks[id];
      var open := t.status != Finished && t.status != Cancelled;
      var placed := t.(branch := Some(ask.place.branch), repo := Some(ask.place.repo));
      var labels := Labels(Some(ask.place.branch), ask.place.onto);
      && (ask.take.Some? && ask.keep.None? ==>
            var take := ask.take.value;
            var good := 0 < |take.owner| <= 512 && world.names.canon(take.owner) == take.owner;
            var judged := if take.displace.Some? then t.holder == take.displace
                          else t.holder == None || t.holder == Some(take.owner);
            var taken := placed.(holder := Some(take.owner), status := InProgress,
                                 history := t.history + [Row(Event.Start, t.status, InProgress, Some(take.owner),
                                                             labels)]);
            var lineOk := world.readable(id, t) ==> world.readable(id, taken);
            && (x.answer == Ok(true) <==> good && judged && open && lineOk)
            && (x.answer == Ok(false) <==> good && !judged)
            && x.tasks == if x.answer == Ok(true) then tasks[id := taken] else tasks)
      && (ask.take.None? && ask.keep.Some? ==>
            var good := 0 < |ask.keep.value| <= 512;
            var kept := placed.(history := t.history + [Row(Note, t.status, t.status, None, labels)]);
            var lineOk := world.readable(id, t) ==> world.readable(id, kept);
            && (x.answer == Ok(true) <==> good && t.holder == ask.keep && lineOk)
            && (x.answer == Ok(false) <==> good && t.holder != ask.keep)
            && x.tasks == if x.answer == Ok(true) then tasks[id := kept] else tasks)
      && ((ask.take.Some? <==> ask.keep.Some?) ==> x == Txn(tasks, Err(Invalid)))
  {
  }

  /** `locate` answers yes exactly while the owner named holds the task, and notes the place only when the history does
      not say it already. */
  lemma LocateAnswersExactly(world: World, tasks: seq<Task>, id: nat, owner: string, place: Place, caller: Caller)
    requires world.placeOk(place) && id < |tasks| && (caller.Remote? ==> caller.mayWrite(id)) && 0 < |owner| <= 512
    ensures
      var x := LocateTxn(world, tasks, id, owner, place, caller);
      var t := tasks[id];
      var said := LatestBranch(t.history) == Some(place.branch)
                  && (place.onto.Some? ==> LandTarget(t.history) == place.onto);
      var placed := t.(branch := Some(place.branch), repo := Some(place.repo));
      var noted := if said then placed
                   else placed.(history := t.history + [Row(Note, t.status, t.status, None,
                                                            Labels(Some(place.branch), place.onto))]);
      var lineOk := world.readable(id, t) ==> world.readable(id, noted);
      && (x.answer == Ok(true) <==> t.holder == Some(owner) && lineOk)
      && (x.answer == Ok(false) <==> t.holder != Some(owner))
      && x.tasks == if x.answer == Ok(true) then tasks[id := noted] else tasks
  {
  }

  /** `release` answers yes exactly when its owner held the task, which is then free and otherwise as it was. */
  lemma ReleaseAnswersExactly(world: World, tasks: seq<Task>, id: nat, owner: string, caller: Caller)
    requires id < |tasks| && (caller.Remote? ==> caller.mayWrite(id)) && 0 < |owner| <= 512
    ensures
      var x := ReleaseTxn(world, tasks, id, owner, caller);
      var t := tasks[id];
      var lineOk := world.readable(id, t) ==> world.readable(id, t.(holder := None));
      && (x.answer == Ok(true) <==> t.holder == Some(owner) && lineOk)
      && (x.answer == Ok(false) <==> t.holder != Some(owner))
      && x.tasks == if x.answer == Ok(true) then tasks[id := t.(holder := None)] else tasks
  {
  }

  /** `abandon` frees a task that was free or held by the observed owner, reopens it unless it has finished, and leaves
      any other alone. */
  lemma AbandonAnswersExactly(world: World, tasks: seq<Task>, id: nat, observed: Option<string>, caller: Caller)
    requires id < |tasks| && (caller.Remote? ==> caller.mayWrite(id))
    requires observed.Some? ==> 0 < |observed.value| <= 512
    ensures
      var x := AbandonTxn(world, tasks, id, observed, caller);
      var t := tasks[id];
      var open := t.status != Finished && t.status != Cancelled;
      var mine := t.holder == None || t.holder == observed;
      var freed := if open then t.(holder := None, status := Open,
                                   history := t.history + [Row(Event.Abandon, t.status, Open, None,
                                                               Labels(None, None))])
                   else t.(holder := None);
      var lineOk := world.readable(id, t) ==> world.readable(id, freed);
      && (mine && lineOk ==> x == Txn(tasks[id := freed], Ok(Abandoned(true, open, freed.status))))
      && (mine && !lineOk ==> x == Txn(tasks, Err(Invalid)))
      && (!mine ==> x == Txn(tasks, Ok(Abandoned(false, false, t.status))))
  {
  }

  /** What each operation answers when it may not run at all: for the owner or the place first, then for the task. */
  lemma RefusalsExactly(world: World, tasks: seq<Task>, id: nat, owner: string, place: Place, caller: Caller)
    ensures
      var missing := id >= |tasks|;
      var barred := id < |tasks| && caller.Remote? && !caller.mayWrite(id);
      var good := 0 < |owner| <= 512;
      var canonical := good && world.names.canon(owner) == owner;
      var code := if missing then NotFound else Forbidden;
      && (!good ==>
            && ReleaseTxn(world, tasks, id, owner, caller) == Txn(tasks, Err(Invalid))
            && LocateTxn(world, tasks, id, owner, place, caller) == Txn(tasks, Err(Invalid))
            && AbandonTxn(world, tasks, id, Some(owner), caller) == Txn(tasks, Err(Invalid)))
      && (!canonical || !world.placeOk(place) || place.onto.None? ==>
            forall d :: TakeTxn(world, tasks, id, Take(owner, d), place, caller) == Txn(tasks, Err(Invalid)))
      && (!world.placeOk(place) ==>
            && LocateTxn(world, tasks, id, owner, place, caller) == Txn(tasks, Err(Invalid))
            && forall take, keep ::
                 StartTxn(world, tasks, id, StartAsk(take, keep, place), caller) == Txn(tasks, Err(Invalid)))
      && (good && (missing || barred) ==>
            && ReleaseTxn(world, tasks, id, owner, caller) == Txn(tasks, Err(code))
            && AbandonTxn(world, tasks, id, Some(owner), caller) == Txn(tasks, Err(code))
            && (world.placeOk(place) ==> LocateTxn(world, tasks, id, owner, place, caller) == Txn(tasks, Err(code))))
      && ((missing || barred) && world.placeOk(place) ==>
            && (forall take, keep ::
                  StartTxn(world, tasks, id, StartAsk(take, keep, place), caller) == Txn(tasks, Err(code)))
            && (canonical && place.onto.Some? ==>
                  forall d :: TakeTxn(world, tasks, id, Take(owner, d), place, caller) == Txn(tasks, Err(code))))
  {
  }

  /** Whether a caller can have proved an owner gone, over what could show it: never an owner nothing can show gone, and
      for a client never a process of the daemon's own host nor a checkout it does not see. */
  lemma ProvableExactly(names: Names, caller: Caller, owner: string)
    ensures Provable(names, caller, owner) <==>
            && names.liveness(owner) != External
            && (caller.Remote? && names.liveness(owner).Process? ==> names.liveness(owner).host != caller.serverHost)
            && (caller.Remote? && names.liveness(owner).Worktree? ==> caller.sees(names.liveness(owner).dir))
  {
  }

  /** What `reclaim` answers, over the owners and the tasks. */
  lemma ReclaimAnswersExactly(world: World, tasks: seq<Task>, dead: seq<string>, caller: Caller)
    requires ReclaimTxn(world, tasks, dead, caller).answer.Ok?
    ensures
      var a := ReclaimTxn(world, tasks, dead, caller).answer.value;
      && (forall o :: o in a.refused <==> o in dead && !Provable(world.names, caller, o))
      && (forall id: nat :: id in a.cleared <==>
            && id < |tasks| && tasks[id].holder.Some? && tasks[id].holder.value in dead
            && Provable(world.names, caller, tasks[id].holder.value) && (caller.Remote? ==> caller.mayWrite(id))
            && tasks[id].status != Finished && tasks[id].status != Cancelled)
      && (forall id: nat :: id in a.unwritable <==>
            && id < |tasks| && tasks[id].holder.Some? && tasks[id].holder.value in dead
            && Provable(world.names, caller, tasks[id].holder.value) && caller.Remote? && !caller.mayWrite(id))
  {
    ClearedExactly(world.names, caller, dead, tasks, |tasks|);
    UnwritableExactly(world.names, caller, dead, tasks, |tasks|);
    RefusedExactly(world.names, caller, dead);
  }

  lemma {:induction false} UnwritableExactly(names: Names, caller: Caller, dead: seq<string>, tasks: seq<Task>, k: nat)
    requires k <= |tasks|
    ensures forall i: nat :: i in UnwritableIds(names, caller, dead, tasks, k) <==>
              i < k && HeldByGone(names, caller, dead, tasks[i]) && !MayWrite(caller, i)
  {
    if k > 0 {
      UnwritableExactly(names, caller, dead, tasks, k - 1);
    }
  }

  lemma {:induction false} RefusedExactly(names: Names, caller: Caller, dead: seq<string>)
    ensures forall o :: o in Unprovable(names, caller, dead) <==> o in dead && !Provable(names, caller, o)
  {
    if dead != [] {
      RefusedExactly(names, caller, dead[..|dead| - 1]);
      assert dead == dead[..|dead| - 1] + [dead[|dead| - 1]];
    }
  }

  /** `reclaim` errs, changing nothing, exactly for too many owners, a malformed one, or a freed task's line that would
      break. */
  lemma ReclaimErrsExactly(world: World, tasks: seq<Task>, dead: seq<string>, caller: Caller)
    ensures
      var x := ReclaimTxn(world, tasks, dead, caller);
      && (x.answer.Err? ==> x == Txn(tasks, Err(Invalid)))
      && (x.answer.Err? <==>
            || |dead| > 1000 || (exists i :: 0 <= i < |dead| && !(0 < |dead[i]| <= 512))
            || exists i :: 0 <= i < |tasks| && world.readable(i, tasks[i])
                           && !world.readable(i, ReclaimOf(world.names, caller, dead, i, tasks[i])))
  {
    if i :| 0 <= i < |dead| && !(0 < |dead[i]| <= 512) {
      assert !OwnerOk(dead[i]);
    }
    if |dead| <= 1000 && (forall i :: 0 <= i < |dead| ==> OwnerOk(dead[i])) && !LinesHold(world, caller, dead, tasks) {
      var i :| 0 <= i < |tasks|
               && !LineHolds(world.readable, i, tasks[i], ReclaimOf(world.names, caller, dead, i, tasks[i]));
    }
  }

  /** The branch the history names is the last one a row gives, other than by finding no pull request. */
  lemma {:induction false} LatestBranchExactly(history: seq<Row>, b: string)
    ensures LatestBranch(history) == Some(b) <==>
            exists i :: 0 <= i < |history| && history[i].labels.branch == Some(b) && history[i].event != NoPullRequest
                        && forall j :: i < j < |history| ==>
                             history[j].labels.branch == None || history[j].event == NoPullRequest
  {
    if history != [] {
      var last := |history| - 1;
      var before := history[..last];
      assert forall k :: 0 <= k < last ==> before[k] == history[k];
      if history[last].labels.branch == None || history[last].event == NoPullRequest {
        LatestBranchExactly(before, b);
        BranchLater(history, before, b);
      }
    }
  }

  /** A row that gives no branch changes nothing. */
  lemma BranchLater(history: seq<Row>, before: seq<Row>, b: string)
    requires |history| == |before| + 1 && before == history[..|before|]
    requires history[|before|].labels.branch == None || history[|before|].event == NoPullRequest
    ensures (exists i :: 0 <= i < |history| && history[i].labels.branch == Some(b) && history[i].event != NoPullRequest
                         && forall j :: i < j < |history| ==>
                              history[j].labels.branch == None || history[j].event == NoPullRequest)
            <==>
            (exists i :: 0 <= i < |before| && before[i].labels.branch == Some(b) && before[i].event != NoPullRequest
                         && forall j :: i < j < |before| ==>
                              before[j].labels.branch == None || before[j].event == NoPullRequest)
  {
    assert forall k :: 0 <= k < |before| ==> before[k] == history[k];
    if i :| 0 <= i < |before| && before[i].labels.branch == Some(b) && before[i].event != NoPullRequest
            && forall j :: i < j < |before| ==> before[j].labels.branch == None || before[j].event == NoPullRequest {
      assert history[i] == before[i];
    }
    if i :| 0 <= i < |history| && history[i].labels.branch == Some(b) && history[i].event != NoPullRequest
            && forall j :: i < j < |history| ==>
                 history[j].labels.branch == None || history[j].event == NoPullRequest {
      assert before[i] == history[i];
    }
  }

  /** And the land target is the last one given since the last abandon. */
  lemma {:induction false} LandTargetExactly(history: seq<Row>, o: string)
    ensures LandTarget(history) == Some(o) <==>
            exists i :: 0 <= i < |history| && history[i].labels.onto == Some(o) && history[i].event != Event.Abandon
                        && forall j :: i < j < |history| ==>
                             history[j].labels.onto == None && history[j].event != Event.Abandon
  {
    if history != [] {
      var last := |history| - 1;
      var before := history[..last];
      assert forall k :: 0 <= k < last ==> before[k] == history[k];
      if history[last].labels.onto == None && history[last].event != Event.Abandon {
        LandTargetExactly(before, o);
        TargetLater(history, before, o);
      }
    }
  }

  lemma TargetLater(history: seq<Row>, before: seq<Row>, o: string)
    requires |history| == |before| + 1 && before == history[..|before|]
    requires history[|before|].labels.onto == None && history[|before|].event != Event.Abandon
    ensures (exists i :: 0 <= i < |history| && history[i].labels.onto == Some(o) && history[i].event != Event.Abandon
                         && forall j :: i < j < |history| ==>
                              history[j].labels.onto == None && history[j].event != Event.Abandon)
            <==>
            (exists i :: 0 <= i < |before| && before[i].labels.onto == Some(o) && before[i].event != Event.Abandon
                         && forall j :: i < j < |before| ==>
                              before[j].labels.onto == None && before[j].event != Event.Abandon)
  {
    assert forall k :: 0 <= k < |before| ==> before[k] == history[k];
    if i :| 0 <= i < |before| && before[i].labels.onto == Some(o) && before[i].event != Event.Abandon
            && forall j :: i < j < |before| ==> before[j].labels.onto == None && before[j].event != Event.Abandon {
      assert history[i] == before[i];
    }
    if i :| 0 <= i < |history| && history[i].labels.onto == Some(o) && history[i].event != Event.Abandon
            && forall j :: i < j < |history| ==>
                 history[j].labels.onto == None && history[j].event != Event.Abandon {
      assert before[i] == history[i];
    }
  }
}
