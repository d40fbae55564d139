/**
  Activation, suspension, the one-shot launcher (scripts/upgrade_lifecycle.py and launcher_spawn in
  scripts/upgrade_recovery.py) and the supervisor's journal row (scripts/ags-runtime.py), each a
  decision on the loaded journal followed by commits.
 */
module Lifecycle {
  import opened Basics
  import opened Journal

  // ---------------------------------------------------------------- activation and suspension

  datatype Completion = Completion(digest: string, s4Approval: string, epoch: int, host: Option<string>)

  datatype Approval = Approval(approves: bool, id: string, completion: string, host: Option<string>, digest: string)

  function HostOf(accepted: Completion, approval: Approval): string {
    if accepted.host.Some? && accepted.host.value != "" then accepted.host.value
    else if approval.host.Some? && approval.host.value != "" then approval.host.value
    else "host-1"
  }

  function ActivationBody(accepted: Completion, approval: Approval): Body {
    Body(PhaseOf(Activation(approval.id), "active"), Activation(approval.id), AuthorityActivated,
         HostOf(accepted, approval), accepted.digest, None, accepted.epoch, None, accepted.digest,
         "accepted", "active", Some(approval.digest), None, None)
  }

  function SuspensionBody(host: string, epoch: int, binding: string): Body {
    Body(PhaseOf(Suspension(epoch), "suspended"), Suspension(epoch), AuthoritySuspended,
         host, binding, None, epoch, None, binding, "active", "suspended", None, None, None)
  }

  predicate ActivatedBy(row: Event, approval: Approval, epoch: int) {
    row.body.kind.AuthorityActivated? && row.body.approval == Some(approval.digest) && row.body.epoch == epoch
  }

  /** The authority in the projection a commit returns. */
  function AuthorityOf(rows: seq<Event>, outcome: Outcome): Result<Option<Authority>, Error> {
    match outcome
    case Appended(row) => Ok(Project(rows + [row]).authority)
    case Replayed(_) => Ok(Project(rows).authority)
    case Refused(error) => Err(error)
    case Cut => Err(WriteFailed)
  }

  /** scripts/upgrade_lifecycle.py:40 */
  function Activate(d: Disk, accepted: Completion, approval: Approval, io: Io): (Disk, Result<Option<Authority>, Error>) {
    if !approval.approves then (d, Err(ApprovalInvalid))
    else if approval.id == accepted.s4Approval then (d, Err(ApprovalReused))
    else if approval.completion != accepted.digest || |accepted.digest| != 64 then (d, Err(CompletionMismatch))
    else
      var loaded := Load(d);
      if loaded.Err? then (d, Err(loaded.error))
      else
        var current := loaded.value.Authority();
        if exists i :: 0 <= i < |loaded.value.rows| && ActivatedBy(loaded.value.rows[i], approval, accepted.epoch)
        then (d, Ok(current))
        else if current.Some? && (current.value.active || accepted.epoch <= current.value.epoch)
        then (d, Err(AuthorityAlreadyBound))
        else
          var (d', outcome) := Commit(d, ActivationBody(accepted, approval), io);
          (d', AuthorityOf(loaded.value.rows, outcome))
  }

  predicate ActiveAt(authority: Option<Authority>, epoch: int) {
    authority.Some? && authority.value.active && authority.value.epoch == epoch
  }

  /** scripts/upgrade_lifecycle.py:101. The host is inherited from the newest row. */
  function Suspend(d: Disk, epoch: int, io: Io): (Disk, Result<Option<Authority>, Error>) {
    var loaded := Load(d);
    if loaded.Err? then (d, Err(loaded.error))
    else if !ActiveAt(loaded.value.Authority(), epoch) || loaded.value.rows == [] then (d, Err(AuthorityNotActive))
    else
      var rows := loaded.value.rows;
      var (d', outcome) := Commit(d, SuspensionBody(rows[|rows| - 1].body.host, epoch, loaded.value.Authority().value.binding), io);
      (d', AuthorityOf(rows, outcome))
  }

  // ---------------------------------------------------------------- launcher

  /** What the injected runner does. */
  datatype Response = Raises | Malformed | Running(generation: string)

  function LauncherBody(operation: OperationId, kind: Kind, before: string, after: string,
                        host: string, epoch: int, binding: string, desired: string, status: Status): Body {
    Body(PhaseOf(operation, after), operation, kind, host, binding, None, epoch, None, binding, before, after,
         None, None, Some(Effect(SpawnEffect(epoch), "spawn", "active", desired, status)))
  }

  function IntentBody(host: string, epoch: int, binding: string): Body {
    LauncherBody(LauncherSpawn(epoch), SpawnIntent, "active", "spawn_intent", host, epoch, binding, "intent", Intent)
  }

  function BlockedBody(host: string, epoch: int, binding: string): Body {
    LauncherBody(LauncherObserve(epoch), SpawnBlocked, "spawn_intent", "blocked", host, epoch, binding, "intent", Blocked)
  }

  function ObservedBody(host: string, epoch: int, binding: string, generation: string): Body {
    LauncherBody(LauncherObserve(epoch), GenerationSpawned, "spawn_intent", "running", host, epoch, binding, generation, Observed)
  }

  predicate SpawnedAt(row: Event, epoch: int) {
    row.body.kind.GenerationSpawned? && row.body.epoch == epoch
  }

  /** Somebody, the launcher or the supervisor, recorded a generation at that epoch. */
  predicate HasSpawned(rows: seq<Event>, epoch: int) {
    exists i :: 0 <= i < |rows| && SpawnedAt(rows[i], epoch)
  }

  predicate Fenced(rows: seq<Event>, epoch: int) {
    SpawnEffect(epoch) in Project(rows).pending || HasSpawned(rows, epoch)
  }

  datatype Spawn = Spawn(disk: Disk, called: bool, outcome: Outcome)

  /** scripts/upgrade_recovery.py:514. `called` says whether the runner was reached. */
  function LauncherSpawnCall(d: Disk, epoch: int, response: Response, intentIo: Io, observeIo: Io): Spawn {
    var loaded := Load(d);
    if loaded.Err? then Spawn(d, false, Refused(loaded.error))
    else
      var authority := loaded.value.Authority();
      if !ActiveAt(authority, epoch) || loaded.value.host.None? then Spawn(d, false, Refused(RestartFenced))
      else if Fenced(loaded.value.rows, epoch) then Spawn(d, false, Refused(OneshotConsumed))
      else
        var host, binding := loaded.value.host.value, authority.value.binding;
        var (d1, intent) := Commit(d, IntentBody(host, epoch, binding), intentIo);
        if !intent.Appended? && !intent.Replayed? then Spawn(d1, false, intent)
        else if response.Raises? then Spawn(d1, true, Refused(ObservationUnknown))
        else if response.Malformed? then
          Spawn(Commit(d1, BlockedBody(host, epoch, binding), observeIo).0, true, Refused(ObservationUnknown))
        else
          var (d2, observed) := Commit(d1, ObservedBody(host, epoch, binding, response.generation), observeIo);
          Spawn(d2, true, observed)
  }

  // ---------------------------------------------------------------- the supervisor

  /** The epoch the supervisor writes at, and the one it expects: those of the active authority, if there is one. */
  function SupervisorEpoch(rows: seq<Event>): (int, Option<int>) {
    var authority := Project(rows).authority;
    if authority.Some? && authority.value.active then (authority.value.epoch, Some(authority.value.epoch)) else (1, None)
  }

  /** The row of scripts/ags-runtime.py:373-376; host, identity and binding are those of the newest row. */
  function SupervisorBody(rows: seq<Event>, generation: string): Body
    requires rows != []
  {
    var newest, (epoch, expected) := rows[|rows| - 1].body, SupervisorEpoch(rows);
    var operation := Operation("supervise-spawn-" + generation);
    Body(PhaseOf(operation, "running"), operation, GenerationSpawned, newest.host, newest.identity, expected, epoch,
         None, newest.binding, "active", "running", None, None,
         Some(Effect(EffectNamed(generation), "spawn", "stopped", generation, Observed)))
  }

  /** scripts/ags-runtime.py:321-339 for a spawn; without a journal nothing is recorded. */
  function SuperviseSpawn(d: Disk, generation: string, io: Io): (Disk, Option<Outcome>) {
    if Format !in d.control then (d, None)
    else
      var loaded := Load(d);
      if loaded.Err? then (d, Some(Refused(loaded.error)))
      else if loaded.value.rows == [] then (d, Some(Refused(HostMismatch)))
      else
        var (d', outcome) := Commit(d, SupervisorBody(loaded.value.rows, generation), io);
        (d', Some(outcome))
  }

  // ---------------------------------------------------------------- runs

  datatype Action = DoCommit(body: Body, io: Io)
                  | DoActivate(accepted: Completion, approval: Approval, io: Io)
                  | DoSuspend(epoch: int, io: Io)
                  | DoSpawn(epoch: int, response: Response, io: Io, observeIo: Io)
                  | DoSupervise(generation: string, io: Io)

  function Perform(d: Disk, a: Action): Disk {
    match a
    case DoCommit(body, io) => Commit(d, body, io).0
    case DoActivate(accepted, approval, io) => Activate(d, accepted, approval, io).0
    case DoSuspend(epoch, io) => Suspend(d, epoch, io).0
    case DoSpawn(epoch, response, io, observeIo) => LauncherSpawnCall(d, epoch, response, io, observeIo).disk
    case DoSupervise(generation, io) => SuperviseSpawn(d, generation, io).0
  }

  /** Sequential actions; each may be stopped at any file step. */
  function Run(d: Disk, actions: seq<Action>): Disk
    decreases |actions|
  {
    if actions == [] then d else Run(Perform(d, actions[0]), actions[1..])
  }

  predicate CallsRunner(d: Disk, a: Action, epoch: int) {
    a.DoSpawn? && a.epoch == epoch && LauncherSpawnCall(d, epoch, a.response, a.io, a.observeIo).called
  }

  /** How often a run invokes the runner for one epoch. */
  function RunnerCalls(d: Disk, actions: seq<Action>, epoch: int): nat
    decreases |actions|
  {
    if actions == [] then 0
    else (if CallsRunner(d, actions[0], epoch) then 1 else 0) + RunnerCalls(Perform(d, actions[0]), actions[1..], epoch)
  }

  /** A commit of somebody else, who may well record generations: no lifecycle or blocked row, and an effect of its own. */
  predicate Unrelated(body: Body) {
    && body.operationId.Operation?
    && !body.kind.AuthorityActivated? && !body.kind.AuthoritySuspended? && !body.kind.SpawnBlocked?
    && (body.effect.Some? ==> !body.effect.value.id.SpawnEffect?)
  }

  predicate Orderly(a: Action) {
    a.DoCommit? ==> Unrelated(a.body)
  }
}
