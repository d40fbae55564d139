/** The cold phases and the recovery with the journal row that ends each phase (scripts/upgrade_recovery.py:247-262). */
module ColdWindowMirrors {
  import opened Basics
  import opened Journal
  import opened JournalRuns
  import opened JournalStore
  import opened LifecycleTheorems
  import opened Mirrors
  import W = ColdWindow
  import H = ColdWindowHost
  import R = ColdWindowRecovery

  /** What a window writes into every row: its generation and the parts of its binding. */
  datatype WindowIds = WindowIds(generation: string, host: string, identity: string, binding: string)

  function PhaseName(p: W.Phase): string {
    match p
    case Stopping => "stop"
    case Quiescent => "quiescent"
    case BackedUp => "backup"
    case RestoreVerified => "restore_verified"
    case InstallStarted => "install_started"
    case Installed => "installed"
    case StartAttempted => "start_attempted"
    case RecoveryAuthorized => "recovery_authorized"
    case OldRestored => "old_restored"
  }

  function PhaseBody(ids: WindowIds, before: W.Phase, p: W.Phase): (body: Body)
    ensures Literal(body) && body.host == ids.host
  {
    var operation := Operation("cold-" + ids.generation + "-" + PhaseName(p));
    Body(PhaseOf(operation, PhaseName(p)), operation, OtherKind("cold_" + PhaseName(p)), ids.host, ids.identity, None, 1,
         Some(ids.generation), ids.binding, PhaseName(before), PhaseName(p), None, None, None)
  }

  /** The window and the journal a call leaves, and whether it returned normally. */
  datatype Left = Left(window: W.System, journal: Disk, returned: bool)

  /** The row is committed when the window's own file has the phase; a refusal raises. */
  function WriteRow(s: W.System, d: Disk, body: Body, io: Io): Left {
    var (d', outcome) := Commit(d, body, io);
    if Passes(outcome) then Left(s, d', true) else Left(W.Apply(s, W.OwnerRaises), d', false)
  }

  /** The phase the window object remembers before the call. */
  function Remembered(s: W.System): W.Phase {
    if s.owner.Some? && s.owner.value.journal.Some? then s.owner.value.journal.value.phase else W.Stopping
  }

  function EnterAll(s: W.System, d: Disk, ids: WindowIds, p: W.Phase, budget: nat, io: Io): Left {
    var s' := H.Follow(s, H.PhaseScript(p), budget);
    if H.Finishes(s, H.PhaseScript(p), budget) then WriteRow(s', d, PhaseBody(ids, Remembered(s), p), io) else Left(s', d, false)
  }

  /** The process may take `budget` steps before the first row and `more` between the rows. */
  function RecoverAll(s: W.System, d: Disk, ids: WindowIds, before: W.Phase, approval: nat, budget: nat, more: nat, io: Io, lastIo: Io): Left {
    RecoverBy(s, d, H.AuthorizationScript(approval), ids, before, budget, more, io, lastIo)
  }

  function RecoverBy(s: W.System, d: Disk, script: seq<W.Label>, ids: WindowIds, before: W.Phase,
                     budget: nat, more: nat, io: Io, lastIo: Io): Left
  {
    var s1 := H.Follow(s, script, budget);
    if H.Finishes(s, script, budget) then RecoverOn(s1, d, ids, before, more, io, lastIo) else Left(s1, d, false)
  }

  /** From the durable authorization on. */
  function RecoverOn(s: W.System, d: Disk, ids: WindowIds, before: W.Phase, budget: nat, io: Io, lastIo: Io): Left {
    var authorized := WriteRow(s, d, PhaseBody(ids, before, W.RecoveryAuthorized), io);
    if !authorized.returned then authorized
    else RestoreAll(s, authorized.journal, ids, W.LatePhase(before), budget, lastIo)
  }

  function RestoreAll(s: W.System, d: Disk, ids: WindowIds, late: bool, budget: nat, io: Io): Left {
    var s' := H.Follow(s, H.RestorationScript(late), budget);
    if H.Finishes(s, H.RestorationScript(late), budget)
    then WriteRow(s', d, PhaseBody(ids, W.RecoveryAuthorized, W.OldRestored), io) else Left(s', d, false)
  }

  // ---------------------------------------------------------------- the calls on the two stores

  method WriteRowIn(deployment: H.Deployment, store: Store, body: Body, io: Io) returns (returned: bool)
    requires store.Valid()
    modifies deployment, store.control, store.events
    ensures Left(deployment.Sys(), store.OnDisk(), returned) == WriteRow(old(deployment.Sys()), old(store.OnDisk()), body, io)
  {
    var outcome := store.CommitEvent(body, io);
    returned := Passes(outcome);
    if !returned { var _ := deployment.Take(W.OwnerRaises); }
  }

  method EnterAndRecord(deployment: H.Deployment, store: Store, ids: WindowIds, p: W.Phase, budget: nat, io: Io)
    returns (returned: bool)
    requires store.Valid()
    modifies deployment, store.control, store.events
    ensures Left(deployment.Sys(), store.OnDisk(), returned)
         == EnterAll(old(deployment.Sys()), old(store.OnDisk()), ids, p, budget, io)
  {
    var before := Remembered(deployment.Sys());
    var done := deployment.EnterPhase(p, budget);
    if !done { return false; }
    returned := WriteRowIn(deployment, store, PhaseBody(ids, before, p), io);
  }

  method RecoverAndRecord(deployment: H.Deployment, store: Store, ids: WindowIds, before: W.Phase, approval: nat,
                          budget: nat, more: nat, io: Io, lastIo: Io)
    returns (returned: bool)
    requires store.Valid()
    modifies deployment, store.control, store.events
    ensures Left(deployment.Sys(), store.OnDisk(), returned)
         == RecoverAll(old(deployment.Sys()), old(store.OnDisk()), ids, before, approval, budget, more, io, lastIo)
  {
    returned := RecoverByAndRecord(deployment, store, H.AuthorizationScript(approval), ids, before, budget, more, io, lastIo);
  }

  method RecoverByAndRecord(deployment: H.Deployment, store: Store, script: seq<W.Label>, ids: WindowIds, before: W.Phase,
                            budget: nat, more: nat, io: Io, lastIo: Io)
    returns (returned: bool)
    requires store.Valid()
    modifies deployment, store.control, store.events
    ensures Left(deployment.Sys(), store.OnDisk(), returned)
         == RecoverBy(old(deployment.Sys()), old(store.OnDisk()), script, ids, before, budget, more, io, lastIo)
  {
    var done := deployment.Call(script, budget);
    if !done { return false; }
    returned := RecoverOnAndRecord(deployment, store, ids, before, more, io, lastIo);
  }

  method RecoverOnAndRecord(deployment: H.Deployment, store: Store, ids: WindowIds, before: W.Phase, budget: nat, io: Io, lastIo: Io)
    returns (returned: bool)
    requires store.Valid()
    modifies deployment, store.control, store.events
    ensures Left(deployment.Sys(), store.OnDisk(), returned)
         == RecoverOn(old(deployment.Sys()), old(store.OnDisk()), ids, before, budget, io, lastIo)
  {
    returned := WriteRowIn(deployment, store, PhaseBody(ids, before, W.RecoveryAuthorized), io);
    if !returned { return false; }
    var done := deployment.Call(H.RestorationScript(W.LatePhase(before)), budget);
    if !done { return false; }
    returned := WriteRowIn(deployment, store, PhaseBody(ids, W.RecoveryAuthorized, W.OldRestored), lastIo);
  }

  // ---------------------------------------------------------------- exactly when they return

  /** The row is written exactly while the newest epoch is 1; either way the window's files are as they were. */
  lemma RowWrittenExactly(s: W.System, d: Disk, body: Body, io: Io)
    requires Serves(d, body.host, io) && Literal(body) && Duplicate(Load(d).value.rows, body).New?
    ensures var left, rows := WriteRow(s, d, body, io), Load(d).value.rows;
      && (left.returned <==> NewestEpoch(rows) == 1) && left.window.disk == s.disk
      && (if left.returned
          then left.window == s && NoStaging(left.journal)
               && Load(left.journal) == Ok(Loaded(Some(body.host), rows + [NextEvent(rows, body, io.recordedAt)]))
          else left.window == W.Apply(s, W.OwnerRaises) && left.journal == d)
  {
    LiteralCommitsExactly(d, body, io);
    RaisingKeepsDisk(s);
  }

  lemma RaisingKeepsDisk(s: W.System)
    ensures W.Apply(s, W.OwnerRaises).disk == s.disk
  {
  }

  /** Whether or not the call returns, the phase is durable; it returns exactly while the newest epoch of the journal is 1. */
  lemma PhaseReturnsExactly(s: W.System, d: Disk, ids: WindowIds, p: W.Phase, budget: nat, io: Io)
    requires H.Finishes(s, H.PhaseScript(p), budget)
    requires Serves(d, ids.host, io) && Duplicate(Load(d).value.rows, PhaseBody(ids, Remembered(s), p)).New?
    ensures var left := EnterAll(s, d, ids, p, budget, io);
      && (left.returned <==> NewestEpoch(Load(d).value.rows) == 1)
      && (!left.returned ==> left.journal == d)
      && left.window.disk.journal.Some? && left.window.disk.journal.value.phase == p
  {
    H.PhaseAtEnd(s, p, budget);
    RowWrittenExactly(H.Follow(s, H.PhaseScript(p), budget), d, PhaseBody(ids, Remembered(s), p), io);
    EnterWrites(s, d, ids, p, budget, io);
  }

  lemma EnterWrites(s: W.System, d: Disk, ids: WindowIds, p: W.Phase, budget: nat, io: Io)
    requires H.Finishes(s, H.PhaseScript(p), budget)
    ensures EnterAll(s, d, ids, p, budget, io)
         == WriteRow(H.Follow(s, H.PhaseScript(p), budget), d, PhaseBody(ids, Remembered(s), p), io)
  {
  }

  /** From then on no phase call returns, whatever is committed to the journal meanwhile. */
  lemma PhaseNeverReturns(d: Disk, attempts: seq<Attempt>, s: W.System, ids: WindowIds, p: W.Phase, budget: nat, io: Io)
    requires Load(d).Ok? && NewestEpoch(Load(d).value.rows) > 1
    ensures var later := RunCommits(d, attempts);
      var left := EnterAll(s, later, ids, p, budget, io);
      !left.returned && left.journal == later
  {
    LiteralRefusedForever(d, attempts, PhaseBody(ids, Remembered(s), p), io);
  }

  /** A recovery that got no further than its authorization: nothing is restored, no start is permitted, none can begin again. */
  ghost predicate StuckAuthorized(s: W.System, s': W.System) {
    && s'.disk.journal.Some? && s'.disk.journal.value.phase.RecoveryAuthorized?
    && s'.disk.binary == s.disk.binary && s'.disk.receipt == s.disk.receipt
    && !W.StartupPermitted(s') && forall other :: W.Step(s', W.ApproveRecovery(other)).None?
  }

  /** Returned and restored while the newest epoch of the journal is 1, and otherwise stuck with the journal untouched. */
  ghost predicate RestoredExactly(s: W.System, d: Disk, approval: nat, left: Left)
    requires s.disk.journal.Some? && Load(d).Ok?
  {
    if NewestEpoch(Load(d).value.rows) == 1 then
      && (W.LatePhase(s.disk.journal.value.phase) ==> s.disk.savedReceipt.Some?)
      && left.returned && left.window == R.Recovered(s, approval)
    else
      !left.returned && left.journal == d && StuckAuthorized(s, left.window)
  }

  predicate MayRestore(s: W.System, approval: nat) {
    R.MayRecover(s, approval) && !s.disk.staging && !s.disk.binaryStaging && !s.disk.receiptStaging
  }

  /**
    A recovery that nothing else disturbs returns, restored, if and only if the newest epoch of the
    journal is 1. Otherwise it is stuck at its authorization: the approval is used up, nothing is
    restored, no start is permitted, and no recovery can begin again.
   */
  lemma RecoveryReturnsExactly(s: W.System, d: Disk, ids: WindowIds, approval: nat, budget: nat, more: nat, io: Io, lastIo: Io)
    requires MayRestore(s, approval) && budget >= 4 && more >= 7 && s.disk.journal.Some?
    requires Serves(d, ids.host, io) && Ready(d, ids.host, lastIo.recordedAt, 2) && lastIo.budget >= 12
    requires Duplicate(Load(d).value.rows, PhaseBody(ids, s.disk.journal.value.phase, W.RecoveryAuthorized)).New?
    requires Duplicate(Load(d).value.rows, PhaseBody(ids, W.RecoveryAuthorized, W.OldRestored)).New?
    ensures RestoredExactly(s, d, approval, RecoverAll(s, d, ids, s.disk.journal.value.phase, approval, budget, more, io, lastIo))
  {
    var before := s.disk.journal.value.phase;
    R.AuthorizationDoes(s, approval);
    ScriptLengths(approval, W.LatePhase(before));
    OnceDone(s, d, H.AuthorizationScript(approval), R.AuthorizedOnly(s, approval), ids, before, budget, more, io, lastIo);
    AuthorizedReturnsExactly(s, d, ids, approval, more, io, lastIo);
  }

  lemma AuthorizedReturnsExactly(s: W.System, d: Disk, ids: WindowIds, approval: nat, budget: nat, io: Io, lastIo: Io)
    requires MayRestore(s, approval) && budget >= 7 && s.disk.journal.Some?
    requires Serves(d, ids.host, io) && Ready(d, ids.host, lastIo.recordedAt, 2) && lastIo.budget >= 12
    requires Duplicate(Load(d).value.rows, PhaseBody(ids, s.disk.journal.value.phase, W.RecoveryAuthorized)).New?
    requires Duplicate(Load(d).value.rows, PhaseBody(ids, W.RecoveryAuthorized, W.OldRestored)).New?
    ensures RestoredExactly(s, d, approval,
                            RecoverOn(R.AuthorizedOnly(s, approval), d, ids, s.disk.journal.value.phase, budget, io, lastIo))
  {
    var before := s.disk.journal.value.phase;
    var body := PhaseBody(ids, before, W.RecoveryAuthorized);
    RowWrittenExactly(R.AuthorizedOnly(s, approval), d, body, io);
    R.MayRecoverMeans(s, approval);
    if NewestEpoch(Load(d).value.rows) == 1 {
      RestoredAfter(s, Commit(d, body, io).0, Load(d).value.rows, d, ids, approval, budget, io, lastIo);
    } else {
      StuckAfter(s, approval);
    }
  }

  lemma ScriptLengths(approval: nat, late: bool)
    ensures |H.AuthorizationScript(approval)| == 4 && |H.RestorationScript(late)| <= 7
  {
  }

  lemma OnceDone(s: W.System, d: Disk, script: seq<W.Label>, t: W.System, ids: WindowIds, before: W.Phase,
                 budget: nat, more: nat, io: Io, lastIo: Io)
    requires R.Does(s, script, t) && budget >= |script|
    ensures RecoverBy(s, d, script, ids, before, budget, more, io, lastIo) == RecoverOn(t, d, ids, before, more, io, lastIo)
  {
    assert H.Finishes(s, script, budget);
  }

  lemma StuckAfter(s: W.System, approval: nat)
    requires s.disk.journal.Some?
    ensures var s' := W.Apply(R.AuthorizedOnly(s, approval), W.OwnerRaises);
      StuckAuthorized(s, s')
  {
  }

  /** With the first row written, the second one is admitted as well. */
  lemma RestoredAfter(s: W.System, d1: Disk, rows: seq<Event>, d: Disk, ids: WindowIds, approval: nat, budget: nat, io: Io, lastIo: Io)
    requires MayRestore(s, approval) && budget >= 7 && s.disk.journal.Some?
    requires Load(d).Ok? && Load(d).value.rows == rows && |rows| + 2 <= MAX_EVENTS && NoStaging(d1)
    requires ids.host != "" && TextOk(lastIo.recordedAt) && lastIo.budget >= 12
    requires var body := PhaseBody(ids, s.disk.journal.value.phase, W.RecoveryAuthorized);
      Load(d1) == Ok(Loaded(Some(ids.host), rows + [NextEvent(rows, body, io.recordedAt)]))
    requires Duplicate(rows, PhaseBody(ids, W.RecoveryAuthorized, W.OldRestored)).New?
    ensures var late := W.LatePhase(s.disk.journal.value.phase);
      && (late ==> s.disk.savedReceipt.Some?)
      && var left := RestoreAll(R.AuthorizedOnly(s, approval), d1, ids, late, budget, lastIo);
      left.returned && left.window == R.Recovered(s, approval)
  {
    var last := PhaseBody(ids, W.RecoveryAuthorized, W.OldRestored);
    var e := NextEvent(rows, PhaseBody(ids, s.disk.journal.value.phase, W.RecoveryAuthorized), io.recordedAt);
    StillNew(rows, e, ids, last);
    LiteralCommitsExactly(d1, last, lastIo);
    R.RestorationAfterAuthorization(s, approval);
    var late := W.LatePhase(s.disk.journal.value.phase);
    assert |H.RestorationScript(late)| <= 7;
    assert H.Finishes(R.AuthorizedOnly(s, approval), H.RestorationScript(late), budget);
  }

  lemma StillNew(rows: seq<Event>, e: Event, ids: WindowIds, last: Body)
    requires Duplicate(rows, last).New? && last == PhaseBody(ids, W.RecoveryAuthorized, W.OldRestored)
    requires e.body.operationId == Operation("cold-" + ids.generation + "-" + PhaseName(W.RecoveryAuthorized))
    requires e.body.eventId == PhaseOf(e.body.operationId, PhaseName(W.RecoveryAuthorized))
    ensures Duplicate(rows + [e], last).New?
  {
    DuplicateExact(rows, last);
    assert |"cold-" + ids.generation + "-" + "recovery_authorized"| != |"cold-" + ids.generation + "-" + "old_restored"|;
    DuplicateExact(rows + [e], last);
  }
}
