/**
  The cold-window protocol of scripts/upgrade_recovery.py as a step machine.

  One process at a time holds the hostops lock (the owner: begin, the phases, start, recovery) and
  one the runtime lock (the launcher: consume_start). Every file step of either is one step here;
  a process may raise, end or crash between any two of its steps. What a process knows (its
  in-memory journal, how far it got) is lost when it ends; what is on disk stays. A window object
  may also give the hostops lock back and live on: it is then shelved with the journal it
  remembers, and may take the lock again later, with that journal.
 */
module ColdWindow {
  import opened Basics

  datatype Phase = Stopping | Quiescent | BackedUp | RestoreVerified | InstallStarted | Installed
                 | StartAttempted | RecoveryAuthorized | OldRestored

  /** File contents and digests; a digest is as good as the contents. */
  type Bytes = nat

  datatype Handoff = Handoff(generation: nat, requested: bool, consumed: bool, binary: Bytes, receipt: Bytes)

  datatype Journal = Journal(
    generation: nat, phase: Phase, startAttempted: bool, stopCalled: bool, stopProven: bool,
    oldReceipt: Option<Bytes>, installedReceipt: Option<Bytes>, handoff: Option<Handoff>)

  datatype Marker = NoMarker | TornMarker | Marker(generation: nat)

  /** staging, binaryStaging and receiptStaging say whether the `.cold-new` file of that target exists. */
  datatype Disk = Disk(
    marker: Marker, journal: Option<Journal>, staging: bool,
    binary: Bytes, receipt: Bytes, binaryStaging: bool, receiptStaging: bool,
    savedBinary: Option<Bytes>, savedReceipt: Option<Bytes>, approvals: set<nat>)

  /** How far a recovery in the owner has come; late means an install intent was on record. */
  datatype Recovery = NotRecovering | Approved(late: bool) | Authorized(late: bool)
                    | BinaryStaged | BinaryBack | ReceiptStaged | ReceiptBack

  /** What the owner is in the middle of: a file replacement, the manager's stop, the two raw copies. */
  datatype Write = Idle | MarkingWindow | Writing(target: Journal, staged: bool)
                 | ManagerStopping | BinarySaved | ReceiptSaved

  datatype Owner = Owner(journal: Option<Journal>, locks: bool, write: Write, recovery: Recovery)

  datatype Launcher = Waiting | Permitted | Consuming(target: Journal, staged: bool)

  /**
    oldBinary and newBinary are the digests the binding names; shelved holds what released window
    objects remember; consumed counts successful consumptions.
   */
  datatype System = System(
    oldBinary: Bytes, newBinary: Bytes, disk: Disk, owner: Option<Owner>, shelved: seq<Journal>,
    launcher: Option<Launcher>, consumed: nat)

  datatype Label =
    | OwnerTakesLock | OwnerEnds | OwnerRaises | OwnerReleases | OwnerReturns(index: nat)
    | TakeWindowLocks | DropWindowLocks
    | CreateMarker(generation: nat) | FillMarker
    | CallStop | ProveStop | Advance(phase: Phase) | SaveOldBinary | SaveOldReceipt
    | InstallBinary | InstallReceipt(receipt: Bytes)
    | RequestStart
    | OwnerStages | OwnerRenames
    | InspectRecovery | ApproveRecovery(approval: nat) | AuthorizeRecovery
    | StageBinary | RenameBinary | StageReceipt | RenameReceipt | FinishRecovery
    | LauncherTakesLock | LauncherEnds | CheckPermission | ReadToken | LauncherStages | LauncherRenames

  /** scripts/upgrade_recovery.py:31-36 */
  function Transitions(p: Phase): set<Phase> {
    match p
    case Stopping => {Quiescent}
    case Quiescent => {BackedUp, RecoveryAuthorized}
    case BackedUp => {RestoreVerified, RecoveryAuthorized}
    case RestoreVerified => {InstallStarted, RecoveryAuthorized}
    case InstallStarted => {Installed, RecoveryAuthorized}
    case Installed => {StartAttempted, RecoveryAuthorized}
    case RecoveryAuthorized => {OldRestored}
    case StartAttempted => {}
    case OldRestored => {}
  }

  /** scripts/upgrade_recovery.py:78: marker and journal must both be there and agree. */
  predicate WindowReadable(d: Disk) {
    d.marker.Marker? && d.journal.Some? && d.journal.value.generation == d.marker.generation
  }

  /** scripts/upgrade_recovery.py:107-120, for a deployment whose claim is pending. */
  predicate StartupPermitted(s: System) {
    && WindowReadable(s.disk)
    && var j := s.disk.journal.value;
    && j.phase.StartAttempted? && j.startAttempted && j.handoff.Some?
    && var h := j.handoff.value;
    && h.generation == s.disk.marker.generation && !h.consumed && h.requested
    && h.binary == s.newBinary == s.disk.binary
    && Some(h.receipt) == j.installedReceipt && h.receipt == s.disk.receipt
  }

  /** The guard of ColdWindow.phase plus what the calling method requires first. */
  predicate MayAdvance(s: System, j: Journal, locks: bool, p: Phase) {
    && p in Transitions(j.phase)
    && (j.startAttempted ==> p.StartAttempted?)
    && locks
    && match p
       case Quiescent => j.stopProven
       case Installed => s.disk.binary == s.newBinary
       case StartAttempted => !j.startAttempted && s.disk.binary == s.newBinary && Some(s.disk.receipt) == j.installedReceipt
       case _ => p.BackedUp? || p.RestoreVerified? || p.InstallStarted?
  }

  /** The journal that ColdWindow.phase writes, with the values its caller passes. */
  function Advanced(s: System, j: Journal, p: Phase): Journal {
    match p
    case InstallStarted => j.(phase := p, oldReceipt := Some(s.disk.receipt))
    case Installed => j.(phase := p, installedReceipt := Some(s.disk.receipt))
    case StartAttempted =>
      j.(phase := p, startAttempted := true,
         handoff := Some(Handoff(j.generation, false, false, s.newBinary, if j.installedReceipt.Some? then j.installedReceipt.value else 0)))
    case _ => j.(phase := p)
  }

  function NewJournal(generation: nat): Journal {
    Journal(generation, Stopping, false, false, false, None, None, None)
  }

  predicate RecoverablePhase(p: Phase) {
    p in {Quiescent, BackedUp, RestoreVerified, InstallStarted, Installed}
  }

  predicate LatePhase(p: Phase) {
    p in {InstallStarted, Installed}
  }

  /** scripts/upgrade_recovery.py:432-437 */
  predicate MayRequest(s: System, o: Owner) {
    && !o.locks && o.journal.Some? && o.journal.value.phase.StartAttempted?
    && WindowReadable(s.disk)
    && var current := s.disk.journal.value;
    && current.phase.StartAttempted? && current.startAttempted
    && current.generation == o.journal.value.generation
    && current.handoff.Some? && !current.handoff.value.consumed && !current.handoff.value.requested
  }

  predicate Free(o: Owner) {
    o.write.Idle? && o.recovery.NotRecovering?
  }

  /** Where in its calls the owner can enter a phase; the install intent follows the two raw copies. */
  predicate AtPhaseCall(o: Owner, p: Phase) {
    o.recovery.NotRecovering? && (if p.InstallStarted? then o.write.ReceiptSaved? else o.write.Idle?)
  }

  /** The checks of recover_prestart before it takes over the journal it read. */
  predicate MayInspect(s: System, o: Owner) {
    Free(o) && o.locks && WindowReadable(s.disk)
    && !s.disk.journal.value.startAttempted && RecoverablePhase(s.disk.journal.value.phase)
  }

  /** What a released object takes with it. */
  function Remembered(o: Owner): seq<Journal> {
    if o.journal.Some? then [o.journal.value] else []
  }

  /** One step of whichever process the label names; None when that process cannot take it now. */
  function Step(s: System, l: Label): Option<System> {
    if l.LauncherTakesLock? || l.LauncherEnds? || l.CheckPermission? || l.ReadToken? || l.LauncherStages? || l.LauncherRenames?
    then LauncherStep(s, l)
    else if l.OwnerTakesLock? then
      if s.owner.Some? then None else Some(s.(owner := Some(Owner(None, false, Idle, NotRecovering))))
    else if l.OwnerReturns? then
      if s.owner.Some? || l.index >= |s.shelved| then None else Some(Returned(s, l.index))
    else if s.owner.None? then None
    else OwnerStep(s, s.owner.value, l)
  }

  /** A shelved object takes the hostops lock again, with the journal it last held. */
  function Returned(s: System, i: nat): System
    requires i < |s.shelved|
  {
    s.(owner := Some(Owner(Some(s.shelved[i]), false, Idle, NotRecovering)),
       shelved := s.shelved[..i] + s.shelved[i + 1..])
  }

  function OwnerStep(s: System, o: Owner, l: Label): Option<System> {
    var d := s.disk;
    match l
    case OwnerEnds => Some(s.(owner := None))
    case OwnerReleases =>
      if o.locks || !Free(o) then None else Some(s.(owner := None, shelved := s.shelved + Remembered(o)))
    // An exception unwinds to the caller; the in-memory journal keeps what was already put there.
    case OwnerRaises => Some(s.(owner := Some(o.(write := Idle, recovery := NotRecovering))))
    case TakeWindowLocks =>
      if o.locks || s.launcher.Some? then None else Some(s.(owner := Some(o.(locks := true))))
    case DropWindowLocks =>
      if !o.locks || !Free(o) then None else Some(s.(owner := Some(o.(locks := false))))
    case CreateMarker(generation) =>
      if !Free(o) || !d.marker.NoMarker? then None
      else Some(s.(disk := d.(marker := TornMarker), owner := Some(o.(journal := Some(NewJournal(generation)), write := MarkingWindow))))
    case FillMarker =>
      if !o.write.MarkingWindow? || o.journal.None? then None
      else Some(s.(disk := d.(marker := Marker(o.journal.value.generation)), owner := Some(o.(write := Writing(o.journal.value, false)))))
    case CallStop =>
      if !Free(o) || o.journal.None? || !o.journal.value.phase.Stopping? || o.journal.value.stopCalled then None
      else Some(Begun(s, o, o.journal.value.(stopCalled := true)))
    case ProveStop =>
      if !o.write.ManagerStopping? || o.journal.None? then None
      else Some(Begun(s, o, o.journal.value.(stopProven := true)))
    case Advance(p) =>
      if !AtPhaseCall(o, p) || o.journal.None? || !MayAdvance(s, o.journal.value, o.locks, p) then None
      else Some(Begun(s, o, Advanced(s, o.journal.value, p)))
    case SaveOldBinary =>
      if !Free(o) || !o.locks || o.journal.None? || !o.journal.value.phase.RestoreVerified? || d.savedBinary.Some? || d.binary != s.oldBinary then None
      else Some(s.(disk := d.(savedBinary := Some(d.binary)), owner := Some(o.(write := BinarySaved))))
    case SaveOldReceipt =>
      if !o.write.BinarySaved? || d.savedReceipt.Some? then None
      else Some(s.(disk := d.(savedReceipt := Some(d.receipt)), owner := Some(o.(write := ReceiptSaved))))
    case InstallBinary =>
      if !Free(o) || !o.locks || o.journal.None? || !o.journal.value.phase.InstallStarted? then None
      else Some(s.(disk := d.(binary := s.newBinary)))
    case InstallReceipt(receipt) =>
      if !Free(o) || !o.locks || o.journal.None? || !o.journal.value.phase.InstallStarted? then None
      else Some(s.(disk := d.(receipt := receipt)))
    case RequestStart =>
      if !Free(o) || !MayRequest(s, o) then None
      else
        var current := d.journal.value;
        Some(s.(owner := Some(o.(write := Writing(current.(handoff := Some(current.handoff.value.(requested := true))), false)))))
    case OwnerStages =>
      if !o.write.Writing? || o.write.staged || d.staging then None
      else Some(s.(disk := d.(staging := true), owner := Some(o.(write := o.write.(staged := true)))))
    case OwnerRenames =>
      if !o.write.Writing? || !o.write.staged then None
      else Some(s.(disk := d.(journal := Some(o.write.target), staging := false),
                   owner := Some(Replaced(o, o.write.target))))
    case _ => RecoveryStep(s, o, l)
  }

  /** The first write of stop is followed by the manager's stop, every other one by its caller's end. */
  function AfterRename(target: Journal): Write {
    if target.phase.Stopping? && target.stopCalled && !target.stopProven then ManagerStopping else Idle
  }

  /** The owner once the file holds the journal; an approved recovery is then authorized, a restored one over. */
  function Replaced(o: Owner, target: Journal): Owner {
    o.(journal := Some(target), write := AfterRename(target),
       recovery := if o.recovery.Approved? then Authorized(o.recovery.late)
                   else if target.phase.OldRestored? then NotRecovering else o.recovery)
  }

  /** The in-memory journal is changed before the file is written. */
  function Begun(s: System, o: Owner, j: Journal): System {
    s.(owner := Some(o.(journal := Some(j), write := Writing(j, false))))
  }

  /** scripts/upgrade_recovery.py:556 */
  function RecoveryStep(s: System, o: Owner, l: Label): Option<System> {
    var d := s.disk;
    match l
    // The journal is taken over before the last checks, so a call that they end leaves it behind.
    case InspectRecovery =>
      if !MayInspect(s, o) then None else Some(s.(owner := Some(o.(journal := d.journal))))
    case ApproveRecovery(approval) =>
      if !MayInspect(s, o) || approval in d.approvals
         || (if LatePhase(d.journal.value.phase)
             then d.savedBinary != Some(s.oldBinary) || d.savedReceipt.None? || d.savedReceipt != d.journal.value.oldReceipt
             else d.binary != s.oldBinary)
      then None
      else Some(s.(disk := d.(approvals := d.approvals + {approval}),
                   owner := Some(o.(journal := d.journal, recovery := Approved(LatePhase(d.journal.value.phase))))))
    case AuthorizeRecovery =>
      if !o.write.Idle? || !o.recovery.Approved? || o.journal.None? || RecoveryAuthorized !in Transitions(o.journal.value.phase) then None
      else Some(Begun(s, o, o.journal.value.(phase := RecoveryAuthorized)))
    case StageBinary =>
      if !o.write.Idle? || o.recovery != Authorized(true) || d.binaryStaging then None
      else Some(s.(disk := d.(binaryStaging := true), owner := Some(o.(recovery := BinaryStaged))))
    case RenameBinary =>
      if !o.recovery.BinaryStaged? || d.savedBinary.None? then None
      else Some(s.(disk := d.(binary := d.savedBinary.value, binaryStaging := false), owner := Some(o.(recovery := BinaryBack))))
    case StageReceipt =>
      if !o.recovery.BinaryBack? || d.receiptStaging then None
      else Some(s.(disk := d.(receiptStaging := true), owner := Some(o.(recovery := ReceiptStaged))))
    case RenameReceipt =>
      if !o.recovery.ReceiptStaged? || d.savedReceipt.None? then None
      else Some(s.(disk := d.(receipt := d.savedReceipt.value, receiptStaging := false), owner := Some(o.(recovery := ReceiptBack))))
    case FinishRecovery =>
      if !o.write.Idle? || !(o.recovery.ReceiptBack? || o.recovery == Authorized(false)) || o.journal.None?
         || OldRestored !in Transitions(o.journal.value.phase)
         || (o.recovery.ReceiptBack? && (d.binary != s.oldBinary || Some(d.receipt) != o.journal.value.oldReceipt))
      then None
      else Some(Begun(s, o, o.journal.value.(phase := OldRestored)))
    case _ => None
  }

  /** scripts/upgrade_recovery.py:125. The runtime lock is free only while the owner does not hold it. */
  function LauncherStep(s: System, l: Label): Option<System> {
    var d := s.disk;
    if l.LauncherTakesLock? then
      if s.launcher.Some? || (s.owner.Some? && s.owner.value.locks) then None else Some(s.(launcher := Some(Waiting)))
    else if s.launcher.None? then None
    else
      var pc := s.launcher.value;
      match l
      case LauncherEnds => Some(s.(launcher := None))
      case CheckPermission =>
        if !pc.Waiting? || !StartupPermitted(s) then None else Some(s.(launcher := Some(Permitted)))
      case ReadToken =>
        if !pc.Permitted? || !WindowReadable(d) || d.journal.value.handoff.None? then None
        else
          var j := d.journal.value;
          Some(s.(launcher := Some(Consuming(j.(handoff := Some(j.handoff.value.(consumed := true))), false))))
      case LauncherStages =>
        if !pc.Consuming? || pc.staged || d.staging then None
        else Some(s.(disk := d.(staging := true), launcher := Some(pc.(staged := true))))
      case LauncherRenames =>
        if !pc.Consuming? || !pc.staged then None
        else Some(s.(disk := d.(journal := Some(pc.target), staging := false), launcher := Some(Waiting), consumed := s.consumed + 1))
      case _ => None
  }

  /** The deployment before a window: a claim is pending, no marker, no journal, nobody active. */
  predicate Initial(s: System) {
    && s.disk.marker.NoMarker? && s.disk.journal.None? && !s.disk.staging
    && !s.disk.binaryStaging && !s.disk.receiptStaging
    && s.disk.savedBinary.None? && s.disk.savedReceipt.None?
    && s.owner.None? && s.shelved == [] && s.launcher.None? && s.consumed == 0
  }

  /** Labels that cannot be taken are skipped, so every interleaving is a label sequence. */
  function Apply(s: System, l: Label): System {
    var next := Step(s, l);
    if next.Some? then next.value else s
  }

  function Run(s: System, labels: seq<Label>): System
    decreases |labels|
  {
    if labels == [] then s else Run(Apply(s, labels[0]), labels[1..])
  }
}
