/** Safety of the cold window over every interleaving, exception and crash. */
module ColdWindowTheorems {
  import opened Basics
  import opened ColdWindow

  function Rank(p: Phase): nat {
    match p
    case Stopping => 0
    case Quiescent => 1
    case BackedUp => 2
    case RestoreVerified => 3
    case InstallStarted => 4
    case Installed => 5
    case StartAttempted => 6
    case RecoveryAuthorized => 6
    case OldRestored => 7
  }

  /** q can be reached from p by one or more transitions. */
  predicate Later(p: Phase, q: Phase) {
    Rank(p) < Rank(q) && !p.StartAttempted? && (p.RecoveryAuthorized? ==> q.OldRestored?)
  }

  predicate AtOrLater(p: Phase, q: Phase) {
    p == q || Later(p, q)
  }

  lemma TransitionsAdvance(p: Phase, q: Phase)
    requires q in Transitions(p)
    ensures Later(p, q)
  {
  }

  lemma LaterTransitive(p: Phase, q: Phase, r: Phase)
    requires AtOrLater(p, q) && AtOrLater(q, r)
    ensures AtOrLater(p, r)
    ensures Later(p, q) || Later(q, r) ==> Later(p, r)
  {
  }

  // ---------------------------------------------------------------- the invariant

  /** Every journal ever in memory or on disk: its fields fit its phase. */
  predicate WellFormed(j: Journal) {
    && (j.startAttempted <==> j.phase.StartAttempted?)
    && (j.handoff.Some? <==> j.phase.StartAttempted?)
    && (j.handoff.Some? && j.handoff.value.consumed ==> j.handoff.value.requested)
    && (Rank(j.phase) <= 3 ==> j.oldReceipt.None?)
    && (j.stopProven ==> j.stopCalled)
    && (LatePhase(j.phase) || j.phase.StartAttempted? ==> j.oldReceipt.Some?)
  }

  predicate Requested(d: Disk) {
    d.journal.Some? && d.journal.value.handoff.Some? && d.journal.value.handoff.value.requested
  }

  predicate Consumed(d: Disk) {
    d.journal.Some? && d.journal.value.handoff.Some? && d.journal.value.handoff.value.consumed
  }

  predicate TokenOpen(d: Disk) {
    Requested(d) && !Consumed(d)
  }

  /** What the owner may be about to put on disk. */
  predicate WriteFits(d: Disk, o: Owner, target: Journal) {
    && WellFormed(target)
    && ( || (&& o.journal == Some(target)
             && (target.handoff.Some? ==> !target.handoff.value.requested && !target.handoff.value.consumed)
             && (d.journal.Some? ==> AtOrLater(d.journal.value.phase, target.phase) && !Requested(d)))
         || (&& o.journal.Some? && o.journal.value.phase.StartAttempted? && d.journal.Some? && d.journal.value.handoff.Some?
             && !Requested(d) && !Consumed(d)
             && target == d.journal.value.(handoff := Some(d.journal.value.handoff.value.(requested := true)))))
  }

  /**
    An object that remembers `j` can put the window back: its phase is behind the durable one, and
    the next thing it may write is neither the durable phase again nor a later one. Everything here
    can be read before the lock is used: the two phases, the installed files, the saved copies.
   */
  predicate CanHarm(s: System, j: Journal) {
    s.disk.journal.Some? &&
    var d, p := s.disk, s.disk.journal.value.phase;
    !AtOrLater(p, j.phase) &&
    match j.phase
    case Stopping => !j.stopCalled || (j.stopProven && !p.Quiescent?)
    case Quiescent => !p.BackedUp?
    case BackedUp => !p.RestoreVerified?
    case RestoreVerified => d.binary == s.oldBinary && d.savedBinary.None?
    case InstallStarted => !p.Installed?
    case Installed => d.binary == s.newBinary && Some(d.receipt) == j.installedReceipt && (p.StartAttempted? ==> Requested(d))
    case _ => false
  }

  /** The old bytes are on file, and the journal names them. */
  predicate Saved(s: System, j: Journal) {
    s.disk.savedBinary == Some(s.oldBinary) && s.disk.savedReceipt.Some? && s.disk.savedReceipt == j.oldReceipt
  }

  predicate DiskFits(s: System) {
    var d := s.disk;
    && (d.marker.NoMarker? ==> d.journal.None?)
    && (d.savedBinary.None? ==> d.savedReceipt.None?)
    && (d.journal.Some? ==>
        var j := d.journal.value;
        && WellFormed(j)
        && (j.oldReceipt.Some? ==> Saved(s, j))
        && (j.phase.OldRestored? && j.oldReceipt.Some? ==> BytesBack(s)))
    && s.consumed == (if Consumed(d) then 1 else 0)
  }

  /** What an object may remember: a journal this window had at some time, or was about to have. */
  predicate Memory(s: System, j: Journal) {
    !s.disk.marker.NoMarker? && WellFormed(j) && (j.oldReceipt.Some? ==> Saved(s, j))
  }

  predicate ShelfFits(s: System) {
    forall j <- s.shelved :: Memory(s, j)
  }

  predicate OwnerFits(s: System, o: Owner) {
    var d := s.disk;
    && (o.journal.Some? ==> Memory(s, o.journal.value))
    && (d.journal.Some? && o.journal.Some? ==>
        AtOrLater(d.journal.value.phase, o.journal.value.phase) || (Free(o) && !CanHarm(s, o.journal.value)))
    && CallFits(s, o)
    && RecoveryFits(s, o)
  }

  predicate CallFits(s: System, o: Owner) {
    var d := s.disk;
    match o.write
    case Idle => true
    case MarkingWindow => d.journal.None? && o.journal.Some? && o.journal.value.phase.Stopping?
    case Writing(target, staged) => WriteFits(d, o, target) && (staged ==> d.staging)
    case ManagerStopping => o.journal.Some? && o.journal == d.journal && o.journal.value.phase.Stopping? && o.journal.value.stopCalled
    case BinarySaved => Copying(s, o) && d.savedReceipt.None?
    case ReceiptSaved => Copying(s, o) && d.savedReceipt == Some(d.receipt)
  }

  predicate Copying(s: System, o: Owner) {
    o.journal.Some? && o.journal.value.phase.RestoreVerified? && s.disk.binary == s.oldBinary && s.disk.savedBinary == Some(s.oldBinary)
  }

  predicate RecoveryFits(s: System, o: Owner) {
    var d := s.disk;
    match o.recovery
    case NotRecovering => o.write.Writing? ==> !RecoveryPhase(o.write.target.phase)
    case Approved(late) =>
      && d.journal.Some? && RecoverablePhase(d.journal.value.phase) && o.journal.Some?
      && (late <==> d.journal.value.oldReceipt.Some?) && (late <==> o.journal.value.oldReceipt.Some?)
      && (if o.write.Writing? then o.write.target.phase.RecoveryAuthorized? else o.journal == d.journal && o.write.Idle?)
    case Authorized(late) => Restoring(s, o) && (late <==> o.journal.value.oldReceipt.Some?) && (late ==> o.write.Idle?)
    case ReceiptBack => Restoring(s, o) && o.journal.value.oldReceipt.Some? && (o.write.Writing? ==> BytesBack(s))
    case _ => Restoring(s, o) && o.journal.value.oldReceipt.Some? && o.write.Idle?
  }

  /** The recovery is authorized on disk; the only write left is the final phase. */
  predicate Restoring(s: System, o: Owner) {
    var d := s.disk;
    && d.journal.Some? && d.journal.value.phase.RecoveryAuthorized? && o.journal.Some?
    && d.journal.value.oldReceipt == o.journal.value.oldReceipt
    && (o.write.Writing? || o.write.Idle?)
    && (if o.write.Writing? then o.write.target.phase.OldRestored? else o.journal == d.journal)
  }

  predicate BytesBack(s: System) {
    s.disk.binary == s.oldBinary && Some(s.disk.receipt) == s.disk.savedReceipt
  }

  predicate RecoveryPhase(p: Phase) {
    p.RecoveryAuthorized? || p.OldRestored?
  }

  predicate LauncherFits(s: System, pc: Launcher) {
    match pc
    case Waiting => true
    case Permitted => TokenOpen(s.disk)
    case Consuming(target, staged) =>
      && TokenOpen(s.disk)
      && target == s.disk.journal.value.(handoff := Some(s.disk.journal.value.handoff.value.(consumed := true)))
      && (staged ==> s.disk.staging)
  }

  predicate Inv(s: System) {
    && DiskFits(s) && ShelfFits(s)
    && (s.owner.Some? ==> OwnerFits(s, s.owner.value))
    && (s.launcher.Some? ==> LauncherFits(s, s.launcher.value))
  }

  lemma InitialInv(s: System)
    requires Initial(s)
    ensures Inv(s)
  {
  }

  /** While the token is open the owner has nothing to write. */
  lemma OpenTokenIdleOwner(s: System)
    requires Inv(s) && TokenOpen(s.disk) && s.owner.Some?
    ensures s.owner.value.write.Idle? && s.owner.value.recovery.NotRecovering?
  {
  }

  /** Saved copies never change, so a memory stays one. */
  lemma MemoryStays(s: System, s': System, j: Journal)
    requires Memory(s, j) && s'.oldBinary == s.oldBinary && !s'.disk.marker.NoMarker?
    requires s'.disk.savedBinary == s.disk.savedBinary || s.disk.savedBinary.None?
    requires s'.disk.savedReceipt == s.disk.savedReceipt || s.disk.savedReceipt.None?
    ensures Memory(s', j)
  {
  }

  lemma ShelfStays(s: System, s': System)
    requires ShelfFits(s) && s'.shelved == s.shelved && s'.oldBinary == s.oldBinary
    requires !s.disk.marker.NoMarker? ==> !s'.disk.marker.NoMarker?
    requires s'.disk.savedBinary == s.disk.savedBinary || s.disk.savedBinary.None?
    requires s'.disk.savedReceipt == s.disk.savedReceipt || s.disk.savedReceipt.None?
    ensures ShelfFits(s')
  {
    forall j <- s'.shelved ensures Memory(s', j) { MemoryStays(s, s', j); }
  }

  lemma LauncherKeepsInv(s: System, l: Label)
    requires Inv(s) && LauncherStep(s, l).Some?
    ensures Inv(LauncherStep(s, l).value)
  {
    ShelfStays(s, LauncherStep(s, l).value);
    if TokenOpen(s.disk) && s.owner.Some? { OpenTokenIdleOwner(s); }
  }

  // ---------------------------------------------------------------- the owner, label by label

  /** A step that leaves the disk alone. */
  lemma SameDiskKeepsInv(s: System, s': System)
    requires Inv(s) && s' == s.(owner := s'.owner)
    requires s'.owner.Some? ==> OwnerFits(s', s'.owner.value)
    ensures Inv(s')
  {
    ShelfStays(s, s');
    if s.launcher.Some? { assert LauncherFits(s', s.launcher.value); }
  }

  lemma BegunKeepsInv(s: System, o: Owner, j: Journal)
    requires Inv(s) && s.owner == Some(o) && o.recovery.NotRecovering?
    requires Memory(s, j) && !RecoveryPhase(j.phase)
    requires j.handoff.Some? ==> !j.handoff.value.requested && !j.handoff.value.consumed
    requires s.disk.journal.Some? ==> AtOrLater(s.disk.journal.value.phase, j.phase) && !Requested(s.disk)
    ensures Inv(Begun(s, o, j))
  {
    SameDiskKeepsInv(s, Begun(s, o, j));
  }

  lemma StopKeepsInv(s: System, o: Owner, l: Label)
    requires Inv(s) && s.owner == Some(o) && (l.CallStop? || l.ProveStop?) && OwnerStep(s, o, l).Some?
    ensures Inv(OwnerStep(s, o, l).value)
  {
    var j := o.journal.value;
    BegunKeepsInv(s, o, if l.CallStop? then j.(stopCalled := true) else j.(stopProven := true));
  }

  /** Whatever phase an owner may enter is the durable one again or a later one, and takes no request back. */
  lemma AdvanceIsForward(s: System, o: Owner, p: Phase)
    requires Inv(s) && s.owner == Some(o) && OwnerStep(s, o, Advance(p)).Some? && s.disk.journal.Some?
    ensures AtOrLater(s.disk.journal.value.phase, p) && !Requested(s.disk)
  {
    var q, d := o.journal.value.phase, s.disk.journal.value.phase;
    TransitionsAdvance(q, p);
    if AtOrLater(d, q) {
      LaterTransitive(d, q, p);
    } else {
      assert !CanHarm(s, o.journal.value);
    }
  }

  lemma AdvancedIsMemory(s: System, o: Owner, p: Phase)
    requires Inv(s) && s.owner == Some(o) && OwnerStep(s, o, Advance(p)).Some?
    ensures Memory(s, Advanced(s, o.journal.value, p)) && Advanced(s, o.journal.value, p).phase == p
  {
    TransitionsAdvance(o.journal.value.phase, p);
  }

  lemma AdvanceKeepsInv(s: System, o: Owner, p: Phase)
    requires Inv(s) && s.owner == Some(o) && OwnerStep(s, o, Advance(p)).Some?
    ensures Inv(OwnerStep(s, o, Advance(p)).value)
  {
    if s.disk.journal.Some? { AdvanceIsForward(s, o, p); }
    AdvancedIsMemory(s, o, p);
    BegunKeepsInv(s, o, Advanced(s, o.journal.value, p));
  }

  lemma SaveBinaryKeepsInv(s: System, o: Owner)
    requires Inv(s) && s.owner == Some(o) && OwnerStep(s, o, SaveOldBinary).Some?
    ensures Inv(OwnerStep(s, o, SaveOldBinary).value)
  {
    var s' := OwnerStep(s, o, SaveOldBinary).value;
    ShelfStays(s, s');
    MemoryStays(s, s', o.journal.value);
  }

  lemma SaveReceiptKeepsInv(s: System, o: Owner)
    requires Inv(s) && s.owner == Some(o) && OwnerStep(s, o, SaveOldReceipt).Some?
    ensures Inv(OwnerStep(s, o, SaveOldReceipt).value)
  {
    var s' := OwnerStep(s, o, SaveOldReceipt).value;
    ShelfStays(s, s');
    MemoryStays(s, s', o.journal.value);
  }

  lemma InstallKeepsInv(s: System, o: Owner, l: Label)
    requires Inv(s) && s.owner == Some(o) && (l.InstallBinary? || l.InstallReceipt?) && OwnerStep(s, o, l).Some?
    ensures Inv(OwnerStep(s, o, l).value)
  {
    var s' := OwnerStep(s, o, l).value;
    ShelfStays(s, s');
    MemoryStays(s, s', o.journal.value);
  }

  lemma RequestKeepsInv(s: System, o: Owner)
    requires Inv(s) && s.owner == Some(o) && OwnerStep(s, o, RequestStart).Some?
    ensures Inv(OwnerStep(s, o, RequestStart).value)
  {
    SameDiskKeepsInv(s, OwnerStep(s, o, RequestStart).value);
  }

  lemma StagesKeepsInv(s: System, o: Owner)
    requires Inv(s) && s.owner == Some(o) && OwnerStep(s, o, OwnerStages).Some?
    ensures Inv(OwnerStep(s, o, OwnerStages).value)
  {
    ShelfStays(s, OwnerStep(s, o, OwnerStages).value);
  }

  lemma RenamesKeepsInv(s: System, o: Owner)
    requires Inv(s) && s.owner == Some(o) && OwnerStep(s, o, OwnerRenames).Some?
    ensures Inv(OwnerStep(s, o, OwnerRenames).value)
  {
    if TokenOpen(s.disk) { OpenTokenIdleOwner(s); }
    ShelfStays(s, OwnerStep(s, o, OwnerRenames).value);
  }

  lemma ApprovalKeepsInv(s: System, o: Owner, l: Label)
    requires Inv(s) && s.owner == Some(o) && (l.InspectRecovery? || l.ApproveRecovery?) && RecoveryStep(s, o, l).Some?
    ensures Inv(RecoveryStep(s, o, l).value)
  {
    ShelfStays(s, RecoveryStep(s, o, l).value);
  }

  lemma AuthorizeKeepsInv(s: System, o: Owner)
    requires Inv(s) && s.owner == Some(o) && RecoveryStep(s, o, AuthorizeRecovery).Some?
    ensures Inv(RecoveryStep(s, o, AuthorizeRecovery).value)
  {
    TransitionsAdvance(o.journal.value.phase, RecoveryAuthorized);
    SameDiskKeepsInv(s, RecoveryStep(s, o, AuthorizeRecovery).value);
  }

  lemma FinishKeepsInv(s: System, o: Owner)
    requires Inv(s) && s.owner == Some(o) && RecoveryStep(s, o, FinishRecovery).Some?
    ensures Inv(RecoveryStep(s, o, FinishRecovery).value)
  {
    SameDiskKeepsInv(s, RecoveryStep(s, o, FinishRecovery).value);
  }

  predicate IsReplacement(l: Label) {
    l.StageBinary? || l.RenameBinary? || l.StageReceipt? || l.RenameReceipt?
  }

  lemma ReplacementKeepsInv(s: System, o: Owner, l: Label)
    requires Inv(s) && s.owner == Some(o) && IsReplacement(l) && RecoveryStep(s, o, l).Some?
    ensures Inv(RecoveryStep(s, o, l).value)
  {
    ShelfStays(s, RecoveryStep(s, o, l).value);
  }

  lemma RecoveryKeepsInv(s: System, o: Owner, l: Label)
    requires Inv(s) && s.owner == Some(o) && RecoveryStep(s, o, l).Some?
    ensures Inv(RecoveryStep(s, o, l).value)
  {
    if IsReplacement(l) {
      ReplacementKeepsInv(s, o, l);
    } else if l.AuthorizeRecovery? {
      AuthorizeKeepsInv(s, o);
    } else if l.FinishRecovery? {
      FinishKeepsInv(s, o);
    } else {
      ApprovalKeepsInv(s, o, l);
    }
  }

  predicate IsLockLabel(l: Label) {
    l.OwnerEnds? || l.OwnerRaises? || l.TakeWindowLocks? || l.DropWindowLocks?
  }

  lemma LocksKeepInv(s: System, o: Owner, l: Label)
    requires Inv(s) && s.owner == Some(o) && IsLockLabel(l) && OwnerStep(s, o, l).Some?
    ensures Inv(OwnerStep(s, o, l).value)
  {
    SameDiskKeepsInv(s, OwnerStep(s, o, l).value);
  }

  lemma ReleaseKeepsInv(s: System, o: Owner)
    requires Inv(s) && s.owner == Some(o) && OwnerStep(s, o, OwnerReleases).Some?
    ensures Inv(OwnerStep(s, o, OwnerReleases).value)
  {
    var s' := OwnerStep(s, o, OwnerReleases).value;
    forall j <- s'.shelved ensures Memory(s', j) { assert Memory(s, j); }
  }

  lemma MarkerKeepsInv(s: System, o: Owner, l: Label)
    requires Inv(s) && s.owner == Some(o) && (l.CreateMarker? || l.FillMarker?) && OwnerStep(s, o, l).Some?
    ensures Inv(OwnerStep(s, o, l).value)
  {
    ShelfStays(s, OwnerStep(s, o, l).value);
  }

  predicate IsFileLabel(l: Label) {
    || l.OwnerStages? || l.OwnerRenames? || l.SaveOldBinary? || l.SaveOldReceipt?
    || l.InstallBinary? || l.InstallReceipt? || l.CreateMarker? || l.FillMarker?
  }

  lemma FileKeepsInv(s: System, o: Owner, l: Label)
    requires Inv(s) && s.owner == Some(o) && IsFileLabel(l) && OwnerStep(s, o, l).Some?
    ensures Inv(OwnerStep(s, o, l).value)
  {
    match l
    case OwnerStages => StagesKeepsInv(s, o);
    case OwnerRenames => RenamesKeepsInv(s, o);
    case SaveOldBinary => SaveBinaryKeepsInv(s, o);
    case SaveOldReceipt => SaveReceiptKeepsInv(s, o);
    case InstallBinary => InstallKeepsInv(s, o, l);
    case InstallReceipt(_) => InstallKeepsInv(s, o, l);
    case CreateMarker(_) => MarkerKeepsInv(s, o, l);
    case FillMarker => MarkerKeepsInv(s, o, l);
  }

  predicate IsCallLabel(l: Label) {
    l.CallStop? || l.ProveStop? || l.Advance? || l.RequestStart?
  }

  lemma CallKeepsInv(s: System, o: Owner, l: Label)
    requires Inv(s) && s.owner == Some(o) && IsCallLabel(l) && OwnerStep(s, o, l).Some?
    ensures Inv(OwnerStep(s, o, l).value)
  {
    match l
    case CallStop => StopKeepsInv(s, o, l);
    case ProveStop => StopKeepsInv(s, o, l);
    case Advance(p) => AdvanceKeepsInv(s, o, p);
    case RequestStart => RequestKeepsInv(s, o);
  }

  lemma OwnerKeepsInv(s: System, o: Owner, l: Label)
    requires Inv(s) && s.owner == Some(o) && OwnerStep(s, o, l).Some?
    ensures Inv(OwnerStep(s, o, l).value)
  {
    if IsFileLabel(l) {
      FileKeepsInv(s, o, l);
    } else if IsCallLabel(l) {
      CallKeepsInv(s, o, l);
    } else if IsLockLabel(l) {
      LocksKeepInv(s, o, l);
    } else if l.OwnerReleases? {
      ReleaseKeepsInv(s, o);
    } else {
      RecoveryKeepsInv(s, o, l);
    }
  }

  /** A return is fine when the memory cannot harm. */
  lemma ReturnKeepsInv(s: System, i: nat)
    requires Inv(s) && s.owner.None? && i < |s.shelved| && !CanHarm(s, s.shelved[i])
    ensures Inv(Returned(s, i))
  {
    var s' := Returned(s, i);
    assert Memory(s, s.shelved[i]);
    forall j <- s'.shelved ensures Memory(s', j) { assert j in s.shelved; }
  }

  // ---------------------------------------------------------------- runs

  /** Objects only come back when what they remember cannot harm. */
  predicate CarefulStep(s: System, l: Label) {
    l.OwnerReturns? && l.index < |s.shelved| && s.owner.None? ==> !CanHarm(s, s.shelved[l.index])
  }

  predicate Careful(s: System, labels: seq<Label>)
    decreases |labels|
  {
    labels == [] || (CarefulStep(s, labels[0]) && Careful(Apply(s, labels[0]), labels[1..]))
  }

  predicate IsLauncherLabel(l: Label) {
    l.LauncherTakesLock? || l.LauncherEnds? || l.CheckPermission? || l.ReadToken? || l.LauncherStages? || l.LauncherRenames?
  }

  lemma ApplyKeepsInv(s: System, l: Label)
    requires Inv(s) && CarefulStep(s, l)
    ensures Inv(Apply(s, l))
  {
    if Step(s, l).Some? {
      if IsLauncherLabel(l) {
        LauncherKeepsInv(s, l);
      } else if l.OwnerReturns? {
        ReturnKeepsInv(s, l.index);
      } else if l.OwnerTakesLock? {
        SameDiskKeepsInv(s, Step(s, l).value);
      } else {
        OwnerKeepsInv(s, s.owner.value, l);
      }
    }
  }

  /** What no step takes back. */
  predicate Kept(d: Disk, d': Disk) {
    && (d.journal.Some? ==>
        && d'.journal.Some? && AtOrLater(d.journal.value.phase, d'.journal.value.phase)
        && (d.journal.value.oldReceipt.Some? ==> d'.journal.value.oldReceipt.Some?))
    && (Requested(d) ==> Requested(d'))
    && (Consumed(d) ==> Consumed(d'))
    && (d.savedBinary.Some? ==> d'.savedBinary == d.savedBinary)
    && (d.savedReceipt.Some? ==> d'.savedReceipt == d.savedReceipt)
    && d.approvals <= d'.approvals
    && (!d.marker.NoMarker? ==> !d'.marker.NoMarker?)
  }

  lemma StepKeeps(s: System, l: Label)
    requires Inv(s)
    ensures Kept(s.disk, Apply(s, l).disk)
  {
    if Step(s, l).Some? {
      if l.OwnerRenames? {
        RenamesKeep(s, s.owner.value);
      } else if l.LauncherRenames? {
        ConsumptionKeeps(s);
      } else {
        OthersKeep(s, l);
      }
    }
  }

  lemma RenamesKeep(s: System, o: Owner)
    requires Inv(s) && s.owner == Some(o) && OwnerStep(s, o, OwnerRenames).Some?
    ensures Kept(s.disk, OwnerStep(s, o, OwnerRenames).value.disk)
  {
    if TokenOpen(s.disk) { OpenTokenIdleOwner(s); }
  }

  lemma ConsumptionKeeps(s: System)
    requires Inv(s)
    ensures Kept(s.disk, Apply(s, LauncherRenames).disk)
  {
  }

  lemma OthersKeep(s: System, l: Label)
    requires !l.OwnerRenames? && !l.LauncherRenames? && Step(s, l).Some?
    ensures Kept(s.disk, Step(s, l).value.disk)
    ensures Step(s, l).value.disk.journal == s.disk.journal
  {
    if !IsLauncherLabel(l) && !l.OwnerTakesLock? && !l.OwnerReturns? { OwnerKeeps(s, s.owner.value, l); }
  }

  lemma OwnerKeeps(s: System, o: Owner, l: Label)
    requires !l.OwnerRenames? && OwnerStep(s, o, l).Some?
    ensures Kept(s.disk, OwnerStep(s, o, l).value.disk)
    ensures OwnerStep(s, o, l).value.disk.journal == s.disk.journal
  {
    if IsFileLabel(l) {
      FileStepKeeps(s, o, l);
    } else if !IsCallLabel(l) && !IsLockLabel(l) && !l.OwnerReleases? {
      RecoveryStepKeeps(s, o, l);
    }
  }

  lemma FileStepKeeps(s: System, o: Owner, l: Label)
    requires IsFileLabel(l) && !l.OwnerRenames? && OwnerStep(s, o, l).Some?
    ensures Kept(s.disk, OwnerStep(s, o, l).value.disk)
    ensures OwnerStep(s, o, l).value.disk.journal == s.disk.journal
  {
  }

  lemma RecoveryStepKeeps(s: System, o: Owner, l: Label)
    requires RecoveryStep(s, o, l).Some?
    ensures Kept(s.disk, RecoveryStep(s, o, l).value.disk)
    ensures RecoveryStep(s, o, l).value.disk.journal == s.disk.journal
  {
  }

  lemma KeptTransitive(a: Disk, b: Disk, c: Disk)
    requires Kept(a, b) && Kept(b, c)
    ensures Kept(a, c)
  {
    if a.journal.Some? { LaterTransitive(a.journal.value.phase, b.journal.value.phase, c.journal.value.phase); }
  }

  lemma {:induction false} RunKeeps(s: System, labels: seq<Label>)
    requires Inv(s) && Careful(s, labels)
    ensures Inv(Run(s, labels)) && Kept(s.disk, Run(s, labels).disk)
    decreases |labels|
  {
    if labels != [] {
      ApplyKeepsInv(s, labels[0]);
      StepKeeps(s, labels[0]);
      RunKeeps(Apply(s, labels[0]), labels[1..]);
      KeptTransitive(s.disk, Apply(s, labels[0]).disk, Run(s, labels).disk);
    }
  }

  lemma {:induction false} RunSplits(s: System, a: seq<Label>, b: seq<Label>)
    ensures Run(s, a + b) == Run(Run(s, a), b)
    decreases |a|
  {
    if a == [] {
      assert a + b == b;
    } else {
      assert (a + b)[1..] == a[1..] + b;
      RunSplits(Apply(s, a[0]), a[1..], b);
    }
  }

  lemma {:induction false} CarefulSplits(s: System, a: seq<Label>, b: seq<Label>)
    ensures Careful(s, a + b) <==> Careful(s, a) && Careful(Run(s, a), b)
    decreases |a|
  {
    if a == [] {
      assert a + b == b;
    } else {
      assert (a + b)[0] == a[0] && (a + b)[1..] == a[1..] + b;
      CarefulSplits(Apply(s, a[0]), a[1..], b);
    }
  }

  /** An invariant state, and what of it lasts. */
  lemma RunInParts(s: System, earlier: seq<Label>, later: seq<Label>)
    requires Initial(s) && Careful(s, earlier + later)
    ensures Inv(Run(s, earlier)) && Inv(Run(s, earlier + later))
    ensures Run(s, earlier + later) == Run(Run(s, earlier), later)
    ensures Kept(Run(s, earlier).disk, Run(s, earlier + later).disk)
  {
    InitialInv(s);
    CarefulSplits(s, earlier, later);
    RunKeeps(s, earlier);
    RunSplits(s, earlier, later);
    RunKeeps(Run(s, earlier), later);
  }

  /** Under every interleaving of owners and launchers, with crashes anywhere, one start at most. */
  lemma ConsumedAtMostOnce(s: System, labels: seq<Label>)
    requires Initial(s) && Careful(s, labels)
    ensures Run(s, labels).consumed <= 1
    ensures Run(s, labels).consumed == 1 <==> Consumed(Run(s, labels).disk)
  {
    InitialInv(s);
    RunKeeps(s, labels);
  }

  /** Permission exists only after the request is durable and before the consumption is; it never comes back. */
  lemma PermittedOnlyWhileOpen(s: System, earlier: seq<Label>, later: seq<Label>)
    requires Initial(s) && Careful(s, earlier + later)
    ensures StartupPermitted(Run(s, earlier)) ==> TokenOpen(Run(s, earlier).disk) && Run(s, earlier).consumed == 0
    ensures Consumed(Run(s, earlier).disk) ==> !StartupPermitted(Run(s, earlier + later)) && Run(s, earlier + later).consumed == 1
    ensures Requested(Run(s, earlier).disk) ==> Requested(Run(s, earlier + later).disk)
  {
    RunInParts(s, earlier, later);
  }

  /** Durable phases only move to strictly later phases, and a started window is never a restored one. */
  lemma DurablePhasesAdvance(s: System, earlier: seq<Label>, later: seq<Label>)
    requires Initial(s) && Careful(s, earlier + later) && Run(s, earlier).disk.journal.Some?
    ensures Run(s, earlier + later).disk.journal.Some?
    ensures var p, q := Run(s, earlier).disk.journal.value.phase, Run(s, earlier + later).disk.journal.value.phase;
      && (p == q || (Later(p, q) && Rank(p) < Rank(q)))
      && (p.StartAttempted? ==> q.StartAttempted?)
      && (RecoveryPhase(p) ==> RecoveryPhase(q))
  {
    RunInParts(s, earlier, later);
  }

  /**
    From the moment a recovery approval is consumed, whatever happens next: the same approval is
    refused. From the moment the recovery is authorized on disk: no start is ever permitted, and no
    recovery can be begun again, with any approval.
   */
  lemma RecoveryNeverReplays(s: System, earlier: seq<Label>, later: seq<Label>, approval: nat)
    requires Initial(s) && Careful(s, earlier + later)
    ensures approval in Run(s, earlier).disk.approvals ==> Step(Run(s, earlier + later), ApproveRecovery(approval)).None?
    ensures var before, after := Run(s, earlier), Run(s, earlier + later);
      before.disk.journal.Some? && RecoveryPhase(before.disk.journal.value.phase) ==>
        && !StartupPermitted(after) && after.consumed == 0
        && forall other :: Step(after, ApproveRecovery(other)).None?
  {
    RunInParts(s, earlier, later);
  }

  /** While a recovery is under way, a crash leaves a state that refuses every start. */
  lemma RecoveryCrashRefusesStart(s: System, labels: seq<Label>)
    requires Initial(s) && Careful(s, labels) && Run(s, labels).owner.Some? && !Run(s, labels).owner.value.recovery.NotRecovering?
    ensures !StartupPermitted(Apply(Run(s, labels), OwnerEnds)) && Apply(Run(s, labels), OwnerEnds).owner.None?
  {
    InitialInv(s);
    RunKeeps(s, labels);
  }

  /**
    A restored window whose install had been intended: program and receipt are byte for byte the
    copies saved before the install intent, and those copies never changed since they were made.
   */
  lemma RestoredBytes(s: System, earlier: seq<Label>, later: seq<Label>)
    requires Initial(s) && Careful(s, earlier + later)
    ensures var before, after := Run(s, earlier).disk, Run(s, earlier + later).disk;
      after.journal.Some? && after.journal.value.phase.OldRestored? && before.journal.Some? && before.journal.value.oldReceipt.Some? ==>
        && after.savedBinary == before.savedBinary == Some(after.binary)
        && after.savedReceipt == before.savedReceipt == Some(after.receipt)
        && after.binary == Run(s, earlier).oldBinary
  {
    RunInParts(s, earlier, later);
    BinariesFixed(Run(s, earlier), later);
  }

  lemma BinariesFixedStep(s: System, l: Label)
    ensures Apply(s, l).oldBinary == s.oldBinary && Apply(s, l).newBinary == s.newBinary
  {
  }

  lemma {:induction false} BinariesFixed(s: System, labels: seq<Label>)
    ensures Run(s, labels).oldBinary == s.oldBinary && Run(s, labels).newBinary == s.newBinary
    decreases |labels|
  {
    if labels != [] {
      BinariesFixedStep(s, labels[0]);
      BinariesFixed(Apply(s, labels[0]), labels[1..]);
    }
  }

  // ---------------------------------------------------------------- an orphaned staging file

  predicate Orphaned(s: System) {
    && s.disk.staging
    && (s.owner.Some? && s.owner.value.write.Writing? ==> !s.owner.value.write.staged)
    && (s.launcher.Some? && s.launcher.value.Consuming? ==> !s.launcher.value.staged)
  }

  lemma OrphanStep(s: System, l: Label)
    requires Orphaned(s) && Step(s, l).Some?
    ensures Orphaned(Step(s, l).value) && Step(s, l).value.disk.journal == s.disk.journal && Step(s, l).value.consumed == s.consumed
    ensures Kept(s.disk, Step(s, l).value.disk)
  {
    OthersKeep(s, l);
    if !IsLauncherLabel(l) && !l.OwnerTakesLock? && !l.OwnerReturns? { OrphanOwnerStep(s, s.owner.value, l); }
  }

  lemma OrphanOwnerStep(s: System, o: Owner, l: Label)
    requires Orphaned(s) && s.owner == Some(o) && OwnerStep(s, o, l).Some?
    ensures var s' := OwnerStep(s, o, l).value;
      Orphaned(s') && s'.disk.journal == s.disk.journal && s'.consumed == s.consumed
  {
    if IsFileLabel(l) {
      OrphanFileStep(s, o, l);
    } else if !IsCallLabel(l) && !IsLockLabel(l) && !l.OwnerReleases? {
      OrphanRecoveryStep(s, o, l);
    }
  }

  lemma OrphanFileStep(s: System, o: Owner, l: Label)
    requires Orphaned(s) && s.owner == Some(o) && IsFileLabel(l) && OwnerStep(s, o, l).Some?
    ensures var s' := OwnerStep(s, o, l).value;
      Orphaned(s') && s'.disk.journal == s.disk.journal && s'.consumed == s.consumed
  {
  }

  lemma OrphanRecoveryStep(s: System, o: Owner, l: Label)
    requires Orphaned(s) && s.owner == Some(o) && RecoveryStep(s, o, l).Some?
    ensures var s' := RecoveryStep(s, o, l).value;
      Orphaned(s') && s'.disk.journal == s.disk.journal && s'.consumed == s.consumed
  {
  }

  /** A staging file that outlived its writer freezes the journal for good: no phase, no start, no recovery. */
  lemma {:induction false} OrphanFreezes(s: System, labels: seq<Label>)
    requires Orphaned(s)
    ensures Orphaned(Run(s, labels)) && Run(s, labels).disk.journal == s.disk.journal && Run(s, labels).consumed == s.consumed
    ensures Kept(s.disk, Run(s, labels).disk)
    decreases |labels|
  {
    if labels != [] {
      if Step(s, labels[0]).Some? { OrphanStep(s, labels[0]); }
      OrphanFreezes(Apply(s, labels[0]), labels[1..]);
      KeptTransitive(s.disk, Apply(s, labels[0]).disk, Run(s, labels).disk);
    }
  }
}
