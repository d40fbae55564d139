/**
  Window objects that take the hostops lock again: exactly when that is harmless, and two runs of a
  fresh deployment in which it is not.
 */
module ColdWindowReturns {
  import opened Basics
  import opened ColdWindow
  import opened ColdWindowTheorems
  import opened ColdWindowHost
  import opened ColdWindowPaths
  import opened ColdWindowRecovery

  /** What a return must not bring about: an earlier or foreign phase, or a request taken back. */
  predicate PutBack(d: Disk, d': Disk) {
    d.journal.Some? && d'.journal.Some? &&
    (!AtOrLater(d.journal.value.phase, d'.journal.value.phase) || (Requested(d) && !Requested(d')))
  }

  /** However the run goes on after the return, nothing durable is taken back and at most one start is consumed. */
  ghost predicate Harmless(s: System, i: nat)
    requires i < |s.shelved|
  {
    forall labels :: Careful(Returned(s, i), labels) ==>
      var t := Run(Returned(s, i), labels);
      Kept(s.disk, t.disk) && !PutBack(s.disk, t.disk) && t.consumed <= 1
  }

  /** A staging file somebody is about to rename, or none. */
  predicate NoOrphan(s: System) {
    s.disk.staging ==> s.launcher.Some? && s.launcher.value.Consuming? && s.launcher.value.staged
  }

  ghost predicate LeadsToHarm(s: System, d: Disk) {
    exists labels :: NoReturns(labels) && PutBack(d, Run(s, labels).disk)
  }

  lemma HarmFollows(s: System, t: System, d: Disk)
    requires Leads(s, t) && PutBack(d, t.disk)
    ensures LeadsToHarm(s, d)
  {
    var labels :| NoReturns(labels) && Run(s, labels) == t;
  }

  lemma HarmLater(s: System, t: System, d: Disk)
    requires Leads(s, t) && LeadsToHarm(t, d)
    ensures LeadsToHarm(s, d)
  {
    var a :| NoReturns(a) && Run(s, a) == t;
    var b :| NoReturns(b) && PutBack(d, Run(t, b).disk);
    RunSplits(s, a, b);
    assert NoReturns(a + b);
  }

  // ---------------------------------------------------------------- what a harmful memory does

  lemma StopHarms(s: System, j: Journal)
    requires s.owner == Holding(j, false) && s.launcher.None? && !s.disk.staging
    requires Memory(s, j) && CanHarm(s, j) && j.phase.Stopping?
    ensures LeadsToHarm(s, s.disk)
  {
    var o := s.owner.value;
    if !j.stopCalled {
      var target := j.(stopCalled := true);
      assert OwnerStep(s, o, CallStop) == Some(Begun(s, o, target));
      BegunLands(s, CallStop, o, target);
      HarmFollows(s, WithJournal(s, target).(owner := Some(o.(journal := Some(target), write := AfterRename(target)))), s.disk);
    } else {
      PhaseHarms(s, j, Quiescent);
    }
  }

  lemma PhaseHarms(s: System, j: Journal, p: Phase)
    requires s.owner == Holding(j, false) && s.launcher.None? && !s.disk.staging && s.disk.journal.Some?
    requires !p.InstallStarted? && MayAdvance(s, j, true, p)
    requires PutBack(s.disk, WithJournal(s, Advanced(s, j, p)).disk)
    ensures LeadsToHarm(s, s.disk)
  {
    LockAndPhaseLand(s, j, p);
    HarmFollows(s, WithJournal(s, Advanced(s, j, p)).(owner := Holding(Advanced(s, j, p), true)), s.disk);
  }

  lemma IntentHarms(s: System, j: Journal)
    requires DiskFits(s) && s.owner == Holding(j, false) && s.launcher.None? && !s.disk.staging
    requires Memory(s, j) && CanHarm(s, j) && j.phase.RestoreVerified?
    ensures LeadsToHarm(s, s.disk)
  {
    var t := s.(owner := Holding(j, true));
    LocksTaken(s, j);
    IntentLands(t, j);
    var u := t.(disk := t.disk.(savedBinary := Some(s.oldBinary), savedReceipt := Some(s.disk.receipt), journal := Some(Intent(t, j))),
                owner := Holding(Intent(t, j), true));
    LeadsOn(s, t, u);
    HarmFollows(s, u, s.disk);
  }

  lemma InstalledHarms(s: System, j: Journal)
    requires s.owner == Holding(j, false) && s.launcher.None? && !s.disk.staging
    requires CanHarm(s, j) && j.phase.InstallStarted? && !j.startAttempted
    ensures LeadsToHarm(s, s.disk)
  {
    var t := s.(owner := Holding(j, true));
    LocksTaken(s, j);
    InstallLands(t, j, s.disk.receipt);
    var u := t.(disk := t.disk.(binary := s.newBinary));
    assert u == t.(disk := t.disk.(binary := t.newBinary, receipt := s.disk.receipt));
    LeadsOn(s, t, u);
    PhaseLands(u, j, Installed);
    var v := WithJournal(u, Advanced(u, j, Installed)).(owner := Holding(Advanced(u, j, Installed), true));
    LeadsOn(s, u, v);
    HarmFollows(s, v, s.disk);
  }

  lemma ReturnedHarms(s: System, j: Journal)
    requires DiskFits(s) && s.owner == Holding(j, false) && s.launcher.None? && !s.disk.staging
    requires Memory(s, j) && CanHarm(s, j)
    ensures LeadsToHarm(s, s.disk)
  {
    match j.phase
    case Stopping => StopHarms(s, j);
    case Quiescent => PhaseHarms(s, j, BackedUp);
    case BackedUp => PhaseHarms(s, j, RestoreVerified);
    case RestoreVerified => IntentHarms(s, j);
    case InstallStarted => InstalledHarms(s, j);
    case Installed => PhaseHarms(s, j, StartAttempted);
  }

  // ---------------------------------------------------------------- exactly when a return is harmless

  /** A launcher in the middle of a consumption finishes and goes; phase and request stay. */
  function Calm(s: System): System {
    if s.launcher.Some? && s.launcher.value.Consuming? && s.launcher.value.staged then
      s.(disk := s.disk.(journal := Some(s.launcher.value.target), staging := false), launcher := None, consumed := s.consumed + 1)
    else s.(launcher := None)
  }

  lemma CalmLands(s: System)
    ensures Leads(s, Calm(s))
  {
    if s.launcher.None? {
      LeadsNowhere(s);
    } else if s.launcher.value.Consuming? && s.launcher.value.staged {
      var t := Calm(s).(launcher := Some(Waiting));
      LeadsOne(s, LauncherRenames, t);
      LauncherGone(t);
      LeadsOn(s, t, Calm(s));
    } else {
      LauncherGone(s);
    }
  }

  lemma CalmStays(s: System, j: Journal)
    requires DiskFits(s) && (s.launcher.Some? ==> LauncherFits(s, s.launcher.value)) && Memory(s, j) && NoOrphan(s)
    ensures var t := Calm(s);
      && DiskFits(t) && Memory(t, j) && (CanHarm(s, j) <==> CanHarm(t, j)) && !t.disk.staging && t.launcher.None?
      && (forall d' :: PutBack(t.disk, d') ==> PutBack(s.disk, d'))
  {
  }

  /** An object with a harmful memory has a run that takes something durable back. */
  lemma HarmfulReturn(s: System, i: nat)
    requires Inv(s) && s.owner.None? && i < |s.shelved| && NoOrphan(s) && CanHarm(s, s.shelved[i])
    ensures LeadsToHarm(Returned(s, i), s.disk)
  {
    var j, r := s.shelved[i], Returned(s, i);
    assert Memory(s, j) && Memory(r, j);
    CalmLands(r);
    CalmStays(r, j);
    ReturnedHarms(Calm(r), j);
    var labels :| NoReturns(labels) && PutBack(Calm(r).disk, Run(Calm(r), labels).disk);
    assert PutBack(r.disk, Run(Calm(r), labels).disk);
    assert LeadsToHarm(Calm(r), r.disk);
    HarmLater(r, Calm(r), r.disk);
  }

  lemma KeptIsNotPutBack(d: Disk, d': Disk)
    requires Kept(d, d')
    ensures !PutBack(d, d')
  {
  }

  /** Behind an orphaned staging file nobody writes the journal, whatever he remembers. */
  lemma OrphanHarmless(s: System, i: nat)
    requires Inv(s) && s.owner.None? && i < |s.shelved| && !NoOrphan(s)
    ensures Harmless(s, i)
  {
    forall labels | Careful(Returned(s, i), labels)
      ensures var t := Run(Returned(s, i), labels); Kept(s.disk, t.disk) && !PutBack(s.disk, t.disk) && t.consumed <= 1
    {
      OrphanFreezes(Returned(s, i), labels);
      KeptIsNotPutBack(s.disk, Run(Returned(s, i), labels).disk);
    }
  }

  lemma CarefulReturnHarmless(s: System, i: nat)
    requires Inv(s) && s.owner.None? && i < |s.shelved| && !CanHarm(s, s.shelved[i])
    ensures Harmless(s, i)
  {
    ReturnKeepsInv(s, i);
    forall labels | Careful(Returned(s, i), labels)
      ensures var t := Run(Returned(s, i), labels); Kept(s.disk, t.disk) && !PutBack(s.disk, t.disk) && t.consumed <= 1
    {
      RunKeeps(Returned(s, i), labels);
      KeptIsNotPutBack(s.disk, Run(Returned(s, i), labels).disk);
    }
  }

  /**
    An object may take the lock again exactly when what it remembers cannot harm, or an orphaned
    staging file blocks every write: then nothing durable is ever taken back and one start is
    consumed at most, whatever happens next. Otherwise there is a run in which its own next journal
    write takes something back.
   */
  lemma ReturnHarmlessExactly(s: System, i: nat)
    requires Inv(s) && s.owner.None? && i < |s.shelved|
    ensures Harmless(s, i) <==> !CanHarm(s, s.shelved[i]) || !NoOrphan(s)
  {
    if !CanHarm(s, s.shelved[i]) {
      CarefulReturnHarmless(s, i);
    } else if !NoOrphan(s) {
      OrphanHarmless(s, i);
    } else {
      HarmfulReturn(s, i);
      var labels :| NoReturns(labels) && PutBack(s.disk, Run(Returned(s, i), labels).disk);
      NoReturnsCareful(Returned(s, i), labels);
    }
  }

  /** In particular a return is harmless when the remembered phase is not behind the durable one. */
  lemma NotBehindIsHarmless(s: System, i: nat)
    requires Inv(s) && s.owner.None? && i < |s.shelved|
    requires s.disk.journal.Some? ==> AtOrLater(s.disk.journal.value.phase, s.shelved[i].phase)
    ensures Harmless(s, i)
  {
    ReturnHarmlessExactly(s, i);
  }

  // ---------------------------------------------------------------- two runs of a fresh deployment

  /** Some run, with returns, leads from one state to the other. */
  ghost predicate Gets(s: System, t: System) {
    exists labels :: Run(s, labels) == t
  }

  lemma GetsByLeading(s: System, t: System)
    requires Leads(s, t)
    ensures Gets(s, t)
  {
    var labels :| NoReturns(labels) && Run(s, labels) == t;
  }

  lemma GetsOn(s: System, t: System, u: System)
    requires Gets(s, t) && Gets(t, u)
    ensures Gets(s, u)
  {
    var a :| Run(s, a) == t;
    var b :| Run(t, b) == u;
    RunSplits(s, a, b);
  }

  lemma GetsBack(s: System, i: nat)
    requires s.owner.None? && i < |s.shelved|
    ensures Gets(s, Returned(s, i))
  {
    RunOne(s, OwnerReturns(i));
    assert Run(s, [OwnerReturns(i)]) == Returned(s, i);
  }

  /** A deployment before its window, with the program the binding names as the old one. */
  predicate FreshDeployment(s: System) {
    Initial(s) && s.disk.binary == s.oldBinary && s.disk.approvals == {}
  }

  /** The journal when the manager's stop is proven, by phase. */
  function Stopped(g: nat, p: Phase): Journal {
    Journal(g, p, false, true, true, None, None, None)
  }

  function WindowAt(s: System, g: nat, j: Journal, locks: bool): System {
    s.(disk := s.disk.(marker := Marker(g), journal := Some(j)), owner := Holding(j, locks))
  }

  /** The first window object with its new journal in memory and the marker where the steps have put it. */
  function Marking(s: System, g: nat, marker: Marker, write: Write): System {
    s.(disk := s.disk.(marker := marker), owner := Some(Owner(Some(NewJournal(g)), false, write, NotRecovering)))
  }

  lemma MarkerLands(s: System, g: nat)
    requires FreshDeployment(s)
    ensures Leads(s, Marking(s, g, Marker(g), Writing(NewJournal(g), false)))
  {
    var t := s.(owner := Some(Owner(None, false, Idle, NotRecovering)));
    var u := Marking(s, g, TornMarker, MarkingWindow);
    LeadsOne(s, OwnerTakesLock, t);
    LeadsOne(t, CreateMarker(g), u);
    LeadsOn(s, t, u);
    MarkerFilled(s, g);
    LeadsOn(s, u, Marking(s, g, Marker(g), Writing(NewJournal(g), false)));
  }

  lemma MarkerFilled(s: System, g: nat)
    ensures Leads(Marking(s, g, TornMarker, MarkingWindow), Marking(s, g, Marker(g), Writing(NewJournal(g), false)))
  {
    LeadsOne(Marking(s, g, TornMarker, MarkingWindow), FillMarker, Marking(s, g, Marker(g), Writing(NewJournal(g), false)));
  }

  lemma BeginLands(s: System, g: nat)
    requires FreshDeployment(s)
    ensures Leads(s, WindowAt(s, g, NewJournal(g), false))
  {
    var t := Marking(s, g, Marker(g), Writing(NewJournal(g), false));
    MarkerLands(s, g);
    ReplaceLands(t, t.owner.value, NewJournal(g));
    LeadsOn(s, t, WindowAt(s, g, NewJournal(g), false));
  }

  lemma StopLands(s: System, g: nat)
    requires s.owner == Holding(NewJournal(g), false) && !s.disk.staging
    ensures Leads(s, WithJournal(s, Stopped(g, Stopping)).(owner := Holding(Stopped(g, Stopping), false)))
  {
    var o, called, proven := s.owner.value, NewJournal(g).(stopCalled := true), Stopped(g, Stopping);
    assert OwnerStep(s, o, CallStop) == Some(Begun(s, o, called));
    BegunLands(s, CallStop, o, called);
    var t := WithJournal(s, called).(owner := Some(o.(journal := Some(called), write := ManagerStopping)));
    assert OwnerStep(t, t.owner.value, ProveStop) == Some(Begun(t, t.owner.value, proven));
    var u := Begun(t, t.owner.value, proven);
    LeadsOne(t, ProveStop, u);
    ReplaceLands(u, u.owner.value, proven);
    var v := WithJournal(s, proven).(owner := Holding(proven, false));
    LeadsOn(t, u, v);
    LeadsOn(s, t, v);
  }

  lemma VerifiedLands(s: System, g: nat)
    requires s.owner == Holding(Stopped(g, Stopping), false) && s.launcher.None? && !s.disk.staging
    requires s.disk.journal == Some(Stopped(g, Stopping))
    ensures var j := Stopped(g, RestoreVerified); Leads(s, WithJournal(s, j).(owner := Holding(j, true)))
  {
    var q, b, r := Stopped(g, Quiescent), Stopped(g, BackedUp), Stopped(g, RestoreVerified);
    LockAndPhaseLand(s, Stopped(g, Stopping), Quiescent);
    var t := WithJournal(s, q).(owner := Holding(q, true));
    PhaseLands(t, q, BackedUp);
    var u := WithJournal(s, b).(owner := Holding(b, true));
    LeadsOn(s, t, u);
    PhaseLands(u, b, RestoreVerified);
    LeadsOn(s, u, WithJournal(s, r).(owner := Holding(r, true)));
  }

  function InstalledJournal(g: nat, old_: Bytes, new_: Bytes): Journal {
    Journal(g, Installed, false, true, true, Some(old_), Some(new_), None)
  }

  /** The state with the new program installed, in the owner's hands. */
  function InstalledAt(s: System, g: nat, receipt: Bytes): System {
    var j := InstalledJournal(g, s.disk.receipt, receipt);
    s.(disk := s.disk.(marker := Marker(g), journal := Some(j), binary := s.newBinary, receipt := receipt,
                       savedBinary := Some(s.oldBinary), savedReceipt := Some(s.disk.receipt)),
       owner := Holding(j, true))
  }

  lemma InstalledLands(s: System, g: nat, receipt: Bytes)
    requires s.owner == Holding(Stopped(g, RestoreVerified), true) && s.disk.journal == Some(Stopped(g, RestoreVerified))
    requires s.disk.marker == Marker(g) && !s.disk.staging
    requires s.disk.binary == s.oldBinary && s.disk.savedBinary.None? && s.disk.savedReceipt.None?
    ensures Leads(s, InstalledAt(s, g, receipt))
  {
    var j := Stopped(g, RestoreVerified);
    var i := Intent(s, j);
    IntentLands(s, j);
    var t := s.(disk := s.disk.(savedBinary := Some(s.oldBinary), savedReceipt := Some(s.disk.receipt), journal := Some(i)), owner := Holding(i, true));
    InstallLands(t, i, receipt);
    var u := t.(disk := t.disk.(binary := s.newBinary, receipt := receipt));
    LeadsOn(s, t, u);
    PhaseLands(u, i, Installed);
    LeadsOn(s, u, InstalledAt(s, g, receipt));
  }

  lemma FreshInstalled(s: System, g: nat, receipt: Bytes)
    requires FreshDeployment(s)
    ensures Leads(s, InstalledAt(s, g, receipt))
  {
    BeginLands(s, g);
    var t := WindowAt(s, g, NewJournal(g), false);
    StopLands(t, g);
    var u := WindowAt(s, g, Stopped(g, Stopping), false);
    LeadsOn(s, t, u);
    VerifiedLands(u, g);
    var v := WindowAt(s, g, Stopped(g, RestoreVerified), true);
    LeadsOn(s, u, v);
    InstalledLands(v, g, receipt);
    LeadsOn(s, v, InstalledAt(s, g, receipt));
  }

  /** Two objects with the same memory on the shelf: the owner, and one whose recovery attempt was refused late. */
  function TwoShelved(s: System, g: nat, receipt: Bytes): System {
    var j := InstalledJournal(g, s.disk.receipt, receipt);
    InstalledAt(s, g, receipt).(owner := None, shelved := [j, j])
  }

  lemma OwnerShelved(s: System, j: Journal)
    requires s.owner == Holding(j, true)
    ensures Leads(s, s.(owner := None, shelved := s.shelved + [j]))
  {
    LocksDropped(s, j);
    LeadsOne(s.(owner := Holding(j, false)), OwnerReleases, s.(owner := None, shelved := s.shelved + [j]));
    LeadsOn(s, s.(owner := Holding(j, false)), s.(owner := None, shelved := s.shelved + [j]));
  }

  /** A second object reads the journal for a recovery, is refused, and lets go. */
  lemma InspectorShelved(s: System, j: Journal)
    requires s.owner.None? && s.launcher.None? && WindowReadable(s.disk) && s.disk.journal == Some(j)
    requires !j.startAttempted && RecoverablePhase(j.phase)
    ensures Leads(s, s.(owner := None, shelved := s.shelved + [j]))
  {
    LockedLands(s);
    var t := s.(owner := Some(Owner(None, true, Idle, NotRecovering)));
    LeadsOne(t, InspectRecovery, s.(owner := Holding(j, true)));
    LeadsOn(s, t, s.(owner := Holding(j, true)));
    OwnerShelved(s.(owner := Holding(j, true)), j);
    LeadsOn(s, s.(owner := Holding(j, true)), s.(owner := None, shelved := s.shelved + [j]));
  }

  /** A new object with both locks. */
  lemma LockedLands(s: System)
    requires s.owner.None? && s.launcher.None?
    ensures Leads(s, s.(owner := Some(Owner(None, true, Idle, NotRecovering))))
  {
    var t := s.(owner := Some(Owner(None, false, Idle, NotRecovering)));
    LeadsOne(s, OwnerTakesLock, t);
    LeadsOne(t, TakeWindowLocks, t.(owner := Some(Owner(None, true, Idle, NotRecovering))));
    LeadsOn(s, t, t.(owner := Some(Owner(None, true, Idle, NotRecovering))));
  }

  lemma TwoObjectsShelved(s: System, g: nat, receipt: Bytes)
    requires FreshDeployment(s)
    ensures Leads(s, TwoShelved(s, g, receipt))
  {
    var j, t := InstalledJournal(g, s.disk.receipt, receipt), InstalledAt(s, g, receipt);
    FreshInstalled(s, g, receipt);
    OwnerShelved(t, j);
    var u := t.(owner := None, shelved := [j]);
    LeadsOn(s, t, u);
    InspectorShelved(u, j);
    assert TwoShelved(s, g, receipt) == u.(shelved := [j] + [j]);
    LeadsOn(s, u, TwoShelved(s, g, receipt));
  }

  /** The journal of a start: attempted, requested, consumed. */
  function StartedJournal(j: Journal, binary: Bytes, receipt: Bytes, requested: bool, consumed: bool): Journal {
    j.(phase := StartAttempted, startAttempted := true,
       handoff := Some(Handoff(j.generation, requested, consumed, binary, receipt)))
  }

  /** An owner with an installed window attempts the start and lets go of the window locks. */
  lemma StartAttemptedLands(s: System, j: Journal)
    requires s.owner == Holding(j, false) && s.launcher.None? && !s.disk.staging && s.disk.journal.Some?
    requires j.phase.Installed? && !j.startAttempted
    requires s.disk.binary == s.newBinary && j.installedReceipt == Some(s.disk.receipt)
    ensures var attempted := StartedJournal(j, s.newBinary, s.disk.receipt, false, false);
      Leads(s, WithJournal(s, attempted).(owner := Holding(attempted, false)))
  {
    var attempted := StartedJournal(j, s.newBinary, s.disk.receipt, false, false);
    LockAndPhaseLand(s, j, StartAttempted);
    var t := WithJournal(s, attempted).(owner := Holding(attempted, true));
    LocksDropped(t, attempted);
    LeadsOn(s, t, t.(owner := Holding(attempted, false)));
  }

  /** The start is then requested, and a launcher consumes it. */
  lemma StartConsumed(s: System, j: Journal)
    requires s.owner == Holding(j, false) && s.launcher.None? && !s.disk.staging && s.disk.journal.Some?
    requires j.phase.Installed? && !j.startAttempted && s.disk.marker == Marker(j.generation)
    requires s.disk.binary == s.newBinary && j.installedReceipt == Some(s.disk.receipt)
    ensures var after := StartedJournal(j, s.newBinary, s.disk.receipt, true, true);
      var requested := StartedJournal(j, s.newBinary, s.disk.receipt, true, false);
      Leads(s, WithJournal(s, after).(owner := Holding(requested, false), consumed := s.consumed + 1))
  {
    var attempted := StartedJournal(j, s.newBinary, s.disk.receipt, false, false);
    var requested := StartedJournal(j, s.newBinary, s.disk.receipt, true, false);
    StartAttemptedLands(s, j);
    var u := WithJournal(s, attempted).(owner := Holding(attempted, false));
    RequestLands(u, attempted);
    var v := WithJournal(s, requested).(owner := Holding(requested, false));
    LeadsOn(s, u, v);
    LauncherLands(v);
    LeadsOn(s, v, WithConsumption(v));
  }

  /** The first of the two comes back and starts; the second comes back and starts again. */
  lemma SecondStart(s: System, g: nat, receipt: Bytes)
    requires FreshDeployment(s)
    ensures exists labels :: Run(s, labels).consumed == 2
  {
    var j, t := InstalledJournal(g, s.disk.receipt, receipt), TwoShelved(s, g, receipt);
    TwoObjectsShelved(s, g, receipt);
    GetsByLeading(s, t);
    GetsBack(t, 0);
    var u := Returned(t, 0);
    GetsOn(s, t, u);
    StartConsumed(u, j);
    var requested, after := StartedJournal(j, s.newBinary, receipt, true, false), StartedJournal(j, s.newBinary, receipt, true, true);
    var v := WithJournal(u, after).(owner := Holding(requested, false), consumed := 1);
    GetsByLeading(u, v);
    GetsOn(s, u, v);
    SecondReturn(v, j);
    var w :| Gets(v, w) && w.consumed == 2;
    GetsOn(s, v, w);
  }

  /** With one start consumed, the other object still remembers the installed window. */
  lemma SecondReturn(s: System, j: Journal)
    requires s.owner.Some? && Free(s.owner.value) && !s.owner.value.locks && s.launcher.None? && !s.disk.staging
    requires |s.shelved| > 0 && s.shelved[0] == j && s.consumed == 1 && s.disk.journal.Some?
    requires j.phase.Installed? && !j.startAttempted && s.disk.marker == Marker(j.generation)
    requires s.disk.binary == s.newBinary && j.installedReceipt == Some(s.disk.receipt)
    ensures exists t :: Gets(s, t) && t.consumed == 2
  {
    var t := s.(owner := None, shelved := s.shelved + Remembered(s.owner.value));
    LeadsOne(s, OwnerReleases, t);
    GetsByLeading(s, t);
    GetsBack(t, 0);
    var u := Returned(t, 0);
    GetsOn(s, t, u);
    StartConsumed(u, j);
    var requested, after := StartedJournal(j, s.newBinary, s.disk.receipt, true, false), StartedJournal(j, s.newBinary, s.disk.receipt, true, true);
    var v := WithJournal(u, after).(owner := Holding(requested, false), consumed := 2);
    GetsByLeading(u, v);
    GetsOn(s, u, v);
  }

  /** What a process leaves that authorizes a recovery and dies before it replaces anything. */
  function AuthorizedAndLost(s: System, j: Journal, approval: nat): System {
    s.(disk := s.disk.(journal := Some(j.(phase := RecoveryAuthorized)), approvals := s.disk.approvals + {approval}), owner := None)
  }

  lemma AuthorizedLands(s: System, j: Journal, approval: nat)
    requires s.owner.None? && s.launcher.None? && !s.disk.staging && WindowReadable(s.disk) && s.disk.journal == Some(j)
    requires j.phase.Installed? && !j.startAttempted && approval !in s.disk.approvals
    requires s.disk.savedBinary == Some(s.oldBinary) && s.disk.savedReceipt.Some? && s.disk.savedReceipt == j.oldReceipt
    ensures Leads(s, AuthorizedAndLost(s, j, approval))
  {
    LockedLands(s);
    var t := s.(owner := Some(Owner(None, true, Idle, NotRecovering)));
    AuthorizationDoes(t, approval);
    var v := AuthorizedOnly(t, approval);
    DoesLeads(t, AuthorizationScript(approval), v);
    LeadsOn(s, t, v);
    LeadsOne(v, OwnerEnds, AuthorizedAndLost(s, j, approval));
    LeadsOn(s, v, AuthorizedAndLost(s, j, approval));
  }

  /** A recovery is authorized on disk; an object that remembers the installed window comes back and starts it. */
  lemma StartAfterRecovery(s: System, g: nat, receipt: Bytes)
    requires FreshDeployment(s)
    ensures exists t, u :: Gets(s, t) && Gets(t, u) && RecoveryThenStart(t, u)
  {
    var j, t := InstalledJournal(g, s.disk.receipt, receipt), TwoShelved(s, g, receipt);
    TwoObjectsShelved(s, g, receipt);
    GetsByLeading(s, t);
    AuthorizedLands(t, j, 0);
    var u := AuthorizedAndLost(t, j, 0);
    GetsByLeading(t, u);
    GetsOn(s, t, u);
    GetsBack(u, 0);
    var v := Returned(u, 0);
    StartConsumed(v, j);
    var requested, after := StartedJournal(j, s.newBinary, receipt, true, false), StartedJournal(j, s.newBinary, receipt, true, true);
    var w := WithJournal(v, after).(owner := Holding(requested, false), consumed := 1);
    GetsByLeading(v, w);
    GetsOn(u, v, w);
    assert RecoveryThenStart(u, w);
  }

  predicate RecoveryThenStart(t: System, u: System) {
    && t.disk.journal.Some? && t.disk.journal.value.phase.RecoveryAuthorized?
    && u.disk.journal.Some? && u.disk.journal.value.phase.StartAttempted? && u.consumed == 1
  }
}
