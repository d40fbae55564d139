/** Stretches of undisturbed runs, stated by where they lead. */
module ColdWindowPaths {
  import opened Basics
  import opened ColdWindow
  import opened ColdWindowTheorems

  predicate NoReturns(labels: seq<Label>) {
    forall l <- labels :: !l.OwnerReturns?
  }

  /** Some run without returning objects leads from one state to the other. */
  ghost predicate Leads(s: System, t: System) {
    exists labels :: NoReturns(labels) && Run(s, labels) == t
  }

  lemma RunOne(s: System, l: Label)
    ensures Run(s, [l]) == Apply(s, l)
  {
    assert [l][1..] == [];
  }

  lemma LeadsOne(s: System, l: Label, t: System)
    requires Step(s, l) == Some(t) && !l.OwnerReturns?
    ensures Leads(s, t)
  {
    RunOne(s, l);
    assert NoReturns([l]);
  }

  lemma LeadsNowhere(s: System)
    ensures Leads(s, s)
  {
    assert NoReturns([]) && Run(s, []) == s;
  }

  lemma LeadsOn(s: System, t: System, u: System)
    requires Leads(s, t) && Leads(t, u)
    ensures Leads(s, u)
  {
    var a :| NoReturns(a) && Run(s, a) == t;
    var b :| NoReturns(b) && Run(t, b) == u;
    RunSplits(s, a, b);
    assert NoReturns(a + b);
  }

  lemma {:induction false} NoReturnsCareful(s: System, labels: seq<Label>)
    requires NoReturns(labels)
    ensures Careful(s, labels)
    decreases |labels|
  {
    if labels != [] { NoReturnsCareful(Apply(s, labels[0]), labels[1..]); }
  }

  function Holding(j: Journal, locks: bool): Option<Owner> {
    Some(Owner(Some(j), locks, Idle, NotRecovering))
  }

  function WithJournal(s: System, j: Journal): System {
    s.(disk := s.disk.(journal := Some(j)))
  }

  lemma JournalStaged(s: System, o: Owner, target: Journal)
    requires !s.disk.staging && s.owner == Some(o) && o.write == Writing(target, false)
    ensures Leads(s, s.(disk := s.disk.(staging := true), owner := Some(o.(write := Writing(target, true)))))
  {
    LeadsOne(s, OwnerStages, s.(disk := s.disk.(staging := true), owner := Some(o.(write := Writing(target, true)))));
  }

  lemma JournalRenamed(s: System, o: Owner, target: Journal)
    requires s.owner == Some(o) && o.write == Writing(target, true)
    ensures Leads(s, s.(disk := s.disk.(journal := Some(target), staging := false), owner := Some(Replaced(o, target))))
  {
    LeadsOne(s, OwnerRenames, s.(disk := s.disk.(journal := Some(target), staging := false), owner := Some(Replaced(o, target))));
  }

  /** A journal replacement that meets no staging file. */
  lemma ReplaceLands(s: System, o: Owner, target: Journal)
    requires !s.disk.staging && s.owner == Some(o) && o.write == Writing(target, false)
    ensures Leads(s, WithJournal(s, target).(owner := Some(Replaced(o, target))))
  {
    var o' := o.(write := Writing(target, true));
    var t := s.(disk := s.disk.(staging := true), owner := Some(o'));
    var u := t.(disk := t.disk.(journal := Some(target), staging := false), owner := Some(Replaced(o', target)));
    JournalStaged(s, o, target);
    JournalRenamed(t, o', target);
    LeadsOn(s, t, u);
    assert u == WithJournal(s, target).(owner := Some(Replaced(o, target)));
  }

  /** A method that changes the journal and replaces the file, once it has passed its guard. */
  lemma BegunLands(s: System, l: Label, o: Owner, j: Journal)
    requires s.owner == Some(o) && Step(s, l) == Some(Begun(s, o, j)) && !l.OwnerReturns?
    requires !s.disk.staging && o.recovery.NotRecovering?
    ensures Leads(s, WithJournal(s, j).(owner := Some(o.(journal := Some(j), write := AfterRename(j)))))
  {
    var t := Begun(s, o, j);
    LeadsOne(s, l, t);
    ReplaceLands(t, t.owner.value, j);
    LeadsOn(s, t, WithJournal(s, j).(owner := Some(o.(journal := Some(j), write := AfterRename(j)))));
  }

  lemma PhaseLands(s: System, j: Journal, p: Phase)
    requires s.owner == Holding(j, true) && !s.disk.staging && !p.InstallStarted? && MayAdvance(s, j, true, p)
    ensures var j' := Advanced(s, j, p); j'.phase == p && Leads(s, WithJournal(s, j').(owner := Holding(j', true)))
  {
    var o := s.owner.value;
    assert OwnerStep(s, o, Advance(p)) == Some(Begun(s, o, Advanced(s, j, p)));
    BegunLands(s, Advance(p), o, Advanced(s, j, p));
  }

  lemma LocksTaken(s: System, j: Journal)
    requires s.owner == Holding(j, false) && s.launcher.None?
    ensures Leads(s, s.(owner := Holding(j, true)))
  {
    LeadsOne(s, TakeWindowLocks, s.(owner := Holding(j, true)));
  }

  lemma LocksDropped(s: System, j: Journal)
    requires s.owner == Holding(j, true)
    ensures Leads(s, s.(owner := Holding(j, false)))
  {
    LeadsOne(s, DropWindowLocks, s.(owner := Holding(j, false)));
  }

  /** From the lock to the durable phase, for an object that holds the hostops lock only. */
  lemma LockAndPhaseLand(s: System, j: Journal, p: Phase)
    requires s.owner == Holding(j, false) && s.launcher.None? && !s.disk.staging && !p.InstallStarted? && MayAdvance(s, j, true, p)
    ensures var j' := Advanced(s, j, p); j'.phase == p && Leads(s, WithJournal(s, j').(owner := Holding(j', true)))
  {
    var t := s.(owner := Holding(j, true));
    LocksTaken(s, j);
    PhaseLands(t, j, p);
    LeadsOn(s, t, WithJournal(s, Advanced(s, j, p)).(owner := Holding(Advanced(s, j, p), true)));
  }

  function Intent(s: System, j: Journal): Journal {
    j.(phase := InstallStarted, oldReceipt := Some(s.disk.receipt))
  }

  /** The state between the two raw copies and the phase. */
  function Copied(s: System, o: Owner): System {
    s.(disk := s.disk.(savedBinary := Some(s.oldBinary), savedReceipt := Some(s.disk.receipt)),
       owner := Some(o.(write := ReceiptSaved)))
  }

  lemma CopiesLand(s: System, o: Owner)
    requires s.owner == Some(o) && Free(o) && o.locks && o.journal.Some? && o.journal.value.phase.RestoreVerified?
    requires s.disk.binary == s.oldBinary && s.disk.savedBinary.None? && s.disk.savedReceipt.None?
    ensures Leads(s, Copied(s, o))
  {
    var t := s.(disk := s.disk.(savedBinary := Some(s.oldBinary)), owner := Some(o.(write := BinarySaved)));
    LeadsOne(s, SaveOldBinary, t);
    LeadsOne(t, SaveOldReceipt, Copied(s, o));
    LeadsOn(s, t, Copied(s, o));
  }

  /** install_intent: the two raw copies, then the phase. */
  lemma IntentLands(s: System, j: Journal)
    requires s.owner == Holding(j, true) && !s.disk.staging && j.phase.RestoreVerified? && !j.startAttempted
    requires s.disk.binary == s.oldBinary && s.disk.savedBinary.None? && s.disk.savedReceipt.None?
    ensures Leads(s, s.(disk := s.disk.(savedBinary := Some(s.oldBinary), savedReceipt := Some(s.disk.receipt), journal := Some(Intent(s, j))),
                        owner := Holding(Intent(s, j), true)))
  {
    var o := s.owner.value;
    CopiesLand(s, o);
    var u := Copied(s, o);
    IntentBegins(u, u.owner.value, Intent(s, j));
    LeadsOn(s, u, WithJournal(u, Intent(s, j)).(owner := Holding(Intent(s, j), true)));
  }

  lemma IntentBegins(s: System, o: Owner, target: Journal)
    requires s.owner == Some(o) && o.write.ReceiptSaved? && o.recovery.NotRecovering? && o.locks && !s.disk.staging
    requires o.journal.Some? && o.journal.value.phase.RestoreVerified? && !o.journal.value.startAttempted
    requires target == Intent(s, o.journal.value)
    ensures Leads(s, WithJournal(s, target).(owner := Some(Owner(Some(target), true, Idle, NotRecovering))))
  {
    assert OwnerStep(s, o, Advance(InstallStarted)) == Some(Begun(s, o, target));
    BegunLands(s, Advance(InstallStarted), o, target);
  }

  /** The installer puts the new program and a receipt in place. */
  lemma InstallLands(s: System, j: Journal, receipt: Bytes)
    requires s.owner == Holding(j, true) && j.phase.InstallStarted?
    ensures Leads(s, s.(disk := s.disk.(binary := s.newBinary, receipt := receipt)))
  {
    var t := s.(disk := s.disk.(binary := s.newBinary));
    LeadsOne(s, InstallBinary, t);
    LeadsOne(t, InstallReceipt(receipt), t.(disk := t.disk.(receipt := receipt)));
    LeadsOn(s, t, t.(disk := t.disk.(receipt := receipt)));
  }

  /** start up to the manager's call. */
  lemma RequestLands(s: System, j: Journal)
    requires s.owner == Holding(j, false) && MayRequest(s, s.owner.value) && !s.disk.staging
    ensures var current := s.disk.journal.value;
      var wanted := current.(handoff := Some(current.handoff.value.(requested := true)));
      Leads(s, WithJournal(s, wanted).(owner := Holding(wanted, false)))
  {
    var o, current := s.owner.value, s.disk.journal.value;
    var wanted := current.(handoff := Some(current.handoff.value.(requested := true)));
    var t := s.(owner := Some(o.(write := Writing(wanted, false))));
    LeadsOne(s, RequestStart, t);
    ReplaceLands(t, t.owner.value, wanted);
    LeadsOn(s, t, WithJournal(s, wanted).(owner := Holding(wanted, false)));
  }

  function WithConsumption(s: System): System
    requires s.disk.journal.Some? && s.disk.journal.value.handoff.Some?
  {
    var j := s.disk.journal.value;
    WithJournal(s, j.(handoff := Some(j.handoff.value.(consumed := true)))).(consumed := s.consumed + 1)
  }

  /** A permitted start is consumed by a launcher that holds the runtime lock and meets no staging file. */
  lemma ConsumptionLands(s: System)
    requires StartupPermitted(s) && s.launcher == Some(Waiting) && !s.disk.staging
    ensures Leads(s, WithConsumption(s)) && Consumed(WithConsumption(s).disk)
  {
    var j := s.disk.journal.value;
    var target := j.(handoff := Some(j.handoff.value.(consumed := true)));
    var t := s.(launcher := Some(Permitted));
    LeadsOne(s, CheckPermission, t);
    var u := s.(launcher := Some(Consuming(target, false)));
    assert LauncherStep(t, ReadToken) == Some(u);
    LeadsOne(t, ReadToken, u);
    LeadsOn(s, t, u);
    TokenReplaced(u, target);
    LeadsOn(s, u, WithConsumption(s));
  }

  lemma TokenStaged(s: System, target: Journal)
    requires s.launcher == Some(Consuming(target, false)) && !s.disk.staging
    ensures Leads(s, s.(disk := s.disk.(staging := true), launcher := Some(Consuming(target, true))))
  {
    LeadsOne(s, LauncherStages, s.(disk := s.disk.(staging := true), launcher := Some(Consuming(target, true))));
  }

  lemma TokenReplaced(s: System, target: Journal)
    requires s.launcher == Some(Consuming(target, false)) && !s.disk.staging
    ensures Leads(s, WithJournal(s, target).(launcher := Some(Waiting), consumed := s.consumed + 1))
  {
    var t := s.(disk := s.disk.(staging := true), launcher := Some(Consuming(target, true)));
    var u := t.(disk := t.disk.(journal := Some(target), staging := false), launcher := Some(Waiting), consumed := s.consumed + 1);
    TokenStaged(s, target);
    LeadsOne(t, LauncherRenames, u);
    LeadsOn(s, t, u);
    assert u == WithJournal(s, target).(launcher := Some(Waiting), consumed := s.consumed + 1);
  }

  /** A launcher comes, consumes, and goes. */
  lemma LauncherLands(s: System)
    requires StartupPermitted(s) && s.launcher.None? && !s.disk.staging && (s.owner.Some? ==> !s.owner.value.locks)
    ensures Leads(s, WithConsumption(s))
  {
    var t := s.(launcher := Some(Waiting));
    LeadsOne(s, LauncherTakesLock, t);
    ConsumptionLands(t);
    LeadsOn(s, t, WithConsumption(t));
    LauncherGone(WithConsumption(t));
    assert WithConsumption(t).(launcher := None) == WithConsumption(s);
    LeadsOn(s, WithConsumption(t), WithConsumption(s));
  }

  lemma LauncherGone(s: System)
    requires s.launcher.Some?
    ensures Leads(s, s.(launcher := None))
  {
    LeadsOne(s, LauncherEnds, s.(launcher := None));
  }
}
