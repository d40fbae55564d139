/** The calls of ColdWindow and of the launcher as they change the deployment, one file step at a time. */
module ColdWindowHost {
  import opened Basics
  import opened ColdWindow
  import opened ColdWindowTheorems

  /** A call: its steps in order, up to the first one that is refused or that the process does not live to take. */
  function Follow(s: System, script: seq<Label>, budget: nat): System
    decreases |script|
  {
    if script == [] || budget == 0 || Step(s, script[0]).None? then s
    else Follow(Step(s, script[0]).value, script[1..], budget - 1)
  }

  /** The call gets to its end. */
  predicate Finishes(s: System, script: seq<Label>, budget: nat)
    decreases |script|
  {
    script == [] || (budget > 0 && Step(s, script[0]).Some? && Finishes(Step(s, script[0]).value, script[1..], budget - 1))
  }

  /** A call is a run of some of its first steps, so what holds of every run holds of it. */
  lemma {:induction false} CallIsRun(s: System, script: seq<Label>, budget: nat) returns (k: nat)
    ensures k <= |script| && Follow(s, script, budget) == Run(s, script[..k])
    ensures Finishes(s, script, budget) ==> k == |script|
    decreases |script|
  {
    if script == [] || budget == 0 || Step(s, script[0]).None? {
      k := 0;
    } else {
      k := CallIsRun(Step(s, script[0]).value, script[1..], budget - 1);
      k := k + 1;
      assert script[..k][0] == script[0] && script[..k][1..] == script[1..][..k - 1];
    }
  }

  /** replace_bytes: create the staging file, rename it. */
  const REPLACE_SCRIPT: seq<Label> := [OwnerStages, OwnerRenames]

  /** scripts/upgrade_recovery.py:223-245: the marker goes first. */
  function BeginScript(generation: nat): seq<Label> {
    [CreateMarker(generation)] + ([FillMarker] + REPLACE_SCRIPT)
  }

  /** scripts/upgrade_recovery.py:264: one journal before the manager is stopped, one after. */
  const STOP_SCRIPT: seq<Label> := [CallStop] + REPLACE_SCRIPT + [ProveStop] + REPLACE_SCRIPT

  /** An install intent begins with its two raw copies. */
  function PhaseLead(p: Phase): seq<Label> {
    if p.InstallStarted? then [SaveOldBinary, SaveOldReceipt] else []
  }

  /** scripts/upgrade_recovery.py:247: change the journal in memory, then replace the file. */
  function PhaseScript(p: Phase): seq<Label> {
    PhaseLead(p) + [Advance(p)] + REPLACE_SCRIPT
  }

  /** scripts/upgrade_recovery.py:427 */
  const START_SCRIPT: seq<Label> := [RequestStart] + REPLACE_SCRIPT

  /** scripts/upgrade_recovery.py:125 */
  const CONSUME_SCRIPT: seq<Label> := [CheckPermission, ReadToken, LauncherStages, LauncherRenames]

  /** The approval is consumed and the recovery authorized. */
  function AuthorizationScript(approval: nat): seq<Label> {
    [ApproveRecovery(approval)] + ([AuthorizeRecovery] + REPLACE_SCRIPT)
  }

  /** Program and receipt are replaced only after an install intent. */
  function BytesScript(late: bool): seq<Label> {
    if late then [StageBinary, RenameBinary] + [StageReceipt, RenameReceipt] else []
  }

  function RestorationScript(late: bool): seq<Label> {
    BytesScript(late) + ([FinishRecovery] + REPLACE_SCRIPT)
  }

  /** scripts/upgrade_recovery.py:556 */
  function RecoveryScript(approval: nat, late: bool): seq<Label> {
    AuthorizationScript(approval) + RestorationScript(late)
  }

  lemma {:induction false} FollowSplits(s: System, a: seq<Label>, b: seq<Label>, budget: nat)
    requires Finishes(s, a + b, budget)
    ensures budget >= |a| && Finishes(s, a, budget)
    ensures Finishes(Follow(s, a, budget), b, budget - |a|)
    ensures Follow(s, a + b, budget) == Follow(Follow(s, a, budget), b, budget - |a|)
    decreases |a|
  {
    if a == [] {
      assert a + b == b;
    } else {
      assert (a + b)[0] == a[0] && (a + b)[1..] == a[1..] + b;
      FollowSplits(Step(s, a[0]).value, a[1..], b, budget - 1);
    }
  }

  /** When a replacement gets to its end, the journal that was to be written is the durable one. */
  lemma ReplacedAtEnd(s: System, budget: nat)
    requires Finishes(s, REPLACE_SCRIPT, budget)
    ensures s.owner.Some? && s.owner.value.write.Writing?
    ensures Follow(s, REPLACE_SCRIPT, budget).disk.journal == Some(s.owner.value.write.target)
  {
    assert REPLACE_SCRIPT[1..] == [OwnerRenames] && [OwnerRenames][1..] == [];
    var t := Step(s, OwnerStages).value;
    assert Follow(s, REPLACE_SCRIPT, budget) == Follow(t, [OwnerRenames], budget - 1);
    assert Follow(t, [OwnerRenames], budget - 1) == Step(t, OwnerRenames).value;
  }

  /** So a call that ends in one writes the journal of its last step before it. */
  lemma LastWrite(s: System, before: seq<Label>, l: Label, budget: nat)
    requires Finishes(s, before + [l] + REPLACE_SCRIPT, budget)
    ensures budget >= |before| + 1 && Step(Follow(s, before, budget), l).Some?
    ensures var t := Step(Follow(s, before, budget), l).value;
      && t.owner.Some? && t.owner.value.write.Writing?
      && Follow(s, before + [l] + REPLACE_SCRIPT, budget).disk.journal == Some(t.owner.value.write.target)
  {
    FollowSplits(s, before + [l], REPLACE_SCRIPT, budget);
    FollowSplits(s, before, [l], budget);
    FollowOne(Follow(s, before, budget), l, budget - |before|);
    ReplacedAtEnd(Step(Follow(s, before, budget), l).value, budget - |before| - 1);
  }

  lemma FollowOne(s: System, l: Label, budget: nat)
    requires Finishes(s, [l], budget)
    ensures Step(s, l).Some? && Follow(s, [l], budget) == Step(s, l).value
  {
    assert [l][1..] == [];
  }

  lemma BegunAtEnd(s: System, generation: nat, budget: nat)
    requires Finishes(s, BeginScript(generation), budget)
    ensures var d := Follow(s, BeginScript(generation), budget).disk;
      d.marker == Marker(generation) && d.journal == Some(NewJournal(generation))
  {
    FollowSplits(s, [CreateMarker(generation)], [FillMarker] + REPLACE_SCRIPT, budget);
    FollowOne(s, CreateMarker(generation), budget);
    MarkedAtEnd(Step(s, CreateMarker(generation)).value, NewJournal(generation), budget - 1);
  }

  lemma MarkedAtEnd(s: System, j: Journal, budget: nat)
    requires s.owner.Some? && s.owner.value.journal == Some(j) && Finishes(s, [FillMarker] + REPLACE_SCRIPT, budget)
    ensures var d := Follow(s, [FillMarker] + REPLACE_SCRIPT, budget).disk; d.marker == Marker(j.generation) && d.journal == Some(j)
  {
    FollowSplits(s, [FillMarker], REPLACE_SCRIPT, budget);
    FollowOne(s, FillMarker, budget);
    var filled := Step(s, FillMarker).value;
    ReplacedAtEnd(filled, budget - 1);
    ReplacementKeepsMarker(filled, budget - 1);
  }

  lemma ReplacementKeepsMarker(s: System, budget: nat)
    requires Finishes(s, REPLACE_SCRIPT, budget)
    ensures Follow(s, REPLACE_SCRIPT, budget).disk.marker == s.disk.marker
  {
    assert REPLACE_SCRIPT[1..] == [OwnerRenames] && [OwnerRenames][1..] == [];
    var t := Step(s, OwnerStages).value;
    assert Follow(s, REPLACE_SCRIPT, budget) == Follow(t, [OwnerRenames], budget - 1) == Step(t, OwnerRenames).value;
  }

  lemma StopAtEnd(s: System, budget: nat)
    requires Finishes(s, STOP_SCRIPT, budget)
    ensures var d := Follow(s, STOP_SCRIPT, budget).disk; d.journal.Some? && d.journal.value.stopProven
  {
    LastWrite(s, [CallStop] + REPLACE_SCRIPT, ProveStop, budget);
  }

  lemma PhaseAtEnd(s: System, p: Phase, budget: nat)
    requires Finishes(s, PhaseScript(p), budget)
    ensures var d := Follow(s, PhaseScript(p), budget).disk; d.journal.Some? && d.journal.value.phase == p
  {
    LastWrite(s, PhaseLead(p), Advance(p), budget);
    AdvanceTargets(Follow(s, PhaseLead(p), budget), p);
  }

  lemma AdvanceTargets(s: System, p: Phase)
    requires Step(s, Advance(p)).Some?
    ensures var o := Step(s, Advance(p)).value.owner; o.Some? && o.value.write.Writing? && o.value.write.target.phase == p
  {
  }

  lemma RequestAtEnd(s: System, budget: nat)
    requires Finishes(s, START_SCRIPT, budget)
    ensures Requested(Follow(s, START_SCRIPT, budget).disk)
  {
    assert [] + [RequestStart] + REPLACE_SCRIPT == START_SCRIPT;
    LastWrite(s, [], RequestStart, budget);
    RequestTargets(Follow(s, [], budget));
  }

  lemma RequestTargets(s: System)
    requires Step(s, RequestStart).Some?
    ensures var o := Step(s, RequestStart).value.owner;
      o.Some? && o.value.write.Writing? && Requested(s.disk.(journal := Some(o.value.write.target)))
  {
  }

  lemma RestoredAtEnd(s: System, approval: nat, late: bool, budget: nat)
    requires Finishes(s, RecoveryScript(approval, late), budget)
    ensures var d := Follow(s, RecoveryScript(approval, late), budget).disk; d.journal.Some? && d.journal.value.phase.OldRestored?
  {
    var lead := AuthorizationScript(approval) + BytesScript(late);
    assert RecoveryScript(approval, late) == lead + [FinishRecovery] + REPLACE_SCRIPT;
    LastWrite(s, lead, FinishRecovery, budget);
    FinishTargets(Follow(s, lead, budget));
  }

  lemma FinishTargets(s: System)
    requires Step(s, FinishRecovery).Some?
    ensures var o := Step(s, FinishRecovery).value.owner; o.Some? && o.value.write.Writing? && o.value.write.target.phase.OldRestored?
  {
  }

  lemma FollowAt(s: System, script: seq<Label>, i: nat, budget: nat)
    requires i < |script| && i < budget
    ensures var t := Step(s, script[i]);
      && (t.None? ==> Follow(s, script[i..], budget - i) == s && !Finishes(s, script[i..], budget - i))
      && (t.Some? ==> Follow(s, script[i..], budget - i) == Follow(t.value, script[i + 1..], budget - i - 1))
      && (t.Some? ==> Finishes(s, script[i..], budget - i) == Finishes(t.value, script[i + 1..], budget - i - 1))
  {
    assert script[i..][0] == script[i] && script[i..][1..] == script[i + 1..];
  }

  lemma FollowEnd(s: System, script: seq<Label>, i: nat, budget: nat)
    requires i <= |script| && i <= budget && (i == |script| || i == budget)
    ensures Follow(s, script[i..], budget - i) == s && Finishes(s, script[i..], budget - i) == (i == |script|)
  {
  }

  class Deployment {
    const oldBinary: Bytes
    const newBinary: Bytes
    var disk: Disk
    var owner: Option<Owner>
    var shelved: seq<Journal>
    var launcher: Option<Launcher>
    var consumed: nat

    function Sys(): System
      reads this
    {
      System(oldBinary, newBinary, disk, owner, shelved, launcher, consumed)
    }

    constructor (oldBinary: Bytes, newBinary: Bytes, receipt: Bytes)
      ensures Initial(Sys()) && this.oldBinary == oldBinary && this.newBinary == newBinary
      ensures disk.binary == oldBinary && disk.receipt == receipt
    {
      this.oldBinary, this.newBinary := oldBinary, newBinary;
      disk := Disk(NoMarker, None, false, oldBinary, receipt, false, false, None, None, {});
      owner, shelved, launcher, consumed := None, [], None, 0;
    }

    /** One step of whichever process the label names; a refused one changes nothing. */
    method Take(l: Label) returns (ok: bool)
      modifies this
      ensures ok == Step(old(Sys()), l).Some? && Sys() == Apply(old(Sys()), l)
    {
      var next := Step(Sys(), l);
      ok := next.Some?;
      if ok {
        disk, owner, shelved := next.value.disk, next.value.owner, next.value.shelved;
        launcher, consumed := next.value.launcher, next.value.consumed;
        StepKeepsBinding(old(Sys()), l);
      }
    }

    /** A call, stopped after `budget` steps: it raises at the first refused one. */
    method Call(script: seq<Label>, budget: nat) returns (done: bool)
      modifies this
      ensures Sys() == Follow(old(Sys()), script, budget) && done == Finishes(old(Sys()), script, budget)
    {
      var i := 0;
      assert script[0..] == script;
      while i < |script| && i < budget
        invariant i <= |script| && i <= budget
        invariant Follow(Sys(), script[i..], budget - i) == Follow(old(Sys()), script, budget)
        invariant Finishes(Sys(), script[i..], budget - i) == Finishes(old(Sys()), script, budget)
      {
        FollowAt(Sys(), script, i, budget);
        var ok := Take(script[i]);
        if !ok { return false; }
        i := i + 1;
      }
      FollowEnd(Sys(), script, i, budget);
      done := i == |script|;
    }

    /** When it returns normally marker and journal are on disk, for the same generation. */
    method Begin(generation: nat, budget: nat) returns (done: bool)
      modifies this
      ensures Sys() == Follow(old(Sys()), BeginScript(generation), budget) && done == Finishes(old(Sys()), BeginScript(generation), budget)
      ensures done ==> disk.marker == Marker(generation) && disk.journal == Some(NewJournal(generation)) && WindowReadable(disk)
    {
      if Finishes(Sys(), BeginScript(generation), budget) { BegunAtEnd(Sys(), generation, budget); }
      done := Call(BeginScript(generation), budget);
    }

    method Stop(budget: nat) returns (done: bool)
      modifies this
      ensures Sys() == Follow(old(Sys()), STOP_SCRIPT, budget) && done == Finishes(old(Sys()), STOP_SCRIPT, budget)
      ensures done ==> disk.journal.Some? && disk.journal.value.stopProven
    {
      if Finishes(Sys(), STOP_SCRIPT, budget) { StopAtEnd(Sys(), budget); }
      done := Call(STOP_SCRIPT, budget);
    }

    /** When it returns normally the phase is on disk. */
    method EnterPhase(p: Phase, budget: nat) returns (done: bool)
      modifies this
      ensures Sys() == Follow(old(Sys()), PhaseScript(p), budget) && done == Finishes(old(Sys()), PhaseScript(p), budget)
      ensures done ==> disk.journal.Some? && disk.journal.value.phase == p
    {
      if Finishes(Sys(), PhaseScript(p), budget) { PhaseAtEnd(Sys(), p, budget); }
      done := Call(PhaseScript(p), budget);
    }

    /** The manager is asked only when the request is on disk. */
    method Start(budget: nat) returns (ask: bool)
      modifies this
      ensures Sys() == Follow(old(Sys()), START_SCRIPT, budget) && ask == Finishes(old(Sys()), START_SCRIPT, budget)
      ensures ask ==> Requested(disk)
    {
      if Finishes(Sys(), START_SCRIPT, budget) { RequestAtEnd(Sys(), budget); }
      ask := Call(START_SCRIPT, budget);
    }

    /** The caller may spawn only when this call's consumption is on disk. */
    method ConsumeStart(budget: nat) returns (spawn: bool)
      modifies this
      ensures Sys() == Follow(old(Sys()), CONSUME_SCRIPT, budget) && spawn == Finishes(old(Sys()), CONSUME_SCRIPT, budget)
      ensures consumed == old(consumed) + if spawn then 1 else 0
    {
      ConsumptionCounts(Sys(), budget);
      spawn := Call(CONSUME_SCRIPT, budget);
    }

    /** When it returns normally the window is restored on disk. */
    method RecoverPrestart(approval: nat, budget: nat) returns (done: bool)
      modifies this
      ensures var late := old(disk).journal.Some? && LatePhase(old(disk).journal.value.phase);
        && Sys() == Follow(old(Sys()), RecoveryScript(approval, late), budget)
        && done == Finishes(old(Sys()), RecoveryScript(approval, late), budget)
      ensures done ==> disk.journal.Some? && disk.journal.value.phase.OldRestored?
    {
      var late := disk.journal.Some? && LatePhase(disk.journal.value.phase);
      if Finishes(Sys(), RecoveryScript(approval, late), budget) { RestoredAtEnd(Sys(), approval, late, budget); }
      done := Call(RecoveryScript(approval, late), budget);
    }
  }

  lemma StepKeepsBinding(s: System, l: Label)
    requires Step(s, l).Some?
    ensures Step(s, l).value.oldBinary == s.oldBinary && Step(s, l).value.newBinary == s.newBinary
  {
  }

  /** Only the rename of a consumption counts, and it is the last step of its call. */
  lemma ConsumptionCounts(s: System, budget: nat)
    ensures Follow(s, CONSUME_SCRIPT, budget).consumed == s.consumed + if Finishes(s, CONSUME_SCRIPT, budget) then 1 else 0
  {
    CountsAtEnd(s, CONSUME_SCRIPT, budget);
  }

  /** In a launcher's call consumptions are counted one by one. */
  lemma {:induction false} CountsAtEnd(s: System, script: seq<Label>, budget: nat)
    requires script != [] && script[|script| - 1].LauncherRenames?
    requires forall i :: 0 <= i < |script| - 1 ==> IsLauncherLabel(script[i]) && !script[i].LauncherRenames?
    ensures Follow(s, script, budget).consumed == s.consumed + if Finishes(s, script, budget) then 1 else 0
    decreases |script|
  {
    if budget > 0 && Step(s, script[0]).Some? && |script| > 1 {
      CountsAtEnd(Step(s, script[0]).value, script[1..], budget - 1);
    }
  }
}
