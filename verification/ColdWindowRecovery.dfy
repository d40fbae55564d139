/** What a recovery call does that nothing disturbs. */
module ColdWindowRecovery {
  import opened Basics
  import opened ColdWindow
  import opened ColdWindowTheorems
  import opened ColdWindowPaths
  import opened ColdWindowHost

  /** Given a step for each label, the call gets to its end, and there it has reached this state. */
  ghost predicate Does(s: System, script: seq<Label>, t: System) {
    forall budget: nat :: budget >= |script| ==> Finishes(s, script, budget) && Follow(s, script, budget) == t
  }

  lemma DoesLeads(s: System, script: seq<Label>, t: System)
    requires Does(s, script, t) && NoReturns(script)
    ensures Leads(s, t)
  {
    assert Finishes(s, script, |script|);
    var k := CallIsRun(s, script, |script|);
    assert script[..k] == script;
  }

  lemma DoesOne(s: System, l: Label, t: System)
    requires Step(s, l) == Some(t)
    ensures Does(s, [l], t)
  {
    forall budget: nat | budget >= 1 ensures Finishes(s, [l], budget) && Follow(s, [l], budget) == t {
      assert [l][1..] == [];
      assert Finishes(t, [], budget - 1) && Follow(t, [], budget - 1) == t;
    }
  }

  lemma DoesOn(s: System, a: seq<Label>, t: System, b: seq<Label>, u: System)
    requires Does(s, a, t) && Does(t, b, u)
    ensures Does(s, a + b, u)
  {
    forall budget: nat | budget >= |a + b| ensures Finishes(s, a + b, budget) && Follow(s, a + b, budget) == u {
      assert Finishes(s, a, budget) && Finishes(t, b, budget - |a|);
      FollowJoins(s, a, b, budget);
    }
  }

  lemma {:induction false} FollowJoins(s: System, a: seq<Label>, b: seq<Label>, budget: nat)
    requires budget >= |a| && Finishes(s, a, budget) && Finishes(Follow(s, a, budget), b, budget - |a|)
    ensures Finishes(s, a + b, budget) && Follow(s, a + b, budget) == Follow(Follow(s, a, budget), b, budget - |a|)
    decreases |a|
  {
    if a == [] {
      assert a + b == b;
    } else {
      assert (a + b)[0] == a[0] && (a + b)[1..] == a[1..] + b;
      FollowJoins(Step(s, a[0]).value, a[1..], b, budget - 1);
    }
  }

  lemma DoesTwo(s: System, k: Label, t: System, l: Label, u: System)
    requires Step(s, k) == Some(t) && Step(t, l) == Some(u)
    ensures Does(s, [k, l], u)
  {
    DoesOne(s, k, t);
    DoesOne(t, l, u);
    DoesOn(s, [k], t, [l], u);
    assert [k] + [l] == [k, l];
  }

  /** A journal replacement that meets no staging file. */
  lemma ReplaceDoes(s: System, o: Owner, target: Journal)
    requires !s.disk.staging && s.owner == Some(o) && o.write == Writing(target, false)
    ensures Does(s, REPLACE_SCRIPT, WithJournal(s, target).(owner := Some(Replaced(o, target))))
  {
    var o' := o.(write := Writing(target, true));
    var t := s.(disk := s.disk.(staging := true), owner := Some(o'));
    var u := t.(disk := t.disk.(journal := Some(target), staging := false), owner := Some(Replaced(o', target)));
    assert u == WithJournal(s, target).(owner := Some(Replaced(o, target)));
    DoesTwo(s, OwnerStages, t, OwnerRenames, u);
  }

  /** A method that changes the journal and replaces the file, once it has passed its guard. */
  lemma BegunDoes(s: System, l: Label, o: Owner, j: Journal)
    requires s.owner == Some(o) && Step(s, l) == Some(Begun(s, o, j)) && !s.disk.staging
    ensures Does(s, [l] + REPLACE_SCRIPT, WithJournal(s, j).(owner := Some(Replaced(o, j))))
  {
    var t := Begun(s, o, j);
    DoesOne(s, l, t);
    ReplaceDoes(t, t.owner.value, j);
    DoesOn(s, [l], t, REPLACE_SCRIPT, WithJournal(s, j).(owner := Some(Replaced(o, j))));
  }

  // ---------------------------------------------------------------- the parts of a recovery

  function Recovering(j: Journal, r: Recovery): Option<Owner> {
    Some(Owner(Some(j), true, Idle, r))
  }

  /** Everything recover_prestart checks before it consumes the approval. */
  predicate MayRecover(s: System, approval: nat) {
    s.owner.Some? && RecoveryStep(s, s.owner.value, ApproveRecovery(approval)).Some?
  }

  /** What those checks establish. */
  lemma MayRecoverMeans(s: System, approval: nat)
    requires MayRecover(s, approval)
    ensures s.disk.journal.Some? && RecoverablePhase(s.disk.journal.value.phase)
    ensures LatePhase(s.disk.journal.value.phase) ==>
      && s.disk.savedBinary == Some(s.oldBinary) && s.disk.savedReceipt.Some?
      && s.disk.savedReceipt == s.disk.journal.value.oldReceipt
  {
  }

  /** The approval consumed, the authorization durable, nothing restored yet. */
  function AuthorizedOnly(s: System, approval: nat): System
    requires s.disk.journal.Some?
  {
    var j := s.disk.journal.value.(phase := RecoveryAuthorized);
    s.(disk := s.disk.(journal := Some(j), approvals := s.disk.approvals + {approval}),
       owner := Recovering(j, Authorized(LatePhase(s.disk.journal.value.phase))))
  }

  lemma AuthorizationDoes(s: System, approval: nat)
    requires MayRecover(s, approval) && !s.disk.staging
    ensures s.disk.journal.Some? && Does(s, AuthorizationScript(approval), AuthorizedOnly(s, approval))
  {
    ApproveDoes(s, approval);
    var j, late, t := s.disk.journal.value, LatePhase(s.disk.journal.value.phase), ApprovedOnly(s, approval);
    AuthorizeDoes(t, j, late);
    var target := j.(phase := RecoveryAuthorized);
    assert WithJournal(t, target).(owner := Recovering(target, Authorized(late))) == AuthorizedOnly(s, approval);
    DoesOn(s, [ApproveRecovery(approval)], t, [AuthorizeRecovery] + REPLACE_SCRIPT, AuthorizedOnly(s, approval));
  }

  function ApprovedOnly(s: System, approval: nat): System
    requires s.disk.journal.Some?
  {
    s.(disk := s.disk.(approvals := s.disk.approvals + {approval}),
       owner := Recovering(s.disk.journal.value, Approved(LatePhase(s.disk.journal.value.phase))))
  }

  lemma ApproveDoes(s: System, approval: nat)
    requires MayRecover(s, approval)
    ensures s.disk.journal.Some? && RecoverablePhase(s.disk.journal.value.phase)
    ensures Does(s, [ApproveRecovery(approval)], ApprovedOnly(s, approval))
  {
    MayRecoverMeans(s, approval);
    DoesOne(s, ApproveRecovery(approval), ApprovedOnly(s, approval));
  }

  lemma AuthorizeDoes(s: System, j: Journal, late: bool)
    requires s.owner == Recovering(j, Approved(late)) && RecoverablePhase(j.phase) && !s.disk.staging
    ensures var target := j.(phase := RecoveryAuthorized);
      Does(s, [AuthorizeRecovery] + REPLACE_SCRIPT, WithJournal(s, target).(owner := Recovering(target, Authorized(late))))
  {
    var o, target := s.owner.value, j.(phase := RecoveryAuthorized);
    assert RecoveryStep(s, o, AuthorizeRecovery) == Some(Begun(s, o, target));
    BegunDoes(s, AuthorizeRecovery, o, target);
  }

  lemma BinaryDoes(s: System, j: Journal)
    requires s.owner == Recovering(j, Authorized(true)) && !s.disk.binaryStaging && s.disk.savedBinary == Some(s.oldBinary)
    ensures Does(s, [StageBinary, RenameBinary], s.(disk := s.disk.(binary := s.oldBinary), owner := Recovering(j, BinaryBack)))
  {
    var t := s.(disk := s.disk.(binaryStaging := true), owner := Recovering(j, BinaryStaged));
    var u := t.(disk := t.disk.(binary := s.oldBinary, binaryStaging := false), owner := Recovering(j, BinaryBack));
    assert u == s.(disk := s.disk.(binary := s.oldBinary), owner := Recovering(j, BinaryBack));
    DoesTwo(s, StageBinary, t, RenameBinary, u);
  }

  lemma ReceiptDoes(s: System, j: Journal)
    requires s.owner == Recovering(j, BinaryBack) && !s.disk.receiptStaging && s.disk.savedReceipt.Some?
    ensures Does(s, [StageReceipt, RenameReceipt],
                 s.(disk := s.disk.(receipt := s.disk.savedReceipt.value), owner := Recovering(j, ReceiptBack)))
  {
    var t := s.(disk := s.disk.(receiptStaging := true), owner := Recovering(j, ReceiptStaged));
    var u := t.(disk := t.disk.(receipt := s.disk.savedReceipt.value, receiptStaging := false), owner := Recovering(j, ReceiptBack));
    assert u == s.(disk := s.disk.(receipt := s.disk.savedReceipt.value), owner := Recovering(j, ReceiptBack));
    DoesTwo(s, StageReceipt, t, RenameReceipt, u);
  }

  lemma FinishDoes(s: System, j: Journal, r: Recovery)
    requires s.owner == Recovering(j, r) && j.phase.RecoveryAuthorized? && !s.disk.staging
    requires r == Authorized(false) || (r.ReceiptBack? && s.disk.binary == s.oldBinary && Some(s.disk.receipt) == j.oldReceipt)
    ensures var target := j.(phase := OldRestored);
      Does(s, [FinishRecovery] + REPLACE_SCRIPT, WithJournal(s, target).(owner := Holding(target, true)))
  {
    var o, target := s.owner.value, j.(phase := OldRestored);
    assert RecoveryStep(s, o, FinishRecovery) == Some(Begun(s, o, target));
    BegunDoes(s, FinishRecovery, o, target);
  }

  function BytesBack(s: System, j: Journal): System
    requires s.disk.savedReceipt.Some?
  {
    s.(disk := s.disk.(binary := s.oldBinary, receipt := s.disk.savedReceipt.value), owner := Recovering(j, ReceiptBack))
  }

  lemma BytesDo(s: System, j: Journal)
    requires s.owner == Recovering(j, Authorized(true)) && !s.disk.binaryStaging && !s.disk.receiptStaging
    requires s.disk.savedBinary == Some(s.oldBinary) && s.disk.savedReceipt.Some?
    ensures Does(s, BytesScript(true), BytesBack(s, j))
  {
    var t := s.(disk := s.disk.(binary := s.oldBinary), owner := Recovering(j, BinaryBack));
    BinaryDoes(s, j);
    ReceiptDoes(t, j);
    DoesOn(s, [StageBinary, RenameBinary], t, [StageReceipt, RenameReceipt], BytesBack(s, j));
  }

  function Restored(s: System, j: Journal, late: bool): System
    requires late ==> s.disk.savedReceipt.Some?
  {
    var bytes := if late then s.disk.(binary := s.oldBinary, receipt := s.disk.savedReceipt.value) else s.disk;
    s.(disk := bytes.(journal := Some(j.(phase := OldRestored))), owner := Holding(j.(phase := OldRestored), true))
  }

  lemma RestorationDoes(s: System, j: Journal, late: bool)
    requires s.owner == Recovering(j, Authorized(late)) && j.phase.RecoveryAuthorized?
    requires !s.disk.staging && !s.disk.binaryStaging && !s.disk.receiptStaging
    requires late ==> s.disk.savedBinary == Some(s.oldBinary) && s.disk.savedReceipt.Some? && s.disk.savedReceipt == j.oldReceipt
    ensures Does(s, RestorationScript(late), Restored(s, j, late))
  {
    if late {
      LateRestorationDoes(s, j);
    } else {
      FinishDoes(s, j, Authorized(false));
      assert RestorationScript(late) == [FinishRecovery] + REPLACE_SCRIPT;
      assert WithJournal(s, j.(phase := OldRestored)).(owner := Holding(j.(phase := OldRestored), true)) == Restored(s, j, late);
    }
  }

  lemma LateRestorationDoes(s: System, j: Journal)
    requires s.owner == Recovering(j, Authorized(true)) && j.phase.RecoveryAuthorized?
    requires !s.disk.staging && !s.disk.binaryStaging && !s.disk.receiptStaging
    requires s.disk.savedBinary == Some(s.oldBinary) && s.disk.savedReceipt.Some? && s.disk.savedReceipt == j.oldReceipt
    ensures Does(s, RestorationScript(true), Restored(s, j, true))
  {
    var t := BytesBack(s, j);
    BytesDo(s, j);
    FinishDoes(t, j, ReceiptBack);
    assert WithJournal(t, j.(phase := OldRestored)).(owner := Holding(j.(phase := OldRestored), true)) == Restored(s, j, true);
    DoesOn(s, BytesScript(true), t, [FinishRecovery] + REPLACE_SCRIPT, Restored(s, j, true));
  }

  // ---------------------------------------------------------------- the whole recovery

  /** What a completed recovery leaves. */
  function Recovered(s: System, approval: nat): System
    requires s.disk.journal.Some? && (LatePhase(s.disk.journal.value.phase) ==> s.disk.savedReceipt.Some?)
  {
    var d, j := s.disk, s.disk.journal.value.(phase := OldRestored);
    var bytes := if LatePhase(d.journal.value.phase) then d.(binary := s.oldBinary, receipt := d.savedReceipt.value) else d;
    s.(disk := bytes.(journal := Some(j), approvals := d.approvals + {approval}), owner := Holding(j, true))
  }

  lemma RestorationAfterAuthorization(s: System, approval: nat)
    requires MayRecover(s, approval) && !s.disk.staging && !s.disk.binaryStaging && !s.disk.receiptStaging
    ensures s.disk.journal.Some? && (LatePhase(s.disk.journal.value.phase) ==> s.disk.savedReceipt.Some?)
    ensures Does(AuthorizedOnly(s, approval), RestorationScript(LatePhase(s.disk.journal.value.phase)), Recovered(s, approval))
  {
    MayRecoverMeans(s, approval);
    var t, late := AuthorizedOnly(s, approval), LatePhase(s.disk.journal.value.phase);
    RestorationDoes(t, t.disk.journal.value, late);
    assert Restored(t, t.disk.journal.value, late) == Recovered(s, approval);
  }

  /**
    A recovery call that may begin, meets no staging file and lives for all its steps gets to its end;
    after an install intent it has put back exactly the saved program and receipt, before one it has
    touched neither.
   */
  lemma RecoveryCompletes(s: System, approval: nat)
    requires MayRecover(s, approval) && !s.disk.staging && !s.disk.binaryStaging && !s.disk.receiptStaging
    ensures s.disk.journal.Some? && (LatePhase(s.disk.journal.value.phase) ==> s.disk.savedReceipt.Some?)
    ensures Does(s, RecoveryScript(approval, LatePhase(s.disk.journal.value.phase)), Recovered(s, approval))
  {
    AuthorizationDoes(s, approval);
    RestorationAfterAuthorization(s, approval);
    DoesOn(s, AuthorizationScript(approval), AuthorizedOnly(s, approval),
           RestorationScript(LatePhase(s.disk.journal.value.phase)), Recovered(s, approval));
  }
}
