/** Recording a manual acceptance once: scripts/upgrade_manual_approval.py:275-333 and 390-488. */
module Completion {
  import opened Basics

  type Binding = string
  type Generation = string

  /** The evidence packet; `content` is everything in it that is not named here. */
  datatype Packet = Packet(binding: Binding, generation: Generation, content: string)

  /** Digests are injective, so a digest is the document under a constructor. */
  datatype PacketDigest = OfPacket(packet: Packet)

  /** An approval file; `sound` stands for its checks that involve no other document and no time. */
  datatype Approval = Approval(id: string, issued: int, recorded: int, expires: int,
                               binding: Binding, generation: Generation, evidence: PacketDigest, sound: bool)

  datatype ApprovalDigest = OfApproval(approval: Approval)

  datatype Record = Record(binding: Binding, generation: Generation, approvalId: string,
                           approval: ApprovalDigest, evidence: PacketDigest, completedAt: int)

  /** The hidden staging file: a torn write, or a whole record. */
  datatype Stage = Torn | Whole(record: Record)

  datatype Disk = Disk(
    completed: map<Binding, Record>,
    staging: map<Binding, Stage>,
    setAside: nat,                        // torn stages moved into directories of their own
    pending: Option<Binding>,             // the claim
    archives: map<Generation, Binding>)   // archived claims

  const FRESH := Disk(map[], map[], 0, None, map[])

  datatype Outcome = Refused | Stopped | Accepted(record: Record)

  /**
    One call: the documents, the clock at its start and after the live checks, and whether the
    checks of the running system all pass.
   */
  datatype Attempt = Attempt(approval: Approval, packet: Packet, now: int, later: int, live: bool)

  // ---------------------------------------------------------------- checks

  predicate ApprovalOk(a: Approval, packet: Packet, now: int, consumed: bool) {
    && a.sound
    && a.issued <= a.recorded <= now && a.issued < a.expires && a.recorded < a.expires
    && (consumed || now < a.expires)
    && a.binding == packet.binding && a.generation == packet.generation && a.evidence == OfPacket(packet)
  }

  predicate RecordOk(r: Record, packet: Packet, a: Approval) {
    && r.binding == packet.binding && r.generation == packet.generation
    && r.approvalId == a.id && r.approval == OfApproval(a) && r.evidence == OfPacket(packet)
    && a.recorded <= r.completedAt < a.expires
  }

  function NewRecord(t: Attempt): Record {
    Record(t.packet.binding, t.packet.generation, t.approval.id, OfApproval(t.approval), OfPacket(t.packet), t.later)
  }

  // ---------------------------------------------------------------- the steps

  /** archive_claim, when `budget` more file steps happen before the process dies. */
  function Archive(d: Disk, r: Record, budget: nat): (Disk, Outcome) {
    match d.pending
    case Some(binding) =>
      if r.generation in d.archives || binding != r.binding then (d, Refused)
      else if budget == 0 then (d, Stopped)
      else (d.(pending := None, archives := d.archives[r.generation := binding]), Accepted(r))
    case None =>
      if r.generation in d.archives && d.archives[r.generation] == r.binding then (d, Accepted(r)) else (d, Refused)
  }

  /** From the point where the staging file holds the whole record. */
  function Publish(d: Disk, r: Record, budget: nat): (Disk, Outcome) {
    if budget == 0 then (d, Stopped)
    else Archive(d.(completed := d.completed[r.binding := r], staging := d.staging - {r.binding}), r, budget - 1)
  }

  /** From the point where there is no staging file: an exclusive create, then the write. */
  function WriteStage(d: Disk, r: Record, budget: nat): (Disk, Outcome) {
    if budget == 0 then (d, Stopped)
    else if budget == 1 then (d.(staging := d.staging[r.binding := Torn]), Stopped)
    else Publish(d.(staging := d.staging[r.binding := Whole(r)]), r, budget - 2)
  }

  /** A call that passed every check and found no record yet. */
  function FirstCall(d: Disk, t: Attempt, budget: nat): (Disk, Outcome) {
    var b := t.packet.binding;
    if b !in d.staging then WriteStage(d, NewRecord(t), budget)
    else match d.staging[b]
      case Torn =>
        if budget == 0 then (d, Stopped)
        else WriteStage(d.(staging := d.staging - {b}, setAside := d.setAside + 1), NewRecord(t), budget - 1)
      case Whole(candidate) =>
        if RecordOk(candidate, t.packet, t.approval) then Publish(d, candidate, budget) else (d, Refused)
  }

  function Confirm(d: Disk, t: Attempt, budget: nat): (Disk, Outcome) {
    var b := t.packet.binding;
    if b in d.completed then
      if ApprovalOk(t.approval, t.packet, t.now, true) && RecordOk(d.completed[b], t.packet, t.approval)
      then Archive(d, d.completed[b], budget)
      else (d, Refused)
    else if !ApprovalOk(t.approval, t.packet, t.now, false) || !t.live || d.pending != Some(b)
         || !ApprovalOk(t.approval, t.packet, t.later, false) then
      (d, Refused)
    else FirstCall(d, t, budget)
  }

  // ---------------------------------------------------------------- the files changed in place

  class CompletionStore {
    var completed: map<Binding, Record>
    var staging: map<Binding, Stage>
    var setAside: nat
    var pending: Option<Binding>
    var archives: map<Generation, Binding>

    ghost function OnDisk(): Disk
      reads this
    {
      Disk(completed, staging, setAside, pending, archives)
    }

    constructor ()
      ensures OnDisk() == FRESH
    {
      completed, staging, setAside, pending, archives := map[], map[], 0, None, map[];
    }

    method ArchiveClaim(r: Record, budget: nat) returns (outcome: Outcome)
      modifies this
      ensures (OnDisk(), outcome) == Archive(old(OnDisk()), r, budget)
    {
      if pending.Some? {
        if r.generation in archives || pending.value != r.binding { return Refused; }
        if budget == 0 { return Stopped; }
        archives, pending := archives[r.generation := pending.value], None;
      }
      if r.generation !in archives || archives[r.generation] != r.binding { return Refused; }
      return Accepted(r);
    }

    /** The new record, or the whole one already staged for this acceptance. */
    method ConfirmCompletion(t: Attempt, budget: nat) returns (outcome: Outcome)
      modifies this
      ensures (OnDisk(), outcome) == Confirm(old(OnDisk()), t, budget)
    {
      var b, left := t.packet.binding, budget;
      if b in completed {
        if !ApprovalOk(t.approval, t.packet, t.now, true) || !RecordOk(completed[b], t.packet, t.approval) {
          return Refused;
        }
        outcome := ArchiveClaim(completed[b], budget);
        return;
      }
      if !ApprovalOk(t.approval, t.packet, t.now, false) || !t.live || pending != Some(b)
         || !ApprovalOk(t.approval, t.packet, t.later, false) {
        return Refused;
      }
      var record := NewRecord(t);
      var candidate: Option<Record> := None;
      if b in staging {
        if staging[b].Torn? {
          if left == 0 { return Stopped; }
          staging, setAside, left := staging - {b}, setAside + 1, left - 1;
        } else {
          if !RecordOk(staging[b].record, t.packet, t.approval) { return Refused; }
          candidate, record := Some(staging[b].record), staging[b].record;
        }
      }
      if candidate.None? {
        if left == 0 { return Stopped; }
        staging := staging[b := Torn];
        if left == 1 { return Stopped; }
        staging := staging[b := Whole(record)];
        assert staging == old(staging)[b := Whole(record)] && staging == (old(staging) - {b})[b := Whole(record)];
        left := left - 2;
      }
      if left == 0 { return Stopped; }
      completed, staging := completed[b := record], staging - {b};
      outcome := ArchiveClaim(record, left - 1);
    }
  }

  // ---------------------------------------------------------------- runs

  /** Anything that happens to the directory: a new claim when there is none, or a call cut off anywhere. */
  datatype Step = Claimed(binding: Binding) | Called(attempt: Attempt, budget: nat)

  function Next(d: Disk, s: Step): Disk {
    match s
    case Claimed(binding) => if d.pending == None then d.(pending := Some(binding)) else d
    case Called(t, budget) => Confirm(d, t, budget).0
  }

  function Run(d: Disk, steps: seq<Step>): Disk
    decreases |steps|
  {
    if steps == [] then d else Run(Next(d, steps[0]), steps[1..])
  }

  /** A record is for its binding, and one approval for it was in force at its time. */
  predicate Approved(b: Binding, r: Record) {
    && r.binding == b && r.approvalId == r.approval.approval.id
    && RecordOk(r, r.evidence.packet, r.approval.approval)
    && ApprovalOk(r.approval.approval, r.evidence.packet, r.completedAt, false)
  }

  predicate Inv(d: Disk) {
    && (forall b <- d.completed :: Approved(b, d.completed[b]))
    && (forall b <- d.staging :: d.staging[b].Whole? ==> Approved(b, d.staging[b].record))
    && (forall g <- d.archives :: d.archives[g] in d.completed && d.completed[d.archives[g]].generation == g)
  }

  /** Records only appear; none ever changes or disappears. */
  predicate Grows(d: Disk, d': Disk) {
    forall b <- d.completed :: b in d'.completed && d'.completed[b] == d.completed[b]
  }

  lemma ArchiveKeeps(d: Disk, r: Record, budget: nat)
    requires Inv(d) && r.binding in d.completed && d.completed[r.binding] == r
    ensures Inv(Archive(d, r, budget).0) && Archive(d, r, budget).0.completed == d.completed
  {
  }

  lemma PublishKeeps(d: Disk, r: Record, budget: nat)
    requires Inv(d) && Approved(r.binding, r) && r.binding !in d.completed
    ensures Inv(Publish(d, r, budget).0) && Grows(d, Publish(d, r, budget).0)
  {
    if budget > 0 {
      var d' := d.(completed := d.completed[r.binding := r], staging := d.staging - {r.binding});
      assert Inv(d');
      ArchiveKeeps(d', r, budget - 1);
    }
  }

  lemma WriteStageKeeps(d: Disk, r: Record, budget: nat)
    requires Inv(d) && Approved(r.binding, r) && r.binding !in d.completed
    ensures Inv(WriteStage(d, r, budget).0) && Grows(d, WriteStage(d, r, budget).0)
  {
    if budget >= 2 { PublishKeeps(d.(staging := d.staging[r.binding := Whole(r)]), r, budget - 2); }
  }

  lemma SetAsideKeeps(d: Disk, b: Binding)
    requires Inv(d)
    ensures Inv(d.(staging := d.staging - {b}, setAside := d.setAside + 1))
  {
  }

  lemma SetAsideCallKeeps(d: Disk, r: Record, budget: nat)
    requires Inv(d) && Approved(r.binding, r) && r.binding !in d.completed
    ensures var d' := d.(staging := d.staging - {r.binding}, setAside := d.setAside + 1);
      Inv(WriteStage(d', r, budget).0) && Grows(d, WriteStage(d', r, budget).0)
  {
    SetAsideKeeps(d, r.binding);
    WriteStageKeeps(d.(staging := d.staging - {r.binding}, setAside := d.setAside + 1), r, budget);
  }

  lemma NewRecordApproved(t: Attempt)
    requires ApprovalOk(t.approval, t.packet, t.later, false)
    ensures Approved(t.packet.binding, NewRecord(t))
  {
  }

  lemma WholeStageKeeps(d: Disk, b: Binding, budget: nat)
    requires Inv(d) && b !in d.completed && b in d.staging && d.staging[b].Whole?
    ensures var (after, r) := (Publish(d, d.staging[b].record, budget).0, d.staging[b].record);
      r.binding == b && Inv(after) && Grows(d, after)
  {
    assert Approved(b, d.staging[b].record);
    PublishKeeps(d, d.staging[b].record, budget);
  }

  lemma FirstCallKeeps(d: Disk, t: Attempt, budget: nat)
    requires Inv(d) && t.packet.binding !in d.completed && Approved(t.packet.binding, NewRecord(t))
    ensures var after := FirstCall(d, t, budget).0; Inv(after) && Grows(d, after)
  {
    var b, r := t.packet.binding, NewRecord(t);
    if b !in d.staging {
      assert FirstCall(d, t, budget) == WriteStage(d, r, budget);
      WriteStageKeeps(d, r, budget);
    } else if d.staging[b].Whole? {
      var candidate := d.staging[b].record;
      assert FirstCall(d, t, budget).0 in {d, Publish(d, candidate, budget).0};
      WholeStageKeeps(d, b, budget);
    } else if budget > 0 {
      var d' := d.(staging := d.staging - {b}, setAside := d.setAside + 1);
      assert FirstCall(d, t, budget) == WriteStage(d', r, budget - 1);
      SetAsideCallKeeps(d, r, budget - 1);
    }
  }

  lemma StepKeeps(d: Disk, s: Step)
    requires Inv(d)
    ensures Inv(Next(d, s)) && Grows(d, Next(d, s))
  {
    if s.Called? {
      var t := s.attempt;
      if t.packet.binding in d.completed {
        ArchiveKeeps(d, d.completed[t.packet.binding], s.budget);
      } else if ApprovalOk(t.approval, t.packet, t.later, false) {
        NewRecordApproved(t);
        FirstCallKeeps(d, t, s.budget);
      }
    }
  }

  /**
    Over every run with calls cut off anywhere: a binding goes from no record to one that never
    changes, each record was made under an approval then in force, and a claim is archived only
    after the record of its binding and generation.
   */
  lemma {:induction false} RunKeeps(d: Disk, steps: seq<Step>)
    requires Inv(d)
    ensures Inv(Run(d, steps)) && Grows(d, Run(d, steps))
    decreases |steps|
  {
    if steps != [] {
      StepKeeps(d, steps[0]);
      RunKeeps(Next(d, steps[0]), steps[1..]);
    }
  }

  lemma FreshRuns(steps: seq<Step>)
    ensures Inv(Run(FRESH, steps))
  {
    RunKeeps(FRESH, steps);
  }

  /**
    What an accepted call has done, wherever it started from: the record is there and fits the call's
    documents, the claim is archived under its generation, and a torn stage it met was set aside.
   */
  lemma AcceptedMeans(d: Disk, t: Attempt, budget: nat)
    requires Inv(d) && Confirm(d, t, budget).1.Accepted?
    ensures var (after, record, b) := (Confirm(d, t, budget).0, Confirm(d, t, budget).1.record, t.packet.binding);
      && b in after.completed && after.completed[b] == record && RecordOk(record, t.packet, t.approval)
      && after.pending == None
      && t.packet.generation in after.archives && after.archives[t.packet.generation] == b
      && after.setAside == d.setAside + (if b !in d.completed && b in d.staging && d.staging[b].Torn? then 1 else 0)
      && (b !in d.completed ==> b !in after.staging)
  {
    var b := t.packet.binding;
    if b !in d.completed && b in d.staging && d.staging[b].Whole? {
      assert d.staging[b].record.binding == b;
    }
  }

  // ---------------------------------------------------------------- other approvals and retries

  /** Once there is a record, a call with any other approval or packet is refused and changes nothing. */
  lemma OtherApprovalRefused(d: Disk, t: Attempt, budget: nat)
    requires Inv(d) && t.packet.binding in d.completed
    requires var r := d.completed[t.packet.binding]; r.approval != OfApproval(t.approval) || r.evidence != OfPacket(t.packet)
    ensures Confirm(d, t, budget) == (d, Refused)
  {
  }

  predicate Blocks(d: Disk, b: Binding, r: Record) {
    b !in d.completed && b in d.staging && d.staging[b] == Whole(r)
  }

  /** The call is for another binding, under another approval, or too late. */
  predicate CannotFinish(s: Step, b: Binding, r: Record) {
    s.Called? && s.attempt.packet.binding == b && OfApproval(s.attempt.approval) == r.approval
    ==> s.attempt.later >= s.attempt.approval.expires
  }

  predicate NoneCanFinish(steps: seq<Step>, b: Binding, r: Record) {
    forall s <- steps :: CannotFinish(s, b, r)
  }

  /**
    A whole record staged under one approval, when the call stopped before the rename, shuts every
    other approval out for good: unless that approval is used again before it expires, no run ever
    completes the binding.
   */
  lemma {:induction false} StageShutsOthersOut(d: Disk, steps: seq<Step>, b: Binding, r: Record)
    requires Inv(d) && Blocks(d, b, r) && NoneCanFinish(steps, b, r)
    ensures Blocks(Run(d, steps), b, r)
    decreases |steps|
  {
    if steps != [] {
      assert steps[0] in steps;
      OthersStep(d, steps[0], b, r);
      StepKeeps(d, steps[0]);
      StageShutsOthersOut(Next(d, steps[0]), steps[1..], b, r);
    }
  }

  /** Such a state is two file steps away from an empty directory. */
  lemma BlockReached(t: Attempt)
    requires t.live && ApprovalOk(t.approval, t.packet, t.now, false) && ApprovalOk(t.approval, t.packet, t.later, false)
    ensures Blocks(Run(FRESH, [Claimed(t.packet.binding), Called(t, 2)]), t.packet.binding, NewRecord(t))
  {
    var steps := [Claimed(t.packet.binding), Called(t, 2)];
    var d := Next(FRESH, steps[0]);
    assert steps[1..] == [Called(t, 2)] && [Called(t, 2)][1..] == [];
    assert Run(FRESH, steps) == Run(d, [Called(t, 2)]) == Run(Next(d, Called(t, 2)), []);
  }

  /**
    And exactly this gets out of it: a call with the approval and packet of the stage, in force at
    both clocks, while the checks of the running system pass, the claim is pending and its
    generation not yet archived.
   */
  lemma BlockOpensExactly(d: Disk, t: Attempt, r: Record)
    requires Inv(d) && Blocks(d, t.packet.binding, r)
    ensures Confirm(d, t, STEPS).1.Accepted? <==>
      && OfApproval(t.approval) == r.approval && OfPacket(t.packet) == r.evidence
      && ApprovalOk(t.approval, t.packet, t.now, false) && ApprovalOk(t.approval, t.packet, t.later, false)
      && t.live && d.pending == Some(t.packet.binding) && r.generation !in d.archives
    ensures Confirm(d, t, STEPS).1.Accepted? ==> Confirm(d, t, STEPS).1 == Accepted(r)
    ensures !Confirm(d, t, STEPS).1.Accepted? && r.generation !in d.archives ==> Blocks(Confirm(d, t, STEPS).0, t.packet.binding, r)
  {
    assert Approved(t.packet.binding, r);
  }

  lemma OthersStep(d: Disk, s: Step, b: Binding, r: Record)
    requires Inv(d) && Blocks(d, b, r)
    requires CannotFinish(s, b, r)
    ensures Blocks(Next(d, s), b, r)
  {
    if s.Called? && s.attempt.packet.binding != b { OtherBinding(d, s.attempt, s.budget, b); }
  }

  /** The record and the stage of a binding. */
  predicate SameFor(d: Disk, d': Disk, b: Binding) {
    && (b in d'.completed <==> b in d.completed) && (b in d.completed ==> d'.completed[b] == d.completed[b])
    && (b in d'.staging <==> b in d.staging) && (b in d.staging ==> d'.staging[b] == d.staging[b])
  }

  lemma OtherArchive(d: Disk, r: Record, budget: nat, b: Binding)
    ensures SameFor(d, Archive(d, r, budget).0, b)
  {
  }

  lemma OtherPublish(d: Disk, r: Record, budget: nat, b: Binding)
    requires r.binding != b
    ensures SameFor(d, Publish(d, r, budget).0, b)
  {
    if budget > 0 {
      OtherArchive(d.(completed := d.completed[r.binding := r], staging := d.staging - {r.binding}), r, budget - 1, b);
    }
  }

  lemma OtherWriteStage(d: Disk, r: Record, budget: nat, b: Binding)
    requires r.binding != b
    ensures SameFor(d, WriteStage(d, r, budget).0, b)
  {
    if budget >= 2 { OtherPublish(d.(staging := d.staging[r.binding := Whole(r)]), r, budget - 2, b); }
  }

  /** A call only touches the record and the stage of its own binding. */
  lemma OtherBinding(d: Disk, t: Attempt, budget: nat, b: Binding)
    requires Inv(d) && t.packet.binding != b
    ensures SameFor(d, Confirm(d, t, budget).0, b)
  {
    var own := t.packet.binding;
    if own in d.completed {
      OtherArchive(d, d.completed[own], budget, b);
    } else if own !in d.staging {
      OtherWriteStage(d, NewRecord(t), budget, b);
    } else if d.staging[own].Whole? {
      assert d.staging[own].record.binding == own;
      OtherPublish(d, d.staging[own].record, budget, b);
    } else if budget > 0 {
      OtherWriteStage(d.(staging := d.staging - {own}, setAside := d.setAside + 1), NewRecord(t), budget - 1, b);
    }
  }

  /** The most file steps a call takes: set a torn stage aside, create, write, rename, archive. */
  const STEPS: nat := 5

  predicate SameApproval(t: Attempt, u: Attempt) {
    u.approval == t.approval && u.packet == t.packet && u.live && t.later <= u.now <= u.later
  }

  /** Where a cut call for `b` leaves things: still to be completed, or completed and perhaps archived. */
  predicate Resumable(d: Disk, t: Attempt) {
    var b, g := t.packet.binding, t.packet.generation;
    if b in d.completed then
      && RecordOk(d.completed[b], t.packet, t.approval)
      && (if d.pending == None then g in d.archives && d.archives[g] == b
          else d.pending == Some(b) && g !in d.archives)
    else
      && d.pending == Some(b) && g !in d.archives
      && (b in d.staging && d.staging[b].Whole? ==> RecordOk(d.staging[b].record, t.packet, t.approval))
  }

  lemma AcceptedIsResumable(d: Disk, t: Attempt)
    requires Inv(d) && Confirm(d, t, STEPS).1.Accepted?
    ensures Resumable(d, t) && ApprovalOk(t.approval, t.packet, t.now, true)
    ensures t.packet.binding !in d.completed ==> ApprovalOk(t.approval, t.packet, t.later, false)
  {
    var b := t.packet.binding;
    if b !in d.completed && b in d.staging && d.staging[b].Whole? {
      assert d.staging[b].record.binding == b;
    }
  }

  lemma CutCallResumable(d: Disk, t: Attempt, cut: nat)
    requires Inv(d) && Resumable(d, t) && t.packet.binding !in d.completed
    requires ApprovalOk(t.approval, t.packet, t.later, false)
    ensures Resumable(FirstCall(d, t, cut).0, t)
  {
    var b := t.packet.binding;
    if b in d.staging && d.staging[b].Whole? { assert d.staging[b].record.binding == b; }
  }

  lemma CutStaysResumable(d: Disk, t: Attempt, cut: nat)
    requires Inv(d) && Resumable(d, t)
    ensures Resumable(Confirm(d, t, cut).0, t)
  {
    if t.packet.binding !in d.completed && ApprovalOk(t.approval, t.packet, t.later, false) { CutCallResumable(d, t, cut); }
  }

  /** A resumable call with all its steps succeeds exactly when it is completed already or still in force. */
  lemma ResumableCall(d: Disk, u: Attempt)
    requires Inv(d) && Resumable(d, u) && u.live && ApprovalOk(u.approval, u.packet, u.now, true) && u.now <= u.later
    ensures Confirm(d, u, STEPS).1.Accepted? <==>
      u.packet.binding in d.completed || u.later < u.approval.expires
    ensures Confirm(d, u, STEPS).1.Accepted? ==>
      var (after, outcome) := Confirm(d, u, STEPS);
      u.packet.binding in after.completed && outcome == Accepted(after.completed[u.packet.binding])
  {
    var b := u.packet.binding;
    if b !in d.completed && b in d.staging && d.staging[b].Whole? {
      assert d.staging[b].record.binding == b;
    }
  }

  /**
    A call that could succeed was cut off after any number of steps. Retrying it with the same
    approval succeeds exactly when the record is already there or the approval is still in force,
    and the record it returns is the one that stays.
   */
  lemma RetryConverges(d: Disk, t: Attempt, cut: nat, u: Attempt)
    requires Inv(d) && Confirm(d, t, STEPS).1.Accepted? && SameApproval(t, u) && t.now <= t.later
    ensures var d' := Confirm(d, t, cut).0;
      && (Confirm(d', u, STEPS).1.Accepted? <==>
            t.packet.binding in d'.completed || u.later < t.approval.expires)
      && (Confirm(d', u, STEPS).1.Accepted? ==>
            var (after, outcome) := Confirm(d', u, STEPS);
            t.packet.binding in after.completed && outcome == Accepted(after.completed[t.packet.binding]))
  {
    AcceptedIsResumable(d, t);
    CutStaysResumable(d, t, cut);
    StepKeeps(d, Called(t, cut));
    ResumableCall(Confirm(d, t, cut).0, u);
  }

  /** A later call with the same approval, expired or not, returns the same record and changes nothing. */
  lemma AcceptedAgain(d: Disk, t: Attempt, budget: nat, u: Attempt, budget': nat)
    requires Inv(d) && Confirm(d, t, budget).1.Accepted? && SameApproval(t, u) && t.now <= t.later
    ensures var (after, outcome) := Confirm(d, t, budget);
      Confirm(after, u, budget') == (after, outcome)
  {
    AcceptedMeans(d, t, budget);
    assert ApprovalOk(u.approval, u.packet, u.now, true);
    ArchivedCall(Confirm(d, t, budget).0, u, budget');
  }

  /** With record and archive in place a call that fits them changes nothing. */
  lemma ArchivedCall(d: Disk, u: Attempt, budget: nat)
    requires u.packet.binding in d.completed && RecordOk(d.completed[u.packet.binding], u.packet, u.approval)
    requires ApprovalOk(u.approval, u.packet, u.now, true)
    requires d.pending == None && u.packet.generation in d.archives && d.archives[u.packet.generation] == u.packet.binding
    ensures Confirm(d, u, budget) == (d, Accepted(d.completed[u.packet.binding]))
  {
  }
}
