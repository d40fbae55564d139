/**
  The journal rows that a completion and a cold phase write when their own files are durable: each
  commits with the literal epoch 1 (scripts/upgrade_manual_approval.py:491-505 and
  scripts/upgrade_recovery.py:255-262).
 */
module Mirrors {
  import opened Basics
  import opened Journal
  import opened JournalTheorems
  import opened JournalRuns
  import opened JournalStore
  import opened LifecycleTheorems
  import L = Lifecycle
  import C = Completion

  /** The epoch every later row is compared with; before the first row any first epoch will do. */
  function NewestEpoch(rows: seq<Event>): int {
    if rows == [] then 1 else rows[|rows| - 1].body.epoch
  }

  predicate Passes(outcome: Outcome) {
    outcome.Appended? || outcome.Replayed?
  }

  /** A row written with the literal epoch 1, that asks for no particular epoch. */
  predicate Literal(body: Body) {
    body.epoch == 1 && body.expectedEpoch == None && TextOk(body.before) && TextOk(body.after)
  }

  /** A journal that could take one more row of this host, if only the epoch fits. */
  predicate Ready(d: Disk, host: string, recordedAt: string, more: nat) {
    && Load(d).Ok? && |Load(d).value.rows| + more <= MAX_EVENTS && TextOk(recordedAt)
    && host != "" && (Load(d).value.host.Some? ==> Load(d).value.host.value == host)
  }

  /** With everything else in order, such a row follows the newest one exactly while that has epoch 1. */
  lemma LiteralFollowsExactly(d: Disk, body: Body, recordedAt: string)
    requires Ready(d, body.host, recordedAt, 1) && Literal(body)
    ensures NewestEpoch(Load(d).value.rows) >= 1
    ensures var rows := Load(d).value.rows;
      CheckEvent(NextEvent(rows, body, recordedAt), Last(rows)) == if NewestEpoch(rows) == 1 then None else Some(EpochConflict)
  {
    var rows := Load(d).value.rows;
    AcceptedIsChain(d);
    if rows != [] {
      LastRow(rows);
      HostKnown(d);
    }
  }

  lemma HostKnown(d: Disk)
    requires Load(d).Ok? && Load(d).value.rows != []
    ensures Load(d).value.host.Some? && HostedBy(Load(d).value.rows, Load(d).value.host.value)
  {
  }

  /** Once the newest epoch is 2 or more the commit is refused and writes nothing, even if its row is there already. */
  lemma LiteralRefused(d: Disk, body: Body, io: Io)
    requires Load(d).Ok? && NewestEpoch(Load(d).value.rows) > 1 && body.epoch == 1
    ensures Commit(d, body, io).0 == d && Commit(d, body, io).1.Refused?
  {
    var rows := Load(d).value.rows;
    assert EpochRefused(body, rows[|rows| - 1].body.epoch);
  }

  /** And so it is for good, whatever anybody commits meanwhile. */
  lemma LiteralRefusedForever(d: Disk, attempts: seq<Attempt>, body: Body, io: Io)
    requires Load(d).Ok? && NewestEpoch(Load(d).value.rows) > 1 && body.epoch == 1
    ensures var later := RunCommits(d, attempts); Commit(later, body, io).0 == later && Commit(later, body, io).1.Refused?
  {
    var later := RunCommits(d, attempts);
    if Load(later).Ok? {
      var rows, more := Load(d).value.rows, Load(later).value.rows;
      RunAppendsOnly(d, attempts);
      AcceptedIsChain(later);
      EpochsMonotone(more, |rows| - 1, |more| - 1);
      LiteralRefused(later, body, io);
    }
  }

  // ---------------------------------------------------------------- the row of a completion

  /** What the row takes from the binding when there is no row before it. */
  datatype Fallback = Fallback(host: string, identity: string, binding: string)

  function Inherited(rows: seq<Event>, fallback: Fallback): Fallback {
    if rows == [] then fallback else
      var newest := rows[|rows| - 1].body;
      Fallback(newest.host, newest.identity, newest.binding)
  }

  function CompletedBody(r: C.Record, approvalSha: string, from: Fallback): Body {
    var operation := Operation("s4-completion-" + r.approvalId);
    Body(PhaseOf(operation, "completed"), operation, OtherKind("s4_completed"), from.host, from.identity, None, 1,
         Some(r.generation), from.binding, "awaiting_observation", "completed", Some(approvalSha), None, None)
  }

  /** scripts/upgrade_manual_approval.py:491 */
  function RecordCompleted(d: Disk, r: C.Record, approvalSha: string, fallback: Fallback, io: Io): (Disk, Outcome) {
    var loaded := Load(d);
    if loaded.Err? then (d, Refused(loaded.error))
    else Commit(d, CompletedBody(r, approvalSha, Inherited(loaded.value.rows, fallback)), io)
  }

  /** The two stores a call leaves, and the record when it returns one. */
  datatype Confirmed = Confirmed(completion: C.Disk, journal: Disk, returned: Option<C.Record>)

  /** scripts/upgrade_manual_approval.py:410-488 with its last line: the call returns only when the journal has the row. */
  function ConfirmAll(c: C.Disk, d: Disk, t: C.Attempt, budget: nat, approvalSha: string, fallback: Fallback, io: Io): Confirmed {
    var (c', outcome) := C.Confirm(c, t, budget);
    if !outcome.Accepted? then Confirmed(c', d, None)
    else
      var (d', written) := RecordCompleted(d, outcome.record, approvalSha, fallback, io);
      Confirmed(c', d', if Passes(written) then Some(outcome.record) else None)
  }

  method RecordCompletedIn(store: Store, r: C.Record, approvalSha: string, fallback: Fallback, io: Io) returns (outcome: Outcome)
    requires store.Valid()
    modifies store.control, store.events
    ensures (store.OnDisk(), outcome) == RecordCompleted(old(store.OnDisk()), r, approvalSha, fallback, io)
  {
    var loaded := store.LoadVerified();
    if loaded.Err? { return Refused(loaded.error); }
    outcome := store.CommitEvent(CompletedBody(r, approvalSha, Inherited(loaded.value.rows, fallback)), io);
  }

  method ConfirmAndRecord(completion: C.CompletionStore, store: Store, t: C.Attempt, budget: nat, approvalSha: string,
                          fallback: Fallback, io: Io)
    returns (returned: Option<C.Record>)
    requires store.Valid()
    modifies completion, store.control, store.events
    ensures Confirmed(completion.OnDisk(), store.OnDisk(), returned)
         == ConfirmAll(old(completion.OnDisk()), old(store.OnDisk()), t, budget, approvalSha, fallback, io)
  {
    var outcome := completion.ConfirmCompletion(t, budget);
    if !outcome.Accepted? { return None; }
    var written := RecordCompletedIn(store, outcome.record, approvalSha, fallback, io);
    return if Passes(written) then Some(outcome.record) else None;
  }

  /** A journal that gives a commit all it needs: room, clock, steps, no staging file, one host. */
  ghost predicate Serves(d: Disk, host: string, io: Io) {
    Ready(d, host, io.recordedAt, 1) && NoStaging(d) && io.budget >= 12
  }

  /** The commit of a new such row finishes exactly while the newest epoch is 1; otherwise nothing is written. */
  lemma LiteralCommitsExactly(d: Disk, body: Body, io: Io)
    requires Serves(d, body.host, io) && Literal(body) && Duplicate(Load(d).value.rows, body).New?
    ensures var rows, (d', outcome) := Load(d).value.rows, Commit(d, body, io);
      if NewestEpoch(rows) == 1 then
        && outcome.Appended? && NoStaging(d')
        && Load(d') == Ok(Loaded(Some(body.host), rows + [NextEvent(rows, body, io.recordedAt)]))
      else d' == d && outcome == Refused(EpochConflict)
  {
    LiteralFollowsExactly(d, body, io.recordedAt);
    if NewestEpoch(Load(d).value.rows) == 1 { CommitFinishes(d, Load(d).value, body, io); }
  }

  /**
    A first call that is accepted returns if and only if the newest epoch of the journal is 1. When it
    is not, record and archive are durable all the same, and the journal is as it was.
   */
  lemma ConfirmReturnsExactly(c: C.Disk, d: Disk, t: C.Attempt, budget: nat, approvalSha: string, fallback: Fallback, io: Io)
    requires C.Inv(c) && C.Confirm(c, t, budget).1.Accepted?
    requires Load(d).Ok? && Serves(d, Inherited(Load(d).value.rows, fallback).host, io)
    requires Duplicate(Load(d).value.rows,
                       CompletedBody(C.Confirm(c, t, budget).1.record, approvalSha, Inherited(Load(d).value.rows, fallback))).New?
    ensures var all := ConfirmAll(c, d, t, budget, approvalSha, fallback, io);
      && (all.returned.Some? <==> NewestEpoch(Load(d).value.rows) == 1)
      && (all.returned.None? ==> all.journal == d)
      && t.packet.binding in all.completion.completed && all.completion.pending == None
      && all.completion.completed[t.packet.binding] == C.Confirm(c, t, budget).1.record
  {
    C.AcceptedMeans(c, t, budget);
    var r := C.Confirm(c, t, budget).1.record;
    LiteralCommitsExactly(d, CompletedBody(r, approvalSha, Inherited(Load(d).value.rows, fallback)), io);
  }

  /** From then on no call for any binding returns, whatever is committed to either store meanwhile. */
  lemma ConfirmNeverReturns(d: Disk, attempts: seq<Attempt>, c: C.Disk, t: C.Attempt, budget: nat, approvalSha: string,
                            fallback: Fallback, io: Io)
    requires Load(d).Ok? && NewestEpoch(Load(d).value.rows) > 1
    ensures var later := RunCommits(d, attempts);
      var all := ConfirmAll(c, later, t, budget, approvalSha, fallback, io);
      all.returned == None && all.journal == later && all.completion == C.Confirm(c, t, budget).0
  {
    var later := RunCommits(d, attempts);
    if C.Confirm(c, t, budget).1.Accepted? && Load(later).Ok? {
      var from := Inherited(Load(later).value.rows, fallback);
      LiteralRefusedForever(d, attempts, CompletedBody(C.Confirm(c, t, budget).1.record, approvalSha, from), io);
    }
  }

  /**
    Asking again for an acceptance whose row is in the journal: the call returns if and only if the
    newest epoch is still 1 and the newest row still has the identity and the binding the row of the
    acceptance was written with, for the repeated row takes both from there.
   */
  lemma RetryReturnsExactly(d: Disk, r: C.Record, approvalSha: string, fallback: Fallback, io: Io, s: nat, from: Fallback)
    requires Load(d).Ok? && DistinctIds(Load(d).value.rows) && s < |Load(d).value.rows|
    requires Load(d).value.rows[s].body == CompletedBody(r, approvalSha, from)
    requires |Load(d).value.rows| < MAX_EVENTS && TextOk(io.recordedAt)
    ensures var rows, (d', written) := Load(d).value.rows, RecordCompleted(d, r, approvalSha, fallback, io);
      var newest := rows[|rows| - 1].body;
      && d' == d
      && (Passes(written) <==> newest.epoch == 1 && newest.identity == from.identity && newest.binding == from.binding)
  {
    HostKnown(d);
    RepeatedVerdict(d, r, approvalSha, Inherited(Load(d).value.rows, fallback), io.recordedAt, s, from);
    CommitByVerdict(d, Load(d).value, CompletedBody(r, approvalSha, Inherited(Load(d).value.rows, fallback)), io);
  }

  lemma RepeatedVerdict(d: Disk, r: C.Record, approvalSha: string, now: Fallback, recordedAt: string, s: nat, from: Fallback)
    requires Load(d).Ok? && DistinctIds(Load(d).value.rows) && s < |Load(d).value.rows|
    requires Load(d).value.rows[s].body == CompletedBody(r, approvalSha, from)
    requires |Load(d).value.rows| < MAX_EVENTS && TextOk(recordedAt) && now.host == from.host
    ensures var rows := Load(d).value.rows;
      var verdict := Admit(rows, CompletedBody(r, approvalSha, now), recordedAt);
      !verdict.New? && (verdict.Replay? <==> NewestEpoch(rows) == 1 && now.identity == from.identity && now.binding == from.binding)
  {
    var rows := Load(d).value.rows;
    var body := CompletedBody(r, approvalSha, now);
    AcceptedIsChain(d);
    HostKnown(d);
    LastRow(rows);
    LiteralFollowsExactly(d, body, recordedAt);
    DuplicateExact(rows, body);
    if rows[s].body == body { DuplicateFinds(rows, s); }
  }

  // ---------------------------------------------------------------- a run to the second epoch

  predicate MayActivate(accepted: L.Completion, approval: L.Approval) {
    approval.approves && |accepted.digest| == 64 && approval.completion == accepted.digest && approval.id != accepted.s4Approval
  }

  function TwoActivations(first: L.Completion, firstApproval: L.Approval, second: L.Completion, secondApproval: L.Approval): seq<L.Action> {
    [L.DoActivate(first, firstApproval, EXAMPLE_IO), L.DoSuspend(1, EXAMPLE_IO), L.DoActivate(second, secondApproval, EXAMPLE_IO)]
  }

  /** Activation, suspension and the next activation on one host lead from an empty disk to epoch 2. */
  lemma SecondEpoch(first: L.Completion, firstApproval: L.Approval, second: L.Completion, secondApproval: L.Approval)
    requires MayActivate(first, firstApproval) && MayActivate(second, secondApproval)
    requires first.epoch == 1 && second.epoch == 2 && firstApproval.id != secondApproval.id
    requires L.HostOf(first, firstApproval) == L.HostOf(second, secondApproval)
    ensures var d := L.Run(FRESH, TwoActivations(first, firstApproval, second, secondApproval));
      Load(d).Ok? && NewestEpoch(Load(d).value.rows) == 2 && NoStaging(d)
  {
    var actions := TwoActivations(first, firstApproval, second, secondApproval);
    var body := L.ActivationBody(first, firstApproval);
    ActivateFresh(first, firstApproval);
    FirstActivation(body);
    var d1 := L.Perform(FRESH, actions[0]);
    SuspendFirst(d1, body);
    var d2 := L.Perform(d1, actions[1]);
    ActivateSecond(d2, Load(d2).value.rows, second, secondApproval);
    var d3 := L.Perform(d2, actions[2]);
    assert actions[1..] == [actions[1], actions[2]] && actions[1..][1..] == [actions[2]] && [actions[2]][1..] == [];
    assert L.Run(FRESH, actions) == L.Run(d1, actions[1..]) == L.Run(d2, [actions[2]]) == L.Run(d3, []);
  }

  lemma SuspendFirst(d: Disk, body: Body)
    requires body.kind.AuthorityActivated? && body.effect.None? && body.host != "" && body.epoch == 1 && body.operationId.Activation?
    requires body.eventId == PhaseOf(body.operationId, body.after)
    requires NoStaging(d) && Load(d) == Ok(Loaded(Some(body.host), [NextEvent([], body, EXAMPLE_IO.recordedAt)]))
    ensures var d' := L.Suspend(d, 1, EXAMPLE_IO).0;
      && NoStaging(d') && Load(d').Ok? && Load(d').value.host == Some(body.host) && |Load(d').value.rows| == 2
      && var rows := Load(d').value.rows;
      && rows[0].body == body && rows[1].body == L.SuspensionBody(body.host, 1, body.binding)
      && AuthorityAfter(rows) == Some(Authority(false, 1, body.approval, body.binding))
  {
    var rows := Load(d).value.rows;
    ActivatedRows(body, EXAMPLE_IO.recordedAt);
    var suspension := L.SuspensionBody(body.host, 1, body.binding);
    DuplicateExact(rows, suspension);
    CommitFinishes(d, Load(d).value, suspension, EXAMPLE_IO);
    ProjectLast(rows, NextEvent(rows, suspension, EXAMPLE_IO.recordedAt));
  }

  lemma ActivateSecond(d: Disk, rows: seq<Event>, second: L.Completion, approval: L.Approval)
    requires MayActivate(second, approval) && second.epoch == 2 && NoStaging(d)
    requires Load(d) == Ok(Loaded(Some(L.HostOf(second, approval)), rows)) && |rows| == 2
    requires rows[0].body.operationId.Activation? && rows[0].body.operationId != Activation(approval.id) && rows[0].body.epoch == 1
    requires rows[0].body.eventId == PhaseOf(rows[0].body.operationId, rows[0].body.after)
    requires rows[1].body == L.SuspensionBody(L.HostOf(second, approval), 1, rows[1].body.binding)
    requires AuthorityAfter(rows).Some? && !AuthorityAfter(rows).value.active && AuthorityAfter(rows).value.epoch == 1
    ensures var d' := L.Activate(d, second, approval, EXAMPLE_IO).0;
      Load(d').Ok? && NewestEpoch(Load(d').value.rows) == 2 && NoStaging(d')
  {
    var body := L.ActivationBody(second, approval);
    DuplicateExact(rows, body);
    SecondFollows(d, rows, body);
    CommitFinishes(d, Load(d).value, body, EXAMPLE_IO);
  }

  lemma SecondFollows(d: Disk, rows: seq<Event>, body: Body)
    requires Load(d).Ok? && Load(d).value.rows == rows && |rows| == 2 && rows[1].body.epoch == 1 && rows[1].body.host == body.host
    requires body.kind.AuthorityActivated? && body.epoch == 2 && body.expectedEpoch == None && body.host != ""
    requires TextOk(body.before) && TextOk(body.after)
    ensures Follows(NextEvent(rows, body, EXAMPLE_IO.recordedAt), Last(rows))
  {
    AcceptedIsChain(d);
    LastRow(rows);
  }
}
