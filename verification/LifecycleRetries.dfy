/** What asking again does after an activation or a suspension was cut off anywhere. */
module LifecycleRetries {
  import opened Basics
  import opened Journal
  import opened JournalTheorems
  import opened JournalRuns
  import opened Lifecycle

  /** The authority an activation gives, when its row is the newest one. */
  function Given(accepted: Completion, approval: Approval): Authority {
    Authority(true, accepted.epoch, Some(approval.digest), accepted.digest)
  }

  /** A row that became durable is the one its commit asked for. */
  lemma DurableRow(d: Disk, body: Body, io: Io)
    requires Load(d).Ok? && Load(Commit(d, body, io).0).Ok?
    requires Load(Commit(d, body, io).0).value.rows != Load(d).value.rows
    ensures var rows := Load(d).value.rows;
      Load(Commit(d, body, io).0).value.rows == rows + [NextEvent(rows, body, io.recordedAt)]
  {
    CommitRows(d, body, io);
  }

  /**
    An activation cut off anywhere after its event became durable: asking again with the same
    approval writes nothing and returns exactly the authority it was to give.
   */
  lemma ActivationConverges(d: Disk, accepted: Completion, approval: Approval, io: Io, again: Io)
    requires var d' := Activate(d, accepted, approval, io).0;
      Load(d).Ok? && Load(d').Ok? && Load(d').value.rows != Load(d).value.rows
    ensures var d' := Activate(d, accepted, approval, io).0;
      Activate(d', accepted, approval, again) == (d', Ok(Some(Given(accepted, approval))))
  {
    var d' := Activate(d, accepted, approval, io).0;
    var body, rows := ActivationBody(accepted, approval), Load(d).value.rows;
    assert d' == Commit(d, body, io).0;
    DurableRow(d, body, io);
    ActivatedAlready(d', rows, NextEvent(rows, body, io.recordedAt), accepted, approval, again);
  }

  lemma ActivatedAlready(d: Disk, rows: seq<Event>, e: Event, accepted: Completion, approval: Approval, io: Io)
    requires Load(d).Ok? && Load(d).value.rows == rows + [e] && e.body == ActivationBody(accepted, approval)
    requires approval.approves && approval.id != accepted.s4Approval
    requires approval.completion == accepted.digest && |accepted.digest| == 64
    ensures Activate(d, accepted, approval, io) == (d, Ok(Some(Given(accepted, approval))))
  {
    ProjectLast(rows, e);
    assert ActivatedBy((rows + [e])[|rows|], approval, accepted.epoch);
  }

  /** An activation that returned normally gives the authority of its approval. */
  lemma ActivationGives(d: Disk, accepted: Completion, approval: Approval, io: Io)
    requires Load(d).Ok? && Activate(d, accepted, approval, io).1.Ok?
    requires Activate(d, accepted, approval, io).0 != d
    ensures Activate(d, accepted, approval, io).1 == Ok(Some(Given(accepted, approval)))
  {
    CommittedGives(d, accepted, approval, io);
  }

  lemma CommittedGives(d: Disk, accepted: Completion, approval: Approval, io: Io)
    requires Load(d).Ok?
    ensures var (d', outcome) := Commit(d, ActivationBody(accepted, approval), io);
      && (outcome.Appended? ==> AuthorityOf(Load(d).value.rows, outcome) == Ok(Some(Given(accepted, approval))))
      && (outcome.Replayed? ==> d' == d)
  {
    var body, rows := ActivationBody(accepted, approval), Load(d).value.rows;
    CommitRows(d, body, io);
    ProjectLast(rows, NextEvent(rows, body, io.recordedAt));
  }

  /**
    A suspension whose event became durable leaves the authority suspended at its epoch, and asking
    again is refused: unlike an activation, a suspension cannot be retried.
   */
  lemma SuspensionRefusedAgain(d: Disk, epoch: int, io: Io, again: Io)
    requires var d' := Suspend(d, epoch, io).0;
      Load(d).Ok? && Load(d').Ok? && Load(d').value.rows != Load(d).value.rows
    ensures var d' := Suspend(d, epoch, io).0;
      && Load(d').value.Authority() == Some(Load(d).value.Authority().value.(active := false))
      && Load(d').value.Authority().value.epoch == epoch
      && Suspend(d', epoch, again) == (d', Err(AuthorityNotActive))
  {
    var rows := Load(d).value.rows;
    var body := SuspensionBody(rows[|rows| - 1].body.host, epoch, Load(d).value.Authority().value.binding);
    assert Suspend(d, epoch, io).0 == Commit(d, body, io).0;
    DurableRow(d, body, io);
    ProjectLast(rows, NextEvent(rows, body, io.recordedAt));
  }
}
