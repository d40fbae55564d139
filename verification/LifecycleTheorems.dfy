/** Alternation of activations and suspensions, and exactly when the launcher can run twice. */
module LifecycleTheorems {
  import opened Basics
  import opened Journal
  import opened JournalTheorems
  import opened JournalRuns
  import opened Lifecycle

  // ---------------------------------------------------------------- the invariant of orderly runs

  ghost predicate HasOperation(rows: seq<Event>, id: OperationId) {
    exists i :: 0 <= i < |rows| && rows[i].body.operationId == id
  }

  function AuthorityAfter(rows: seq<Event>): Option<Authority> {
    Project(rows).authority
  }

  /** What a row appended to `rows` by an orderly action looks like. */
  ghost predicate RowFits(rows: seq<Event>, b: Body) {
    var authority := AuthorityAfter(rows);
    match b.operationId
    case Activation(_) =>
      && b.kind.AuthorityActivated? && b.effect.None?
      && (authority.Some? ==> !authority.value.active && b.epoch == authority.value.epoch + 1)
    case Suspension(_) =>
      && b.kind.AuthoritySuspended? && b.effect.None? && ActiveAt(authority, b.epoch)
    case LauncherSpawn(epoch) =>
      && ActiveAt(authority, epoch) && b == IntentBody(b.host, epoch, authority.value.binding)
    case LauncherObserve(epoch) =>
      && HasOperation(rows, LauncherSpawn(epoch))
      && (b == BlockedBody(b.host, epoch, b.binding)
          || (b.effect.Some? && b == ObservedBody(b.host, epoch, b.binding, b.effect.value.desiredAfter)))
    case Operation(_) => Unrelated(b)
  }

  ghost predicate History(rows: seq<Event>) {
    rows == [] || (History(rows[..|rows| - 1]) && RowFits(rows[..|rows| - 1], rows[|rows| - 1].body))
  }

  lemma {:induction false} HistoryAt(rows: seq<Event>, n: nat)
    requires History(rows) && n <= |rows|
    ensures History(rows[..n])
    ensures n < |rows| ==> RowFits(rows[..n], rows[n].body)
  {
    if n < |rows| {
      var init := rows[..|rows| - 1];
      if n < |init| {
        HistoryAt(init, n);
        assert init[..n] == rows[..n];
      } else {
        assert rows[..n] == init;
      }
    } else {
      assert rows[..n] == rows;
    }
  }

  ghost predicate Sound(d: Disk) {
    Load(d).Ok? ==> History(Load(d).value.rows) && DistinctIds(Load(d).value.rows)
  }

  lemma HistoryGrows(rows: seq<Event>, e: Event)
    requires History(rows) && RowFits(rows, e.body)
    ensures History(rows + [e])
  {
    assert (rows + [e])[..|rows|] == rows;
  }

  /** A commit whose body fits the rows it is applied to keeps the invariant. */
  lemma SoundCommit(d: Disk, body: Body, io: Io)
    requires Sound(d)
    requires Load(d).Ok? && Admit(Load(d).value.rows, body, io.recordedAt).New? ==> RowFits(Load(d).value.rows, body)
    ensures Sound(Commit(d, body, io).0)
  {
    CommitRows(d, body, io);
    if Load(d).Ok? && Load(Commit(d, body, io).0).Ok? {
      var rows := Load(d).value.rows;
      if Load(Commit(d, body, io).0).value.rows != rows {
        var e := NextEvent(rows, body, io.recordedAt);
        HistoryGrows(rows, e);
        NewKeepsDistinct(rows, e);
      }
    }
  }

  lemma ActivationFits(d: Disk, accepted: Completion, approval: Approval, io: Io)
    requires Load(d).Ok?
    requires var current := Load(d).value.Authority(); current.Some? ==> !current.value.active && accepted.epoch > current.value.epoch
    requires Admit(Load(d).value.rows, ActivationBody(accepted, approval), io.recordedAt).New?
    ensures RowFits(Load(d).value.rows, ActivationBody(accepted, approval))
  {
    AcceptedIsChain(d);
    AuthorityEpochIsCurrent(Load(d).value.rows);
  }

  lemma SpawnSound(d: Disk, epoch: int, response: Response, io: Io, observeIo: Io)
    requires Sound(d)
    ensures Sound(LauncherSpawnCall(d, epoch, response, io, observeIo).disk)
  {
    var spawn := LauncherSpawnCall(d, epoch, response, io, observeIo);
    if spawn.disk != d {
      var loaded := Load(d).value;
      var host, binding := loaded.host.value, loaded.Authority().value.binding;
      var (d1, intent) := Commit(d, IntentBody(host, epoch, binding), io);
      SoundCommit(d, IntentBody(host, epoch, binding), io);
      if spawn.called && !response.Raises? {
        IntentRecorded(d, IntentBody(host, epoch, binding), io);
        var body := if response.Malformed? then BlockedBody(host, epoch, binding)
                    else ObservedBody(host, epoch, binding, response.generation);
        SoundCommit(d1, body, observeIo);
      }
    }
  }

  /** After a commit that returned normally its operation is in the chain, if the chain can be read. */
  lemma IntentRecorded(d: Disk, body: Body, io: Io)
    requires Commit(d, body, io).1.Appended? || Commit(d, body, io).1.Replayed?
    ensures Load(Commit(d, body, io).0).Ok? ==> HasOperation(Load(Commit(d, body, io).0).value.rows, body.operationId)
  {
    CommitRows(d, body, io);
    var rows := Load(d).value.rows;
    if Commit(d, body, io).1.Replayed? {
      DuplicateExact(rows, body);
    } else if Load(Commit(d, body, io).0).Ok? {
      var e := NextEvent(rows, body, io.recordedAt);
      assert (rows + [e])[|rows|].body.operationId == body.operationId;
    }
  }

  lemma SoundStep(d: Disk, a: Action)
    requires Sound(d) && Orderly(a)
    ensures Sound(Perform(d, a))
  {
    match a
    case DoCommit(body, io) => SoundCommit(d, body, io);
    case DoActivate(accepted, approval, io) =>
      if Activate(d, accepted, approval, io).0 != d {
        if Admit(Load(d).value.rows, ActivationBody(accepted, approval), io.recordedAt).New? {
          ActivationFits(d, accepted, approval, io);
        }
        SoundCommit(d, ActivationBody(accepted, approval), io);
      }
    case DoSuspend(epoch, io) =>
      if Suspend(d, epoch, io).0 != d {
        var rows := Load(d).value.rows;
        SoundCommit(d, SuspensionBody(rows[|rows| - 1].body.host, epoch, Load(d).value.Authority().value.binding), io);
      }
    case DoSpawn(epoch, response, io, observeIo) => SpawnSound(d, epoch, response, io, observeIo);
    case DoSupervise(generation, io) =>
      if SuperviseSpawn(d, generation, io).0 != d { SoundCommit(d, SupervisorBody(Load(d).value.rows, generation), io); }
  }

  lemma {:induction false} SoundRun(d: Disk, actions: seq<Action>)
    requires Sound(d) && forall i :: 0 <= i < |actions| ==> Orderly(actions[i])
    ensures Sound(Run(d, actions))
    decreases |actions|
  {
    if actions != [] {
      SoundStep(d, actions[0]);
      SoundRun(Perform(d, actions[0]), actions[1..]);
    }
  }

  // ---------------------------------------------------------------- alternation

  predicate IsActivation(row: Event) {
    row.body.kind.AuthorityActivated?
  }

  predicate IsSuspension(row: Event) {
    row.body.kind.AuthoritySuspended?
  }

  lemma FitsLifecycle(rows: seq<Event>, n: nat)
    requires History(rows) && n < |rows|
    ensures var before := AuthorityAfter(rows[..n]);
      && (IsActivation(rows[n]) ==> before.None? || (!before.value.active && rows[n].body.epoch == before.value.epoch + 1))
      && (IsSuspension(rows[n]) ==> ActiveAt(before, rows[n].body.epoch))
  {
    HistoryAt(rows, n);
  }

  lemma AuthorityNext(rows: seq<Event>, n: nat)
    requires n < |rows|
    ensures var before, after := AuthorityAfter(rows[..n]), AuthorityAfter(rows[..n + 1]);
      after == if IsActivation(rows[n]) then Some(Authority(true, rows[n].body.epoch, rows[n].body.approval, rows[n].body.binding))
               else if IsSuspension(rows[n]) && before.Some? then Some(before.value.(active := false))
               else before
  {
    assert rows[..n + 1] == rows[..n] + [rows[n]];
    ProjectLast(rows[..n], rows[n]);
  }

  /** From one activation on, with no other activation before j, the authority is that one's. */
  lemma {:induction false} AuthoritySince(rows: seq<Event>, i: nat, j: nat)
    requires History(rows) && i < j <= |rows| && IsActivation(rows[i])
    requires forall k :: i < k < j ==> !IsActivation(rows[k])
    ensures AuthorityAfter(rows[..j]).Some? && AuthorityAfter(rows[..j]).value.epoch == rows[i].body.epoch
    ensures AuthorityAfter(rows[..j]).value.binding == rows[i].body.binding
    ensures AuthorityAfter(rows[..j]).value.active <==> forall k :: i < k < j ==> !IsSuspension(rows[k])
    decreases j
  {
    AuthorityNext(rows, j - 1);
    if i < j - 1 { AuthoritySince(rows, i, j - 1); }
  }

  /**
    Between two activations there is a suspension, between two suspensions an activation; activations
    with none in between have successive epochs; and a suspension carries the epoch it ends, once.
   */
  ghost predicate Alternate(rows: seq<Event>, i: nat, j: nat)
    requires i < j < |rows|
  {
    && (IsActivation(rows[i]) && IsActivation(rows[j]) ==> exists k :: i < k < j && IsSuspension(rows[k]))
    && (IsSuspension(rows[i]) && IsSuspension(rows[j]) ==> exists k :: i < k < j && IsActivation(rows[k]))
    && (IsActivation(rows[i]) && IsActivation(rows[j]) && (forall k :: i < k < j ==> !IsActivation(rows[k]))
        ==> rows[j].body.epoch == rows[i].body.epoch + 1)
    && (IsActivation(rows[i]) && IsSuspension(rows[j]) && (forall k :: i < k < j ==> !IsActivation(rows[k]))
        ==> rows[j].body.epoch == rows[i].body.epoch && forall k :: i < k < j ==> !IsSuspension(rows[k]))
  }

  lemma ActivationsAlternate(rows: seq<Event>, i: nat, j: nat)
    requires History(rows) && i < j < |rows|
    ensures Alternate(rows, i, j)
  {
    FitsLifecycle(rows, j);
    if IsActivation(rows[i]) {
      if forall k :: i < k < j ==> !IsActivation(rows[k]) {
        AuthoritySince(rows, i, j);
      } else if IsActivation(rows[j]) {
        var k :| i < k < j && IsActivation(rows[k]);
        ActivationsAlternate(rows, i, k);
      }
    }
    if IsSuspension(rows[i]) && IsSuspension(rows[j]) && forall k :: i < k < j ==> !IsActivation(rows[k]) {
      SuspendedSince(rows, i, j);
    }
  }

  lemma {:induction false} SuspendedSince(rows: seq<Event>, i: nat, j: nat)
    requires History(rows) && i < j <= |rows| && IsSuspension(rows[i])
    requires forall k :: i < k < j ==> !IsActivation(rows[k])
    ensures AuthorityAfter(rows[..j]).Some? && !AuthorityAfter(rows[..j]).value.active
    decreases j
  {
    AuthorityNext(rows, j - 1);
    FitsLifecycle(rows, j - 1);
    if i < j - 1 { SuspendedSince(rows, i, j - 1); }
  }

  /** A suspension is never the first lifecycle row. */
  lemma {:induction false} ActivatedFirst(rows: seq<Event>, j: nat)
    requires History(rows) && j < |rows| && IsSuspension(rows[j])
    ensures exists i :: 0 <= i < j && IsActivation(rows[i])
  {
    FitsLifecycle(rows, j);
    ActivationExists(rows, j);
  }

  lemma {:induction false} ActivationExists(rows: seq<Event>, j: nat)
    requires j <= |rows| && AuthorityAfter(rows[..j]).Some?
    ensures exists i :: 0 <= i < j && IsActivation(rows[i])
  {
    assert rows[..0] == [];
    if j > 0 {
      AuthorityNext(rows, j - 1);
      if !IsActivation(rows[j - 1]) { ActivationExists(rows, j - 1); }
    }
  }

  /** So it is in the journal any orderly run leaves, wherever its actions were cut off; and an activation comes first. */
  lemma RunAlternates(actions: seq<Action>, i: nat, j: nat)
    requires forall k :: 0 <= k < |actions| ==> Orderly(actions[k])
    requires Load(Run(FRESH, actions)).Ok? && i < j < |Load(Run(FRESH, actions)).value.rows|
    ensures var rows := Load(Run(FRESH, actions)).value.rows;
      && Chain(rows) && Alternate(rows, i, j)
      && (IsSuspension(rows[j]) ==> exists k :: 0 <= k < j && IsActivation(rows[k]))
  {
    FreshSound();
    SoundRun(FRESH, actions);
    var rows := Load(Run(FRESH, actions)).value.rows;
    AcceptedIsChain(Run(FRESH, actions));
    ActivationsAlternate(rows, i, j);
    if IsSuspension(rows[j]) { ActivatedFirst(rows, j); }
  }

  lemma FreshSound()
    ensures Load(FRESH) == Ok(Loaded(None, [])) && Sound(FRESH)
  {
  }

  // ---------------------------------------------------------------- the launcher

  ghost predicate Intended(rows: seq<Event>, epoch: int) {
    HasOperation(rows, LauncherSpawn(epoch))
  }

  ghost predicate BlockedOnce(rows: seq<Event>, epoch: int) {
    exists i :: 0 <= i < |rows| && rows[i].body.operationId == LauncherObserve(epoch) && rows[i].body.kind.SpawnBlocked?
  }

  /** The runner is reached only under a readable journal whose authority is active at that epoch. */
  lemma RunnerNeedsAuthority(d: Disk, epoch: int, response: Response, io: Io, observeIo: Io)
    requires LauncherSpawnCall(d, epoch, response, io, observeIo).called
    ensures Load(d).Ok? && ActiveAt(Load(d).value.Authority(), epoch)
    ensures !Fenced(Load(d).value.rows, epoch)
    ensures var d1 := Commit(d, IntentBody(Load(d).value.host.value, epoch, Load(d).value.Authority().value.binding), io).0;
      Load(d1).Ok? ==> Intended(Load(d1).value.rows, epoch)
  {
    IntentRecorded(d, IntentBody(Load(d).value.host.value, epoch, Load(d).value.Authority().value.binding), io);
  }

  // Where the launcher's own rows sit in a chain.

  /** The launcher writes its ids, kinds and effect ids alone, and observes only after an intent. */
  ghost predicate RowOwned(rows: seq<Event>, b: Body) {
    match b.operationId
    case Activation(_) => b.kind.AuthorityActivated? && b.effect.None?
    case Suspension(_) => b.kind.AuthoritySuspended? && b.effect.None?
    case LauncherSpawn(epoch) => b == IntentBody(b.host, epoch, b.binding)
    case LauncherObserve(epoch) =>
      && HasOperation(rows, LauncherSpawn(epoch))
      && (b == BlockedBody(b.host, epoch, b.binding)
          || (b.effect.Some? && b == ObservedBody(b.host, epoch, b.binding, b.effect.value.desiredAfter)))
    case Operation(_) => Unrelated(b)
  }

  ghost predicate Owned(rows: seq<Event>) {
    rows == [] || (Owned(rows[..|rows| - 1]) && RowOwned(rows[..|rows| - 1], rows[|rows| - 1].body))
  }

  lemma {:induction false} OwnedAt(rows: seq<Event>, n: nat)
    requires Owned(rows) && n < |rows|
    ensures RowOwned(rows[..n], rows[n].body)
  {
    var init := rows[..|rows| - 1];
    if n < |init| {
      OwnedAt(init, n);
      assert init[..n] == rows[..n];
    }
  }

  lemma {:induction false} HistoryOwned(rows: seq<Event>)
    requires History(rows)
    ensures Owned(rows)
  {
    if rows != [] { HistoryOwned(rows[..|rows| - 1]); }
  }

  lemma EffectOwners(rows: seq<Event>, i: nat, epoch: int)
    requires Owned(rows) && i < |rows|
    ensures Intends(rows[i], SpawnEffect(epoch)) <==> rows[i].body.operationId == LauncherSpawn(epoch)
    ensures Settles(rows[i], SpawnEffect(epoch)) <==> rows[i].body.operationId == LauncherObserve(epoch)
    ensures rows[i].body.operationId == LauncherObserve(epoch) ==>
      (rows[i].body.kind.SpawnBlocked? <==> !SpawnedAt(rows[i], epoch)) && HasOperation(rows[..i], LauncherSpawn(epoch))
  {
    OwnedAt(rows, i);
  }

  lemma InPending(rows: seq<Event>, id: EffectId, from: nat)
    requires from <= |rows|
    requires from > 0 ==> Settles(rows[from - 1], id)
    requires forall i :: from <= i < |rows| ==> !Settles(rows[i], id)
    ensures id in Project(rows).pending <==> exists i :: from <= i < |rows| && IntendsAt(rows, i, id)
  {
    PendingCountsOpenIntents(rows, id, from);
    OccursExactly(Project(rows).pending, id);
    if i :| from <= i < |rows| && IntendsAt(rows, i, id) {
      assert i in IntentsFrom(rows, id, from);
    } else {
      assert IntentsFrom(rows, id, from) == {};
    }
  }

  /** A blocked row took the intent back, and nobody has recorded a generation at the epoch. */
  ghost predicate Reopened(rows: seq<Event>, epoch: int) {
    BlockedOnce(rows, epoch) && !HasSpawned(rows, epoch)
  }

  /** Once an intent is durable, the fence is down exactly while a blocked row is durable and no generation is. */
  lemma FenceExact(rows: seq<Event>, epoch: int)
    requires Owned(rows) && DistinctIds(rows) && Intended(rows, epoch)
    ensures Fenced(rows, epoch) <==> !Reopened(rows, epoch)
  {
    OwnRows(rows, epoch);
    var s :| 0 <= s < |rows| && rows[s].body.operationId == LauncherSpawn(epoch);
    if k :| 0 <= k < |rows| && rows[k].body.operationId == LauncherObserve(epoch) {
      EffectOwners(rows, k, epoch);
      ObservationUnique(rows, k, epoch);
      NotPendingAfter(rows, s, k, epoch);
    } else {
      InPending(rows, SpawnEffect(epoch), 0);
      assert IntendsAt(rows, s, SpawnEffect(epoch));
    }
  }

  lemma OwnRows(rows: seq<Event>, epoch: int)
    requires Owned(rows)
    ensures forall i :: 0 <= i < |rows| ==>
      (Intends(rows[i], SpawnEffect(epoch)) <==> rows[i].body.operationId == LauncherSpawn(epoch))
    ensures forall i :: 0 <= i < |rows| ==>
      (Settles(rows[i], SpawnEffect(epoch)) <==> rows[i].body.operationId == LauncherObserve(epoch))
  {
    forall i | 0 <= i < |rows|
      ensures Intends(rows[i], SpawnEffect(epoch)) <==> rows[i].body.operationId == LauncherSpawn(epoch)
      ensures Settles(rows[i], SpawnEffect(epoch)) <==> rows[i].body.operationId == LauncherObserve(epoch)
    {
      EffectOwners(rows, i, epoch);
    }
  }

  /** The observation comes after the one intent, so nothing is pending after it. */
  lemma NotPendingAfter(rows: seq<Event>, s: nat, k: nat, epoch: int)
    requires Owned(rows) && DistinctIds(rows) && s < |rows| && k < |rows|
    requires rows[s].body.operationId == LauncherSpawn(epoch) && rows[k].body.operationId == LauncherObserve(epoch)
    requires HasOperation(rows[..k], LauncherSpawn(epoch))
    ensures SpawnEffect(epoch) !in Project(rows).pending
  {
    OwnRows(rows, epoch);
    ObservationUnique(rows, k, epoch);
    InPending(rows, SpawnEffect(epoch), k + 1);
    assert s < k;
    assert forall i :: k < i < |rows| ==> rows[i].body.operationId != rows[s].body.operationId;
  }

  lemma ObservationUnique(rows: seq<Event>, k: nat, epoch: int)
    requires DistinctIds(rows) && k < |rows| && rows[k].body.operationId == LauncherObserve(epoch)
    ensures forall i :: 0 <= i < |rows| && rows[i].body.operationId == LauncherObserve(epoch) ==> i == k
    ensures BlockedOnce(rows, epoch) <==> rows[k].body.kind.SpawnBlocked?
  {
  }

  /** The run so far, after n of its actions. */
  function After(d: Disk, actions: seq<Action>, n: nat): Disk
    requires n <= |actions|
  {
    Run(d, actions[..n])
  }

  /** In no state the run passes through is the fence down again. */
  ghost predicate NeverReopened(d: Disk, actions: seq<Action>, epoch: int) {
    forall n :: 0 <= n <= |actions| ==>
      (Load(After(d, actions, n)).Ok? ==> !Reopened(Load(After(d, actions, n)).value.rows, epoch))
  }

  /** Calls still possible: none once an intent is durable or the journal is unreadable. */
  ghost function CallsLeft(d: Disk, epoch: int): nat {
    if Load(d).Err? || Intended(Load(d).value.rows, epoch) then 0 else 1
  }

  lemma StepCalls(d: Disk, a: Action, epoch: int)
    requires Sound(d) && Orderly(a)
    requires Load(d).Ok? ==> !Reopened(Load(d).value.rows, epoch)
    ensures (if CallsRunner(d, a, epoch) then 1 else 0) + CallsLeft(Perform(d, a), epoch) <= CallsLeft(d, epoch)
  {
    StepKeepsRows(d, a);
    if CallsRunner(d, a, epoch) {
      RunnerNeedsAuthority(d, epoch, a.response, a.io, a.observeIo);
      if Intended(Load(d).value.rows, epoch) {
        HistoryOwned(Load(d).value.rows);
        FenceExact(Load(d).value.rows, epoch);
      }
      CalledThenIntended(d, a);
    }
  }

  /** Steps only append, so what is durable stays durable while the journal can be read. */
  lemma StepKeepsRows(d: Disk, a: Action)
    ensures Load(d).Err? ==> Perform(d, a) == d
    ensures Load(d).Ok? && Load(Perform(d, a)).Ok? ==> Load(d).value.rows <= Load(Perform(d, a)).value.rows
  {
    match a
    case DoCommit(body, io) => CommitRows(d, body, io);
    case DoActivate(accepted, approval, io) => ActivateKeepsRows(d, accepted, approval, io);
    case DoSuspend(epoch, io) => SuspendKeepsRows(d, epoch, io);
    case DoSpawn(epoch, response, io, observeIo) => SpawnKeepsRows(d, epoch, response, io, observeIo);
    case DoSupervise(generation, io) => SuperviseKeepsRows(d, generation, io);
  }

  lemma ActivateKeepsRows(d: Disk, accepted: Completion, approval: Approval, io: Io)
    ensures var d' := Activate(d, accepted, approval, io).0;
      && (Load(d).Err? ==> d' == d)
      && (Load(d).Ok? && Load(d').Ok? ==> Load(d).value.rows <= Load(d').value.rows)
  {
    if Activate(d, accepted, approval, io).0 != d { CommitRows(d, ActivationBody(accepted, approval), io); }
  }

  lemma SuspendKeepsRows(d: Disk, epoch: int, io: Io)
    ensures var d' := Suspend(d, epoch, io).0;
      && (Load(d).Err? ==> d' == d)
      && (Load(d).Ok? && Load(d').Ok? ==> Load(d).value.rows <= Load(d').value.rows)
  {
    if Suspend(d, epoch, io).0 != d {
      var rows := Load(d).value.rows;
      CommitRows(d, SuspensionBody(rows[|rows| - 1].body.host, epoch, Load(d).value.Authority().value.binding), io);
    }
  }

  lemma SuperviseKeepsRows(d: Disk, generation: string, io: Io)
    ensures var d' := SuperviseSpawn(d, generation, io).0;
      && (Load(d).Err? ==> d' == d)
      && (Load(d).Ok? && Load(d').Ok? ==> Load(d).value.rows <= Load(d').value.rows)
  {
    if SuperviseSpawn(d, generation, io).0 != d { CommitRows(d, SupervisorBody(Load(d).value.rows, generation), io); }
  }

  lemma SpawnKeepsRows(d: Disk, epoch: int, response: Response, io: Io, observeIo: Io)
    ensures var d' := LauncherSpawnCall(d, epoch, response, io, observeIo).disk;
      && (Load(d).Err? ==> d' == d)
      && (Load(d).Ok? && Load(d').Ok? ==> Load(d).value.rows <= Load(d').value.rows)
  {
    var spawn := LauncherSpawnCall(d, epoch, response, io, observeIo);
    if spawn.disk != d {
      var host, binding := Load(d).value.host.value, Load(d).value.Authority().value.binding;
      CommitRows(d, IntentBody(host, epoch, binding), io);
      if spawn.called && !response.Raises? {
        var body := if response.Malformed? then BlockedBody(host, epoch, binding)
                    else ObservedBody(host, epoch, binding, response.generation);
        CommitRows(Commit(d, IntentBody(host, epoch, binding), io).0, body, observeIo);
      }
    }
  }

  lemma CalledThenIntended(d: Disk, a: Action)
    requires a.DoSpawn? && CallsRunner(d, a, a.epoch)
    ensures Load(Perform(d, a)).Ok? ==> Intended(Load(Perform(d, a)).value.rows, a.epoch)
  {
    RunnerNeedsAuthority(d, a.epoch, a.response, a.io, a.observeIo);
    var host, binding := Load(d).value.host.value, Load(d).value.Authority().value.binding;
    var d1 := Commit(d, IntentBody(host, a.epoch, binding), a.io).0;
    if !a.response.Raises? {
      var body := if a.response.Malformed? then BlockedBody(host, a.epoch, binding)
                  else ObservedBody(host, a.epoch, binding, a.response.generation);
      CommitRows(d1, body, a.observeIo);
      if Load(d1).Ok? && Load(Perform(d, a)).Ok? { KeepsOperation(Load(d1).value.rows, Load(Perform(d, a)).value.rows, LauncherSpawn(a.epoch)); }
    }
  }

  lemma KeepsOperation(a: seq<Event>, b: seq<Event>, id: OperationId)
    requires a <= b && HasOperation(a, id)
    ensures HasOperation(b, id)
  {
    var i :| 0 <= i < |a| && a[i].body.operationId == id;
    assert b[i] == a[i];
  }

  lemma {:induction false} CallsBounded(d: Disk, actions: seq<Action>, epoch: int)
    requires Sound(d) && forall i :: 0 <= i < |actions| ==> Orderly(actions[i])
    requires NeverReopened(d, actions, epoch)
    ensures RunnerCalls(d, actions, epoch) <= CallsLeft(d, epoch)
    decreases |actions|
  {
    if actions != [] {
      assert After(d, actions, 0) == d;
      SoundStep(d, actions[0]);
      StepCalls(d, actions[0], epoch);
      var d1 := Perform(d, actions[0]);
      forall n | 0 <= n <= |actions[1..]|
        ensures Load(After(d1, actions[1..], n)).Ok? ==> !Reopened(Load(After(d1, actions[1..], n)).value.rows, epoch)
      {
        assert actions[..n + 1][1..] == actions[1..][..n];
        assert After(d, actions, n + 1) == After(d1, actions[1..], n);
      }
      CallsBounded(d1, actions[1..], epoch);
    }
  }

  /**
    From an empty directory, over any sequential mix of activations, suspensions, launcher calls,
    supervisors and unrelated commits, each possibly stopped anywhere and with the runner failing at
    will: unless a blocked row was durable at some point while no generation of the epoch was, the
    runner is invoked at most once for it.
   */
  lemma RunnerAtMostOnce(actions: seq<Action>, epoch: int)
    requires forall i :: 0 <= i < |actions| ==> Orderly(actions[i])
    requires NeverReopened(FRESH, actions, epoch)
    ensures RunnerCalls(FRESH, actions, epoch) <= 1
  {
    CallsBounded(FRESH, actions, epoch);
  }

  // The blocked branch: exactly when a later call reaches the runner again.

  /** While the authority stays at one epoch its binding does not change. */
  lemma {:induction false} BindingStable(rows: seq<Event>, i: nat)
    requires History(rows) && i <= |rows| && AuthorityAfter(rows[..i]).Some?
    ensures var then_, now := AuthorityAfter(rows[..i]).value, AuthorityAfter(rows);
      now.Some? && now.value.epoch >= then_.epoch && (now.value.epoch == then_.epoch ==> now.value.binding == then_.binding)
    decreases |rows|
  {
    if i == |rows| {
      assert rows[..i] == rows;
    } else {
      var n := |rows| - 1;
      assert rows[..n][..i] == rows[..i] && rows[..n + 1] == rows;
      BindingStable(rows[..n], i);
      AuthorityNext(rows, n);
      FitsLifecycle(rows, n);
    }
  }

  /** Any intent of a sound chain is word for word the one the launcher would write now. */
  lemma IntentIsCurrent(rows: seq<Event>, s: nat, epoch: int, host: string)
    requires History(rows) && HostedBy(rows, host) && s < |rows|
    requires rows[s].body.operationId == LauncherSpawn(epoch) && ActiveAt(AuthorityAfter(rows), epoch)
    ensures rows[s].body == IntentBody(host, epoch, AuthorityAfter(rows).value.binding)
  {
    HistoryAt(rows, s);
    BindingStable(rows, s);
  }

  lemma IntentReplays(rows: seq<Event>, epoch: int, host: string, recordedAt: string)
    requires Chain(rows) && History(rows) && DistinctIds(rows) && HostedBy(rows, host) && rows != []
    requires Intended(rows, epoch) && ActiveAt(AuthorityAfter(rows), epoch) && TextOk(recordedAt)
    ensures var verdict := Admit(rows, IntentBody(host, epoch, AuthorityAfter(rows).value.binding), recordedAt);
      if |rows| < MAX_EVENTS then verdict.Replay? else verdict.Reject?
  {
    var s :| 0 <= s < |rows| && rows[s].body.operationId == LauncherSpawn(epoch);
    IntentIsCurrent(rows, s, epoch, host);
    DuplicateFinds(rows, s);
    AuthorityEpochIsCurrent(rows);
    IntentFollows(rows, epoch, host, AuthorityAfter(rows).value.binding, recordedAt);
  }

  lemma IntentFollows(rows: seq<Event>, epoch: int, host: string, binding: string, recordedAt: string)
    requires Chain(rows) && rows != [] && TextOk(recordedAt)
    requires rows[|rows| - 1].body.host == host && rows[|rows| - 1].body.epoch == epoch
    ensures Follows(NextEvent(rows, IntentBody(host, epoch, binding), recordedAt), Last(rows)) <==> |rows| < MAX_EVENTS
  {
    LastRow(rows);
    IntentAfter(rows[|rows| - 1], binding, recordedAt);
  }

  lemma LastRow(rows: seq<Event>)
    requires Chain(rows) && rows != []
    ensures var last := rows[|rows| - 1]; last.sequence == |rows| && last.body.host != "" && last.body.epoch >= 1
  {
    ChainSequence(rows, |rows| - 1);
  }

  lemma IntentAfter(p: Event, binding: string, recordedAt: string)
    requires p.sequence >= 1 && p.body.host != "" && p.body.epoch >= 1 && TextOk(recordedAt)
    ensures Follows(Event(p.sequence + 1, Some(Sha(p)), IntentBody(p.body.host, p.body.epoch, binding), recordedAt), Some(p))
       <==> p.sequence < MAX_EVENTS
  {
  }

  /**
    In any state an orderly run can leave, with the intent already durable, the authority active at
    that epoch and the journal not full: the next launcher call reaches the runner again if and only
    if a blocked row is durable and no generation of the epoch is. It then changes nothing on disk,
    so the same holds for the call after it.
   */
  lemma BlockedReopensExactly(d: Disk, epoch: int, response: Response, io: Io, observeIo: Io)
    requires Sound(d) && Load(d).Ok? && Intended(Load(d).value.rows, epoch)
    requires ActiveAt(Load(d).value.Authority(), epoch) && |Load(d).value.rows| < MAX_EVENTS
    requires TextOk(io.recordedAt) && TextOk(observeIo.recordedAt)
    ensures LauncherSpawnCall(d, epoch, response, io, observeIo).called <==>
      BlockedOnce(Load(d).value.rows, epoch) && !HasSpawned(Load(d).value.rows, epoch)
    ensures LauncherSpawnCall(d, epoch, response, io, observeIo).disk == d
  {
    var rows, host := Load(d).value.rows, Load(d).value.host.value;
    HistoryOwned(rows);
    FenceExact(rows, epoch);
    AcceptedIsChain(d);
    IntentReplays(rows, epoch, host, io.recordedAt);
    var spawn := LauncherSpawnCall(d, epoch, response, io, observeIo);
    if spawn.called && !response.Raises? {
      var binding := Load(d).value.Authority().value.binding;
      var body := if response.Malformed? then BlockedBody(host, epoch, binding)
                  else ObservedBody(host, epoch, binding, response.generation);
      SecondObservation(rows, epoch, body, observeIo.recordedAt);
      CommitByVerdict(d, Load(d).value, body, observeIo);
    }
  }

  lemma SecondObservation(rows: seq<Event>, epoch: int, body: Body, recordedAt: string)
    requires BlockedOnce(rows, epoch) && body.operationId == LauncherObserve(epoch)
    ensures !Admit(rows, body, recordedAt).New?
  {
    DuplicateExact(rows, body);
  }

  /** So after one durable blocked row, while nobody records a generation, n launcher calls are n invocations of the runner. */
  lemma {:induction false} BlockedThenUnbounded(d: Disk, actions: seq<Action>, epoch: int)
    requires Sound(d) && Load(d).Ok? && Intended(Load(d).value.rows, epoch) && Reopened(Load(d).value.rows, epoch)
    requires ActiveAt(Load(d).value.Authority(), epoch) && |Load(d).value.rows| < MAX_EVENTS
    requires forall i :: 0 <= i < |actions| ==>
      actions[i].DoSpawn? && actions[i].epoch == epoch && TextOk(actions[i].io.recordedAt) && TextOk(actions[i].observeIo.recordedAt)
    ensures RunnerCalls(d, actions, epoch) == |actions|
    decreases |actions|
  {
    if actions != [] {
      var a := actions[0];
      BlockedReopensExactly(d, epoch, a.response, a.io, a.observeIo);
      BlockedThenUnbounded(d, actions[1..], epoch);
    }
  }

  /** A generation of the epoch on record closes it: whatever anybody does afterwards, no call reaches the runner. */
  lemma {:induction false} SpawnedClosesForGood(d: Disk, actions: seq<Action>, epoch: int)
    requires Load(d).Err? || HasSpawned(Load(d).value.rows, epoch)
    ensures RunnerCalls(d, actions, epoch) == 0
    decreases |actions|
  {
    if actions != [] {
      StepKeepsRows(d, actions[0]);
      if Load(d).Ok? && Load(Perform(d, actions[0])).Ok? {
        KeepsSpawned(Load(d).value.rows, Load(Perform(d, actions[0])).value.rows, epoch);
      }
      SpawnedClosesForGood(Perform(d, actions[0]), actions[1..], epoch);
    }
  }

  lemma KeepsSpawned(a: seq<Event>, b: seq<Event>, epoch: int)
    requires a <= b && HasSpawned(a, epoch)
    ensures HasSpawned(b, epoch)
  {
    var i :| 0 <= i < |a| && SpawnedAt(a[i], epoch);
    assert SpawnedAt(b[i], epoch);
  }

  /** The supervisor's row, once recorded under an active authority, is such a generation. */
  lemma SupervisorRecords(d: Disk, generation: string, io: Io, epoch: int)
    requires Load(d).Ok? && ActiveAt(Load(d).value.Authority(), epoch)
    requires var outcome := SuperviseSpawn(d, generation, io).1; outcome.Some? && (outcome.value.Appended? || outcome.value.Replayed?)
    ensures var after := Load(SuperviseSpawn(d, generation, io).0); after.Err? || HasSpawned(after.value.rows, epoch)
  {
    var rows := Load(d).value.rows;
    var body := SupervisorBody(rows, generation);
    CommitRows(d, body, io);
    if Commit(d, body, io).1.Replayed? {
      DuplicateExact(rows, body);
    } else if Load(Commit(d, body, io).0).Ok? {
      var e := NextEvent(rows, body, io.recordedAt);
      assert SpawnedAt((rows + [e])[|rows|], epoch);
    }
  }

  // A concrete run that reaches the blocked state.

  ghost predicate NoStaging(d: Disk) {
    forall name :: (name in d.control || name in d.events) ==> !name.Hidden?
  }

  /** A publication that is given all the steps it needs finishes and leaves no staging file. */
  lemma PublishCompletes(d: Disk, e: Event, io: Io)
    requires NoStaging(d) && io.budget >= 12 && e.sequence >= 0 && Sequenced(e.sequence) !in d.events
    requires Scan(d.events[Sequenced(e.sequence) := File(Some(EventRaw(e)), 1)]).Ok?
    ensures PublishEvent(d, e, io).1 == Appended(e) && NoStaging(PublishEvent(d, e, io).0)
  {
  }

  /** A commit that is given all the steps it needs finishes. */
  lemma CommitFinishes(d: Disk, loaded: Loaded, body: Body, io: Io)
    requires Load(d) == Ok(loaded) && NoStaging(d) && io.budget >= 12
    requires Admit(loaded.rows, body, io.recordedAt).New? && HeaderHost(loaded, body) == body.host
    ensures var e := NextEvent(loaded.rows, body, io.recordedAt);
      && Commit(d, body, io).1 == Appended(e)
      && NoStaging(Commit(d, body, io).0)
      && Load(Commit(d, body, io).0) == Ok(Loaded(Some(body.host), loaded.rows + [e]))
  {
    var e := NextEvent(loaded.rows, body, io.recordedAt);
    AdmittedFollows(d, body, io.recordedAt);
    NextNameFree(d.events, loaded.rows);
    PublishedExtends(d.events, loaded.rows, e);
    PublishCompletes(d, e, io);
    PublishCutExact(d, loaded, e, io);
    CommitNew(d, loaded, body, io);
  }

  lemma CommitNew(d: Disk, loaded: Loaded, body: Body, io: Io)
    requires Load(d) == Ok(loaded) && Admit(loaded.rows, body, io.recordedAt).New?
    ensures Commit(d, body, io) == PublishEvent(d, NextEvent(loaded.rows, body, io.recordedAt), io)
  {
  }

  lemma MalformedWrites(d: Disk, loaded: Loaded, epoch: int, io: Io)
    requires Load(d) == Ok(loaded) && NoStaging(d) && io.budget >= 12 && loaded.host.Some?
    requires ActiveAt(AuthorityAfter(loaded.rows), epoch) && !Fenced(loaded.rows, epoch)
    requires Admit(loaded.rows, IntentBody(loaded.host.value, epoch, AuthorityAfter(loaded.rows).value.binding), io.recordedAt).New?
    requires var intent := NextEvent(loaded.rows, IntentBody(loaded.host.value, epoch, AuthorityAfter(loaded.rows).value.binding), io.recordedAt);
      Admit(loaded.rows + [intent], BlockedBody(loaded.host.value, epoch, AuthorityAfter(loaded.rows).value.binding), io.recordedAt).New?
    ensures var spawn := LauncherSpawnCall(d, epoch, Malformed, io, io);
      var host, binding := loaded.host.value, AuthorityAfter(loaded.rows).value.binding;
      var intent := NextEvent(loaded.rows, IntentBody(host, epoch, binding), io.recordedAt);
      var blocked := NextEvent(loaded.rows + [intent], BlockedBody(host, epoch, binding), io.recordedAt);
      && spawn.called && NoStaging(spawn.disk)
      && Load(spawn.disk) == Ok(Loaded(Some(host), loaded.rows + [intent] + [blocked]))
  {
    var host, binding := loaded.host.value, AuthorityAfter(loaded.rows).value.binding;
    CommitFinishes(d, loaded, IntentBody(host, epoch, binding), io);
    var d1 := Commit(d, IntentBody(host, epoch, binding), io).0;
    var rows1 := loaded.rows + [NextEvent(loaded.rows, IntentBody(host, epoch, binding), io.recordedAt)];
    CommitFinishes(d1, Loaded(Some(host), rows1), BlockedBody(host, epoch, binding), io);
  }

  /** The row is no supervisor's. */
  predicate OwnId(row: Event) {
    !row.body.operationId.Operation? && row.body.eventId == PhaseOf(row.body.operationId, row.body.after)
  }

  /** A launcher call that gets a malformed answer and all the steps it needs leaves both its rows. */
  lemma MalformedCall(d: Disk, loaded: Loaded, epoch: int, io: Io)
    requires Load(d) == Ok(loaded) && NoStaging(d) && io.budget >= 12 && loaded.host.Some?
    requires ActiveAt(AuthorityAfter(loaded.rows), epoch) && !Fenced(loaded.rows, epoch)
    requires Admit(loaded.rows, IntentBody(loaded.host.value, epoch, AuthorityAfter(loaded.rows).value.binding), io.recordedAt).New?
    requires var intent := NextEvent(loaded.rows, IntentBody(loaded.host.value, epoch, AuthorityAfter(loaded.rows).value.binding), io.recordedAt);
      Admit(loaded.rows + [intent], BlockedBody(loaded.host.value, epoch, AuthorityAfter(loaded.rows).value.binding), io.recordedAt).New?
    requires forall row <- loaded.rows :: OwnId(row)
    ensures var spawn := LauncherSpawnCall(d, epoch, Malformed, io, io);
      && spawn.called && NoStaging(spawn.disk) && Load(spawn.disk).Ok?
      && var rows := Load(spawn.disk).value.rows;
      && |rows| == |loaded.rows| + 2 && Intended(rows, epoch) && Reopened(rows, epoch) && AuthorityAfter(rows) == AuthorityAfter(loaded.rows)
      && forall row <- rows :: OwnId(row)
  {
    var host, binding := loaded.host.value, AuthorityAfter(loaded.rows).value.binding;
    var intent := NextEvent(loaded.rows, IntentBody(host, epoch, binding), io.recordedAt);
    MalformedWrites(d, loaded, epoch, io);
    MalformedRows(loaded.rows, intent, NextEvent(loaded.rows + [intent], BlockedBody(host, epoch, binding), io.recordedAt), epoch);
  }

  lemma MalformedRows(rows: seq<Event>, intent: Event, blocked: Event, epoch: int)
    requires intent.body.operationId == LauncherSpawn(epoch) && blocked.body.operationId == LauncherObserve(epoch)
    requires intent.body.kind.SpawnIntent? && blocked.body.kind.SpawnBlocked? && !HasSpawned(rows, epoch)
    ensures var all := rows + [intent] + [blocked];
      Intended(all, epoch) && Reopened(all, epoch) && AuthorityAfter(all) == AuthorityAfter(rows)
  {
    var all := rows + [intent] + [blocked];
    ProjectLast(rows, intent);
    ProjectLast(rows + [intent], blocked);
    OperationAt(all, |rows|);
    assert all[|rows| + 1] == blocked;
  }

  lemma OperationAt(rows: seq<Event>, i: nat)
    requires i < |rows|
    ensures HasOperation(rows, rows[i].body.operationId)
  {
  }

  const EXAMPLE_IO := Io(0, 0, 0, "2026-01-01T00:00:00+00:00", 12, true)

  lemma ActivatedRows(body: Body, at: string)
    requires body.kind.AuthorityActivated? && body.effect.None?
    ensures var rows := [NextEvent([], body, at)];
      AuthorityAfter(rows) == Some(Authority(true, body.epoch, body.approval, body.binding)) && Project(rows).pending == []
  {
    ProjectLast([], NextEvent([], body, at));
    assert [] + [NextEvent([], body, at)] == [NextEvent([], body, at)];
  }

  /** Activate epoch 1, get a malformed answer once, then call the launcher n more times: n + 1 invocations. */
  lemma BlockedRunExample(accepted: Completion, approval: Approval, more: seq<Action>)
    requires approval.approves && |accepted.digest| == 64 && approval.completion == accepted.digest
    requires approval.id != accepted.s4Approval && accepted.epoch == 1
    requires forall i :: 0 <= i < |more| ==>
      more[i].DoSpawn? && more[i].epoch == 1 && TextOk(more[i].io.recordedAt) && TextOk(more[i].observeIo.recordedAt)
    ensures RunnerCalls(FRESH, [DoActivate(accepted, approval, EXAMPLE_IO), DoSpawn(1, Malformed, EXAMPLE_IO, EXAMPLE_IO)] + more, 1)
         == |more| + 1
  {
    var activate, spawn := DoActivate(accepted, approval, EXAMPLE_IO), DoSpawn(1, Malformed, EXAMPLE_IO, EXAMPLE_IO);
    ActivateFresh(accepted, approval);
    BlockedAfterActivation(Perform(FRESH, activate), ActivationBody(accepted, approval));
    BlockedThenMore(Perform(FRESH, activate), spawn, more);
    CountTwo(FRESH, activate, spawn, more, 1);
  }

  /** The same, when a supervisor then records a generation: the n later calls all stop at the fence. */
  lemma SupervisedRunExample(accepted: Completion, approval: Approval, generation: string, more: seq<Action>)
    requires approval.approves && |accepted.digest| == 64 && approval.completion == accepted.digest
    requires approval.id != accepted.s4Approval && accepted.epoch == 1
    ensures var blocked := [DoActivate(accepted, approval, EXAMPLE_IO), DoSpawn(1, Malformed, EXAMPLE_IO, EXAMPLE_IO)];
      RunnerCalls(FRESH, blocked + ([DoSupervise(generation, EXAMPLE_IO)] + more), 1) == 1
  {
    var activate, spawn := DoActivate(accepted, approval, EXAMPLE_IO), DoSpawn(1, Malformed, EXAMPLE_IO, EXAMPLE_IO);
    ActivateFresh(accepted, approval);
    var d := Perform(FRESH, activate);
    BlockedAfterActivation(d, ActivationBody(accepted, approval));
    GenerationNew(Load(Perform(d, spawn)).value.rows, generation);
    SupervisorCloses(Perform(d, spawn), generation, EXAMPLE_IO, more, 1);
    CountTwo(FRESH, activate, spawn, [DoSupervise(generation, EXAMPLE_IO)] + more, 1);
  }

  /**
    Wherever the fence is down again, a supervisor that gets all the steps it needs, and whose
    generation is new, puts it up for good.
   */
  lemma SupervisorCloses(d: Disk, generation: string, io: Io, more: seq<Action>, epoch: int)
    requires Load(d).Ok? && NoStaging(d) && io.budget >= 12 && TextOk(io.recordedAt)
    requires ActiveAt(Load(d).value.Authority(), epoch) && |Load(d).value.rows| < MAX_EVENTS
    requires Load(d).value.rows != [] && Duplicate(Load(d).value.rows, SupervisorBody(Load(d).value.rows, generation)).New?
    ensures RunnerCalls(d, [DoSupervise(generation, io)] + more, epoch) == 0
  {
    var rows, loaded := Load(d).value.rows, Load(d).value;
    SupervisorAdmitted(d, generation, io.recordedAt, epoch);
    CommitFinishes(d, loaded, SupervisorBody(rows, generation), io);
    SupervisorRecords(d, generation, io, epoch);
    SpawnedClosesForGood(Perform(d, DoSupervise(generation, io)), more, epoch);
    assert ([DoSupervise(generation, io)] + more)[1..] == more;
  }

  lemma SupervisorAdmitted(d: Disk, generation: string, recordedAt: string, epoch: int)
    requires Load(d).Ok? && TextOk(recordedAt)
    requires ActiveAt(Load(d).value.Authority(), epoch) && |Load(d).value.rows| < MAX_EVENTS
    requires Load(d).value.rows != [] && Duplicate(Load(d).value.rows, SupervisorBody(Load(d).value.rows, generation)).New?
    ensures var rows := Load(d).value.rows;
      Admit(rows, SupervisorBody(rows, generation), recordedAt).New? && Format in d.control
      && HeaderHost(Load(d).value, SupervisorBody(rows, generation)) == SupervisorBody(rows, generation).host
  {
    var rows := Load(d).value.rows;
    AcceptedIsChain(d);
    AuthorityEpochIsCurrent(rows);
    LastRow(rows);
    SupervisorFollows(rows[|rows| - 1], SupervisorBody(rows, generation), recordedAt);
  }

  lemma GenerationNew(rows: seq<Event>, generation: string)
    requires rows != [] && forall row <- rows :: OwnId(row)
    ensures Duplicate(rows, SupervisorBody(rows, generation)).New?
  {
    forall i | 0 <= i < |rows| ensures !rows[i].body.operationId.Operation? && rows[i].body.eventId != SupervisorBody(rows, generation).eventId {
      assert OwnId(rows[i]);
    }
    DuplicateExact(rows, SupervisorBody(rows, generation));
  }

  lemma SupervisorFollows(p: Event, body: Body, recordedAt: string)
    requires 1 <= p.sequence < MAX_EVENTS && p.body.host != "" && p.body.epoch >= 1 && TextOk(recordedAt)
    requires body.host == p.body.host && body.epoch == p.body.epoch && body.expectedEpoch == Some(p.body.epoch)
    requires body.before == "active" && body.after == "running"
    ensures Follows(Event(p.sequence + 1, Some(Sha(p)), body, recordedAt), Some(p))
  {
  }

  ghost predicate OpenAgain(d: Disk) {
    && Load(d).Ok? && |Load(d).value.rows| < MAX_EVENTS && NoStaging(d) && (forall row <- Load(d).value.rows :: OwnId(row))
    && Intended(Load(d).value.rows, 1) && Reopened(Load(d).value.rows, 1) && ActiveAt(Load(d).value.Authority(), 1)
  }

  lemma BlockedThenMore(d: Disk, spawn: Action, more: seq<Action>)
    requires Sound(d) && spawn.DoSpawn? && OpenAgain(Perform(d, spawn))
    requires forall i :: 0 <= i < |more| ==>
      more[i].DoSpawn? && more[i].epoch == 1 && TextOk(more[i].io.recordedAt) && TextOk(more[i].observeIo.recordedAt)
    ensures RunnerCalls(Perform(d, spawn), more, 1) == |more|
  {
    SoundStep(d, spawn);
    BlockedThenUnbounded(Perform(d, spawn), more, 1);
  }

  lemma BlockedAfterActivation(d: Disk, body: Body)
    requires d == Commit(FRESH, body, EXAMPLE_IO).0
    requires body.kind.AuthorityActivated? && body.effect.None? && body.host != "" && body.epoch == 1
    requires TextOk(body.before) && TextOk(body.after)
    requires body.operationId.Activation? && body.eventId == PhaseOf(body.operationId, body.after)
    ensures var spawn := DoSpawn(1, Malformed, EXAMPLE_IO, EXAMPLE_IO);
      CallsRunner(d, spawn, 1) && OpenAgain(Perform(d, spawn))
  {
    FirstActivation(body);
    ActivatedRows(body, EXAMPLE_IO.recordedAt);
    SecondAndThird(body);
    MalformedCall(d, Loaded(Some(body.host), [NextEvent([], body, EXAMPLE_IO.recordedAt)]), 1, EXAMPLE_IO);
  }

  lemma ActivateFresh(accepted: Completion, approval: Approval)
    requires approval.approves && |accepted.digest| == 64 && approval.completion == accepted.digest
    requires approval.id != accepted.s4Approval
    ensures var activate := DoActivate(accepted, approval, EXAMPLE_IO);
      Perform(FRESH, activate) == Commit(FRESH, ActivationBody(accepted, approval), EXAMPLE_IO).0 && Sound(Perform(FRESH, activate))
  {
    SoundStep(FRESH, DoActivate(accepted, approval, EXAMPLE_IO));
  }

  lemma CountTwo(d: Disk, a: Action, b: Action, more: seq<Action>, epoch: int)
    ensures RunnerCalls(d, [a, b] + more, epoch)
         == (if CallsRunner(d, a, epoch) then 1 else 0) + (if CallsRunner(Perform(d, a), b, epoch) then 1 else 0)
            + RunnerCalls(Perform(Perform(d, a), b), more, epoch)
  {
    var all := [a, b] + more;
    assert all[1..] == [b] + more && all[1..][1..] == more;
  }

  lemma FirstActivation(body: Body)
    requires body.host != "" && body.epoch == 1 && TextOk(body.before) && TextOk(body.after)
    ensures var d1 := Commit(FRESH, body, EXAMPLE_IO).0;
      NoStaging(d1) && Load(d1) == Ok(Loaded(Some(body.host), [NextEvent([], body, EXAMPLE_IO.recordedAt)]))
  {
    CommitFinishes(FRESH, Loaded(None, []), body, EXAMPLE_IO);
    assert [] + [NextEvent([], body, EXAMPLE_IO.recordedAt)] == [NextEvent([], body, EXAMPLE_IO.recordedAt)];
  }

  lemma SecondAndThird(body: Body)
    requires body.host != "" && body.epoch == 1 && body.operationId.Activation? && body.eventId == PhaseOf(body.operationId, body.after)
    ensures var at := EXAMPLE_IO.recordedAt;
      var rows := [NextEvent([], body, at)];
      var intent := NextEvent(rows, IntentBody(body.host, 1, body.binding), at);
      && Admit(rows, IntentBody(body.host, 1, body.binding), at).New?
      && Admit(rows + [intent], BlockedBody(body.host, 1, body.binding), at).New?
  {
    var at := EXAMPLE_IO.recordedAt;
    var rows := [NextEvent([], body, at)];
    DuplicateExact(rows, IntentBody(body.host, 1, body.binding));
    var more := rows + [NextEvent(rows, IntentBody(body.host, 1, body.binding), at)];
    DuplicateExact(more, BlockedBody(body.host, 1, body.binding));
  }
}
