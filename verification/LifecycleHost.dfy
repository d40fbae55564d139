/** Activation, suspension and the launcher as they change the stored journal, one file step at a time. */
module LifecycleHost {
  import opened Basics
  import opened Journal
  import opened JournalStore
  import opened Lifecycle

  /** The loop of scripts/upgrade_lifecycle.py:52 over the loaded rows. */
  method FindActivation(rows: seq<Event>, approval: Approval, epoch: int) returns (found: bool)
    ensures found <==> exists i :: 0 <= i < |rows| && ActivatedBy(rows[i], approval, epoch)
  {
    var i := 0;
    while i < |rows|
      invariant 0 <= i <= |rows|
      invariant forall k :: 0 <= k < i ==> !ActivatedBy(rows[k], approval, epoch)
    {
      if ActivatedBy(rows[i], approval, epoch) { return true; }
      i := i + 1;
    }
    return false;
  }

  method CurrentAuthority(loaded: Loaded) returns (authority: Option<Authority>)
    ensures authority == loaded.Authority()
  {
    var current := ProjectRows(loaded.rows);
    return current.authority;
  }

  /** scripts/upgrade_lifecycle.py:40 */
  method ActivateDurable(store: Store, accepted: Completion, approval: Approval, io: Io)
    returns (result: Result<Option<Authority>, Error>)
    requires store.Valid()
    modifies store.control, store.events
    ensures (store.OnDisk(), result) == Activate(old(store.OnDisk()), accepted, approval, io)
  {
    if !approval.approves { return Err(ApprovalInvalid); }
    if approval.id == accepted.s4Approval { return Err(ApprovalReused); }
    if approval.completion != accepted.digest || |accepted.digest| != 64 { return Err(CompletionMismatch); }
    var loaded := store.LoadVerified();
    if loaded.Err? { return Err(loaded.error); }
    var current := CurrentAuthority(loaded.value);
    var found := FindActivation(loaded.value.rows, approval, accepted.epoch);
    if found { return Ok(current); }
    if current.Some? && (current.value.active || accepted.epoch <= current.value.epoch) {
      return Err(AuthorityAlreadyBound);
    }
    var outcome := store.CommitEvent(ActivationBody(accepted, approval), io);
    return AuthorityOf(loaded.value.rows, outcome);
  }

  /** scripts/upgrade_lifecycle.py:101 */
  method SuspendDurable(store: Store, epoch: int, io: Io) returns (result: Result<Option<Authority>, Error>)
    requires store.Valid()
    modifies store.control, store.events
    ensures (store.OnDisk(), result) == Suspend(old(store.OnDisk()), epoch, io)
  {
    var loaded := store.LoadVerified();
    if loaded.Err? { return Err(loaded.error); }
    var current := CurrentAuthority(loaded.value);
    var rows := loaded.value.rows;
    if !ActiveAt(current, epoch) || rows == [] { return Err(AuthorityNotActive); }
    var outcome := store.CommitEvent(SuspensionBody(rows[|rows| - 1].body.host, epoch, current.value.binding), io);
    return AuthorityOf(rows, outcome);
  }

  method FindGeneration(rows: seq<Event>, epoch: int) returns (found: bool)
    ensures found <==> HasSpawned(rows, epoch)
  {
    var i := 0;
    while i < |rows|
      invariant 0 <= i <= |rows|
      invariant forall k :: 0 <= k < i ==> !SpawnedAt(rows[k], epoch)
    {
      if SpawnedAt(rows[i], epoch) { return true; }
      i := i + 1;
    }
    return false;
  }

  /** The intent is committed before the runner is reached, and its answer after. */
  method RunAndObserve(store: Store, host: string, epoch: int, binding: string, response: Response, io: Io)
    returns (outcome: Outcome)
    requires store.Valid()
    modifies store.control, store.events
    ensures response.Raises? ==> store.OnDisk() == old(store.OnDisk()) && outcome == Refused(ObservationUnknown)
    ensures response.Malformed? ==>
      store.OnDisk() == Commit(old(store.OnDisk()), BlockedBody(host, epoch, binding), io).0
      && outcome == Refused(ObservationUnknown)
    ensures response.Running? ==>
      (store.OnDisk(), outcome) == Commit(old(store.OnDisk()), ObservedBody(host, epoch, binding, response.generation), io)
  {
    match response {
      case Raises => return Refused(ObservationUnknown);
      case Malformed =>
        var _ := store.CommitEvent(BlockedBody(host, epoch, binding), io);
        return Refused(ObservationUnknown);
      case Running(generation) =>
        outcome := store.CommitEvent(ObservedBody(host, epoch, binding, generation), io);
    }
  }

  /** scripts/upgrade_recovery.py:514 */
  method LaunchOnce(store: Store, epoch: int, response: Response, intentIo: Io, observeIo: Io)
    returns (called: bool, outcome: Outcome)
    requires store.Valid()
    modifies store.control, store.events
    ensures Spawn(store.OnDisk(), called, outcome) ==
      LauncherSpawnCall(old(store.OnDisk()), epoch, response, intentIo, observeIo)
  {
    var loaded := store.LoadVerified();
    if loaded.Err? { return false, Refused(loaded.error); }
    var current := CurrentAuthority(loaded.value);
    if !ActiveAt(current, epoch) || loaded.value.host.None? { return false, Refused(RestartFenced); }
    var projection := ProjectRows(loaded.value.rows);
    var spawned := FindGeneration(loaded.value.rows, epoch);
    if SpawnEffect(epoch) in projection.pending || spawned { return false, Refused(OneshotConsumed); }
    var host, binding := loaded.value.host.value, current.value.binding;
    var intent := store.CommitEvent(IntentBody(host, epoch, binding), intentIo);
    if !intent.Appended? && !intent.Replayed? { return false, intent; }
    outcome := RunAndObserve(store, host, epoch, binding, response, observeIo);
    called := true;
  }

  /** scripts/ags-runtime.py:321-339 */
  method RecordSpawn(store: Store, generation: string, io: Io) returns (outcome: Option<Outcome>)
    requires store.Valid()
    modifies store.control, store.events
    ensures (store.OnDisk(), outcome) == SuperviseSpawn(old(store.OnDisk()), generation, io)
  {
    if Format !in store.control.entries { return None; }
    var loaded := store.LoadVerified();
    if loaded.Err? { return Some(Refused(loaded.error)); }
    var rows := loaded.value.rows;
    if rows == [] { return Some(Refused(HostMismatch)); }
    var current := CurrentAuthority(loaded.value);
    var epoch, expected := 1, None;
    if current.Some? && current.value.active { epoch, expected := current.value.epoch, Some(current.value.epoch); }
    assert (epoch, expected) == SupervisorEpoch(rows);
    var written := store.CommitEvent(SupervisorBody(rows, generation), io);
    return Some(written);
  }
}
