/**
  Launcher calls that overlap. The state lock is held for one commit at a time and not while a call
  decides, so between the fence and the intent of one call anybody else may commit.
 */
module LauncherRaces {
  import opened Basics
  import opened Journal
  import opened JournalTheorems
  import opened JournalRuns
  import opened Lifecycle
  import opened LifecycleTheorems

  /** Where a call is: not running, past the fence with what it read there, or at the runner. */
  datatype Caller = Away | Cleared(epoch: int, host: string, binding: string) | AtRunner(epoch: int, host: string, binding: string)

  datatype World = World(disk: Disk, callers: seq<Caller>)

  datatype Move =
    | Clears(caller: nat, epoch: int)
    | WritesIntent(caller: nat, io: Io)
    | Observes(caller: nat, response: Response, io: Io)
    | Dies(caller: nat)
    | Others(body: Body, io: Io)

  /** scripts/upgrade_recovery.py:520-531: what a call that loads now decides. */
  function Clear(d: Disk, epoch: int): Caller {
    var loaded := Load(d);
    if loaded.Err? then Away
    else
      var authority := loaded.value.Authority();
      if !ActiveAt(authority, epoch) || loaded.value.host.None? || Fenced(loaded.value.rows, epoch) then Away
      else Cleared(epoch, loaded.value.host.value, authority.value.binding)
  }

  /** scripts/upgrade_recovery.py:541-553 */
  function Observed(d: Disk, c: Caller, response: Response, io: Io): Disk
    requires c.AtRunner?
  {
    match response
    case Raises => d
    case Malformed => Commit(d, BlockedBody(c.host, c.epoch, c.binding), io).0
    case Running(generation) => Commit(d, ObservedBody(c.host, c.epoch, c.binding, generation), io).0
  }

  predicate Passes(outcome: Outcome) {
    outcome.Appended? || outcome.Replayed?
  }

  /** One move of one process; a move that is not its turn changes nothing. */
  function Moved(w: World, m: Move): World {
    if m.Others? then w.(disk := Commit(w.disk, m.body, m.io).0)
    else if m.caller >= |w.callers| then w
    else
      var c := w.callers[m.caller];
      match m
      case Clears(i, epoch) => if c.Away? then w.(callers := w.callers[i := Clear(w.disk, epoch)]) else w
      case WritesIntent(i, io) =>
        if !c.Cleared? then w
        else
          var (d, outcome) := Commit(w.disk, IntentBody(c.host, c.epoch, c.binding), io);
          World(d, w.callers[i := if Passes(outcome) then AtRunner(c.epoch, c.host, c.binding) else Away])
      case Observes(i, response, io) =>
        if !c.AtRunner? then w else World(Observed(w.disk, c, response, io), w.callers[i := Away])
      case Dies(i) => w.(callers := w.callers[i := Away])
      case Others(_, _) => w
  }

  function MovedAll(w: World, moves: seq<Move>): World
    decreases |moves|
  {
    if moves == [] then w else MovedAll(Moved(w, moves[0]), moves[1..])
  }

  /** Three moves of a call that nobody disturbs are the call. */
  lemma AloneIsCall(d: Disk, epoch: int, response: Response, io: Io, observeIo: Io)
    ensures var spawn := LauncherSpawnCall(d, epoch, response, io, observeIo);
      var atRunner := MovedAll(World(d, [Away]), [Clears(0, epoch), WritesIntent(0, io)]);
      && |atRunner.callers| == 1 && spawn.called == atRunner.callers[0].AtRunner?
      && MovedAll(atRunner, [Observes(0, response, observeIo)]).disk == spawn.disk
  {
    var w := World(d, [Away]);
    var w1 := Moved(w, Clears(0, epoch));
    assert [Clears(0, epoch), WritesIntent(0, io)][1..] == [WritesIntent(0, io)] && [WritesIntent(0, io)][1..] == [];
    assert MovedAll(w, [Clears(0, epoch), WritesIntent(0, io)]) == MovedAll(w1, [WritesIntent(0, io)]);
    var w2 := Moved(w1, WritesIntent(0, io));
    assert MovedAll(w1, [WritesIntent(0, io)]) == MovedAll(w2, []) == w2;
    assert [Observes(0, response, observeIo)][1..] == [];
    assert MovedAll(w2, [Observes(0, response, observeIo)]) == MovedAll(Moved(w2, Observes(0, response, observeIo)), []);
  }

  // ---------------------------------------------------------------- counting

  datatype Count = EarlyPasses | ReopenedPasses | RunnerCalls

  /**
    A pass of the fence while no intent of the epoch is durable, a pass while the fence is down again
    although one is, and a call that reaches the runner.
   */
  ghost predicate Counts(count: Count, w: World, m: Move, epoch: int) {
    match count
    case EarlyPasses => PassesFence(w, m, epoch) && !Intended(Load(w.disk).value.rows, epoch)
    case ReopenedPasses => PassesFence(w, m, epoch) && Intended(Load(w.disk).value.rows, epoch) && Reopened(Load(w.disk).value.rows, epoch)
    case RunnerCalls => ReachesRunner(w, m, epoch)
  }

  predicate PassesFence(w: World, m: Move, epoch: int)
    ensures PassesFence(w, m, epoch) ==> Load(w.disk).Ok?
  {
    m.Clears? && m.epoch == epoch && m.caller < |w.callers| && w.callers[m.caller].Away? && Clear(w.disk, epoch).Cleared?
  }

  predicate ReachesRunner(w: World, m: Move, epoch: int) {
    m.WritesIntent? && m.caller < |w.callers| && w.callers[m.caller].Cleared? && w.callers[m.caller].epoch == epoch
    && Moved(w, m).callers[m.caller].AtRunner?
  }

  ghost function Counted(count: Count, w: World, moves: seq<Move>, epoch: int): nat
    decreases |moves|
  {
    if moves == [] then 0
    else (if Counts(count, w, moves[0], epoch) then 1 else 0) + Counted(count, Moved(w, moves[0]), moves[1..], epoch)
  }

  /** Calls that are past the fence of the epoch and have yet to write their intent. */
  function Waiting(callers: seq<Caller>, epoch: int): nat {
    if callers == [] then 0
    else Waiting(callers[..|callers| - 1], epoch) + if WaitsAt(callers[|callers| - 1], epoch) then 1 else 0
  }

  predicate WaitsAt(c: Caller, epoch: int) {
    c.Cleared? && c.epoch == epoch
  }

  lemma {:induction false} WaitingUpdate(callers: seq<Caller>, i: nat, c: Caller, epoch: int)
    requires i < |callers|
    ensures Waiting(callers[i := c], epoch) + (if WaitsAt(callers[i], epoch) then 1 else 0)
         == Waiting(callers, epoch) + (if WaitsAt(c, epoch) then 1 else 0)
    decreases |callers|
  {
    var n := |callers| - 1;
    if i < n {
      WaitingUpdate(callers[..n], i, c, epoch);
      assert callers[i := c][..n] == callers[..n][i := c];
    } else {
      assert callers[i := c][..n] == callers[..n];
    }
  }

  // ---------------------------------------------------------------- what every interleaving keeps

  /** What somebody else may commit: any lifecycle row, decided whenever, or a row of his own. */
  predicate ByOthers(b: Body) {
    match b.operationId
    case Activation(_) => b.kind.AuthorityActivated? && b.effect.None?
    case Suspension(_) => b.kind.AuthoritySuspended? && b.effect.None?
    case Operation(_) => Unrelated(b)
    case _ => false
  }

  predicate Allowed(m: Move) {
    m.Others? ==> ByOthers(m.body)
  }

  ghost predicate OwnedDisk(d: Disk) {
    Load(d).Ok? ==> Owned(Load(d).value.rows) && DistinctIds(Load(d).value.rows)
  }

  /** A call at the runner has its intent on disk. */
  ghost predicate Sane(w: World) {
    && OwnedDisk(w.disk)
    && forall c <- w.callers :: c.AtRunner? && Load(w.disk).Ok? ==> Intended(Load(w.disk).value.rows, c.epoch)
  }

  lemma OwnedGrows(rows: seq<Event>, e: Event)
    requires Owned(rows) && RowOwned(rows, e.body)
    ensures Owned(rows + [e])
  {
    assert (rows + [e])[..|rows|] == rows;
  }

  lemma OwnedCommit(d: Disk, body: Body, io: Io)
    requires OwnedDisk(d) && (Load(d).Ok? ==> RowOwned(Load(d).value.rows, body))
    ensures OwnedDisk(Commit(d, body, io).0)
  {
    CommitRows(d, body, io);
    if Load(d).Ok? && Load(Commit(d, body, io).0).Ok? {
      var rows := Load(d).value.rows;
      if Load(Commit(d, body, io).0).value.rows != rows {
        var e := NextEvent(rows, body, io.recordedAt);
        OwnedGrows(rows, e);
        NewKeepsDistinct(rows, e);
      }
    }
  }

  lemma CommitKeepsIntents(d: Disk, body: Body, io: Io, epoch: int)
    requires Load(d).Ok? ==> Intended(Load(d).value.rows, epoch)
    ensures Load(Commit(d, body, io).0).Ok? ==> Intended(Load(Commit(d, body, io).0).value.rows, epoch)
  {
    CommitRows(d, body, io);
    if Load(d).Ok? && Load(Commit(d, body, io).0).Ok? {
      KeepsOperation(Load(d).value.rows, Load(Commit(d, body, io).0).value.rows, LauncherSpawn(epoch));
    }
  }

  /** Callers that were at the runner before a commit still have their intents after it. */
  lemma CommitKeepsSane(w: World, body: Body, io: Io)
    requires Sane(w) && (Load(w.disk).Ok? ==> RowOwned(Load(w.disk).value.rows, body))
    ensures Sane(w.(disk := Commit(w.disk, body, io).0))
  {
    OwnedCommit(w.disk, body, io);
    forall c <- w.callers | c.AtRunner? && Load(Commit(w.disk, body, io).0).Ok?
      ensures Intended(Load(Commit(w.disk, body, io).0).value.rows, c.epoch)
    {
      CommitKeepsIntents(w.disk, body, io, c.epoch);
    }
  }

  lemma CallerKeepsSane(w: World, i: nat, c: Caller)
    requires Sane(w) && i < |w.callers|
    requires c.AtRunner? && Load(w.disk).Ok? ==> Intended(Load(w.disk).value.rows, c.epoch)
    ensures Sane(w.(callers := w.callers[i := c]))
  {
  }

  lemma IntentKeepsSane(w: World, i: nat, io: Io)
    requires Sane(w) && i < |w.callers| && w.callers[i].Cleared?
    ensures Sane(Moved(w, WritesIntent(i, io)))
  {
    var c := w.callers[i];
    var body := IntentBody(c.host, c.epoch, c.binding);
    CommitKeepsSane(w, body, io);
    if Passes(Commit(w.disk, body, io).1) { IntentRecorded(w.disk, body, io); }
    var d := Commit(w.disk, body, io).0;
    CallerKeepsSane(w.(disk := d), i, if Passes(Commit(w.disk, body, io).1) then AtRunner(c.epoch, c.host, c.binding) else Away);
  }

  lemma ObservationKeepsSane(w: World, i: nat, response: Response, io: Io)
    requires Sane(w) && i < |w.callers| && w.callers[i].AtRunner?
    ensures Sane(Moved(w, Observes(i, response, io)))
  {
    var c := w.callers[i];
    assert c in w.callers;
    match response
    case Raises =>
    case Malformed => CommitKeepsSane(w, BlockedBody(c.host, c.epoch, c.binding), io);
    case Running(generation) => CommitKeepsSane(w, ObservedBody(c.host, c.epoch, c.binding, generation), io);
    CallerKeepsSane(w.(disk := Observed(w.disk, c, response, io)), i, Away);
  }

  lemma MoveKeepsSane(w: World, m: Move)
    requires Sane(w) && Allowed(m)
    ensures Sane(Moved(w, m))
  {
    if m.Others? {
      CommitKeepsSane(w, m.body, m.io);
    } else if m.caller < |w.callers| {
      match m
      case Clears(i, epoch) => CallerKeepsSane(w, i, Clear(w.disk, epoch));
      case WritesIntent(i, io) => if w.callers[i].Cleared? { IntentKeepsSane(w, i, io); }
      case Observes(i, response, io) => if w.callers[i].AtRunner? { ObservationKeepsSane(w, i, response, io); }
      case Dies(i) => CallerKeepsSane(w, i, Away);
    }
  }

  // ---------------------------------------------------------------- how often the runner is reached

  /** A pass of the fence counts: either no intent is durable, or the fence is down again. */
  lemma PassCounts(w: World, m: Move, epoch: int)
    requires Sane(w) && PassesFence(w, m, epoch)
    ensures Counts(EarlyPasses, w, m, epoch) || Counts(ReopenedPasses, w, m, epoch)
  {
    var rows := Load(w.disk).value.rows;
    if Intended(rows, epoch) { FenceExact(rows, epoch); }
  }

  lemma MoveCounts(w: World, m: Move, epoch: int)
    requires Sane(w)
    ensures (if Counts(RunnerCalls, w, m, epoch) then 1 else 0) + Waiting(Moved(w, m).callers, epoch)
         <= Waiting(w.callers, epoch) + (if Counts(EarlyPasses, w, m, epoch) then 1 else 0)
            + (if Counts(ReopenedPasses, w, m, epoch) then 1 else 0)
  {
    if PassesFence(w, m, epoch) { PassCounts(w, m, epoch); }
    if !m.Others? && m.caller < |w.callers| {
      var i := m.caller;
      var after := Moved(w, m).callers;
      WaitingUpdate(w.callers, i, after[i], epoch);
      assert after == w.callers[i := after[i]];
    }
  }

  lemma {:induction false} RacesCounted(w: World, moves: seq<Move>, epoch: int)
    requires Sane(w) && forall m <- moves :: Allowed(m)
    ensures Counted(RunnerCalls, w, moves, epoch) + Waiting(MovedAll(w, moves).callers, epoch)
         <= Waiting(w.callers, epoch) + Counted(EarlyPasses, w, moves, epoch) + Counted(ReopenedPasses, w, moves, epoch)
    decreases |moves|
  {
    if moves != [] {
      assert moves[0] in moves;
      MoveKeepsSane(w, moves[0]);
      MoveCounts(w, moves[0], epoch);
      RacesCounted(Moved(w, moves[0]), moves[1..], epoch);
    }
  }

  predicate NobodyYet(w: World) {
    w.disk == FRESH && forall c <- w.callers :: c.Away?
  }

  lemma {:induction false} NobodyWaits(callers: seq<Caller>, epoch: int)
    requires forall c <- callers :: c.Away?
    ensures Waiting(callers, epoch) == 0
  {
    if callers != [] {
      assert callers[|callers| - 1] in callers;
      NobodyWaits(callers[..|callers| - 1], epoch);
    }
  }

  /**
    Any number of overlapping launcher calls, with activations, suspensions and other commits of
    anybody in between and every process dying anywhere: the runner of an epoch is invoked at most
    once for each call that passed the fence before the first intent was durable, or while a blocked
    row and no generation of the epoch was.
   */
  lemma RacesBounded(w: World, moves: seq<Move>, epoch: int)
    requires NobodyYet(w) && forall m <- moves :: Allowed(m)
    ensures Counted(RunnerCalls, w, moves, epoch) <= Counted(EarlyPasses, w, moves, epoch) + Counted(ReopenedPasses, w, moves, epoch)
  {
    NobodyWaits(w.callers, epoch);
    RacesCounted(w, moves, epoch);
  }

  // ---------------------------------------------------------------- which of them reach it

  /** What stops a repeated intent: another body on record, an epoch gone by, a full journal, a bad clock text. */
  predicate Repeatable(rows: seq<Event>, s: nat, c: Caller, recordedAt: string)
    requires s < |rows| && c.Cleared?
  {
    && rows[s].body.host == c.host && rows[s].body.binding == c.binding
    && rows[|rows| - 1].body.epoch == c.epoch && |rows| < MAX_EVENTS && TextOk(recordedAt)
  }

  /**
    Once an intent of the epoch is durable, a call that is past the fence reaches the runner if and
    only if it read the binding that the intent names, the epoch is still the newest and the journal
    is not full; and it writes nothing. The fence is not looked at again.
   */
  lemma EarlyCallReachesExactly(w: World, i: nat, io: Io, s: nat)
    requires Sane(w) && Load(w.disk).Ok? && i < |w.callers| && w.callers[i].Cleared?
    requires var rows := Load(w.disk).value.rows; s < |rows| && rows[s].body.operationId == LauncherSpawn(w.callers[i].epoch)
    ensures var c, after := w.callers[i], Moved(w, WritesIntent(i, io));
      && (after.callers[i].AtRunner? <==> Repeatable(Load(w.disk).value.rows, s, c, io.recordedAt))
      && after.disk == w.disk
  {
    var c, rows, loaded := w.callers[i], Load(w.disk).value.rows, Load(w.disk).value;
    var body := IntentBody(c.host, c.epoch, c.binding);
    OwnedAt(rows, s);
    AcceptedIsChain(w.disk);
    RepeatedIntent(rows, s, c, io.recordedAt);
    CommitByVerdict(w.disk, loaded, body, io);
  }

  lemma RepeatedIntent(rows: seq<Event>, s: nat, c: Caller, recordedAt: string)
    requires Chain(rows) && DistinctIds(rows) && s < |rows| && c.Cleared?
    requires rows[s].body == IntentBody(rows[s].body.host, c.epoch, rows[s].body.binding)
    ensures var verdict := Admit(rows, IntentBody(c.host, c.epoch, c.binding), recordedAt);
      !verdict.New? && (verdict.Replay? <==> Repeatable(rows, s, c, recordedAt))
  {
    var body := IntentBody(c.host, c.epoch, c.binding);
    DuplicateExact(rows, body);
    if rows[s].body == body { DuplicateFinds(rows, s); }
    RepeatFollows(rows, s, c, recordedAt);
  }

  lemma RepeatFollows(rows: seq<Event>, s: nat, c: Caller, recordedAt: string)
    requires Chain(rows) && s < |rows| && c.Cleared? && rows[s].body.epoch == c.epoch
    ensures Follows(NextEvent(rows, IntentBody(c.host, c.epoch, c.binding), recordedAt), Last(rows)) <==>
      && rows[s].body.host == c.host && rows[|rows| - 1].body.epoch == c.epoch && |rows| < MAX_EVENTS && TextOk(recordedAt)
  {
    EpochsMonotone(rows, s, |rows| - 1);
    OneHost(rows, s, |rows| - 1);
    LastRow(rows);
    IntentFollowsExactly(rows[|rows| - 1], c, recordedAt);
  }

  lemma {:induction false} OneHost(rows: seq<Event>, i: nat, j: nat)
    requires Chain(rows) && i <= j < |rows|
    ensures rows[i].body.host == rows[j].body.host
    decreases j
  {
    if i < j {
      EpochStep(rows, j);
      OneHost(rows, i, j - 1);
    }
  }

  lemma IntentFollowsExactly(p: Event, c: Caller, recordedAt: string)
    requires p.sequence >= 1 && p.body.host != "" && p.body.epoch >= 1 && c.Cleared?
    ensures Follows(Event(p.sequence + 1, Some(Sha(p)), IntentBody(c.host, c.epoch, c.binding), recordedAt), Some(p)) <==>
      && p.body.host == c.host && p.body.epoch == c.epoch && p.sequence < MAX_EVENTS && TextOk(recordedAt)
  {
  }

  // ---------------------------------------------------------------- the bound is reached

  function ClearsFrom(k: nat, n: nat): seq<Move>
    decreases n - k
  {
    if k >= n then [] else [Clears(k, 1)] + ClearsFrom(k + 1, n)
  }

  function IntentsFrom(k: nat, n: nat): seq<Move>
    decreases n - k
  {
    if k >= n then [] else [WritesIntent(k, EXAMPLE_IO)] + IntentsFrom(k + 1, n)
  }

  lemma {:induction false} CountedSplit(count: Count, w: World, a: seq<Move>, b: seq<Move>, epoch: int)
    ensures Counted(count, w, a + b, epoch) == Counted(count, w, a, epoch) + Counted(count, MovedAll(w, a), b, epoch)
    ensures MovedAll(w, a + b) == MovedAll(MovedAll(w, a), b)
    decreases |a|
  {
    if a == [] {
      assert a + b == b;
    } else {
      assert (a + b)[0] == a[0] && (a + b)[1..] == a[1..] + b;
      CountedSplit(count, Moved(w, a[0]), a[1..], b, epoch);
    }
  }

  lemma {:induction false} AllClear(w: World, k: nat, c: Caller)
    requires k <= |w.callers| && Clear(w.disk, 1) == c && c.Cleared?
    requires forall i :: k <= i < |w.callers| ==> w.callers[i].Away?
    requires forall i :: 0 <= i < k ==> w.callers[i] == c
    ensures var after := MovedAll(w, ClearsFrom(k, |w.callers|));
      && after.disk == w.disk && |after.callers| == |w.callers| && forall i :: 0 <= i < |w.callers| ==> after.callers[i] == c
    ensures Counted(RunnerCalls, w, ClearsFrom(k, |w.callers|), 1) == 0
    decreases |w.callers| - k
  {
    if k < |w.callers| {
      var moves := ClearsFrom(k, |w.callers|);
      assert moves[1..] == ClearsFrom(k + 1, |w.callers|);
      AllClear(Moved(w, moves[0]), k + 1, c);
    }
  }

  lemma {:induction false} AllReach(w: World, k: nat, s: nat, c: Caller)
    requires Sane(w) && k <= |w.callers| && c.Cleared? && c.epoch == 1 && forall i :: k <= i < |w.callers| ==> w.callers[i] == c
    requires Load(w.disk).Ok? && s < |Load(w.disk).value.rows| && Load(w.disk).value.rows[s].body.operationId == LauncherSpawn(1)
    requires Repeatable(Load(w.disk).value.rows, s, c, EXAMPLE_IO.recordedAt)
    ensures Counted(RunnerCalls, w, IntentsFrom(k, |w.callers|), 1) == |w.callers| - k
    decreases |w.callers| - k
  {
    if k < |w.callers| {
      var moves := IntentsFrom(k, |w.callers|);
      assert moves[0] == WritesIntent(k, EXAMPLE_IO) && moves[1..] == IntentsFrom(k + 1, |w.callers|);
      EarlyCallReachesExactly(w, k, EXAMPLE_IO, s);
      MoveKeepsSane(w, moves[0]);
      AllReach(Moved(w, moves[0]), k + 1, s, c);
    }
  }

  /** The first intent becomes durable, and its caller reaches the runner. */
  lemma FirstReaches(w: World, loaded: Loaded, c: Caller)
    requires w.callers != [] && w.callers[0] == c && c.Cleared? && c.epoch == 1
    requires Load(w.disk) == Ok(loaded) && NoStaging(w.disk) && loaded.host == Some(c.host) && |loaded.rows| == 1
    requires Admit(loaded.rows, IntentBody(c.host, 1, c.binding), EXAMPLE_IO.recordedAt).New?
    ensures var after := Moved(w, WritesIntent(0, EXAMPLE_IO));
      && ReachesRunner(w, WritesIntent(0, EXAMPLE_IO), 1) && after.callers == w.callers[0 := AtRunner(1, c.host, c.binding)]
      && Load(after.disk).Ok? && |Load(after.disk).value.rows| == 2
      && Load(after.disk).value.rows[1].body == IntentBody(c.host, 1, c.binding)
  {
    CommitFinishes(w.disk, loaded, IntentBody(c.host, 1, c.binding), EXAMPLE_IO);
  }

  function NobodyRuns(d: Disk, n: nat): World {
    World(d, seq(n, _ => Away))
  }

  /** After an activation of epoch 1: n calls pass the fence, then each writes its intent. */
  function Race(body: Body, n: nat): seq<Move> {
    [Others(body, EXAMPLE_IO)] + (ClearsFrom(0, n) + IntentsFrom(0, n))
  }

  /** The bound is reached: for every n there is a race in which n calls reach the runner of one epoch. */
  lemma RaceExample(accepted: Completion, approval: Approval, n: nat)
    requires approval.approves && |accepted.digest| == 64 && approval.completion == accepted.digest
    requires approval.id != accepted.s4Approval && accepted.epoch == 1
    ensures var body := ActivationBody(accepted, approval);
      && NobodyYet(NobodyRuns(FRESH, n)) && (forall m <- Race(body, n) :: Allowed(m))
      && Counted(RunnerCalls, NobodyRuns(FRESH, n), Race(body, n), 1) == n
  {
    var body := ActivationBody(accepted, approval);
    MovesAllowed(0, n);
    ActivateFresh(accepted, approval);
    FirstActivation(body);
    ActivatedRows(body, EXAMPLE_IO.recordedAt);
    var w := NobodyRuns(FRESH, n);
    MoveKeepsSane(w, Others(body, EXAMPLE_IO));
    var w1 := Moved(w, Others(body, EXAMPLE_IO));
    assert Race(body, n)[1..] == ClearsFrom(0, n) + IntentsFrom(0, n);
    RaceFrom(w1, body);
  }

  lemma {:induction false} MovesAllowed(k: nat, n: nat)
    ensures forall m <- ClearsFrom(k, n) + IntentsFrom(k, n) :: Allowed(m)
    decreases n - k
  {
    if k < n { MovesAllowed(k + 1, n); }
  }

  lemma {:induction false} SaneThrough(w: World, moves: seq<Move>)
    requires Sane(w) && forall m <- moves :: Allowed(m)
    ensures Sane(MovedAll(w, moves))
    decreases |moves|
  {
    if moves != [] {
      assert moves[0] in moves;
      MoveKeepsSane(w, moves[0]);
      SaneThrough(Moved(w, moves[0]), moves[1..]);
    }
  }

  lemma RaceFrom(w: World, body: Body)
    requires Sane(w) && forall c <- w.callers :: c.Away?
    requires body.kind.AuthorityActivated? && body.effect.None? && body.host != "" && body.epoch == 1
    requires body.operationId.Activation? && body.eventId == PhaseOf(body.operationId, body.after)
    requires NoStaging(w.disk) && Load(w.disk) == Ok(Loaded(Some(body.host), [NextEvent([], body, EXAMPLE_IO.recordedAt)]))
    ensures Counted(RunnerCalls, w, ClearsFrom(0, |w.callers|) + IntentsFrom(0, |w.callers|), 1) == |w.callers|
  {
    var n, c := |w.callers|, Cleared(1, body.host, body.binding);
    ActivatedRows(body, EXAMPLE_IO.recordedAt);
    assert Clear(w.disk, 1) == c;
    AllClear(w, 0, c);
    CountedSplit(RunnerCalls, w, ClearsFrom(0, n), IntentsFrom(0, n), 1);
    if n > 0 {
      MovesAllowed(0, n);
      SaneThrough(w, ClearsFrom(0, n));
      IntentsReach(MovedAll(w, ClearsFrom(0, n)), body, c);
    }
  }

  lemma IntentsReach(w: World, body: Body, c: Caller)
    requires Sane(w) && w.callers != [] && forall i :: 0 <= i < |w.callers| ==> w.callers[i] == c
    requires c == Cleared(1, body.host, body.binding) && body.host != "" && body.epoch == 1
    requires body.operationId.Activation? && body.eventId == PhaseOf(body.operationId, body.after)
    requires NoStaging(w.disk) && Load(w.disk) == Ok(Loaded(Some(body.host), [NextEvent([], body, EXAMPLE_IO.recordedAt)]))
    ensures Counted(RunnerCalls, w, IntentsFrom(0, |w.callers|), 1) == |w.callers|
  {
    SecondAndThird(body);
    FirstReaches(w, Load(w.disk).value, c);
    var first := WritesIntent(0, EXAMPLE_IO);
    MoveKeepsSane(w, first);
    AllReach(Moved(w, first), 1, 1, c);
    assert IntentsFrom(0, |w.callers|)[1..] == IntentsFrom(1, |w.callers|);
  }
}
