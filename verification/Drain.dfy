/**
  Draining the replication listener and closing the retained store behind it:
  server/replication_runtime.go:83-136 and server/replication.go:129-159.
 */
module Drain {
  // ---------------------------------------------------------------- the counter behind the mutex

  /** The fields under the mutex; a second close of the channel would panic, so closes are counted. */
  datatype Gate = Gate(stopping: bool, active: int, closes: nat)

  function EnterGate(g: Gate): Gate {
    if g.stopping then g else g.(active := g.active + 1)
  }

  function LeaveGate(g: Gate): Gate {
    var left := g.(active := g.active - 1);
    if left.stopping && left.active == 0 then left.(closes := left.closes + 1) else left
  }

  function DrainGate(g: Gate): Gate {
    if g.stopping then g
    else if g.active == 0 then g.(stopping := true, closes := g.closes + 1)
    else g.(stopping := true)
  }

  // ---------------------------------------------------------------- every goroutine

  datatype Maintain = Waiting | Pruning | Exited

  /** Where one call of close stands. */
  datatype Closer =
    | Drained       // beginDrain and cancel done
    | Blocked       // in the second select
    | Closing       // saw the drained channel closed
    | Joining       // cancelled the maintenance context
    | Joined        // saw the maintenance goroutine end
    | Returned
    | GaveUp        // deadline passed first

  datatype World = World(
    gate: Gate,
    serving: set<nat>,      // handlers inside the endpoint
    seen: set<nat>,         // every handler that has reached the gate
    closers: map<nat, Closer>,
    cancelled: bool,        // the maintenance context
    maintain: Maintain,
    doneCloses: nat,
    storeCloses: nat)

  const START := World(Gate(false, 0, 0), {}, {}, map[], false, Waiting, 0, 0)

  datatype Step =
    | Enter(h: nat)
    | Leave(h: nat)
    | BeginDrain(c: nat)
    | FirstSelect(c: nat)
    | SecondSelect(c: nat)
    | Deadline(c: nat)
    | CancelMaintain(c: nat)
    | JoinMaintain(c: nat)
    | CloseStore(c: nat)
    | ServerStops
    | Tick
    | PruneEnds
    | MaintainExits

  predicate At(w: World, c: nat, place: Closer) {
    c in w.closers && w.closers[c] == place
  }

  function Move(w: World, c: nat, place: Closer): World {
    w.(closers := w.closers[c := place])
  }

  /** A step that is not enabled changes nothing. */
  function Next(w: World, s: Step): World {
    match s
    case Enter(h) =>
      if h in w.seen then w
      else w.(gate := EnterGate(w.gate), seen := w.seen + {h},
              serving := if w.gate.stopping then w.serving else w.serving + {h})
    case Leave(h) =>
      if h !in w.serving then w else w.(gate := LeaveGate(w.gate), serving := w.serving - {h})
    case BeginDrain(c) =>
      if c in w.closers then w else Move(w.(gate := DrainGate(w.gate)), c, Drained)
    case FirstSelect(c) =>
      if !At(w, c, Drained) then w else Move(w, c, if w.gate.closes > 0 then Closing else Blocked)
    case SecondSelect(c) =>
      if At(w, c, Blocked) && w.gate.closes > 0 then Move(w, c, Closing) else w
    case Deadline(c) =>
      if At(w, c, Blocked) then Move(w, c, GaveUp) else w
    case CancelMaintain(c) =>
      if At(w, c, Closing) then Move(w.(cancelled := true), c, Joining) else w
    case JoinMaintain(c) =>
      if At(w, c, Joining) && w.doneCloses > 0 then Move(w, c, Joined) else w
    case CloseStore(c) =>
      if At(w, c, Joined) then Move(w.(storeCloses := w.storeCloses + 1), c, Returned) else w
    case ServerStops => w.(cancelled := true)
    case Tick => if w.maintain == Waiting then w.(maintain := Pruning) else w
    case PruneEnds => if w.maintain == Pruning then w.(maintain := Waiting) else w
    case MaintainExits =>
      if w.maintain == Waiting && w.cancelled then w.(maintain := Exited, doneCloses := w.doneCloses + 1) else w
  }

  function Run(w: World, steps: seq<Step>): World
    decreases |steps|
  {
    if steps == [] then w else Run(Next(w, steps[0]), steps[1..])
  }

  // ---------------------------------------------------------------- what every step keeps

  /** The counter counts the handlers inside, and the channel is closed once, exactly when drained. */
  predicate GateExact(g: Gate, serving: set<nat>) {
    && g.active == |serving|
    && g.closes == if g.stopping && serving == {} then 1 else 0
  }

  predicate CloserOk(w: World, place: Closer) {
    && w.gate.stopping
    && (place.Closing? || place.Joining? || place.Joined? || place.Returned? ==> w.gate.closes == 1)
    && (place.Joined? || place.Returned? ==> w.maintain == Exited)
  }

  predicate ClosersOk(w: World) {
    forall c <- w.closers :: CloserOk(w, w.closers[c])
  }

  predicate Inv(w: World) {
    && GateExact(w.gate, w.serving) && w.serving <= w.seen
    && w.doneCloses == (if w.maintain == Exited then 1 else 0)
    && (w.storeCloses > 0 ==> w.gate.closes == 1 && w.maintain == Exited)
    && ClosersOk(w)
  }

  lemma GateKept(g: Gate, serving: set<nat>, h: nat)
    requires GateExact(g, serving)
    ensures h !in serving ==> GateExact(EnterGate(g), if g.stopping then serving else serving + {h})
    ensures h in serving ==> GateExact(LeaveGate(g), serving - {h})
    ensures GateExact(DrainGate(g), serving)
  {
    if |serving| == 0 { assert serving == {}; }
    if h in serving && |serving - {h}| == 0 { assert serving - {h} == {}; }
  }

  /** A closer keeps its facts when the gate stays shut, a closed channel closed and an ended loop ended. */
  predicate Later(w: World, w': World) {
    && (w.gate.stopping ==> w'.gate.stopping)
    && (w.gate.closes == 1 ==> w'.gate.closes == 1)
    && (w.maintain == Exited ==> w'.maintain == Exited)
    && w.storeCloses <= w'.storeCloses
    && (w.gate.stopping ==> w'.serving <= w.serving)
  }

  lemma ClosersKept(w: World, w': World)
    requires ClosersOk(w) && Later(w, w') && w'.closers == w.closers
    ensures ClosersOk(w')
  {
  }

  lemma ClosersMove(w: World, w': World, c: nat, place: Closer)
    requires ClosersOk(w) && Later(w, w') && w'.closers == w.closers[c := place] && CloserOk(w', place)
    ensures ClosersOk(w')
  {
  }

  predicate IsGateStep(s: Step) {
    s.Enter? || s.Leave? || s.BeginDrain?
  }

  lemma GateStepKept(w: World, s: Step)
    requires Inv(w) && IsGateStep(s)
    ensures Inv(Next(w, s)) && Later(w, Next(w, s))
  {
    var w' := Next(w, s);
    match s
    case Enter(h) => GateKept(w.gate, w.serving, h); ClosersKept(w, w');
    case Leave(h) => GateKept(w.gate, w.serving, h); ClosersKept(w, w');
    case BeginDrain(c) =>
      GateKept(w.gate, w.serving, 0);
      if c !in w.closers { ClosersMove(w, w', c, Drained); }
  }

  lemma InvKept(w: World, s: Step)
    requires Inv(w)
    ensures Inv(Next(w, s)) && Later(w, Next(w, s))
  {
    var w' := Next(w, s);
    if IsGateStep(s) {
      GateStepKept(w, s);
    } else if w'.closers == w.closers {
      ClosersKept(w, w');
    } else {
      ClosersMove(w, w', s.c, w'.closers[s.c]);
    }
  }

  lemma {:induction false} InvAlways(w: World, steps: seq<Step>)
    requires Inv(w)
    ensures Inv(Run(w, steps))
    decreases |steps|
  {
    if steps != [] {
      InvKept(w, steps[0]);
      InvAlways(Next(w, steps[0]), steps[1..]);
    }
  }

  /**
    However many handlers and closers there are and however they interleave: the channel is closed
    at most once, exactly when draining has begun and nobody is inside; the maintenance goroutine
    ends at most once; and once the store was closed no handler is inside and no prune is running.
   */
  lemma DrainSafety(steps: seq<Step>)
    ensures var w := Run(START, steps);
      && w.gate.active == |w.serving|
      && (w.gate.closes == 1 <==> w.gate.stopping && w.serving == {})
      && w.gate.closes <= 1 && w.doneCloses <= 1
      && (w.storeCloses > 0 ==> w.serving == {} && w.maintain == Exited)
  {
    InvAlways(START, steps);
  }

  /** Once draining has begun nobody new gets in, whatever happens next. */
  lemma {:induction false} NoAdmissionAfterDrain(w: World, steps: seq<Step>)
    requires Inv(w) && w.gate.stopping
    ensures Run(w, steps).gate.stopping && Run(w, steps).serving <= w.serving
    decreases |steps|
  {
    if steps != [] {
      InvKept(w, steps[0]);
      NoAdmissionAfterDrain(Next(w, steps[0]), steps[1..]);
    }
  }

  /** Once the store was closed nobody ever uses it again: neither a handler nor a prune. */
  lemma {:induction false} NothingAfterStoreClose(w: World, steps: seq<Step>)
    requires Inv(w) && w.storeCloses > 0
    ensures var after := Run(w, steps);
      after.storeCloses > 0 && after.serving == {} && after.maintain == Exited
    decreases |steps|
  {
    if steps != [] {
      InvKept(w, steps[0]);
      NothingAfterStoreClose(Next(w, steps[0]), steps[1..]);
    }
  }

  function Leaves(order: seq<nat>): seq<Step> {
    if order == [] then [] else [Leave(order[0])] + Leaves(order[1..])
  }

  /** When the handlers inside return, in any order, the channel is closed: no drain is missed. */
  lemma {:induction false} DrainCompletes(w: World, order: seq<nat>)
    requires Inv(w) && w.gate.stopping && forall h <- w.serving :: h in order
    ensures Run(w, Leaves(order)).gate.closes == 1 && Run(w, Leaves(order)).closers == w.closers
    decreases |order|
  {
    if order != [] {
      var step := Leave(order[0]);
      InvKept(w, step);
      assert Leaves(order)[0] == step && Leaves(order)[1..] == Leaves(order[1..]);
      DrainCompletes(Next(w, step), order[1..]);
    }
  }

  lemma RunStep(w: World, s: Step, rest: seq<Step>)
    ensures Run(w, [s] + rest) == Run(Next(w, s), rest)
  {
    assert ([s] + rest)[1..] == rest;
  }

  lemma ReachJoining(w: World, c: nat, rest: seq<Step>) returns (w': World)
    requires Inv(w) && w.gate.closes == 1 && c !in w.closers
    ensures At(w', c, Joining) && w'.cancelled && w'.storeCloses == w.storeCloses && w'.maintain == w.maintain
    ensures w'.doneCloses == w.doneCloses
    ensures Run(w, [BeginDrain(c)] + ([FirstSelect(c)] + ([CancelMaintain(c)] + rest))) == Run(w', rest)
  {
    var w1 := Next(w, BeginDrain(c));
    var w2 := Next(w1, FirstSelect(c));
    w' := Next(w2, CancelMaintain(c));
    RunStep(w, BeginDrain(c), [FirstSelect(c)] + ([CancelMaintain(c)] + rest));
    RunStep(w1, FirstSelect(c), [CancelMaintain(c)] + rest);
    RunStep(w2, CancelMaintain(c), rest);
  }

  /** The rest of close: a running prune ends, the loop sees its cancelled context, the store is closed. */
  function JoinAndClose(c: nat): seq<Step> {
    [PruneEnds] + ([MaintainExits] + ([JoinMaintain(c)] + ([CloseStore(c)] + [])))
  }

  lemma JoiningCloses(w: World, c: nat)
    requires At(w, c, Joining) && w.cancelled && (w.maintain == Exited ==> w.doneCloses > 0)
    ensures Run(w, JoinAndClose(c)).storeCloses == w.storeCloses + 1
  {
    var w1 := Next(w, PruneEnds);
    var w2 := Next(w1, MaintainExits);
    var w3 := Next(w2, JoinMaintain(c));
    RunStep(w, PruneEnds, [MaintainExits] + ([JoinMaintain(c)] + ([CloseStore(c)] + [])));
    RunStep(w1, MaintainExits, [JoinMaintain(c)] + ([CloseStore(c)] + []));
    RunStep(w2, JoinMaintain(c), [CloseStore(c)] + []);
    RunStep(w3, CloseStore(c), []);
  }

  /** Once the handlers have drained, a new call of close, say after a missed deadline, closes the store. */
  lemma RetryCloses(w: World, c: nat)
    requires Inv(w) && w.gate.closes == 1 && c !in w.closers
    ensures Run(w, [BeginDrain(c)] + ([FirstSelect(c)] + ([CancelMaintain(c)] + JoinAndClose(c)))).storeCloses
         == w.storeCloses + 1
  {
    var w' := ReachJoining(w, c, JoinAndClose(c));
    JoiningCloses(w', c);
  }

  // ---------------------------------------------------------------- the critical sections

  /** A channel that is only ever closed; closing it twice panics. */
  class Channel {
    var closed: bool

    constructor ()
      ensures !closed
    {
      closed := false;
    }

    method Close()
      requires !closed
      modifies this
      ensures closed
    {
      closed := true;
    }
  }

  class ManagedReplication {
    var stopping: bool
    var active: int
    const drained: Channel
    ghost var serving: set<nat>

    ghost function View(): Gate
      reads this, drained
    {
      Gate(stopping, active, if drained.closed then 1 else 0)
    }

    ghost predicate Valid()
      reads this, drained
    {
      GateExact(View(), serving)
    }

    constructor ()
      ensures Valid() && View() == START.gate && serving == {} && fresh(drained)
    {
      stopping, active, serving := false, 0, {};
      drained := new Channel();
    }

    /** The first locked section of ServeHTTP. */
    method Admit(ghost h: nat) returns (admitted: bool)
      requires Valid() && h !in serving
      modifies this
      ensures Valid() && View() == EnterGate(old(View())) && admitted == !old(stopping)
      ensures serving == if admitted then old(serving) + {h} else old(serving)
    {
      GateKept(View(), serving, h);
      if stopping { return false; }
      active := active + 1;
      serving := serving + {h};
      return true;
    }

    /** Its deferred locked section; the channel it closes is still open. */
    method Release(ghost h: nat)
      requires Valid() && h in serving
      modifies this, drained
      ensures Valid() && View() == LeaveGate(old(View())) && serving == old(serving) - {h}
    {
      GateKept(View(), serving, h);
      active := active - 1;
      serving := serving - {h};
      if stopping && active == 0 { drained.Close(); }
    }

    method StartDrain()
      requires Valid()
      modifies this, drained
      ensures Valid() && View() == DrainGate(old(View())) && serving == old(serving)
    {
      GateKept(View(), serving, 0);
      if !stopping {
        stopping := true;
        if active == 0 { drained.Close(); }
      }
    }
  }
}
