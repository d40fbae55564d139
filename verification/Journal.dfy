/**
  The append-only event journal of scripts/upgrade_state.py, on values.

  A digest is a constructor around the event it was taken of, so equal digests mean equal
  events. A directory maps names to files; a file has its content and its link count. Each
  operation takes the number of file steps it may perform before it is stopped, so that
  "stopped anywhere" is a universally quantified number.
 */
module Journal {
  import opened Basics

  const MAX_EVENTS := 4096
  const MAX_TEXT := 128

  // ---------------------------------------------------------------- events

  datatype Digest = Sha(event: Event)

  datatype Event = Event(sequence: int, previous: Option<Digest>, body: Body, recordedAt: string)

  /** Every field of an event except its position in the chain and its timestamp. */
  datatype Body = Body(
    eventId: EventId, operationId: OperationId, kind: Kind, host: string, identity: string,
    expectedEpoch: Option<int>, epoch: int, transaction: Option<string>, binding: string,
    before: string, after: string, approval: Option<string>, evidence: Option<string>,
    effect: Option<Effect>)

  /** Operation ids are a literal prefix and one part; the part is kept apart here. */
  datatype OperationId = Activation(approvalId: string) | Suspension(epoch: int)
                       | LauncherSpawn(epoch: int) | LauncherObserve(epoch: int) | Operation(name: string)

  datatype EventId = PhaseOf(operation: OperationId, after: string) | EventNamed(name: string)

  datatype Kind = AuthorityActivated | AuthoritySuspended | SpawnIntent | SpawnBlocked
                | GenerationSpawned | StartObserved | OtherKind(name: string)

  datatype EffectId = SpawnEffect(epoch: int) | EffectNamed(name: string)

  datatype Status = Intent | Observed | Committed | Blocked

  datatype Effect = Effect(id: EffectId, effectType: string, expectedBefore: string,
                           desiredAfter: string, status: Status)

  datatype Error = SequenceInvalid | ChainBroken | EpochRequired | HostMismatch | EpochConflict
                 | FieldInvalid | ChainHole | PathUnsafe | SchemaInvalid | FormatMissing
                 | OperationConflict | DuplicateEvent | AlreadyPublished | Empty
                 | AuthorityAlreadyBound | AuthorityNotActive | RestartFenced | OneshotConsumed
                 | ObservationUnknown | ApprovalReused | ApprovalInvalid | CompletionMismatch | WriteFailed

  predicate TextOk(s: string) {
    0 < |s| <= MAX_TEXT
  }

  /** scripts/upgrade_state.py:197, in the order of its checks. */
  function CheckEvent(e: Event, previous: Option<Event>): Option<Error> {
    if !(1 <= e.sequence <= MAX_EVENTS) then Some(SequenceInvalid)
    else if previous.None? && (e.sequence != 1 || e.previous.Some?) then Some(ChainBroken)
    else if previous.Some? && (e.sequence != previous.value.sequence + 1
                               || e.previous != Some(Sha(previous.value))) then Some(ChainBroken)
    else if e.body.epoch < 1 then Some(EpochRequired)
    else if previous.Some? && e.body.host != previous.value.body.host then Some(HostMismatch)
    else if previous.Some? && EpochRefused(e.body, previous.value.body.epoch) then Some(EpochConflict)
    else if e.body.host == "" || !TextOk(e.body.before) || !TextOk(e.body.after) || !TextOk(e.recordedAt) then Some(FieldInvalid)
    else None
  }

  predicate EpochRefused(b: Body, current: int) {
    || (b.expectedEpoch.Some? && b.expectedEpoch.value != current)
    || b.epoch < current
    || (b.epoch > current && b.kind != AuthorityActivated)
    || b.epoch > current + 1
  }

  /** The row just before position i. */
  function Before(rows: seq<Event>, i: nat): Option<Event>
    requires i <= |rows|
  {
    if i == 0 then None else Some(rows[i - 1])
  }

  function Last(rows: seq<Event>): Option<Event> {
    Before(rows, |rows|)
  }

  predicate Follows(e: Event, previous: Option<Event>) {
    CheckEvent(e, previous) == None
  }

  /** Every row follows the one before it. */
  ghost predicate Chain(rows: seq<Event>) {
    rows == [] || (Chain(rows[..|rows| - 1]) && Follows(rows[|rows| - 1], Before(rows, |rows| - 1)))
  }

  // ---------------------------------------------------------------- projection

  datatype Authority = Authority(active: bool, epoch: int, approval: Option<string>, binding: string)

  datatype Projection = Projection(
    sequence: int, head: Option<Digest>, epoch: Option<int>, authority: Option<Authority>,
    pending: seq<EffectId>, generation: Option<string>, phase: Option<string>)

  const BLANK := Projection(0, None, None, None, [], None, None)

  function Without(ids: seq<EffectId>, id: EffectId): seq<EffectId> {
    if ids == [] then []
    else (if ids[0] == id then [] else [ids[0]]) + Without(ids[1..], id)
  }

  predicate Clears(s: Status) {
    s.Observed? || s.Committed? || s.Blocked?
  }

  /** One turn of the loop at scripts/upgrade_state.py:291-310. */
  function ProjectRow(p: Projection, row: Event): Projection {
    var effect := row.body.effect;
    var intended := if effect.Some? && effect.value.status.Intent? then p.pending + [effect.value.id] else p.pending;
    var pending := if effect.Some? && Clears(effect.value.status) then Without(intended, effect.value.id) else intended;
    var authority :=
      if row.body.kind.AuthorityActivated?
      then Some(Authority(true, row.body.epoch, row.body.approval, row.body.binding))
      else if row.body.kind.AuthoritySuspended? && p.authority.Some?
      then Some(p.authority.value.(active := false))
      else p.authority;
    var generation :=
      if (row.body.kind.GenerationSpawned? || row.body.kind.StartObserved?)
         && effect.Some? && effect.value.status.Observed?
      then Some(effect.value.desiredAfter) else p.generation;
    Projection(row.sequence, Some(Sha(row)), Some(row.body.epoch), authority, pending, generation, Some(row.body.after))
  }

  function Project(rows: seq<Event>): Projection {
    if rows == [] then BLANK else ProjectRow(Project(rows[..|rows| - 1]), rows[|rows| - 1])
  }

  // ---------------------------------------------------------------- files

  datatype Name = Sequenced(number: nat) | Format | Current | Hidden(tag: nat) | Foreign(id: nat)

  datatype Content = EventRaw(event: Event) | HeaderRaw(host: string)
                   | ProjectionRaw(projection: Projection) | OtherRaw(id: nat)

  /** raw is None while the file is empty or only partly written. */
  datatype File = File(raw: Option<Content>, links: nat)

  type Dir = map<Name, File>

  datatype Disk = Disk(control: Dir, events: Dir)

  const FRESH := Disk(map[], map[])

  /** scripts/upgrade_state.py:160: an empty or hard-linked file is refused. */
  function ReadFile(d: Dir, name: Name): Result<Content, Error> {
    if name !in d || d[name].links != 1 || d[name].raw.None? then Err(PathUnsafe) else Ok(d[name].raw.value)
  }

  function Visible(d: Dir): set<Name> {
    set n | n in d && !n.Hidden?
  }

  /** One turn of the loop at scripts/upgrade_state.py:250-260, on the n-th name. */
  function ScanName(d: Dir, n: nat, earlier: seq<Event>): Result<seq<Event>, Error> {
    if Sequenced(n) !in d then Err(ChainHole)
    else
      var read := ReadFile(d, Sequenced(n));
      if read.Err? then Err(read.error)
      else if !read.value.EventRaw? then Err(SchemaInvalid)
      else
        var error := CheckEvent(read.value.event, Last(earlier));
        if error.Some? then Err(error.value) else Ok(earlier + [read.value.event])
  }

  /** The rows behind the first n names, each checked against the one before it. */
  function ScanFirst(d: Dir, n: nat): Result<seq<Event>, Error> {
    if n == 0 then Ok([])
    else
      var earlier := ScanFirst(d, n - 1);
      if earlier.Err? then earlier else ScanName(d, n, earlier.value)
  }

  function Scan(d: Dir): Result<seq<Event>, Error> {
    ScanFirst(d, |Visible(d)|)
  }

  /** host is None when there is no journal yet. */
  datatype Loaded = Loaded(host: Option<string>, rows: seq<Event>) {
    function Authority(): Option<Authority> {
      Project(rows).authority
    }
  }

  /** scripts/upgrade_state.py:264 */
  function Load(d: Disk): Result<Loaded, Error> {
    if Format !in d.control then
      if d.events.Keys != {} then Err(FormatMissing) else Ok(Loaded(None, []))
    else
      var header := ReadFile(d.control, Format);
      if header.Err? then Err(header.error)
      else if !header.value.HeaderRaw? || header.value.host == "" then Err(SchemaInvalid)
      else
        var rows := Scan(d.events);
        if rows.Err? then Err(rows.error)
        else if !HostedBy(rows.value, header.value.host) then Err(HostMismatch)
        else Ok(Loaded(Some(header.value.host), rows.value))
  }

  predicate HostedBy(rows: seq<Event>, host: string) {
    forall i :: 0 <= i < |rows| ==> rows[i].body.host == host
  }

  // ---------------------------------------------------------------- writes

  datatype Written = Done | Stopped | NotWritten(error: Error)

  /**
    The directory after `steps` of the four steps of scripts/upgrade_state.py:111 (create the
    staging file, fill it, link it, unlink the staging name). When the process survives the
    failure (`dies` is false) an unpublished staging file is removed again.
   */
  function PartlyPublished(d: Dir, name: Name, raw: Content, tag: nat, steps: nat, dies: bool): Dir {
    if steps == 0 || (steps < 3 && !dies) then d
    else if steps == 1 then d[Hidden(tag) := File(None, 1)]
    else if steps == 2 then d[Hidden(tag) := File(Some(raw), 1)]
    else if steps == 3 then d[Hidden(tag) := File(Some(raw), 2)][name := File(Some(raw), 2)]
    else d[name := File(Some(raw), 1)]
  }

  function WriteExclusive(d: Dir, name: Name, raw: Content, tag: nat, budget: nat, dies: bool): (Dir, Written, nat) {
    if name in d then (d, NotWritten(AlreadyPublished), budget)
    else if Hidden(tag) in d then
      // The handler of the failed creation removes the staging file, whoever left it there.
      if budget == 0 then (d, Stopped, 0) else (d - {Hidden(tag)}, NotWritten(AlreadyPublished), budget - 1)
    else if budget < 4 then (PartlyPublished(d, name, raw, tag, budget, dies), Stopped, 0)
    else (PartlyPublished(d, name, raw, tag, 4, dies), Done, budget - 4)
  }

  /** scripts/upgrade_state.py:359: create, fill, rename. A failed staging file stays. */
  function Replace(d: Dir, name: Name, raw: Content, tag: nat, budget: nat): (Dir, Written, nat) {
    if Hidden(tag) in d then (d, NotWritten(AlreadyPublished), budget)
    else if budget == 0 then (d, Stopped, 0)
    else if budget == 1 then (d[Hidden(tag) := File(None, 1)], Stopped, 0)
    else if budget == 2 then (d[Hidden(tag) := File(Some(raw), 1)], Stopped, 0)
    else (d[name := File(Some(raw), 1)], Done, budget - 3)
  }

  // ---------------------------------------------------------------- commit

  /** What the surroundings decide about one commit: staging names, clock, and where it stops. */
  datatype Io = Io(formatTag: nat, eventTag: nat, currentTag: nat, recordedAt: string, budget: nat, dies: bool)

  datatype Outcome = Appended(row: Event) | Replayed(row: Event) | Refused(error: Error) | Cut

  function NextEvent(rows: seq<Event>, body: Body, recordedAt: string): Event {
    var previous := Last(rows);
    Event(if previous.Some? then previous.value.sequence + 1 else 1,
          if previous.Some? then Some(Sha(previous.value)) else None,
          body, recordedAt)
  }

  datatype Verdict = New | Replay(row: Event) | Reject(error: Error)

  /** The duplicate search at scripts/upgrade_state.py:329-338, front to back. */
  function Duplicate(rows: seq<Event>, body: Body): Verdict {
    if rows == [] then New
    else if rows[0].body.operationId == body.operationId then
      if rows[0].body == body then Replay(rows[0]) else Reject(OperationConflict)
    else if rows[0].body.eventId == body.eventId then Reject(DuplicateEvent)
    else Duplicate(rows[1..], body)
  }

  function Admit(rows: seq<Event>, body: Body, recordedAt: string): Verdict {
    var error := CheckEvent(NextEvent(rows, body, recordedAt), Last(rows));
    if error.Some? then Reject(error.value) else Duplicate(rows, body)
  }

  function WriteCurrent(d: Dir, raw: Content, tag: nat, budget: nat, dies: bool): (Dir, Written, nat) {
    if Current in d then Replace(d, Current, raw, tag, budget) else WriteExclusive(d, Current, raw, tag, budget, dies)
  }

  function FailureOf(w: Written): Outcome
    requires !w.Done?
  {
    if w.Stopped? then Cut else Refused(w.error)
  }

  /** scripts/upgrade_state.py:343-356: the file writes of a commit that was admitted as new. */
  function PublishEvent(d: Disk, e: Event, io: Io): (Disk, Outcome) {
    var (c1, w1, b1) :=
      if Format in d.control then (d.control, Done, io.budget)
      else WriteExclusive(d.control, Format, HeaderRaw(e.body.host), io.formatTag, io.budget, io.dies);
    if !w1.Done? then (Disk(c1, d.events), FailureOf(w1))
    else
      var (e2, w2, b2) := WriteExclusive(d.events, Sequenced(if e.sequence < 0 then 0 else e.sequence), EventRaw(e), io.eventTag, b1, io.dies);
      if !w2.Done? then (Disk(c1, e2), FailureOf(w2))
      else
        var published := Scan(e2);
        if published.Err? then (Disk(c1, e2), Refused(published.error))
        else
          var (c3, w3, b3) := WriteCurrent(c1, ProjectionRaw(Project(published.value)), io.currentTag, b2, io.dies);
          (Disk(c3, e2), if w3.Done? then Appended(e) else FailureOf(w3))
  }

  /** scripts/upgrade_state.py:320 */
  function Commit(d: Disk, body: Body, io: Io): (Disk, Outcome) {
    var loaded := Load(d);
    if loaded.Err? then (d, Refused(loaded.error))
    else
      var verdict := Admit(loaded.value.rows, body, io.recordedAt);
      match verdict
      case Reject(error) => (d, Refused(error))
      case Replay(row) => (d, Replayed(row))
      case New => PublishEvent(d, NextEvent(loaded.value.rows, body, io.recordedAt), io)
  }

  /** scripts/upgrade_state.py:377. The projection file is rewritten only when it differs. */
  function Repair(d: Disk, tag: nat, budget: nat, dies: bool): (Disk, Written) {
    var loaded := Load(d);
    if loaded.Err? then (d, NotWritten(loaded.error))
    else if loaded.value.rows == [] then (d, NotWritten(Empty))
    else
      var raw := ProjectionRaw(Project(loaded.value.rows));
      if Current in d.control && ReadFile(d.control, Current) == Ok(raw) then (d, Done)
      else
        var (control, w, left) := WriteCurrent(d.control, raw, tag, budget, dies);
        (d.(control := control), w)
  }
}
