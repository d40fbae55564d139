/** The journal as scripts/upgrade_state.py works on it: directories changed one file step at a time. */
module JournalStore {
  import opened Basics
  import opened Journal
  import opened JournalTheorems
  import opened JournalRuns

  /** A directory. Every write method may be stopped after `budget` steps. */
  class Directory {
    var entries: Dir

    constructor ()
      ensures entries == map[]
    {
      entries := map[];
    }

    /** scripts/upgrade_state.py:111 */
    method PublishExclusive(name: Name, raw: Content, tag: nat, budget: nat, dies: bool) returns (w: Written, left: nat)
      modifies this
      ensures (entries, w, left) == WriteExclusive(old(entries), name, raw, tag, budget, dies)
    {
      if name in entries { return NotWritten(AlreadyPublished), budget; }
      if Hidden(tag) in entries {
        if budget == 0 { return Stopped, 0; }
        entries := entries - {Hidden(tag)};
        return NotWritten(AlreadyPublished), budget - 1;
      }
      if budget == 0 { return Stopped, 0; }
      left := CreateAndFill(raw, tag, budget);
      if budget < 3 {
        if !dies { entries := entries - {Hidden(tag)}; }
        assert !dies ==> entries == old(entries);
        return Stopped, 0;
      }
      entries := entries[Hidden(tag) := File(Some(raw), 2)][name := File(Some(raw), 2)];
      assert entries == PartlyPublished(old(entries), name, raw, tag, 3, dies);
      if budget == 3 { return Stopped, 0; }
      entries := (entries - {Hidden(tag)})[name := File(Some(raw), 1)];
      assert entries == old(entries)[name := File(Some(raw), 1)];
      return Done, budget - 4;
    }

    /** Create the staging file and, if there is a step left, write it. */
    method CreateAndFill(raw: Content, tag: nat, budget: nat) returns (left: nat)
      requires budget > 0
      modifies this
      ensures entries == old(entries)[Hidden(tag) := File(if budget == 1 then None else Some(raw), 1)]
      ensures left == if budget == 1 then 0 else budget - 2
    {
      entries := entries[Hidden(tag) := File(None, 1)];
      if budget == 1 { return 0; }
      entries := entries[Hidden(tag) := File(Some(raw), 1)];
      assert entries == old(entries)[Hidden(tag) := File(Some(raw), 1)];
      return budget - 2;
    }

    /** scripts/upgrade_state.py:359 */
    method Overwrite(name: Name, raw: Content, tag: nat, budget: nat) returns (w: Written, left: nat)
      requires !name.Hidden?
      modifies this
      ensures (entries, w, left) == Replace(old(entries), name, raw, tag, budget)
    {
      if Hidden(tag) in entries {
        return NotWritten(AlreadyPublished), budget;
      }
      if budget == 0 { return Stopped, 0; }
      left := CreateAndFill(raw, tag, budget);
      if left == 0 { return Stopped, 0; }
      entries := (entries - {Hidden(tag)})[name := File(Some(raw), 1)];
      assert entries == old(entries)[name := File(Some(raw), 1)];
      return Done, budget - 3;
    }
  }

  /** The loop of scripts/upgrade_state.py:246. */
  method ScanRows(d: Dir) returns (rows: Result<seq<Event>, Error>)
    ensures rows == Scan(d)
  {
    var count := |Visible(d)|;
    var found: seq<Event> := [];
    var index := 0;
    while index < count
      invariant 0 <= index <= count
      invariant ScanFirst(d, index) == Ok(found)
    {
      index := index + 1;
      var row := ScanName(d, index, found);
      if row.Err? {
        ScanStopsAt(d, index, count);
        return row;
      }
      found := row.value;
    }
    return Ok(found);
  }

  lemma {:induction false} ScanStopsAt(d: Dir, n: nat, count: nat)
    requires n <= count && ScanFirst(d, n).Err?
    ensures ScanFirst(d, count) == ScanFirst(d, n)
    decreases count
  {
    if n < count { ScanStopsAt(d, n, count - 1); }
  }

  /** The loop of scripts/upgrade_state.py:288. */
  method ProjectRows(rows: seq<Event>) returns (current: Projection)
    ensures current == Project(rows)
  {
    current := BLANK;
    var i := 0;
    while i < |rows|
      invariant 0 <= i <= |rows|
      invariant current == Project(rows[..i])
    {
      ProjectLast(rows[..i], rows[i]);
      assert rows[..i] + [rows[i]] == rows[..i + 1];
      current := ProjectRow(current, rows[i]);
      i := i + 1;
    }
    assert rows[..i] == rows;
  }

  class Store {
    const control: Directory
    const events: Directory

    ghost predicate Valid() {
      control != events
    }

    function OnDisk(): Disk
      reads control, events
    {
      Disk(control.entries, events.entries)
    }

    constructor ()
      ensures Valid() && fresh(control) && fresh(events) && OnDisk() == FRESH
    {
      control := new Directory();
      events := new Directory();
    }

    /** scripts/upgrade_state.py:264 */
    method LoadVerified() returns (loaded: Result<Loaded, Error>)
      ensures loaded == Load(OnDisk())
    {
      if Format !in control.entries {
        if events.entries.Keys != {} { return Err(FormatMissing); }
        return Ok(Loaded(None, []));
      }
      var header := ReadFile(control.entries, Format);
      if header.Err? { return Err(header.error); }
      if !header.value.HeaderRaw? || header.value.host == "" { return Err(SchemaInvalid); }
      var rows := ScanRows(events.entries);
      if rows.Err? { return Err(rows.error); }
      var i := 0;
      while i < |rows.value|
        invariant 0 <= i <= |rows.value|
        invariant HostedBy(rows.value[..i], header.value.host)
      {
        if rows.value[i].body.host != header.value.host { return Err(HostMismatch); }
        i := i + 1;
      }
      assert rows.value[..i] == rows.value;
      return Ok(Loaded(Some(header.value.host), rows.value));
    }

    method WriteProjection(raw: Content, tag: nat, budget: nat, dies: bool) returns (w: Written, left: nat)
      requires Valid()
      modifies control
      ensures (control.entries, w, left) == WriteCurrent(old(control.entries), raw, tag, budget, dies)
    {
      if Current in control.entries {
        w, left := control.Overwrite(Current, raw, tag, budget);
      } else {
        w, left := control.PublishExclusive(Current, raw, tag, budget, dies);
      }
    }

    /** scripts/upgrade_state.py:343-356 */
    method PublishAdmitted(e: Event, io: Io) returns (outcome: Outcome)
      requires Valid() && e.sequence >= 0
      modifies control, events
      ensures (OnDisk(), outcome) == PublishEvent(old(OnDisk()), e, io)
    {
      var w: Written := Done;
      var left := io.budget;
      if Format !in control.entries {
        w, left := control.PublishExclusive(Format, HeaderRaw(e.body.host), io.formatTag, left, io.dies);
        if !w.Done? { return FailureOf(w); }
      }
      w, left := events.PublishExclusive(Sequenced(e.sequence), EventRaw(e), io.eventTag, left, io.dies);
      if !w.Done? { return FailureOf(w); }
      var published := ScanRows(events.entries);
      if published.Err? { return Refused(published.error); }
      var current := ProjectRows(published.value);
      w, left := WriteProjection(ProjectionRaw(current), io.currentTag, left, io.dies);
      return if w.Done? then Appended(e) else FailureOf(w);
    }

    /** scripts/upgrade_state.py:320, with the duplicate search as the loop it is. */
    method CommitEvent(body: Body, io: Io) returns (outcome: Outcome)
      requires Valid()
      modifies control, events
      ensures (OnDisk(), outcome) == Commit(old(OnDisk()), body, io)
    {
      var loaded := LoadVerified();
      if loaded.Err? { return Refused(loaded.error); }
      var rows := loaded.value.rows;
      var e := NextEvent(rows, body, io.recordedAt);
      var error := CheckEvent(e, Last(rows));
      if error.Some? { return Refused(error.value); }
      var i := 0;
      while i < |rows|
        invariant 0 <= i <= |rows|
        invariant Duplicate(rows[i..], body) == Duplicate(rows, body)
        invariant OnDisk() == old(OnDisk())
      {
        assert rows[i..][0] == rows[i] && rows[i..][1..] == rows[i + 1..];
        if rows[i].body.operationId == body.operationId {
          return if rows[i].body == body then Replayed(rows[i]) else Refused(OperationConflict);
        }
        if rows[i].body.eventId == body.eventId { return Refused(DuplicateEvent); }
        i := i + 1;
      }
      AdmittedFollows(OnDisk(), body, io.recordedAt);
      outcome := PublishAdmitted(e, io);
    }

    /** scripts/upgrade_state.py:377 */
    method RepairProjection(tag: nat, budget: nat, dies: bool) returns (w: Written)
      requires Valid()
      modifies control
      ensures (OnDisk(), w) == Repair(old(OnDisk()), tag, budget, dies)
    {
      var loaded := LoadVerified();
      if loaded.Err? { return NotWritten(loaded.error); }
      if loaded.value.rows == [] { return NotWritten(Empty); }
      var current := ProjectRows(loaded.value.rows);
      var raw := ProjectionRaw(current);
      if Current in control.entries && ReadFile(control.entries, Current) == Ok(raw) { return Done; }
      var left;
      w, left := WriteProjection(raw, tag, budget, dies);
    }
  }

  /**
    Repair never touches an event and never changes what readers see, wherever it stops; when it
    finishes, from any stale, torn or missing projection, the file holds the fold of the chain.
   */
  lemma RepairRestores(d: Disk, tag: nat, budget: nat, dies: bool)
    ensures var (d', w) := Repair(d, tag, budget, dies);
      && d'.events == d.events && Load(d') == Load(d)
      && (w.Done? ==> Load(d).Ok? && ReadFile(d'.control, Current) == Ok(ProjectionRaw(Project(Load(d).value.rows))))
      && (Load(d).Ok? && Load(d).value.rows != [] && Hidden(tag) !in d.control && budget >= 4 ==> w.Done?)
  {
    var d' := Repair(d, tag, budget, dies).0;
    if d'.control != d.control {
      CurrentKeepsFormat(d.control, ProjectionRaw(Project(Load(d).value.rows)), tag, budget, dies);
      LoadFrame(d, d'.control);
    }
  }
}
