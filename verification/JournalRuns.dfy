/** Commits cut at any step, their retries, and whole runs of them. */
module JournalRuns {
  import opened Basics
  import opened Journal
  import opened JournalTheorems

  // ---------------------------------------------------------------- one commit

  /** Names that are not sequence numbers leave the verdict about the chain as it was. */
  lemma HoldsFrame(d: Dir, d': Dir, rows: seq<Event>)
    requires forall n: nat :: 1 <= n <= |rows| ==> SameEntry(d, d', Sequenced(n))
    ensures Holds(d, rows) <==> Holds(d', rows)
  {
    forall i: nat | i < |rows| ensures HoldsAt(d, i, rows[i]) <==> HoldsAt(d', i, rows[i]) {
      assert SameEntry(d, d', Sequenced(i + 1));
    }
  }

  predicate SameEntry(d: Dir, d': Dir, name: Name) {
    (name in d <==> name in d') && (name in d ==> d[name] == d'[name])
  }

  /** The next sequence number is free in every accepted directory. */
  lemma NextNameFree(d: Dir, rows: seq<Event>)
    requires Scan(d) == Ok(rows)
    ensures Sequenced(|rows| + 1) !in d
  {
    ScanExact(d, rows);
    assert Sequenced(|rows| + 1) !in Numbers(|rows|);
    assert Sequenced(|rows| + 1) !in Visible(d);
  }

  lemma HiddenInvisible(d: Dir, tag: nat, f: File, rows: seq<Event>)
    requires Scan(d) == Ok(rows)
    ensures Scan(d[Hidden(tag) := f]) == Ok(rows)
  {
    var d' := d[Hidden(tag) := f];
    ScanExact(d, rows);
    HoldsFrame(d, d', rows);
    assert Visible(d') == Visible(d);
    ScanExact(d', rows);
  }

  lemma HiddenRemoved(d: Dir, tag: nat, rows: seq<Event>)
    requires Scan(d) == Ok(rows)
    ensures Scan(d - {Hidden(tag)}) == Ok(rows)
  {
    ScanExact(d, rows);
    ScanExact(d - {Hidden(tag)}, rows);
    HoldsFrame(d, d - {Hidden(tag)}, rows);
    assert Visible(d - {Hidden(tag)}) == Visible(d);
  }

  lemma NumbersNext(d: Dir, d': Dir, n: nat)
    requires Visible(d) == Numbers(n)
    requires forall name :: name in d' && !name.Hidden? <==> (name in d && !name.Hidden?) || name == Sequenced(n + 1)
    ensures Visible(d') == Numbers(n + 1) && |Visible(d')| == n + 1
  {
    assert Numbers(n + 1) == Numbers(n) + {Sequenced(n + 1)};
    NumbersCount(n + 1);
  }

  /** With both names present the chain cannot be read at all. */
  lemma LinkedTwice(d: Dir, rows: seq<Event>, raw: Content, tag: nat)
    requires Scan(d) == Ok(rows)
    ensures Scan(PartlyPublished(d, Sequenced(|rows| + 1), raw, tag, 3, true)) == Err(PathUnsafe)
  {
    var n := |rows|;
    var d' := PartlyPublished(d, Sequenced(n + 1), raw, tag, 3, true);
    ScanExact(d, rows);
    HoldsFrame(d, d', rows);
    NumbersNext(d, d', n);
    ScanFirstExact(d', n, rows);
  }

  lemma PublishedExtends(d: Dir, rows: seq<Event>, e: Event)
    requires Scan(d) == Ok(rows) && Follows(e, Last(rows))
    ensures Scan(d[Sequenced(|rows| + 1) := File(Some(EventRaw(e)), 1)]) == Ok(rows + [e])
  {
    var n := |rows|;
    var d' := d[Sequenced(n + 1) := File(Some(EventRaw(e)), 1)];
    ScanExact(d, rows);
    HoldsFrame(d, d', rows);
    NumbersNext(d, d', n);
    assert HoldsAt(d', n, e);
    HoldsSnoc(d', rows, e);
    ChainSnoc(rows, e);
    ScanExact(d', rows + [e]);
  }

  /** The event directory at each step of publishing the next event. */
  lemma EventPublishSteps(d: Dir, rows: seq<Event>, e: Event, tag: nat, steps: nat, dies: bool)
    requires Scan(d) == Ok(rows) && Follows(e, Last(rows)) && steps <= 4
    ensures Scan(PartlyPublished(d, Sequenced(|rows| + 1), EventRaw(e), tag, steps, dies))
         == if steps < 3 then Ok(rows) else if steps == 3 then Err(PathUnsafe) else Ok(rows + [e])
  {
    if steps == 1 {
      HiddenInvisible(d, tag, File(None, 1), rows);
    } else if steps == 2 {
      HiddenInvisible(d, tag, File(Some(EventRaw(e)), 1), rows);
    } else if steps == 3 {
      LinkedTwice(d, rows, EventRaw(e), tag);
    } else if steps == 4 {
      PublishedExtends(d, rows, e);
    }
  }

  /** Loading reads the header and the events; nothing else in the control directory matters. */
  lemma LoadFrame(d: Disk, control: Dir)
    requires Format in d.control <==> Format in control
    requires Format in control ==> control[Format] == d.control[Format]
    ensures Load(Disk(control, d.events)) == Load(d)
  {
  }

  /** The projection file is never consulted when the journal is read. */
  lemma LoadIgnoresCurrent(d: Disk, current: File)
    ensures Load(d.(control := d.control[Current := current])) == Load(d)
    ensures Load(d.(control := d.control - {Current})) == Load(d)
  {
    LoadFrame(d, d.control[Current := current]);
    LoadFrame(d, d.control - {Current});
  }

  lemma CurrentKeepsFormat(d: Dir, raw: Content, tag: nat, budget: nat, dies: bool)
    ensures var d' := WriteCurrent(d, raw, tag, budget, dies).0;
      (Format in d <==> Format in d') && (Format in d ==> d'[Format] == d[Format])
  {
  }

  predicate TagsFree(d: Disk, io: Io) {
    (Format in d.control || Hidden(io.formatTag) !in d.control) && Hidden(io.eventTag) !in d.events
  }

  /** File steps spent on the header before the event itself is written. */
  function HeaderSteps(d: Disk): nat {
    if Format in d.control then 0 else 4
  }

  function HeaderHost(loaded: Loaded, body: Body): string {
    if loaded.host.Some? then loaded.host.value else body.host
  }

  /**
    A commit of a new event, stopped after any number of file steps, leaves exactly one of three
    states: the old chain, the old chain plus that event, or a journal that every reader refuses.
    Which one is decided by the step count: the refused states are the two instants at which a
    file has both its staging and its final name, and a published event whose host is not the
    header's. The last case can only arise when an earlier crash left a header and no event.
   */
  lemma CommitCutExact(d: Disk, body: Body, io: Io)
    requires Load(d).Ok? && TagsFree(d, io)
    requires Admit(Load(d).value.rows, body, io.recordedAt).New?
    ensures
      var loaded, head := Load(d).value, HeaderSteps(d);
      var e, host := NextEvent(loaded.rows, body, io.recordedAt), HeaderHost(loaded, body);
      Load(Commit(d, body, io).0) ==
        if io.budget < head then (if io.budget == 3 then Err(PathUnsafe) else Ok(loaded))
        else if io.budget < head + 3 then Ok(Loaded(Some(host), loaded.rows))
        else if io.budget == head + 3 then Err(PathUnsafe)
        else if host == body.host then Ok(Loaded(Some(host), loaded.rows + [e]))
        else Err(HostMismatch)
  {
    AdmittedFollows(d, body, io.recordedAt);
    PublishCutExact(d, Load(d).value, NextEvent(Load(d).value.rows, body, io.recordedAt), io);
  }

  lemma PublishCutExact(d: Disk, loaded: Loaded, e: Event, io: Io)
    requires Load(d) == Ok(loaded) && TagsFree(d, io) && Scan(d.events) == Ok(loaded.rows)
    requires e.sequence == |loaded.rows| + 1 && Follows(e, Last(loaded.rows))
    ensures
      var head, host := HeaderSteps(d), HeaderHost(loaded, e.body);
      Load(PublishEvent(d, e, io).0) ==
        if io.budget < head then (if io.budget == 3 then Err(PathUnsafe) else Ok(loaded))
        else if io.budget < head + 3 then Ok(Loaded(Some(host), loaded.rows))
        else if io.budget == head + 3 then Err(PathUnsafe)
        else if host == e.body.host then Ok(Loaded(Some(host), loaded.rows + [e]))
        else Err(HostMismatch)
  {
    if io.budget < HeaderSteps(d) {
      HeaderCut(d, e, io);
    } else {
      NextNameFree(d.events, loaded.rows);
      PublishParts(d, e, io);
      var rest := io.budget - HeaderSteps(d);
      EventPublishSteps(d.events, loaded.rows, e, io.eventTag, if rest < 4 then rest else 4, io.dies);
      HostsExtend(loaded.rows, e, HeaderHost(loaded, e.body));
      HeaderKnown(d, e);
      LoadWithHeader(PublishEvent(d, e, io).0, HeaderHost(loaded, e.body));
    }
  }

  /** Under a readable header the verdict is that of the scan, filtered by the host. */
  lemma LoadWithHeader(d: Disk, host: string)
    requires Format in d.control && d.control[Format] == File(Some(HeaderRaw(host)), 1) && host != ""
    ensures Scan(d.events).Err? ==> Load(d) == Err(Scan(d.events).error)
    ensures Scan(d.events).Ok? ==>
      Load(d) == if HostedBy(Scan(d.events).value, host) then Ok(Loaded(Some(host), Scan(d.events).value)) else Err(HostMismatch)
  {
  }

  lemma HeaderKnown(d: Disk, e: Event)
    requires Load(d).Ok? && Follows(e, Last(Load(d).value.rows))
    ensures var host := HeaderHost(Load(d).value, e.body);
      && host != ""
      && HostedBy(Load(d).value.rows, host)
      && (if Format in d.control then d.control[Format] else File(Some(HeaderRaw(e.body.host)), 1)) == File(Some(HeaderRaw(host)), 1)
  {
  }

  lemma HostsExtend(rows: seq<Event>, e: Event, host: string)
    requires HostedBy(rows, host)
    ensures HostedBy(rows + [e], host) <==> e.body.host == host
  {
    assert (rows + [e])[|rows|] == e;
  }

  lemma AdmittedFollows(d: Disk, body: Body, recordedAt: string)
    requires Load(d).Ok?
    ensures Scan(d.events) == Ok(Load(d).value.rows)
    ensures var e := NextEvent(Load(d).value.rows, body, recordedAt);
      e.sequence == |Load(d).value.rows| + 1 && (!Admit(Load(d).value.rows, body, recordedAt).Reject? ==> Follows(e, Last(Load(d).value.rows)))
  {
    var rows := Load(d).value.rows;
    if Format !in d.control {
      assert Visible(d.events) == {};
    }
    ScanExact(d.events, rows);
    if rows != [] { ChainSequence(rows, |rows| - 1); }
  }

  /** Cut inside the header: nothing was appended, and one of the four instants is unreadable. */
  lemma HeaderCut(d: Disk, e: Event, io: Io)
    requires Load(d).Ok? && TagsFree(d, io) && io.budget < HeaderSteps(d)
    ensures Load(PublishEvent(d, e, io).0) == if io.budget == 3 then Err(PathUnsafe) else Ok(Load(d).value)
  {
  }

  /** From the header on: the header is in place and the events are as far as the remaining steps reach. */
  lemma PublishParts(d: Disk, e: Event, io: Io)
    requires TagsFree(d, io) && HeaderSteps(d) <= io.budget
    requires e.sequence >= 0 && Sequenced(e.sequence) !in d.events
    ensures var d', rest := PublishEvent(d, e, io).0, io.budget - HeaderSteps(d);
      && d'.events == PartlyPublished(d.events, Sequenced(e.sequence), EventRaw(e), io.eventTag, if rest < 4 then rest else 4, io.dies)
      && Format in d'.control
      && d'.control[Format] == (if Format in d.control then d.control[Format] else File(Some(HeaderRaw(e.body.host)), 1))
  {
    var c1 := if Format in d.control then d.control
              else WriteExclusive(d.control, Format, HeaderRaw(e.body.host), io.formatTag, io.budget, io.dies).0;
    var rest := io.budget - HeaderSteps(d);
    if rest >= 4 {
      var events := d.events[Sequenced(e.sequence) := File(Some(EventRaw(e)), 1)];
      if Scan(events).Ok? {
        CurrentKeepsFormat(c1, ProjectionRaw(Project(Scan(events).value)), io.currentTag, rest - 4, io.dies);
      }
    }
  }

  // ---------------------------------------------------------------- any commit

  lemma {:induction false} DuplicateExact(rows: seq<Event>, body: Body)
    ensures Duplicate(rows, body).New? <==>
      forall i :: 0 <= i < |rows| ==> rows[i].body.operationId != body.operationId && rows[i].body.eventId != body.eventId
    ensures Duplicate(rows, body).Replay? ==>
      exists i :: 0 <= i < |rows| && rows[i] == Duplicate(rows, body).row && rows[i].body == body
  {
    if rows != [] {
      DuplicateExact(rows[1..], body);
      assert forall i :: 0 < i < |rows| ==> rows[i] == rows[1..][i - 1];
    }
  }

  ghost predicate DistinctIds(rows: seq<Event>) {
    forall i, j :: 0 <= i < j < |rows| ==>
      rows[i].body.operationId != rows[j].body.operationId && rows[i].body.eventId != rows[j].body.eventId
  }

  /** With distinct ids the search finds the one row that carries the body. */
  lemma {:induction false} DuplicateFinds(rows: seq<Event>, i: nat)
    requires DistinctIds(rows) && i < |rows|
    ensures Duplicate(rows, rows[i].body) == Replay(rows[i])
  {
    if i > 0 { DuplicateFinds(rows[1..], i - 1); }
  }

  /** What one commit can do to the rows that readers see. */
  ghost predicate RowsStep(before: Result<Loaded, Error>, body: Body, recordedAt: string, after: Result<Loaded, Error>) {
    if before.Err? then after == before
    else
      || after.Err?
      || after.value.rows == before.value.rows
      || (&& Admit(before.value.rows, body, recordedAt).New?
          && after.value.rows == before.value.rows + [NextEvent(before.value.rows, body, recordedAt)])
  }

  /** Whatever staging names are taken and wherever the commit stops: old rows, one more row, or unreadable. */
  lemma CommitRows(d: Disk, body: Body, io: Io)
    ensures RowsStep(Load(d), body, io.recordedAt, Load(Commit(d, body, io).0))
    ensures Commit(d, body, io).1.Appended? ==>
      && Load(d).Ok? && Admit(Load(d).value.rows, body, io.recordedAt).New?
      && Commit(d, body, io).1.row == NextEvent(Load(d).value.rows, body, io.recordedAt)
      && (Load(Commit(d, body, io).0).Ok? ==> Load(Commit(d, body, io).0).value.rows == Load(d).value.rows + [Commit(d, body, io).1.row])
    ensures Commit(d, body, io).1.Replayed? ==> Commit(d, body, io).0 == d
  {
    if Load(d).Ok? && Admit(Load(d).value.rows, body, io.recordedAt).New? {
      var loaded := Load(d).value;
      var e := NextEvent(loaded.rows, body, io.recordedAt);
      AdmittedFollows(d, body, io.recordedAt);
      if TagsFree(d, io) {
        PublishCutExact(d, loaded, e, io);
        PublishFinishes(d, e, io);
      } else {
        HeaderKnown(d, e);
        TagTaken(d, loaded, e, io);
      }
    }
  }

  lemma PublishFinishes(d: Disk, e: Event, io: Io)
    requires TagsFree(d, io)
    ensures PublishEvent(d, e, io).1.Appended? ==> io.budget >= HeaderSteps(d) + 4 && PublishEvent(d, e, io).1.row == e
    ensures !PublishEvent(d, e, io).1.Replayed?
  {
  }

  lemma TagTaken(d: Disk, loaded: Loaded, e: Event, io: Io)
    requires Load(d) == Ok(loaded) && !TagsFree(d, io)
    requires Follows(e, Last(loaded.rows)) && e.sequence >= 0
    ensures !PublishEvent(d, e, io).1.Appended? && !PublishEvent(d, e, io).1.Replayed?
    ensures Load(PublishEvent(d, e, io).0).Ok? ==> Load(PublishEvent(d, e, io).0).value.rows == loaded.rows
  {
    var d' := PublishEvent(d, e, io).0;
    if Format in d.control {
      if d'.events != d.events { HiddenRemoved(d.events, io.eventTag, Scan(d.events).value); }
      LoadFrame(Disk(d.control, d'.events), d'.control);
    }
  }

  // ---------------------------------------------------------------- runs

  datatype Attempt = Attempt(body: Body, io: Io)

  /** Sequential commits, each possibly stopped anywhere, on what the one before left behind. */
  function RunCommits(d: Disk, attempts: seq<Attempt>): Disk
    decreases |attempts|
  {
    if attempts == [] then d
    else RunCommits(Commit(d, attempts[0].body, attempts[0].io).0, attempts[1..])
  }

  lemma NewKeepsDistinct(rows: seq<Event>, e: Event)
    requires DistinctIds(rows) && Duplicate(rows, e.body).New?
    ensures DistinctIds(rows + [e])
  {
    DuplicateExact(rows, e.body);
  }

  lemma AcceptedIsChain(d: Disk)
    requires Load(d).Ok?
    ensures Chain(Load(d).value.rows)
  {
    if Format in d.control { ScanExact(d.events, Load(d).value.rows); }
  }

  /** Rows are only ever appended, ids stay distinct, and an unreadable journal is never touched again. */
  lemma {:induction false} RunAppendsOnly(d: Disk, attempts: seq<Attempt>)
    ensures Load(d).Err? ==> RunCommits(d, attempts) == d
    ensures Load(d).Ok? && Load(RunCommits(d, attempts)).Ok? ==>
      Load(d).value.rows <= Load(RunCommits(d, attempts)).value.rows
    ensures Load(d).Ok? && DistinctIds(Load(d).value.rows) && Load(RunCommits(d, attempts)).Ok? ==>
      DistinctIds(Load(RunCommits(d, attempts)).value.rows)
    decreases |attempts|
  {
    if attempts != [] {
      var body, io := attempts[0].body, attempts[0].io;
      var d1 := Commit(d, body, io).0;
      CommitRows(d, body, io);
      RunAppendsOnly(d1, attempts[1..]);
      if Load(d).Ok? && Load(d1).Ok? && DistinctIds(Load(d).value.rows) && Load(d1).value.rows != Load(d).value.rows {
        NewKeepsDistinct(Load(d).value.rows, NextEvent(Load(d).value.rows, body, io.recordedAt));
      }
    }
  }

  lemma {:induction false} RunSplits(d: Disk, a: seq<Attempt>, b: seq<Attempt>)
    ensures RunCommits(d, a + b) == RunCommits(RunCommits(d, a), b)
    decreases |a|
  {
    if a == [] {
      assert a + b == b;
    } else {
      assert (a + b)[1..] == a[1..] + b;
      RunSplits(Commit(d, a[0].body, a[0].io).0, a[1..], b);
    }
  }

  /**
    From an empty directory, through any commits, retries and crashes: every readable state is an
    accepted chain with pairwise distinct operation and event ids, it extends every earlier
    readable state, and no state after an unreadable one is readable.
   */
  lemma JournalIsAppendOnly(earlier: seq<Attempt>, later: seq<Attempt>)
    requires Load(RunCommits(FRESH, earlier + later)).Ok?
    ensures Load(RunCommits(FRESH, earlier)).Ok?
    ensures var rows := Load(RunCommits(FRESH, earlier + later)).value.rows;
      Chain(rows) && DistinctIds(rows) && Load(RunCommits(FRESH, earlier)).value.rows <= rows
  {
    var mid := RunCommits(FRESH, earlier);
    RunSplits(FRESH, earlier, later);
    RunAppendsOnly(FRESH, earlier);
    RunAppendsOnly(mid, later);
    AcceptedIsChain(RunCommits(FRESH, earlier + later));
  }

  /**
    Asking again for the event just committed changes nothing. It returns the first row exactly
    when the journal is not full and the event did not name an expected epoch that it left
    behind itself; otherwise it is refused.
   */
  lemma ImmediateRetryExact(d: Disk, body: Body, io: Io)
    requires Load(d).Ok? && Load(d).value.rows != [] && DistinctIds(Load(d).value.rows)
    requires Load(d).value.rows[|Load(d).value.rows| - 1].body == body
    ensures var rows, result := Load(d).value.rows, Commit(d, body, io);
      && result.0 == d
      && if RetryHeard(rows, io.recordedAt) then result.1 == Replayed(rows[|rows| - 1]) else result.1.Refused?
  {
    AcceptedIsChain(d);
    AdmitRetry(Load(d).value.rows, io.recordedAt);
    CommitByVerdict(d, Load(d).value, body, io);
  }

  lemma CommitByVerdict(d: Disk, loaded: Loaded, body: Body, io: Io)
    requires Load(d) == Ok(loaded) && !Admit(loaded.rows, body, io.recordedAt).New?
    ensures var verdict := Admit(loaded.rows, body, io.recordedAt);
      Commit(d, body, io) == (d, if verdict.Replay? then Replayed(verdict.row) else Refused(verdict.error))
  {
  }

  predicate RetryHeard(rows: seq<Event>, recordedAt: string)
    requires rows != []
  {
    var body := rows[|rows| - 1].body;
    |rows| < MAX_EVENTS && TextOk(recordedAt) && (body.expectedEpoch.Some? ==> body.expectedEpoch.value == body.epoch)
  }

  lemma AdmitRetry(rows: seq<Event>, recordedAt: string)
    requires Chain(rows) && rows != [] && DistinctIds(rows)
    ensures var verdict := Admit(rows, rows[|rows| - 1].body, recordedAt);
      if RetryHeard(rows, recordedAt) then verdict == Replay(rows[|rows| - 1]) else verdict.Reject?
  {
    RetryChecked(rows, recordedAt);
    DuplicateFinds(rows, |rows| - 1);
  }

  /** Only the journal's end, the clock text and an overtaken expected epoch can stop a row from following itself. */
  lemma RetryChecked(rows: seq<Event>, recordedAt: string)
    requires Chain(rows) && rows != []
    ensures Follows(NextEvent(rows, rows[|rows| - 1].body, recordedAt), Last(rows)) <==> RetryHeard(rows, recordedAt)
  {
    ChainSequence(rows, |rows| - 1);
  }

  /** Asking again later: the row is found, or the request is refused; never a second row. */
  lemma LaterRetry(d: Disk, body: Body, io: Io, i: nat)
    requires Load(d).Ok? && DistinctIds(Load(d).value.rows)
    requires i < |Load(d).value.rows| && Load(d).value.rows[i].body == body
    ensures Commit(d, body, io).0 == d
    ensures Commit(d, body, io).1 == Replayed(Load(d).value.rows[i]) || Commit(d, body, io).1.Refused?
  {
    DuplicateFinds(Load(d).value.rows, i);
  }

  /**
    A commit that returned its row left a readable journal if and only if there was no header yet or
    it names the host of the row; the other case is a header without any event.
   */
  lemma AppendedReadableExactly(d: Disk, body: Body, io: Io)
    requires Load(d).Ok? && Commit(d, body, io).1.Appended?
    ensures Load(Commit(d, body, io).0).Ok? <==> Load(d).value.host.None? || Load(d).value.host.value == body.host
    ensures Load(Commit(d, body, io).0).Err? ==> Load(d).value.rows == []
  {
    var e := NextEvent(Load(d).value.rows, body, io.recordedAt);
    CommitRows(d, body, io);
    if TagsFree(d, io) {
      PublishFinishes(d, e, io);
      CommitCutExact(d, body, io);
    } else {
      TagTaken(d, Load(d).value, e, io);
    }
  }

  /** A crash that left a header and no event: a retry for another host succeeds and makes the journal unreadable. */
  lemma HeaderWithoutEvent(body: Body, other: string, io: Io, retry: Io)
    requires body.host != "" && other != "" && other != body.host
    requires Follows(NextEvent([], body, io.recordedAt), None)
    requires Follows(NextEvent([], body, retry.recordedAt), None)
    requires io.budget == 4 && retry.budget >= 8 && retry.currentTag != retry.formatTag
    ensures var crashed := Commit(FRESH, body, io).0;
      && Load(crashed) == Ok(Loaded(Some(body.host), []))
      && Commit(crashed, body.(host := other), retry).1.Appended?
      && Load(Commit(crashed, body.(host := other), retry).0) == Err(HostMismatch)
  {
    CrashAfterHeader(body, io);
    RetryElsewhere(Commit(FRESH, body, io).0, body.host, body.(host := other), retry);
  }

  lemma CrashAfterHeader(body: Body, io: Io)
    requires body.host != "" && Follows(NextEvent([], body, io.recordedAt), None) && io.budget == 4
    ensures var crashed := Commit(FRESH, body, io).0;
      && Load(crashed) == Ok(Loaded(Some(body.host), []))
      && crashed.events == map[] && Format in crashed.control && Current !in crashed.control
      && forall tag :: Hidden(tag) !in crashed.control
  {
    CommitCutExact(FRESH, body, io);
  }

  /** On a header without events a commit for another host gets through. */
  lemma RetryElsewhere(d: Disk, host: string, body: Body, io: Io)
    requires Load(d) == Ok(Loaded(Some(host), [])) && d.events == map[] && Format in d.control
    requires Current !in d.control && forall tag :: Hidden(tag) !in d.control
    requires body.host != host && body.host != "" && Follows(NextEvent([], body, io.recordedAt), None) && io.budget >= 8
    ensures Commit(d, body, io).1.Appended? && Load(Commit(d, body, io).0) == Err(HostMismatch)
  {
    CommitCutExact(d, body, io);
    PublishedExtends(map[], [], NextEvent([], body, io.recordedAt));
  }
}
