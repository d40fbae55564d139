/** What every journal, every commit and every run of commits satisfies. */
module JournalTheorems {
  import opened Basics
  import opened Journal

  // ---------------------------------------------------------------- scanning

  /** Scanning reads only the sequenced names, and accepts exactly the well-formed chains of single-link event files. */
  ghost predicate Holds(d: Dir, rows: seq<Event>) {
    forall i :: 0 <= i < |rows| ==> HoldsAt(d, i, rows[i])
  }

  predicate HoldsAt(d: Dir, i: nat, e: Event) {
    Sequenced(i + 1) in d && d[Sequenced(i + 1)] == File(Some(EventRaw(e)), 1)
  }

  lemma ChainSnoc(rows: seq<Event>, e: Event)
    ensures Chain(rows + [e]) <==> Chain(rows) && Follows(e, Last(rows))
  {
    assert (rows + [e])[..|rows|] == rows;
    assert Before(rows + [e], |rows|) == Last(rows);
  }

  lemma HoldsSnoc(d: Dir, rows: seq<Event>, e: Event)
    ensures Holds(d, rows + [e]) <==> Holds(d, rows) && HoldsAt(d, |rows|, e)
  {
    var all := rows + [e];
    assert all[|rows|] == e;
    if Holds(d, all) {
      assert HoldsAt(d, |rows|, all[|rows|]);
      forall i | 0 <= i < |rows| ensures HoldsAt(d, i, rows[i]) {
        assert all[i] == rows[i];
      }
    }
  }

  lemma {:induction false} ScanFirstExact(d: Dir, n: nat, rows: seq<Event>)
    ensures ScanFirst(d, n) == Ok(rows) <==> |rows| == n && Holds(d, rows) && Chain(rows)
  {
    if n > 0 && rows != [] {
      var init, e := rows[..|rows| - 1], rows[|rows| - 1];
      assert rows == init + [e];
      ScanFirstExact(d, n - 1, init);
      ChainSnoc(init, e);
      HoldsSnoc(d, init, e);
      var earlier := ScanFirst(d, n - 1);
      if earlier.Ok? {
        ScanNameExact(d, n, earlier.value, init, e);
        if earlier.value == init && |init| == n - 1 { assert HoldsAt(d, n - 1, e) <==> HoldsAt(d, |init|, e); }
      }
    } else if n > 0 && ScanFirst(d, n - 1).Ok? {
      ScanNameGrows(d, n, ScanFirst(d, n - 1).value);
    }
  }

  lemma ScanNameGrows(d: Dir, n: nat, earlier: seq<Event>)
    ensures ScanName(d, n, earlier) != Ok([])
  {
  }

  lemma ScanNameExact(d: Dir, n: nat, earlier: seq<Event>, init: seq<Event>, e: Event)
    requires n > 0
    ensures ScanName(d, n, earlier) == Ok(init + [e]) <==> earlier == init && HoldsAt(d, n - 1, e) && Follows(e, Last(earlier))
  {
    if ScanName(d, n, earlier) == Ok(init + [e]) {
      var read := ReadFile(d, Sequenced(n)).value.event;
      assert init + [e] == earlier + [read];
      assert init == (init + [e])[..|init|] == (earlier + [read])[..|earlier|] == earlier;
      assert e == (init + [e])[|init|] == read;
    }
  }

  /** The names 1..n, as a set. */
  function Numbers(n: nat): set<Name> {
    set i | 1 <= i <= n :: Sequenced(i)
  }

  lemma {:induction false} NumbersCount(n: nat)
    ensures |Numbers(n)| == n
  {
    if n > 0 {
      NumbersCount(n - 1);
      assert Numbers(n) == Numbers(n - 1) + {Sequenced(n)};
    }
  }

  lemma SubsetOfEqualSize<T>(a: set<T>, b: set<T>)
    requires a <= b && |a| >= |b|
    ensures a == b
  {
    assert b == a + (b - a);
    assert |b| == |a| + |b - a|;
  }

  lemma HeldNamesVisible(d: Dir, rows: seq<Event>)
    requires Holds(d, rows)
    ensures Numbers(|rows|) <= Visible(d)
  {
    forall name | name in Numbers(|rows|) ensures name in Visible(d) {
      var i :| 1 <= i <= |rows| && name == Sequenced(i);
      var k := i - 1;
      assert 0 <= k < |rows| && HoldsAt(d, k, rows[k]);
    }
  }

  /** An accepted directory shows the names 1..n and nothing else. */
  lemma ScanExact(d: Dir, rows: seq<Event>)
    ensures Scan(d) == Ok(rows) <==> Holds(d, rows) && Chain(rows) && Visible(d) == Numbers(|rows|)
  {
    NumbersCount(|rows|);
    ScanFirstExact(d, |Visible(d)|, rows);
    if Holds(d, rows) && |rows| == |Visible(d)| {
      HeldNamesVisible(d, rows);
      SubsetOfEqualSize(Numbers(|rows|), Visible(d));
    }
  }

  lemma {:induction false} ChainPrefix(rows: seq<Event>, n: nat)
    requires Chain(rows) && n <= |rows|
    ensures Chain(rows[..n])
    ensures n < |rows| ==> Follows(rows[n], Before(rows, n))
  {
    if n < |rows| {
      var init := rows[..|rows| - 1];
      if n < |init| {
        ChainPrefix(init, n);
        assert init[..n] == rows[..n];
      } else {
        assert rows[..n] == init;
      }
    } else {
      assert rows[..n] == rows;
    }
  }

  lemma {:induction false} ChainSequence(rows: seq<Event>, i: nat)
    requires Chain(rows) && i < |rows|
    ensures rows[i].sequence == i + 1
    ensures i > 0 ==> rows[i].previous == Some(Sha(rows[i - 1]))
  {
    ChainPrefix(rows, i);
    if i > 0 { ChainSequence(rows, i - 1); }
  }

  /** The digest of the newest row determines the whole chain: no earlier row can be altered, dropped or added. */
  lemma {:induction false} HeadDeterminesChain(a: seq<Event>, b: seq<Event>)
    requires Chain(a) && Chain(b) && Last(a) == Last(b)
    ensures a == b
  {
    if a != [] && b != [] {
      var n, m := |a| - 1, |b| - 1;
      ChainSequence(a, n);
      ChainSequence(b, m);
      ChainPrefix(a, n);
      ChainPrefix(b, m);
      HeadDeterminesChain(a[..n], b[..m]);
      assert a == a[..n] + [a[n]] && b == b[..m] + [b[m]];
    }
  }

  // ---------------------------------------------------------------- epochs

  /** Epochs never decrease and rise only at an activation, by exactly one. */
  lemma EpochStep(rows: seq<Event>, i: nat)
    requires Chain(rows) && 0 < i < |rows|
    ensures rows[i].body.epoch == rows[i - 1].body.epoch
         || (rows[i].body.epoch == rows[i - 1].body.epoch + 1 && rows[i].body.kind.AuthorityActivated?)
    ensures rows[i].body.host == rows[i - 1].body.host
  {
    ChainPrefix(rows, i);
  }

  predicate ActivatesAt(rows: seq<Event>, k: nat, epoch: int) {
    k < |rows| && rows[k].body.kind.AuthorityActivated? && rows[k].body.epoch == epoch
  }

  /** Later epochs are at least the earlier ones, and any higher epoch was introduced by an activation in between. */
  lemma {:induction false} EpochsMonotone(rows: seq<Event>, i: nat, j: nat)
    requires Chain(rows) && i <= j < |rows|
    ensures rows[i].body.epoch <= rows[j].body.epoch
    ensures rows[i].body.epoch < rows[j].body.epoch
        ==> exists k :: i < k <= j && ActivatesAt(rows, k, rows[j].body.epoch)
  {
    forall k | 0 < k < |rows| ensures EpochAdvances(rows, k) { EpochStep(rows, k); }
    EpochsRise(rows, i, j);
  }

  predicate EpochAdvances(rows: seq<Event>, k: nat)
    requires 0 < k < |rows|
  {
    var before, now := rows[k - 1].body, rows[k].body;
    now.epoch == before.epoch || (now.epoch == before.epoch + 1 && now.kind.AuthorityActivated?)
  }

  lemma {:induction false} EpochsRise(rows: seq<Event>, i: nat, j: nat)
    requires i <= j < |rows|
    requires forall k :: 0 < k < |rows| ==> EpochAdvances(rows, k)
    ensures rows[i].body.epoch <= rows[j].body.epoch
    ensures rows[i].body.epoch < rows[j].body.epoch
        ==> exists k :: i < k <= j && ActivatesAt(rows, k, rows[j].body.epoch)
    decreases j
  {
    if i < j {
      assert EpochAdvances(rows, j);
      EpochsRise(rows, i, j - 1);
      if rows[j].body.epoch == rows[j - 1].body.epoch {
        if rows[i].body.epoch < rows[j].body.epoch {
          var k :| i < k <= j - 1 && ActivatesAt(rows, k, rows[j - 1].body.epoch);
          assert ActivatesAt(rows, k, rows[j].body.epoch);
        }
      } else {
        assert ActivatesAt(rows, j, rows[j].body.epoch);
      }
    }
  }

  lemma ProjectLast(rows: seq<Event>, e: Event)
    ensures Project(rows + [e]) == ProjectRow(Project(rows), e)
  {
    assert (rows + [e])[..|rows|] == rows;
  }

  /** In every accepted chain a present authority carries exactly the chain's current epoch. */
  lemma {:induction false} AuthorityEpochIsCurrent(rows: seq<Event>)
    requires Chain(rows)
    ensures Project(rows).authority.Some? ==> rows != [] && Project(rows).authority.value.epoch == rows[|rows| - 1].body.epoch
    ensures rows != [] ==> Project(rows).epoch == Some(rows[|rows| - 1].body.epoch)
  {
    if rows != [] {
      var n := |rows| - 1;
      ChainPrefix(rows, n);
      AuthorityEpochIsCurrent(rows[..n]);
      if n > 0 { EpochStep(rows, n); }
    }
  }

  // ---------------------------------------------------------------- pending effects

  /** The projection names the newest row. */
  lemma ProjectionNamesHead(rows: seq<Event>)
    requires Chain(rows) && rows != []
    ensures var p, last := Project(rows), rows[|rows| - 1];
      p.sequence == |rows| && p.head == Some(Sha(last)) && p.epoch == Some(last.body.epoch) && p.phase == Some(last.body.after)
  {
    ChainSequence(rows, |rows| - 1);
  }

  predicate Generates(row: Event) {
    && (row.body.kind.GenerationSpawned? || row.body.kind.StartObserved?)
    && row.body.effect.Some? && row.body.effect.value.status.Observed?
  }

  predicate LastGenerates(rows: seq<Event>, i: nat) {
    i < |rows| && Generates(rows[i]) && forall k :: i < k < |rows| ==> !Generates(rows[k])
  }

  /** The generation is that of the last observed spawn or start, and none without one. */
  lemma {:induction false} GenerationIsLastObserved(rows: seq<Event>)
    ensures Project(rows).generation == None <==> forall i :: 0 <= i < |rows| ==> !Generates(rows[i])
    ensures forall i: nat :: LastGenerates(rows, i) ==> Project(rows).generation == Some(rows[i].body.effect.value.desiredAfter)
    decreases |rows|
  {
    if rows != [] {
      var n := |rows| - 1;
      GenerationIsLastObserved(rows[..n]);
      forall i: nat | LastGenerates(rows, i) && i < n ensures LastGenerates(rows[..n], i) {}
      assert forall i :: 0 <= i < n ==> rows[..n][i] == rows[i];
    }
  }

  function Occurrences(ids: seq<EffectId>, id: EffectId): nat {
    if ids == [] then 0 else (if ids[0] == id then 1 else 0) + Occurrences(ids[1..], id)
  }

  predicate Touches(row: Event, id: EffectId) {
    row.body.effect.Some? && row.body.effect.value.id == id
  }

  predicate Intends(row: Event, id: EffectId) {
    Touches(row, id) && row.body.effect.value.status.Intent?
  }

  predicate Settles(row: Event, id: EffectId) {
    Touches(row, id) && Clears(row.body.effect.value.status)
  }

  /** The rows from index `from` on that state an intent for the effect. */
  function IntentsFrom(rows: seq<Event>, id: EffectId, from: nat): set<nat> {
    set i | from <= i < |rows| && IntendsAt(rows, i, id)
  }

  predicate IntendsAt(rows: seq<Event>, i: nat, id: EffectId) {
    i < |rows| && Intends(rows[i], id)
  }

  lemma {:induction false} OccurrencesAppend(ids: seq<EffectId>, x: EffectId, id: EffectId)
    ensures Occurrences(ids + [x], id) == Occurrences(ids, id) + (if x == id then 1 else 0)
  {
    if ids == [] {
      assert ids + [x] == [x];
    } else {
      assert (ids + [x])[1..] == ids[1..] + [x];
      OccurrencesAppend(ids[1..], x, id);
    }
  }

  lemma {:induction false} OccurrencesWithout(ids: seq<EffectId>, x: EffectId, id: EffectId)
    ensures Occurrences(Without(ids, x), id) == (if x == id then 0 else Occurrences(ids, id))
  {
    if ids != [] {
      OccurrencesWithout(ids[1..], x, id);
      var rest := Without(ids[1..], x);
      if ids[0] != x { assert ([ids[0]] + rest)[1..] == rest; } else { assert [] + rest == rest; }
    }
  }

  lemma {:induction false} OccursExactly(ids: seq<EffectId>, id: EffectId)
    ensures id in ids <==> Occurrences(ids, id) > 0
  {
    if ids != [] {
      OccursExactly(ids[1..], id);
      assert ids == [ids[0]] + ids[1..];
    }
  }

  /**
    The pending list holds an effect exactly as often as there are intent rows for it after the
    last row that observed, committed or blocked it. `from` is the index after that row.
   */
  lemma {:induction false} PendingCountsOpenIntents(rows: seq<Event>, id: EffectId, from: nat)
    requires from <= |rows|
    requires from > 0 ==> Settles(rows[from - 1], id)
    requires forall i :: from <= i < |rows| ==> !Settles(rows[i], id)
    ensures Occurrences(Project(rows).pending, id) == |IntentsFrom(rows, id, from)|
  {
    if rows == [] {
      assert IntentsFrom(rows, id, from) == {};
    } else {
      var n := |rows| - 1;
      PendingStep(Project(rows[..n]), rows[n], id);
      IntentsStep(rows, id, from);
      if from < |rows| {
        PendingCountsOpenIntents(rows[..n], id, from);
      }
    }
  }

  lemma OneMore(earlier: set<nat>, now: set<nat>, n: nat, hit: bool)
    requires n !in earlier
    requires forall i :: i in now <==> i in earlier || (i == n && hit)
    ensures |now| == |earlier| + if hit then 1 else 0
  {
    if hit { assert now == earlier + {n}; } else { assert now == earlier; }
  }

  lemma SameIntents(init: seq<Event>, row: Event, id: EffectId, i: nat)
    ensures IntendsAt(init + [row], i, id) <==> IntendsAt(init, i, id) || (i == |init| && Intends(row, id))
  {
    if i < |init| { assert (init + [row])[i] == init[i]; }
  }

  lemma IntentsStep(rows: seq<Event>, id: EffectId, from: nat)
    requires rows != [] && from <= |rows|
    ensures from == |rows| ==> IntentsFrom(rows, id, from) == {}
    ensures from < |rows| ==>
      |IntentsFrom(rows, id, from)| == |IntentsFrom(rows[..|rows| - 1], id, from)| + (if Intends(rows[|rows| - 1], id) then 1 else 0)
  {
    var n := |rows| - 1;
    if from < |rows| {
      var init, row := rows[..n], rows[n];
      assert rows == init + [row];
      forall i: nat ensures IntendsAt(rows, i, id) <==> IntendsAt(init, i, id) || (i == n && Intends(row, id)) {
        SameIntents(init, row, id, i);
      }
      OneMore(IntentsFrom(init, id, from), IntentsFrom(rows, id, from), n, Intends(row, id));
    }
  }

  lemma PendingStep(p: Projection, row: Event, id: EffectId)
    ensures Occurrences(ProjectRow(p, row).pending, id)
         == if Settles(row, id) then 0 else Occurrences(p.pending, id) + if Intends(row, id) then 1 else 0
  {
    if row.body.effect.Some? {
      OccurrencesAppend(p.pending, row.body.effect.value.id, id);
      OccurrencesWithout(p.pending, row.body.effect.value.id, id);
    }
  }
}
