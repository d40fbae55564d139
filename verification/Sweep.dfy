/** The paginated maintenance scan with bounded retries: server/git_maintenance.go:49-116. */
module Sweep {
  const PAGE: nat := 16
  const RETRIES: nat := 2

  /** The variables of the worker closure. */
  datatype Worker = Worker(cursor: nat, retryBatch: seq<nat>, retries: nat)

  function Above(ids: seq<nat>, cursor: nat): seq<nat> {
    if ids == [] then [] else (if ids[0] > cursor then [ids[0]] else []) + Above(ids[1..], cursor)
  }

  /** The inventory query: the next page of identifiers above the cursor. */
  function Page(ids: seq<nat>, cursor: nat): seq<nat> {
    var above := Above(ids, cursor);
    if |above| < PAGE then above else above[..PAGE]
  }

  function Busy(repos: seq<nat>, busy: set<nat>): (deferred: seq<nat>)
    ensures forall id: nat :: id in deferred <==> id in repos && id in busy
    decreases |repos|
  {
    if repos == [] then [] else
      var id := repos[|repos| - 1];
      assert repos == repos[..|repos| - 1] + [id];
      Busy(repos[..|repos| - 1], busy) + if id in busy then [id] else []
  }

  /** The repositories one call goes through. */
  function Visits(ids: seq<nat>, w: Worker): seq<nat> {
    if w.retryBatch != [] then w.retryBatch else Page(ids, w.cursor)
  }

  /** One call, when exactly the repositories in `busy` answer that they are busy. */
  function Called(ids: seq<nat>, w: Worker, busy: set<nat>): Worker {
    var repos := Visits(ids, w);
    if w.retryBatch != [] then
      Worker(w.cursor, if w.retries + 1 < RETRIES then Busy(repos, busy) else [], w.retries + 1)
    else if repos == [] then
      Worker(0, [], 0)
    else
      Worker(repos[|repos| - 1], Busy(repos, busy), 0)
  }

  class MaintenanceWorker {
    var cursor: nat
    var retryBatch: seq<nat>
    var retries: nat

    ghost function View(): Worker
      reads this
    {
      Worker(cursor, retryBatch, retries)
    }

    constructor ()
      ensures View() == Worker(0, [], 0)
    {
      cursor, retryBatch, retries := 0, [], 0;
    }

    /** The closure: the result asks for an early next call. */
    method Scan(ids: seq<nat>, busy: set<nat>) returns (again: bool)
      modifies this
      ensures View() == Called(ids, old(View()), busy) && again == (retryBatch != [])
    {
      var repos;
      var retrying := retryBatch != [];
      if retrying {
        repos, retryBatch := retryBatch, [];
        retries := retries + 1;
      } else {
        retries := 0;
        repos := Page(ids, cursor);
        if repos == [] {
          cursor := 0;
          return false;
        }
      }
      VisitEach(repos, retrying, busy);
      return retryBatch != [];
    }

    /** The loop of the closure, over the repositories of one call. */
    method VisitEach(repos: seq<nat>, retrying: bool, busy: set<nat>)
      requires repos != [] && retryBatch == []
      modifies this`cursor, this`retryBatch
      ensures cursor == if retrying then old(cursor) else repos[|repos| - 1]
      ensures retryBatch == if retries < RETRIES then Busy(repos, busy) else []
    {
      var i := 0;
      while i < |repos|
        invariant i <= |repos|
        invariant retryBatch == if retries < RETRIES then Busy(repos[..i], busy) else []
        invariant cursor == if retrying || i == 0 then old(cursor) else repos[i - 1]
      {
        if !retrying { cursor := repos[i]; }
        if repos[i] in busy && retries < RETRIES { retryBatch := retryBatch + [repos[i]]; }
        assert repos[..i + 1][..i] == repos[..i];
        i := i + 1;
      }
      assert repos[..i] == repos;
    }
  }

  // ---------------------------------------------------------------- a sweep

  /**
    The worker, the identifiers it took from pages so far, every attempt in order, and those that
    once did not answer busy.
   */
  datatype Progress = Progress(worker: Worker, taken: seq<nat>, tried: seq<nat>, settled: set<nat>)

  function Answered(repos: seq<nat>, busy: set<nat>): set<nat> {
    set id <- repos | id !in busy
  }

  function Step(ids: seq<nat>, p: Progress, busy: set<nat>): Progress {
    var repos := Visits(ids, p.worker);
    Progress(Called(ids, p.worker, busy),
             if p.worker.retryBatch != [] then p.taken else p.taken + repos,
             p.tried + repos,
             p.settled + Answered(repos, busy))
  }

  const START := Progress(Worker(0, [], 0), [], [], {})

  /** After one call for each element of the list. */
  function After(ids: seq<nat>, p: Progress, busy: seq<set<nat>>): Progress
    decreases |busy|
  {
    if busy == [] then p else After(ids, Step(ids, p, busy[0]), busy[1..])
  }

  predicate Ascending(ids: seq<nat>) {
    (forall id <- ids :: id > 0) && forall i, j :: 0 <= i < j < |ids| ==> ids[i] < ids[j]
  }

  function Cursor(ids: seq<nat>, done: nat): nat
    requires done <= |ids|
  {
    if done == 0 then 0 else ids[done - 1]
  }

  lemma AboveIsRest(ids: seq<nat>, done: nat)
    requires Ascending(ids) && done <= |ids|
    ensures Above(ids, Cursor(ids, done)) == ids[done..]
  {
    forall i | 0 <= i < |ids| ensures if i < done then ids[i] <= Cursor(ids, done) else ids[i] > Cursor(ids, done) {
      assert ids[i] in ids;
    }
    AboveFrom(ids, Cursor(ids, done), done);
  }

  lemma {:induction false} AboveFrom(ids: seq<nat>, cursor: nat, done: nat)
    requires done <= |ids|
    requires (forall i :: 0 <= i < done ==> ids[i] <= cursor) && forall i :: done <= i < |ids| ==> ids[i] > cursor
    ensures Above(ids, cursor) == ids[done..]
  {
    if ids != [] {
      if done > 0 {
        AboveFrom(ids[1..], cursor, done - 1);
        assert ids[1..][done - 1..] == ids[done..];
      } else {
        AboveFrom(ids[1..], cursor, 0);
        assert ids == [ids[0]] + ids[1..];
      }
    }
  }

  function Tries(tried: seq<nat>, id: nat): nat {
    multiset(tried)[id]
  }

  predicate Distinct(repos: seq<nat>) {
    forall i, j :: 0 <= i < j < |repos| ==> repos[i] != repos[j]
  }

  /** The batch to retry is drawn from what was taken, each element tried once more than the retries so far. */
  predicate BatchOk(w: Worker, taken: seq<nat>, tried: seq<nat>) {
    && Distinct(w.retryBatch)
    && (w.retryBatch != [] ==> w.retries < RETRIES)
    && forall id <- w.retryBatch :: id in taken && Tries(tried, id) == 1 + w.retries
  }

  predicate TriesOk(taken: seq<nat>, tried: seq<nat>) {
    && (forall id <- tried :: id in taken)
    && forall id <- taken :: 1 <= Tries(tried, id) <= 1 + RETRIES
  }

  /** Nobody is given up who has not answered or used up every try. */
  predicate SettledOk(w: Worker, taken: seq<nat>, tried: seq<nat>, settled: set<nat>) {
    forall id <- taken :: id in settled || id in w.retryBatch || Tries(tried, id) == 1 + RETRIES
  }

  /** What holds inside a sweep that has taken the first `done` identifiers. */
  predicate Inside(ids: seq<nat>, p: Progress, done: nat) {
    && done <= |ids| && p.worker.cursor == Cursor(ids, done) && p.taken == ids[..done]
    && BatchOk(p.worker, p.taken, p.tried) && TriesOk(p.taken, p.tried)
    && SettledOk(p.worker, p.taken, p.tried, p.settled)
  }

  function Pages(n: nat): nat {
    (n + PAGE - 1) / PAGE
  }

  /** The most calls a sweep can still need. */
  function Left(ids: seq<nat>, w: Worker, done: nat): int
    requires done <= |ids|
  {
    (if w.retryBatch == [] then 0 else RETRIES - w.retries) + (1 + RETRIES) * Pages(|ids| - done) + 1
  }

  lemma {:induction false} BusyDistinct(repos: seq<nat>, busy: set<nat>)
    requires Distinct(repos)
    ensures Distinct(Busy(repos, busy))
    decreases |repos|
  {
    if repos != [] { BusyDistinct(repos[..|repos| - 1], busy); }
  }

  lemma {:induction false} TriedOnce(tried: seq<nat>, repos: seq<nat>, id: nat)
    requires Distinct(repos)
    ensures Tries(tried + repos, id) == Tries(tried, id) + if id in repos then 1 else 0
    decreases |repos|
  {
    if repos == [] {
      assert tried + repos == tried;
    } else {
      var n := |repos| - 1;
      TriedOnce(tried, repos[..n], id);
      assert tried + repos == (tried + repos[..n]) + [repos[n]];
      assert repos == repos[..n] + [repos[n]];
    }
  }

  lemma RetryTries(w: Worker, taken: seq<nat>, tried: seq<nat>, busy: set<nat>)
    requires BatchOk(w, taken, tried) && TriesOk(taken, tried) && w.retryBatch != []
    ensures BatchOk(Called([], w, busy), taken, tried + w.retryBatch) && TriesOk(taken, tried + w.retryBatch)
  {
    BusyDistinct(w.retryBatch, busy);
    forall id <- taken
      ensures Tries(tried + w.retryBatch, id) == Tries(tried, id) + if id in w.retryBatch then 1 else 0
    {
      TriedOnce(tried, w.retryBatch, id);
    }
  }

  lemma RetryCall(ids: seq<nat>, p: Progress, done: nat, busy: set<nat>)
    requires Inside(ids, p, done) && p.worker.retryBatch != []
    ensures Inside(ids, Step(ids, p, busy), done)
    ensures Left(ids, Step(ids, p, busy).worker, done) < Left(ids, p.worker, done)
  {
    RetryTries(p.worker, p.taken, p.tried, busy);
    RetrySettles(p.worker, p.taken, p.tried, p.settled, busy);
  }

  lemma RetrySettles(w: Worker, taken: seq<nat>, tried: seq<nat>, settled: set<nat>, busy: set<nat>)
    requires BatchOk(w, taken, tried) && SettledOk(w, taken, tried, settled) && w.retryBatch != []
    ensures SettledOk(Called([], w, busy), taken, tried + w.retryBatch, settled + Answered(w.retryBatch, busy))
  {
    forall id <- taken
      ensures Tries(tried + w.retryBatch, id) == Tries(tried, id) + if id in w.retryBatch then 1 else 0
    {
      TriedOnce(tried, w.retryBatch, id);
    }
  }

  lemma PageSettles(w: Worker, taken: seq<nat>, tried: seq<nat>, settled: set<nat>, repos: seq<nat>, busy: set<nat>)
    requires forall id <- taken :: id in settled || Tries(tried, id) == 1 + RETRIES
    requires Distinct(repos) && (forall id <- repos :: id !in taken) && w.retryBatch == Busy(repos, busy)
    ensures SettledOk(w, taken + repos, tried + repos, settled + Answered(repos, busy))
  {
    forall id <- taken ensures Tries(tried + repos, id) == Tries(tried, id) {
      TriedOnce(tried, repos, id);
    }
  }

  lemma PageIs(ids: seq<nat>, done: nat)
    requires Ascending(ids) && done <= |ids|
    ensures Page(ids, Cursor(ids, done)) == ids[done..if |ids| - done < PAGE then |ids| else done + PAGE]
  {
    AboveIsRest(ids, done);
  }

  lemma PageTries(w: Worker, taken: seq<nat>, tried: seq<nat>, repos: seq<nat>, busy: set<nat>)
    requires TriesOk(taken, tried) && Distinct(repos) && forall id <- repos :: id !in taken
    requires w.retries == 0 && w.retryBatch == Busy(repos, busy)
    ensures BatchOk(w, taken + repos, tried + repos) && TriesOk(taken + repos, tried + repos)
  {
    BusyDistinct(repos, busy);
    forall id <- taken + repos
      ensures Tries(tried + repos, id) == Tries(tried, id) + if id in repos then 1 else 0
    {
      TriedOnce(tried, repos, id);
    }
    forall id <- repos ensures Tries(tried, id) == 0 {
      assert id !in tried;
    }
  }

  lemma PageIsNew(ids: seq<nat>, done: nat, done': nat)
    requires Ascending(ids) && done <= done' <= |ids|
    ensures ids[..done'] == ids[..done] + ids[done..done'] && Distinct(ids[done..done'])
    ensures forall id <- ids[done..done'] :: id !in ids[..done]
  {
  }

  lemma PageCall(ids: seq<nat>, p: Progress, done: nat, busy: set<nat>) returns (done': nat)
    requires Ascending(ids) && Inside(ids, p, done) && p.worker.retryBatch == [] && done < |ids|
    ensures Inside(ids, Step(ids, p, busy), done')
    ensures Left(ids, Step(ids, p, busy).worker, done') < Left(ids, p.worker, done)
  {
    PageIs(ids, done);
    done' := if |ids| - done < PAGE then |ids| else done + PAGE;
    var repos := ids[done..done'];
    var w := Worker(ids[done' - 1], Busy(repos, busy), 0);
    assert Step(ids, p, busy) == Progress(w, p.taken + repos, p.tried + repos, p.settled + Answered(repos, busy));
    PageIsNew(ids, done, done');
    PageInside(ids, p, done, done', repos, w, busy);
    FewerLeft(ids, w, done, done');
  }

  lemma PageInside(ids: seq<nat>, p: Progress, done: nat, done': nat, repos: seq<nat>, w: Worker, busy: set<nat>)
    requires Inside(ids, p, done) && p.worker.retryBatch == [] && 0 < done' <= |ids|
    requires ids[..done'] == ids[..done] + repos && Distinct(repos) && forall id <- repos :: id !in ids[..done]
    requires w == Worker(ids[done' - 1], Busy(repos, busy), 0)
    ensures Inside(ids, Progress(w, p.taken + repos, p.tried + repos, p.settled + Answered(repos, busy)), done')
  {
    var taken := ids[..done];
    PageTries(w, taken, p.tried, repos, busy);
    PageSettles(w, taken, p.tried, p.settled, repos, busy);
  }

  lemma FewerLeft(ids: seq<nat>, w: Worker, done: nat, done': nat)
    requires done < done' <= |ids| && (done' == |ids| || done' == done + PAGE) && w.retries == 0
    ensures Left(ids, w, done') < Left(ids, Worker(0, [], 0), done)
  {
  }

  /** As long as the sweep is not over, a call keeps what holds and uses up one of the calls left. */
  lemma SweepCall(ids: seq<nat>, p: Progress, done: nat, busy: set<nat>) returns (done': nat)
    requires Ascending(ids) && Inside(ids, p, done) && (p.worker.retryBatch != [] || done < |ids|)
    ensures Inside(ids, Step(ids, p, busy), done')
    ensures Left(ids, Step(ids, p, busy).worker, done') < Left(ids, p.worker, done)
  {
    if p.worker.retryBatch != [] {
      RetryCall(ids, p, done, busy);
      done' := done;
    } else {
      done' := PageCall(ids, p, done, busy);
    }
  }

  lemma LastCall(ids: seq<nat>, p: Progress, busy: set<nat>)
    requires Ascending(ids) && Inside(ids, p, |ids|) && p.worker.retryBatch == []
    ensures Step(ids, p, busy) == Progress(Worker(0, [], 0), p.taken, p.tried, p.settled)
  {
    PageIs(ids, |ids|);
  }

  lemma AfterStep(ids: seq<nat>, p: Progress, busy: seq<set<nat>>, k: nat)
    requires 0 < k <= |busy|
    ensures After(ids, p, busy[..k]) == After(ids, Step(ids, p, busy[0]), busy[1..][..k - 1])
  {
    assert busy[..k][1..] == busy[1..][..k - 1];
  }

  lemma {:induction false} SweepFrom(ids: seq<nat>, p: Progress, done: nat, busy: seq<set<nat>>)
    returns (k: nat, last: Progress)
    requires Ascending(ids) && Inside(ids, p, done) && |busy| >= Left(ids, p.worker, done)
    ensures k < Left(ids, p.worker, done) && k < |busy| && last == After(ids, p, busy[..k])
    ensures Inside(ids, last, |ids|) && last.worker.retryBatch == []
    decreases |busy|
  {
    if p.worker.retryBatch != [] || done < |ids| {
      var done' := SweepCall(ids, p, done, busy[0]);
      k, last := SweepFrom(ids, Step(ids, p, busy[0]), done', busy[1..]);
      k := k + 1;
      AfterStep(ids, p, busy, k);
    } else {
      k, last := 0, p;
    }
  }

  lemma {:induction false} AfterOneMore(ids: seq<nat>, p: Progress, busy: seq<set<nat>>, k: nat)
    requires k < |busy|
    ensures After(ids, p, busy[..k + 1]) == Step(ids, After(ids, p, busy[..k]), busy[k])
    decreases k
  {
    AfterStep(ids, p, busy, k + 1);
    if k > 0 {
      AfterStep(ids, p, busy, k);
      AfterOneMore(ids, Step(ids, p, busy[0]), busy[1..], k - 1);
    }
  }

  /**
    Whatever answers busy and however often: within 3 * ceil(n / 16) + 1 calls the sweep is over and
    the worker is back where it started. By then every identifier came from a page exactly once, in
    ascending order, each was tried at least once and at most three times, and only one that
    answered busy three times was given up.
   */
  lemma SweepEnds(ids: seq<nat>, busy: seq<set<nat>>) returns (k: nat)
    requires Ascending(ids) && |busy| >= 3 * Pages(|ids|) + 1
    ensures 1 <= k <= 3 * Pages(|ids|) + 1
    ensures var p := After(ids, START, busy[..k]);
      && p.worker == START.worker
      && p.taken == ids
      && (forall id <- p.tried :: id in ids)
      && (forall id <- ids :: 1 <= Tries(p.tried, id) <= 3)
      && (forall id <- ids :: id in p.settled || Tries(p.tried, id) == 3)
  {
    var calls, last := SweepFrom(ids, START, 0, busy);
    k := calls + 1;
    AfterOneMore(ids, START, busy, calls);
    LastCall(ids, last, busy[calls]);
    assert ids[..|ids|] == ids;
  }
}
