/** The descendant worklist over the process table: scripts/upgrade_adapter_launchd.py:75-110. */
module Descendants {
  import opened Basics

  /** A line of the listing. */
  datatype Row = Row(pid: nat, parent: nat)

  predicate Alive(rows: seq<Row>, pid: nat) {
    exists row <- rows :: row.pid == pid
  }

  predicate IsChild(rows: seq<Row>, pid: nat, parent: nat) {
    Row(pid, parent) in rows
  }

  /** A usable identifier among the three the service names. */
  predicate IsNamed(service: seq<Option<int>>, pid: nat) {
    pid > 0 && Some(pid as int) in service
  }

  /** A chain of child links down from a named process that is alive. */
  predicate IsPath(rows: seq<Row>, service: seq<Option<int>>, path: seq<nat>)
    decreases |path|
  {
    var n := |path|;
    && n > 0
    && if n == 1 then IsNamed(service, path[0]) && Alive(rows, path[0])
       else IsPath(rows, service, path[..n - 1]) && IsChild(rows, path[n - 1], path[n - 2])
  }

  ghost predicate Reachable(rows: seq<Row>, service: seq<Option<int>>, pid: nat) {
    exists path :: IsPath(rows, service, path) && path[|path| - 1] == pid
  }

  lemma NamedReachable(rows: seq<Row>, service: seq<Option<int>>, pid: nat)
    requires IsNamed(service, pid) && Alive(rows, pid)
    ensures Reachable(rows, service, pid)
  {
    assert IsPath(rows, service, [pid]);
    assert [pid][|[pid]| - 1] == pid;
  }

  lemma ChildReachable(rows: seq<Row>, service: seq<Option<int>>, pid: nat, parent: nat)
    requires Reachable(rows, service, parent) && IsChild(rows, pid, parent)
    ensures Reachable(rows, service, pid)
  {
    var path :| IsPath(rows, service, path) && path[|path| - 1] == parent;
    var longer := path + [pid];
    assert longer[..|longer| - 1] == path;
    assert IsPath(rows, service, longer) && longer[|longer| - 1] == pid;
  }

  /** Whatever is closed under child links and holds the named live processes holds every reachable one. */
  lemma {:induction false} ClosedHoldsPath(rows: seq<Row>, service: seq<Option<int>>, closed: set<nat>, path: seq<nat>)
    requires forall pid: nat :: IsNamed(service, pid) && Alive(rows, pid) ==> pid in closed
    requires forall pid, parent :: parent in closed && IsChild(rows, pid, parent) ==> pid in closed
    requires IsPath(rows, service, path)
    ensures path[|path| - 1] in closed
    decreases |path|
  {
    if |path| > 1 { ClosedHoldsPath(rows, service, closed, path[..|path| - 1]); }
  }

  function LivePids(rows: seq<Row>): set<nat> {
    set row <- rows :: row.pid
  }

  predicate Distinct(pids: seq<nat>) {
    forall i, j :: 0 <= i < j < |pids| ==> pids[i] != pids[j]
  }

  /** The identifiers in `service` that are positive. */
  method Named(service: seq<Option<int>>) returns (named: seq<nat>)
    ensures forall pid: nat :: pid in named <==> IsNamed(service, pid)
  {
    named := [];
    var i := 0;
    while i < |service|
      invariant i <= |service|
      invariant forall pid: nat :: pid in named <==> IsNamed(service[..i], pid)
    {
      assert service[..i + 1] == service[..i] + [service[i]];
      match service[i] {
        case Some(value) => if value > 0 { named := named + [value]; }
        case None =>
      }
      i := i + 1;
    }
    assert service[..i] == service;
  }

  type Table = map<nat, seq<nat>>

  predicate Lists(children: Table, pid: nat, parent: nat) {
    parent in children && pid in children[parent]
  }

  function AddChild(children: Table, row: Row): Table {
    children[row.parent := (if row.parent in children then children[row.parent] else []) + [row.pid]]
  }

  lemma AddChildLists(children: Table, row: Row, pid: nat, parent: nat)
    ensures Lists(AddChild(children, row), pid, parent) <==> Lists(children, pid, parent) || row == Row(pid, parent)
  {
  }

  /** The children of every parent, and who is alive. */
  method ReadTable(rows: seq<Row>) returns (children: Table, alive: set<nat>)
    ensures alive == LivePids(rows)
    ensures forall pid, parent :: Lists(children, pid, parent) <==> IsChild(rows, pid, parent)
  {
    children, alive := map[], {};
    var i := 0;
    while i < |rows|
      invariant i <= |rows| && alive == LivePids(rows[..i])
      invariant forall pid, parent :: Lists(children, pid, parent) <==> IsChild(rows[..i], pid, parent)
    {
      assert rows[..i + 1] == rows[..i] + [rows[i]];
      forall pid, parent
        ensures Lists(AddChild(children, rows[i]), pid, parent) <==> IsChild(rows[..i + 1], pid, parent)
      {
        AddChildLists(children, rows[i], pid, parent);
      }
      alive := alive + {rows[i].pid};
      children := AddChild(children, rows[i]);
      i := i + 1;
    }
    assert rows[..i] == rows;
  }

  ghost predicate AllReachable(rows: seq<Row>, service: seq<Option<int>>, pids: seq<nat>) {
    forall pid <- pids :: Reachable(rows, service, pid) && pid in LivePids(rows)
  }

  /** Seen processes have their children seen or pending. */
  predicate ChildrenCovered(rows: seq<Row>, seen: set<nat>, pending: seq<nat>) {
    forall row <- rows :: row.parent in seen ==> row.pid in seen || row.pid in pending
  }

  ghost predicate NamedCovered(rows: seq<Row>, service: seq<Option<int>>, seen: set<nat>, pending: seq<nat>) {
    forall pid: nat :: IsNamed(service, pid) && Alive(rows, pid) ==> pid in seen || pid in pending
  }

  lemma ChildrenReachable(rows: seq<Row>, service: seq<Option<int>>, parent: nat, children: seq<nat>)
    requires Reachable(rows, service, parent) && forall pid <- children :: IsChild(rows, pid, parent)
    ensures AllReachable(rows, service, children)
  {
    forall pid <- children ensures Reachable(rows, service, pid) && pid in LivePids(rows) {
      ChildReachable(rows, service, pid, parent);
      assert Row(pid, parent) in rows;
    }
  }

  lemma SeenIsReachable(rows: seq<Row>, service: seq<Option<int>>, seen: set<nat>)
    requires ChildrenCovered(rows, seen, []) && NamedCovered(rows, service, seen, [])
    ensures forall pid: nat :: Reachable(rows, service, pid) ==> pid in seen
  {
    forall pid: nat | Reachable(rows, service, pid) ensures pid in seen {
      var path :| IsPath(rows, service, path) && path[|path| - 1] == pid;
      forall child, parent | parent in seen && IsChild(rows, child, parent) ensures child in seen {
        assert Row(child, parent) in rows;
      }
      ClosedHoldsPath(rows, service, seen, path);
    }
  }

  /** What holds each time round the worklist. */
  ghost predicate Work(rows: seq<Row>, service: seq<Option<int>>, found: seq<nat>, seen: set<nat>, pending: seq<nat>) {
    && (forall pid: nat :: pid in found <==> pid in seen) && Distinct(found) && seen <= LivePids(rows)
    && AllReachable(rows, service, pending) && AllReachable(rows, service, found)
    && ChildrenCovered(rows, seen, pending) && NamedCovered(rows, service, seen, pending)
  }

  method Seeds(rows: seq<Row>, service: seq<Option<int>>, named: seq<nat>, alive: set<nat>) returns (pending: seq<nat>)
    requires alive == LivePids(rows) && forall pid: nat :: pid in named <==> IsNamed(service, pid)
    ensures Work(rows, service, [], {}, pending)
  {
    pending := [];
    var i := 0;
    while i < |named|
      invariant i <= |named| && AllReachable(rows, service, pending)
      invariant forall pid <- named[..i] :: pid in alive ==> pid in pending
    {
      assert named[..i + 1] == named[..i] + [named[i]];
      if named[i] in alive {
        NamedReachable(rows, service, named[i]);
        pending := pending + [named[i]];
      }
      i := i + 1;
    }
    assert named[..i] == named;
    forall pid: nat | IsNamed(service, pid) && Alive(rows, pid) ensures pid in pending {
      assert pid in LivePids(rows);
    }
  }

  lemma SkipKept(rows: seq<Row>, service: seq<Option<int>>, found: seq<nat>, seen: set<nat>, rest: seq<nat>, current: nat)
    requires Work(rows, service, found, seen, rest + [current]) && current in seen
    ensures Work(rows, service, found, seen, rest)
  {
    forall pid <- rest ensures pid in rest + [current] {}
    forall pid: nat | pid in rest + [current] ensures pid in rest || pid == current {}
  }

  lemma TakeKept(rows: seq<Row>, service: seq<Option<int>>, found: seq<nat>, seen: set<nat>, rest: seq<nat>, current: nat,
                 below: seq<nat>)
    requires Work(rows, service, found, seen, rest + [current]) && current !in seen
    requires forall pid: nat :: pid in below <==> IsChild(rows, pid, current)
    ensures Work(rows, service, found + [current], seen + {current}, rest + below)
  {
    assert current in rest + [current];
    ChildrenReachable(rows, service, current, below);
    forall pid <- rest ensures pid in rest + [current] && pid in rest + below {}
    forall pid <- below ensures pid in rest + below {}
    forall pid: nat | pid in rest + [current] ensures pid in rest || pid == current {}
    forall row <- rows | row.parent in seen + {current}
      ensures row.pid in seen + {current} || row.pid in rest + below
    {
      assert row == Row(row.pid, row.parent);
      if row.parent == current { assert IsChild(rows, row.pid, current); }
    }
  }

  lemma WorkDone(rows: seq<Row>, service: seq<Option<int>>, found: seq<nat>, seen: set<nat>)
    requires Work(rows, service, found, seen, [])
    ensures Distinct(found) && forall pid: nat :: pid in found <==> Reachable(rows, service, pid)
  {
    SeenIsReachable(rows, service, seen);
  }

  /** One time round the worklist. */
  method Turn(rows: seq<Row>, service: seq<Option<int>>, children: Table, alive: set<nat>,
              found: seq<nat>, seen: set<nat>, pending: seq<nat>)
    returns (found': seq<nat>, seen': set<nat>, pending': seq<nat>)
    requires alive == LivePids(rows) && pending != [] && Work(rows, service, found, seen, pending)
    requires forall pid, parent :: Lists(children, pid, parent) <==> IsChild(rows, pid, parent)
    ensures Work(rows, service, found', seen', pending')
    ensures |alive - seen'| < |alive - seen| || (seen' == seen && |pending'| < |pending|)
  {
    var n := |pending| - 1;
    var current, rest := pending[n], pending[..n];
    assert pending == rest + [current] && current in pending;
    if current in seen {
      SkipKept(rows, service, found, seen, rest, current);
      return found, seen, rest;
    }
    var below := if current in children then children[current] else [];
    assert forall pid: nat :: pid in below <==> Lists(children, pid, current);
    TakeKept(rows, service, found, seen, rest, current, below);
    SmallerSet(alive - (seen + {current}), alive - seen);
    return found + [current], seen + {current}, rest + below;
  }

  /**
    Ends on every table, cyclic ones included, and finds each process that child links reach from a
    named live one exactly once, and nothing else.
   */
  method Enumerate(rows: seq<Row>, service: seq<Option<int>>) returns (found: seq<nat>)
    ensures Distinct(found)
    ensures forall pid: nat :: pid in found <==> Reachable(rows, service, pid)
  {
    var named := Named(service);
    if named == [] {
      forall pid: nat ensures !Reachable(rows, service, pid) { NoneNamed(rows, service, pid); }
      return [];
    }
    var children, alive := ReadTable(rows);
    var pending := Seeds(rows, service, named, alive);
    var seen: set<nat> := {};
    found := [];
    while pending != []
      invariant Work(rows, service, found, seen, pending)
      decreases |alive - seen|, |pending|
    {
      found, seen, pending := Turn(rows, service, children, alive, found, seen, pending);
    }
    WorkDone(rows, service, found, seen);
  }

  lemma NoneNamed(rows: seq<Row>, service: seq<Option<int>>, pid: nat)
    requires forall p: nat :: !IsNamed(service, p)
    ensures !Reachable(rows, service, pid)
  {
    forall path | IsPath(rows, service, path) ensures false { PathStarts(rows, service, path); }
  }

  lemma {:induction false} PathStarts(rows: seq<Row>, service: seq<Option<int>>, path: seq<nat>)
    requires IsPath(rows, service, path)
    ensures IsNamed(service, path[0])
    decreases |path|
  {
    if |path| > 1 { PathStarts(rows, service, path[..|path| - 1]); }
  }
}
