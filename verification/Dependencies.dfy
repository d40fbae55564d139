/** The dependency search of validate_group (scripts/upgrade_backup_contract.py:216-231). */
module Dependencies {
  import opened Basics

  type Id = string

  /** depends_on by object id. */
  type Graph = map<Id, seq<Id>>

  const MAX_DEPTH := 128

  datatype Search = Done(done: set<Id>) | DepthBudget | MissingOrCycle

  function Visit(g: Graph, key: Id, visiting: set<Id>, done: set<Id>): Search
    decreases |g.Keys - visiting|, 0
  {
    if |visiting| >= MAX_DEPTH then DepthBudget
    else if key !in g || key in visiting then MissingOrCycle
    else if key in done then Done(done)
    else
      assert g.Keys - (visiting + {key}) < g.Keys - visiting by {
        assert key in g.Keys - visiting && key !in g.Keys - (visiting + {key});
      }
      SmallerSet(g.Keys - (visiting + {key}), g.Keys - visiting);
      var inner := VisitAll(g, g[key], visiting + {key}, done);
      if inner.Done? then Done(inner.done + {key}) else inner
  }

  function VisitAll(g: Graph, keys: seq<Id>, visiting: set<Id>, done: set<Id>): Search
    decreases |g.Keys - visiting|, |keys| + 1
  {
    if keys == [] then Done(done)
    else
      var first := Visit(g, keys[0], visiting, done);
      if first.Done? then VisitAll(g, keys[1..], visiting, first.done) else first
  }

  /** The whole search: every object, in the order the group lists them. */
  predicate Accepts(g: Graph, listed: seq<Id>) {
    VisitAll(g, listed, {}, {}).Done?
  }

  /** The search as the nested function runs it, on two sets changed in place. */
  class DependencySearch {
    const graph: Graph
    var visiting: set<Id>
    var done: set<Id>

    constructor (graph: Graph)
      ensures this.graph == graph && visiting == {} && done == {}
    {
      this.graph, visiting, done := graph, {}, {};
    }

    method VisitObject(key: Id) returns (result: Search)
      modifies this
      ensures result == Visit(graph, key, old(visiting), old(done))
      ensures result.Done? ==> visiting == old(visiting) && done == result.done
      decreases |graph.Keys - visiting|, 0
    {
      if |visiting| >= MAX_DEPTH { return DepthBudget; }
      if key !in graph || key in visiting { return MissingOrCycle; }
      if key in done { return Done(done); }
      ghost var before := visiting;
      assert key in graph.Keys - visiting && key !in graph.Keys - (visiting + {key});
      SmallerSet(graph.Keys - (visiting + {key}), graph.Keys - visiting);
      visiting := visiting + {key};
      result := VisitObjects(graph[key]);
      if result.Done? {
        visiting := visiting - {key};
        assert visiting == before;
        done := done + {key};
        result := Done(done);
      }
    }

    /** A `for` over keys that stops at the first refusal. */
    method VisitObjects(keys: seq<Id>) returns (result: Search)
      modifies this
      ensures result == VisitAll(graph, keys, old(visiting), old(done))
      ensures result.Done? ==> visiting == old(visiting) && done == result.done
      decreases |graph.Keys - visiting|, |keys| + 1
    {
      var i := 0;
      while i < |keys|
        invariant 0 <= i <= |keys|
        invariant visiting == old(visiting)
        invariant VisitAll(graph, keys[i..], visiting, done) == VisitAll(graph, keys, old(visiting), old(done))
      {
        assert keys[i..][0] == keys[i] && keys[i..][1..] == keys[i + 1..];
        result := VisitObject(keys[i]);
        if !result.Done? { return; }
        i := i + 1;
      }
      return Done(done);
    }
  }

  // ---------------------------------------------------------------- what acceptance means

  predicate Closed(g: Graph) {
    forall k <- g :: forall d <- g[k] :: d in g
  }

  /** Every ranked object has only ranked dependencies, each of lower rank. */
  predicate Grades(g: Graph, rank: map<Id, nat>, bound: nat) {
    forall k <- rank :: k in g && rank[k] < bound && forall d <- g[k] :: d in rank && rank[d] < rank[k]
  }

  ghost predicate Graded(g: Graph, done: set<Id>) {
    exists rank: map<Id, nat>, bound: nat :: rank.Keys == done && Grades(g, rank, bound)
  }

  /** A topological rank of the whole graph. */
  ghost predicate Acyclic(g: Graph) {
    exists rank: map<Id, nat> :: RanksAll(g, rank)
  }

  predicate RanksAll(g: Graph, rank: map<Id, nat>) {
    && g.Keys <= rank.Keys
    && forall k <- g :: forall d <- g[k] :: d in rank && rank[d] < rank[k]
  }

  lemma GradeOneMore(g: Graph, done: set<Id>, key: Id)
    requires Graded(g, done) && key in g && key !in done && forall d <- g[key] :: d in done
    ensures Graded(g, done + {key})
  {
    var rank: map<Id, nat>, bound: nat :| rank.Keys == done && Grades(g, rank, bound);
    var rank' := rank[key := bound];
    assert rank'.Keys == done + {key};
    assert Grades(g, rank', bound + 1);
  }

  lemma {:induction false} VisitSound(g: Graph, key: Id, visiting: set<Id>, done: set<Id>)
    requires Graded(g, done)
    ensures var result := Visit(g, key, visiting, done);
      result.Done? ==> Graded(g, result.done) && done <= result.done && key in result.done && (result.done - done) !! visiting
    decreases |g.Keys - visiting|, 0
  {
    if |visiting| < MAX_DEPTH && key in g && key !in visiting && key !in done {
      assert key in g.Keys - visiting && key !in g.Keys - (visiting + {key});
      SmallerSet(g.Keys - (visiting + {key}), g.Keys - visiting);
      VisitAllSound(g, g[key], visiting + {key}, done);
      var inner := VisitAll(g, g[key], visiting + {key}, done);
      if inner.Done? { GradeOneMore(g, inner.done, key); }
    }
  }

  lemma {:induction false} VisitAllSound(g: Graph, keys: seq<Id>, visiting: set<Id>, done: set<Id>)
    requires Graded(g, done)
    ensures var result := VisitAll(g, keys, visiting, done);
      result.Done? ==> Graded(g, result.done) && done <= result.done && (forall k <- keys :: k in result.done)
                       && (result.done - done) !! visiting
    decreases |g.Keys - visiting|, |keys| + 1
  {
    if keys != [] {
      VisitSound(g, keys[0], visiting, done);
      var first := Visit(g, keys[0], visiting, done);
      if first.Done? {
        VisitAllSound(g, keys[1..], visiting, first.done);
        assert forall k <- keys :: k == keys[0] || k in keys[1..];
      }
    }
  }

  /** Acceptance implies that every dependency names an object and that a topological rank exists. */
  lemma AcceptedIsSound(g: Graph, listed: seq<Id>)
    requires forall k <- g :: k in listed
    requires Accepts(g, listed)
    ensures Closed(g) && Acyclic(g)
  {
    var none: map<Id, nat> := map[];
    assert none.Keys == {} && Grades(g, none, 0);
    VisitAllSound(g, listed, {}, {});
    var rank: map<Id, nat>, bound: nat :| rank.Keys == VisitAll(g, listed, {}, {}).done && Grades(g, rank, bound);
    assert RanksAll(g, rank);
  }

  // ---------------------------------------------------------------- when the search accepts

  /** A chain of dependencies, each named by the one before it. */
  predicate Path(g: Graph, p: seq<Id>) {
    && (forall k <- p :: k in g)
    && forall i :: 0 <= i < |p| - 1 ==> Linked(g, p, i)
  }

  predicate Linked(g: Graph, p: seq<Id>, i: nat)
    requires i < |p| - 1
  {
    p[i] in g && p[i + 1] in g[p[i]]
  }

  lemma PathSnoc(g: Graph, p: seq<Id>, key: Id)
    requires Path(g, p) && key in g && (p != [] ==> key in g[p[|p| - 1]])
    ensures Path(g, p + [key])
  {
    var q := p + [key];
    forall i | 0 <= i < |q| - 1 ensures Linked(g, q, i) {
      if i < |p| - 1 { assert Linked(g, p, i); }
    }
  }

  ghost predicate ShortPaths(g: Graph) {
    forall p :: Path(g, p) ==> |p| <= MAX_DEPTH
  }

  function Members(p: seq<Id>): set<Id> {
    set k | k in p
  }

  lemma {:induction false} MembersBound(p: seq<Id>)
    ensures |Members(p)| <= |p|
  {
    if p == [] {
      assert Members(p) == {};
    } else {
      MembersBound(p[1..]);
      assert Members(p) == {p[0]} + Members(p[1..]);
    }
  }

  lemma {:induction false} RankFalls(g: Graph, rank: map<Id, nat>, p: seq<Id>, i: nat)
    requires RanksAll(g, rank) && Path(g, p) && i < |p| - 1
    ensures rank[p[|p| - 1]] < rank[p[i]]
    decreases |p| - i
  {
    assert Linked(g, p, i);
    if i + 1 < |p| - 1 { RankFalls(g, rank, p, i + 1); }
  }

  lemma {:induction false} VisitComplete(g: Graph, rank: map<Id, nat>, stack: seq<Id>, key: Id, done: set<Id>)
    requires Closed(g) && RanksAll(g, rank) && ShortPaths(g) && Path(g, stack + [key])
    ensures Visit(g, key, Members(stack), done).Done?
    decreases |g.Keys - Members(stack)|, 0
  {
    var path, visiting := stack + [key], Members(stack);
    assert path[|stack|] == key;
    MembersBound(stack);
    if key in visiting {
      var i :| 0 <= i < |stack| && stack[i] == key;
      assert path[i] == key;
      RankFalls(g, rank, path, i);
    }
    if key !in visiting && key !in done {
      assert key in g.Keys - visiting && key !in g.Keys - (visiting + {key});
      SmallerSet(g.Keys - (visiting + {key}), g.Keys - visiting);
      assert Members(path) == visiting + {key};
      VisitAllComplete(g, rank, path, g[key], done);
    }
  }

  lemma {:induction false} VisitAllComplete(g: Graph, rank: map<Id, nat>, stack: seq<Id>, keys: seq<Id>, done: set<Id>)
    requires Closed(g) && RanksAll(g, rank) && ShortPaths(g) && Path(g, stack)
    requires forall k <- keys :: k in g && (stack != [] ==> k in g[stack[|stack| - 1]])
    ensures VisitAll(g, keys, Members(stack), done).Done?
    decreases |g.Keys - Members(stack)|, |keys| + 1
  {
    if keys != [] {
      PathSnoc(g, stack, keys[0]);
      VisitComplete(g, rank, stack, keys[0], done);
      VisitAllComplete(g, rank, stack, keys[1..], Visit(g, keys[0], Members(stack), done).done);
    }
  }

  /** On graphs whose dependency paths hold at most 128 objects, the search decides exactly: closed and acyclic. */
  lemma SearchExact(g: Graph, listed: seq<Id>)
    requires ShortPaths(g) && Members(listed) == g.Keys
    ensures Accepts(g, listed) <==> Closed(g) && Acyclic(g)
  {
    assert forall k <- g :: k in Members(listed);
    if Accepts(g, listed) { AcceptedIsSound(g, listed); }
    if Closed(g) && Acyclic(g) {
      var rank :| RanksAll(g, rank);
      assert Members([]) == {};
      assert forall k <- listed :: k in Members(listed);
      VisitAllComplete(g, rank, [], listed, {});
    }
  }

  // ---------------------------------------------------------------- longer paths

  /** Each object comes after everything it depends on. */
  predicate DependenciesFirst(g: Graph, listed: seq<Id>) {
    forall i :: 0 <= i < |listed| ==> listed[i] in g && forall d <- g[listed[i]] :: d in listed[..i]
  }

  lemma {:induction false} AllDone(g: Graph, keys: seq<Id>, visiting: set<Id>, done: set<Id>)
    requires |visiting| < MAX_DEPTH && forall k <- keys :: k in g && k in done && k !in visiting
    ensures VisitAll(g, keys, visiting, done) == Done(done)
    decreases |keys|
  {
    if keys != [] { AllDone(g, keys[1..], visiting, done); }
  }

  lemma {:induction false} ListedSoFar(g: Graph, listed: seq<Id>, n: nat)
    requires DependenciesFirst(g, listed) && n <= |listed|
    requires forall i, j :: 0 <= i < j < |listed| ==> listed[i] != listed[j]
    ensures VisitAll(g, listed[n..], {}, Members(listed[..n])) == Done(Members(listed))
    decreases |listed| - n
  {
    if n == |listed| {
      assert listed[..n] == listed;
    } else {
      var key, done := listed[n], Members(listed[..n]);
      assert listed[n..][0] == key && listed[n..][1..] == listed[n + 1..];
      assert key !in listed[..n] && key !in done;
      AllDone(g, g[key], {key}, done);
      assert {} + {key} == {key};
      assert Visit(g, key, {}, done) == Done(done + {key});
      assert Members(listed[..n + 1]) == done + {key} by { assert listed[..n + 1] == listed[..n] + [key]; }
      ListedSoFar(g, listed, n + 1);
    }
  }

  /** Listed dependencies first, any closed acyclic graph is accepted, however long its paths are. */
  lemma DependenciesFirstAccepted(g: Graph, listed: seq<Id>)
    requires DependenciesFirst(g, listed)
    requires forall i, j :: 0 <= i < j < |listed| ==> listed[i] != listed[j]
    ensures Accepts(g, listed)
  {
    assert listed[0..] == listed && Members(listed[..0]) == {};
    ListedSoFar(g, listed, 0);
  }

  /** p follows the first dependency at every step. */
  predicate FirstPath(g: Graph, p: seq<Id>) {
    && (forall i, j :: 0 <= i < j < |p| ==> p[i] != p[j])
    && (forall i :: 0 <= i < |p| ==> p[i] in g)
    && forall i :: 0 <= i < |p| - 1 ==> FirstLink(g, p, i)
  }

  predicate FirstLink(g: Graph, p: seq<Id>, i: nat)
    requires i < |p| - 1
  {
    p[i] in g && g[p[i]] != [] && g[p[i]][0] == p[i + 1]
  }

  lemma {:induction false} DistinctMembers(p: seq<Id>)
    requires forall i, j :: 0 <= i < j < |p| ==> p[i] != p[j]
    ensures |Members(p)| == |p|
  {
    if p == [] {
      assert Members(p) == {};
    } else {
      DistinctMembers(p[1..]);
      assert Members(p) == {p[0]} + Members(p[1..]);
      assert p[0] !in Members(p[1..]);
    }
  }

  lemma MembersNext(p: seq<Id>, n: nat)
    requires n < |p| && forall i, j :: 0 <= i < j < |p| ==> p[i] != p[j]
    ensures Members(p[..n + 1]) == Members(p[..n]) + {p[n]} && p[n] !in Members(p[..n]) && |Members(p[..n])| == n
  {
    assert p[..n + 1] == p[..n] + [p[n]];
    DistinctMembers(p[..n]);
  }

  /** A refusal at the first dependency is the refusal of the whole visit. */
  lemma FirstRefusal(g: Graph, key: Id, visiting: set<Id>, done: set<Id>)
    requires |visiting| < MAX_DEPTH && key in g && key !in visiting && key !in done && g[key] != []
    requires Visit(g, g[key][0], visiting + {key}, done) == DepthBudget
    ensures Visit(g, key, visiting, done) == DepthBudget
  {
  }

  lemma {:induction false} DeepVisit(g: Graph, p: seq<Id>, n: nat)
    requires FirstPath(g, p) && |p| > MAX_DEPTH && n <= MAX_DEPTH
    ensures Visit(g, p[n], Members(p[..n]), {}) == DepthBudget
    decreases MAX_DEPTH - n
  {
    MembersNext(p, n);
    if n < MAX_DEPTH {
      DeepVisit(g, p, n + 1);
      assert FirstLink(g, p, n);
      FirstRefusal(g, p[n], Members(p[..n]), {});
    }
  }

  /** A path of more than 128 objects that takes the first dependency at every step is refused when its start is listed first. */
  lemma LongPathFirstRefused(g: Graph, p: seq<Id>, listed: seq<Id>)
    requires FirstPath(g, p) && |p| > MAX_DEPTH && listed != [] && listed[0] == p[0]
    ensures VisitAll(g, listed, {}, {}) == DepthBudget
  {
    assert Members(p[..0]) == {};
    DeepVisit(g, p, 0);
  }

  function ChainOf(p: seq<Id>): Graph {
    if p == [] then map[] else ChainOf(p[1..])[p[0] := if |p| == 1 then [] else [p[1]]]
  }

  /** The chain listed from its far end. */
  function FarEndFirst(p: seq<Id>): seq<Id> {
    seq(|p|, k requires 0 <= k < |p| => p[|p| - 1 - k])
  }

  lemma {:induction false} ChainAt(p: seq<Id>, i: nat)
    requires i < |p| && forall a, b :: 0 <= a < b < |p| ==> p[a] != p[b]
    ensures p[i] in ChainOf(p) && ChainOf(p)[p[i]] == if i == |p| - 1 then [] else [p[i + 1]]
  {
    if i > 0 { ChainAt(p[1..], i - 1); }
  }

  /** A chain of more than 128 objects is accepted listed one way round and refused the other. */
  lemma ListingOrderDecides(p: seq<Id>)
    requires |p| > MAX_DEPTH && forall i, j :: 0 <= i < j < |p| ==> p[i] != p[j]
    ensures Accepts(ChainOf(p), FarEndFirst(p)) && VisitAll(ChainOf(p), p, {}, {}) == DepthBudget
  {
    forall i | 0 <= i < |p| ensures p[i] in ChainOf(p) && (i < |p| - 1 ==> FirstLink(ChainOf(p), p, i)) {
      ChainAt(p, i);
    }
    LongPathFirstRefused(ChainOf(p), p, p);
    FarEndListsDependenciesFirst(p);
    DependenciesFirstAccepted(ChainOf(p), FarEndFirst(p));
  }

  lemma FarEndListsDependenciesFirst(p: seq<Id>)
    requires forall i, j :: 0 <= i < j < |p| ==> p[i] != p[j]
    ensures DependenciesFirst(ChainOf(p), FarEndFirst(p))
    ensures forall i, j :: 0 <= i < j < |FarEndFirst(p)| ==> FarEndFirst(p)[i] != FarEndFirst(p)[j]
  {
    var back, n := FarEndFirst(p), |p|;
    forall i | 0 <= i < |back| ensures back[i] in ChainOf(p) && forall d <- ChainOf(p)[back[i]] :: d in back[..i] {
      ChainAt(p, n - 1 - i);
      if i > 0 { assert back[..i][i - 1] == p[n - i]; }
    }
  }

  // ---------------------------------------------------------------- exactly when the order never matters

  /** The same dependencies, each object's listed in some other order. */
  ghost predicate Reorders(g: Graph, h: Graph) {
    g.Keys == h.Keys && forall k <- g :: multiset(g[k]) == multiset(h[k])
  }

  /** Accepted in whatever order the objects and each object's dependencies are listed. */
  ghost predicate OrderFree(g: Graph) {
    forall h: Graph, listed: seq<Id> :: Reorders(g, h) && Members(listed) == g.Keys ==> Accepts(h, listed)
  }

  lemma SameDependencies(g: Graph, h: Graph, k: Id, d: Id)
    requires Reorders(g, h) && k in g
    ensures d in g[k] <==> d in h[k]
  {
    assert d in g[k] <==> d in multiset(g[k]);
    assert d in h[k] <==> d in multiset(h[k]);
  }

  lemma PathReordered(g: Graph, h: Graph, p: seq<Id>)
    requires Reorders(g, h) && Path(h, p)
    ensures Path(g, p)
  {
    forall i | 0 <= i < |p| - 1 ensures Linked(g, p, i) {
      assert Linked(h, p, i);
      SameDependencies(g, h, p[i], p[i + 1]);
    }
  }

  /** With short paths every order is accepted. */
  lemma ShortIsOrderFree(g: Graph)
    requires Closed(g) && Acyclic(g) && ShortPaths(g)
    ensures OrderFree(g)
  {
    forall h: Graph, listed: seq<Id> | Reorders(g, h) && Members(listed) == g.Keys ensures Accepts(h, listed) {
      forall k <- h, d <- h[k] ensures d in g[k] { SameDependencies(g, h, k, d); }
      assert Closed(h);
      var rank :| RanksAll(g, rank);
      assert RanksAll(h, rank);
      forall p | Path(h, p) ensures |p| <= MAX_DEPTH { PathReordered(g, h, p); }
      SearchExact(h, listed);
    }
  }

  /** The list with one of its elements moved to the front. */
  function Fronted(keys: seq<Id>, key: Id): (moved: seq<Id>)
    requires key in keys
    ensures moved != [] && moved[0] == key && multiset(moved) == multiset(keys)
  {
    if keys[0] == key then keys else
      var rest := Fronted(keys[1..], key);
      assert keys == [keys[0]] + keys[1..];
      assert rest == [key] + rest[1..];
      [key] + ([keys[0]] + rest[1..])
  }

  /** The graph in which every object on the path lists its successor there first. */
  function Along(g: Graph, p: seq<Id>): (h: Graph)
    requires Path(g, p)
    decreases |p|
  {
    if |p| < 2 then g else
      PathTail(g, p);
      assert Linked(g, p, 0);
      Along(g, p[1..])[p[0] := Fronted(g[p[0]], p[1])]
  }

  lemma PathTail(g: Graph, p: seq<Id>)
    requires Path(g, p) && |p| >= 2
    ensures Path(g, p[1..])
  {
    forall i | 0 <= i < |p[1..]| - 1 ensures Linked(g, p[1..], i) {
      assert Linked(g, p, i + 1);
    }
  }

  lemma {:induction false} AlongReorders(g: Graph, p: seq<Id>)
    requires Path(g, p)
    ensures Reorders(g, Along(g, p))
    decreases |p|
  {
    if |p| >= 2 {
      PathTail(g, p);
      assert Linked(g, p, 0);
      AlongReorders(g, p[1..]);
    }
  }

  lemma {:induction false} AlongLinks(g: Graph, p: seq<Id>, i: nat)
    requires Path(g, p) && i < |p| - 1 && forall a, b :: 0 <= a < b < |p| ==> p[a] != p[b]
    ensures p[i] in Along(g, p) && FirstLink(Along(g, p), p, i)
    decreases |p|
  {
    PathTail(g, p);
    assert Linked(g, p, 0);
    if i > 0 {
      AlongLinks(g, p[1..], i - 1);
      assert p[1..][i - 1] == p[i] && p[1..][i] == p[i + 1];
      assert FirstLink(Along(g, p[1..]), p[1..], i - 1);
    }
  }

  /** On a graph with a rank no path meets an object twice. */
  lemma PathsDiffer(g: Graph, rank: map<Id, nat>, p: seq<Id>, a: nat, b: nat)
    requires RanksAll(g, rank) && Path(g, p) && a < b < |p|
    ensures p[a] != p[b]
  {
    var q := p[..b + 1];
    forall i | 0 <= i < |q| - 1 ensures Linked(g, q, i) { assert Linked(g, p, i); }
    assert forall k <- q :: k in p;
    RankFalls(g, rank, q, a);
  }

  /** A path of more than 128 objects gives an order that is refused. */
  lemma LongIsRefused(g: Graph, p: seq<Id>, listed: seq<Id>)
    requires Acyclic(g) && Path(g, p) && |p| > MAX_DEPTH && listed != [] && listed[0] == p[0]
    ensures Reorders(g, Along(g, p)) && !Accepts(Along(g, p), listed)
  {
    var rank :| RanksAll(g, rank);
    forall a, b | 0 <= a < b < |p| ensures p[a] != p[b] { PathsDiffer(g, rank, p, a, b); }
    AlongReorders(g, p);
    forall i | 0 <= i < |p| - 1 ensures FirstLink(Along(g, p), p, i) { AlongLinks(g, p, i); }
    LongPathFirstRefused(Along(g, p), p, listed);
  }

  /**
    A closed acyclic graph is accepted in every order of its objects and of their dependencies
    exactly when none of its paths holds more than 128 objects.
   */
  lemma OrderFreeExactly(g: Graph)
    requires Closed(g) && Acyclic(g)
    ensures OrderFree(g) <==> ShortPaths(g)
  {
    if ShortPaths(g) {
      ShortIsOrderFree(g);
    } else {
      var p :| Path(g, p) && |p| > MAX_DEPTH;
      var listed := SomeListing(g, p[0]);
      LongIsRefused(g, p, listed);
      assert Reorders(g, Along(g, p)) && Members(listed) == g.Keys;
    }
  }

  lemma SomeListing(g: Graph, first: Id) returns (listed: seq<Id>)
    requires first in g
    ensures listed != [] && listed[0] == first && Members(listed) == g.Keys
  {
    var rest := ListingOf(g.Keys);
    listed := [first] + rest;
    assert Members(listed) == {first} + Members(rest);
  }

  lemma {:induction false} ListingOf(keys: set<Id>) returns (listed: seq<Id>)
    ensures Members(listed) == keys
    decreases |keys|
  {
    if keys == {} {
      listed := [];
    } else {
      var k :| k in keys;
      var rest := ListingOf(keys - {k});
      listed := [k] + rest;
      assert Members(listed) == {k} + Members(rest);
    }
  }
}
