/**
  The path rules of validate_group and validate_seal (scripts/upgrade_backup_contract.py:192-212
  and 287-312). A canonical path is the sequence of its parts; on parts, "is a parent of" is
  "is a proper prefix of".
 */
module Seal {
  type Path = seq<string>

  datatype Kind = FileKind | DirectoryKind

  datatype Object = Object(id: string, target: Path, kind: Kind)

  datatype Entry = Entry(objectId: string, path: Path, kind: Kind, target: Path)

  predicate Comparable(a: Path, b: Path) {
    a <= b || b <= a
  }

  /** Object ids are distinct and no source lies on or under another. */
  ghost predicate GroupAccepted(objects: seq<Object>) {
    && (forall i, j :: 0 <= i < j < |objects| ==> objects[i].id != objects[j].id)
    && forall i, j :: 0 <= i < j < |objects| ==> !Comparable(objects[i].target, objects[j].target)
  }

  /** scripts/upgrade_backup_contract.py:194-212: each source against all earlier ones. */
  method CheckGroup(objects: seq<Object>) returns (ok: bool)
    ensures ok <==> GroupAccepted(objects)
  {
    var ids: set<string> := {};
    var paths: seq<Path> := [];
    var i := 0;
    while i < |objects|
      invariant 0 <= i <= |objects| == |objects| && |paths| == i
      invariant ids == set k | 0 <= k < i :: objects[k].id
      invariant forall k :: 0 <= k < i ==> paths[k] == objects[k].target
      invariant GroupAccepted(objects[..i])
    {
      var item := objects[i];
      if item.id in ids {
        var k :| 0 <= k < i && objects[k].id == item.id;
        return false;
      }
      var j := 0;
      while j < |paths|
        invariant 0 <= j <= |paths|
        invariant forall k :: 0 <= k < j ==> !Comparable(objects[k].target, item.target)
      {
        if item.target == paths[j] || paths[j] <= item.target || item.target <= paths[j] {
          assert Comparable(objects[j].target, objects[i].target);
          return false;
        }
        j := j + 1;
      }
      ids := ids + {item.id};
      paths := paths + [item.target];
      i := i + 1;
      assert objects[..i] == objects[..i - 1] + [item];
    }
    assert objects[..i] == objects;
    return true;
  }

  /** by_id: scripts/upgrade_backup_contract.py:216. */
  function ById(objects: seq<Object>): map<string, Object> {
    if objects == [] then map[]
    else ById(objects[..|objects| - 1])[objects[|objects| - 1].id := objects[|objects| - 1]]
  }

  ghost predicate IndexOf(objects: map<string, Object>) {
    && (forall id <- objects :: objects[id].id == id)
    && forall a <- objects, b <- objects :: a != b ==> !Comparable(objects[a].target, objects[b].target)
  }

  lemma {:induction false} ByIdExact(objects: seq<Object>, id: string)
    requires forall i, j :: 0 <= i < j < |objects| ==> objects[i].id != objects[j].id
    ensures id in ById(objects) <==> exists i :: 0 <= i < |objects| && objects[i].id == id
    ensures forall i :: 0 <= i < |objects| && objects[i].id == id ==> ById(objects)[id] == objects[i]
  {
    if objects != [] {
      var init := objects[..|objects| - 1];
      ByIdExact(init, id);
      assert forall i :: 0 <= i < |init| ==> objects[i] == init[i];
    }
  }

  lemma ByIdKeys(objects: seq<Object>)
    requires forall i, j :: 0 <= i < j < |objects| ==> objects[i].id != objects[j].id
    ensures ById(objects).Keys == set i | 0 <= i < |objects| :: objects[i].id
  {
    forall id ensures id in ById(objects) <==> exists i :: 0 <= i < |objects| && objects[i].id == id {
      ByIdExact(objects, id);
    }
  }

  lemma ByIdPlaces(objects: seq<Object>, id: string) returns (i: nat)
    requires GroupAccepted(objects) && id in ById(objects)
    ensures i < |objects| && objects[i].id == id && ById(objects)[id] == objects[i]
  {
    ByIdExact(objects, id);
    i :| 0 <= i < |objects| && objects[i].id == id;
  }

  /** An accepted group gives an index in which each object has its own id and its own subtree. */
  lemma ByIdIndexes(objects: seq<Object>)
    requires GroupAccepted(objects)
    ensures IndexOf(ById(objects))
    ensures ById(objects).Keys == set i | 0 <= i < |objects| :: objects[i].id
  {
    var index := ById(objects);
    ByIdKeys(objects);
    forall a <- index, b <- index | a != b ensures !Comparable(index[a].target, index[b].target) {
      var i := ByIdPlaces(objects, a);
      var j := ByIdPlaces(objects, b);
    }
    forall a <- index ensures index[a].id == a { var i := ByIdPlaces(objects, a); }
  }

  // ---------------------------------------------------------------- the seal

  predicate EntryFits(objects: map<string, Object>, e: Entry) {
    && e.objectId in objects
    && var owner := objects[e.objectId];
    && e.path != [] && e.path[0] == e.objectId
    && e.target == owner.target + e.path[1..]
    && (owner.kind.DirectoryKind? || |e.path| == 1)
    && (|e.path| == 1 ==> e.kind == owner.kind)
  }

  predicate IsDirectoryAt(e: Entry, path: Path) {
    e.path == path && e.kind.DirectoryKind?
  }

  predicate HasDirectory(entries: seq<Entry>, path: Path) {
    exists j :: 0 <= j < |entries| && IsDirectoryAt(entries[j], path)
  }

  predicate HasPath(entries: seq<Entry>, path: Path) {
    exists j :: 0 <= j < |entries| && entries[j].path == path
  }

  predicate ParentPresent(entries: seq<Entry>, e: Entry) {
    |e.path| > 1 ==> HasDirectory(entries, e.path[..|e.path| - 1])
  }

  ghost predicate AllFit(objects: map<string, Object>, entries: seq<Entry>) {
    forall i :: 0 <= i < |entries| ==> EntryFits(objects, entries[i])
  }

  ghost predicate DistinctPaths(entries: seq<Entry>) {
    forall i, j :: 0 <= i < j < |entries| ==> entries[i].path != entries[j].path
  }

  ghost predicate DistinctTargets(entries: seq<Entry>) {
    forall i, j :: 0 <= i < j < |entries| ==> entries[i].target != entries[j].target
  }

  ghost predicate AllParents(entries: seq<Entry>) {
    forall i :: 0 <= i < |entries| ==> ParentPresent(entries, entries[i])
  }

  ghost predicate AllRoots(objects: map<string, Object>, entries: seq<Entry>) {
    forall id <- objects :: HasPath(entries, [id])
  }

  /** Everything validate_seal asks of the entries except that their targets differ. */
  ghost predicate SealedShape(objects: map<string, Object>, entries: seq<Entry>) {
    entries != [] && AllFit(objects, entries) && DistinctPaths(entries) && AllRoots(objects, entries) && AllParents(entries)
  }

  ghost predicate SealAccepted(objects: map<string, Object>, entries: seq<Entry>) {
    SealedShape(objects, entries) && DistinctTargets(entries)
  }

  /** by_path after the first loop. */
  ghost predicate IndexedBy(entries: seq<Entry>, byPath: map<Path, Entry>) {
    && (forall k :: 0 <= k < |entries| ==> entries[k].path in byPath && byPath[entries[k].path] == entries[k])
    && (forall p <- byPath :: HasPath(entries, p))
  }

  function TargetsOf(entries: seq<Entry>): set<Path> {
    set k | 0 <= k < |entries| :: entries[k].target
  }

  function ObjectsOf(entries: seq<Entry>): set<string> {
    set k | 0 <= k < |entries| :: entries[k].objectId
  }

  /** The loop at scripts/upgrade_backup_contract.py:291-305. */
  method CollectEntries(objects: map<string, Object>, entries: seq<Entry>)
    returns (ok: bool, byPath: map<Path, Entry>, covered: set<string>)
    ensures ok <==> Clean(objects, entries)
    ensures ok ==> IndexedBy(entries, byPath) && covered == ObjectsOf(entries)
  {
    var targets: set<Path> := {};
    byPath, covered := map[], {};
    var i := 0;
    while i < |entries|
      invariant 0 <= i <= |entries|
      invariant Clean(objects, entries[..i])
      invariant IndexedBy(entries[..i], byPath) && targets == TargetsOf(entries[..i]) && covered == ObjectsOf(entries[..i])
    {
      var item := entries[i];
      CleanSnoc(objects, entries[..i], item);
      assert entries[..i] + [item] == entries[..i + 1];
      if !EntryFits(objects, item) || item.path in byPath || item.target in targets {
        if Clean(objects, entries) { CleanPrefix(objects, entries, i + 1); }
        return false, byPath, covered;
      }
      CollectOne(entries[..i], item, byPath);
      targets, covered, byPath := targets + {item.target}, covered + {item.objectId}, byPath[item.path := item];
      i := i + 1;
    }
    assert entries[..i] == entries;
    return true, byPath, covered;
  }

  ghost predicate Clean(objects: map<string, Object>, entries: seq<Entry>) {
    AllFit(objects, entries) && DistinctPaths(entries) && DistinctTargets(entries)
  }

  lemma CleanPrefix(objects: map<string, Object>, entries: seq<Entry>, n: nat)
    requires Clean(objects, entries) && n <= |entries|
    ensures Clean(objects, entries[..n])
  {
  }

  lemma CleanSnoc(objects: map<string, Object>, entries: seq<Entry>, e: Entry)
    ensures Clean(objects, entries + [e]) <==>
      Clean(objects, entries) && EntryFits(objects, e) && !HasPath(entries, e.path) && e.target !in TargetsOf(entries)
  {
    var more := entries + [e];
    assert more[|entries|] == e;
    if Clean(objects, more) {
      CleanPrefix(objects, more, |entries|);
      assert more[..|entries|] == entries;
    }
  }

  lemma CollectOne(entries: seq<Entry>, e: Entry, byPath: map<Path, Entry>)
    requires IndexedBy(entries, byPath) && e.path !in byPath
    ensures IndexedBy(entries + [e], byPath[e.path := e])
    ensures TargetsOf(entries + [e]) == TargetsOf(entries) + {e.target}
    ensures ObjectsOf(entries + [e]) == ObjectsOf(entries) + {e.objectId}
  {
    var more := entries + [e];
    assert forall k :: 0 <= k < |entries| ==> more[k] == entries[k];
    assert more[|entries|] == e;
    forall p <- byPath[e.path := e] ensures HasPath(more, p) {
      if p != e.path {
        var k :| 0 <= k < |entries| && entries[k].path == p;
        assert more[k].path == p;
      }
    }
  }

  /** scripts/upgrade_backup_contract.py:287-312 */
  method CheckEntries(objects: map<string, Object>, entries: seq<Entry>) returns (ok: bool)
    ensures ok <==> SealAccepted(objects, entries)
  {
    if entries == [] { return false; }
    var fits, byPath, covered := CollectEntries(objects, entries);
    if !fits { return false; }
    if covered != objects.Keys {
      CoverageNeedsRoots(objects, entries);
      return false;
    }
    if id :| id in objects && [id] !in byPath {
      assert !HasPath(entries, [id]);
      return false;
    }
    ok := CheckParents(entries, byPath);
  }

  /** A sealed shape covers every object, since each has a root entry. */
  lemma CoverageNeedsRoots(objects: map<string, Object>, entries: seq<Entry>)
    requires AllFit(objects, entries)
    ensures AllRoots(objects, entries) ==> ObjectsOf(entries) == objects.Keys
  {
    if AllRoots(objects, entries) {
      EveryObjectCovered(objects, entries);
    }
  }

  lemma EveryObjectCovered(objects: map<string, Object>, entries: seq<Entry>)
    requires AllFit(objects, entries) && AllRoots(objects, entries)
    ensures ObjectsOf(entries) == objects.Keys
  {
    forall id <- objects ensures exists k :: 0 <= k < |entries| && entries[k].objectId == id {
      assert HasPath(entries, [id]);
      var k :| 0 <= k < |entries| && entries[k].path == [id];
      assert EntryFits(objects, entries[k]);
    }
    forall k | 0 <= k < |entries| ensures entries[k].objectId in objects { assert EntryFits(objects, entries[k]); }
  }

  method CheckParents(entries: seq<Entry>, byPath: map<Path, Entry>) returns (ok: bool)
    requires IndexedBy(entries, byPath)
    ensures ok <==> AllParents(entries)
  {
    var i := 0;
    while i < |entries|
      invariant 0 <= i <= |entries|
      invariant forall k :: 0 <= k < i ==> ParentPresent(entries, entries[k])
    {
      var path := entries[i].path;
      ParentLookup(entries, byPath, entries[i]);
      if |path| > 1 {
        var parent := path[..|path| - 1];
        if parent !in byPath || !byPath[parent].kind.DirectoryKind? {
          assert !ParentPresent(entries, entries[i]);
          return false;
        }
      }
      i := i + 1;
    }
    return true;
  }

  lemma ParentLookup(entries: seq<Entry>, byPath: map<Path, Entry>, e: Entry)
    requires IndexedBy(entries, byPath)
    ensures ParentPresent(entries, e) <==>
      (|e.path| > 1 ==> var parent := e.path[..|e.path| - 1]; parent in byPath && byPath[parent].kind.DirectoryKind?)
  {
    if |e.path| > 1 { DirectoryLookup(entries, byPath, e.path[..|e.path| - 1]); }
  }

  lemma DirectoryLookup(entries: seq<Entry>, byPath: map<Path, Entry>, path: Path)
    requires IndexedBy(entries, byPath)
    ensures HasDirectory(entries, path) <==> path in byPath && byPath[path].kind.DirectoryKind?
  {
    if path in byPath && byPath[path].kind.DirectoryKind? {
      var j :| 0 <= j < |entries| && entries[j].path == path;
      assert IsDirectoryAt(entries[j], path);
    }
  }

  // ---------------------------------------------------------------- what an accepted seal is

  lemma PrefixesOfOne(a: Path, b: Path, whole: Path)
    requires a <= whole && b <= whole
    ensures Comparable(a, b)
  {
    if |a| <= |b| { assert a == whole[..|a|] == b[..|a|]; } else { assert b == whole[..|b|] == a[..|b|]; }
  }

  /** Targets are ordered exactly as paths are: the restore mapping is an isomorphism of the two prefix orders. */
  lemma TargetsMirrorPaths(objects: map<string, Object>, a: Entry, b: Entry)
    requires IndexOf(objects) && EntryFits(objects, a) && EntryFits(objects, b)
    ensures a.target <= b.target <==> a.path <= b.path
  {
    var ra, rb := objects[a.objectId].target, objects[b.objectId].target;
    if a.target <= b.target {
      assert ra <= a.target && rb <= b.target;
      PrefixesOfOne(ra, rb, b.target);
      assert a.objectId == b.objectId;
      assert a.path[1..] == a.target[|ra|..] && b.path[1..] == b.target[|rb|..];
      assert a.path == [a.objectId] + a.path[1..] && b.path == [b.objectId] + b.path[1..];
    }
    if a.path <= b.path {
      assert a.objectId == b.path[0] == b.objectId;
      assert a.path[1..] <= b.path[1..];
    }
  }

  /** With distinct paths the targets are distinct of themselves: the source's own target check can never fire. */
  lemma TargetCheckRedundant(objects: map<string, Object>, entries: seq<Entry>)
    requires IndexOf(objects)
    ensures SealAccepted(objects, entries) <==> SealedShape(objects, entries)
  {
    if SealedShape(objects, entries) {
      forall i, j | 0 <= i < j < |entries| ensures entries[i].target != entries[j].target {
        assert EntryFits(objects, entries[i]) && EntryFits(objects, entries[j]);
        TargetsMirrorPaths(objects, entries[i], entries[j]);
        TargetsMirrorPaths(objects, entries[j], entries[i]);
      }
    }
  }

  /** Every proper prefix of an accepted path is itself an accepted directory entry. */
  lemma {:induction false} PrefixesAreDirectories(entries: seq<Entry>, path: Path, n: nat)
    requires AllParents(entries) && HasPath(entries, path) && 0 < n < |path|
    ensures HasDirectory(entries, path[..n])
    decreases |path|
  {
    var i :| 0 <= i < |entries| && entries[i].path == path;
    var parent := path[..|path| - 1];
    assert ParentPresent(entries, entries[i]);
    if n < |path| - 1 {
      var j :| 0 <= j < |entries| && IsDirectoryAt(entries[j], parent);
      assert HasPath(entries, parent) && parent[..n] == path[..n];
      PrefixesAreDirectories(entries, parent, n);
    }
  }

  /** A file entry is a leaf: nothing is accepted below it, on the backup side or at the restore target. */
  lemma FilesAreLeaves(objects: map<string, Object>, entries: seq<Entry>, i: nat, j: nat)
    requires IndexOf(objects) && SealedShape(objects, entries) && i < |entries| && j < |entries| && i != j
    requires entries[i].kind.FileKind?
    ensures !(entries[i].path <= entries[j].path) && !(entries[i].target <= entries[j].target)
  {
    assert EntryFits(objects, entries[i]) && EntryFits(objects, entries[j]);
    TargetsMirrorPaths(objects, entries[i], entries[j]);
    NoDirectoryThere(entries, i);
    assert entries[i].path != entries[j].path;
    var n := |entries[i].path|;
    if 0 < n < |entries[j].path| && !HasDirectory(entries, entries[j].path[..n]) {
      assert HasPath(entries, entries[j].path);
      PrefixesAreDirectories(entries, entries[j].path, n);
    }
  }

  lemma NoDirectoryThere(entries: seq<Entry>, i: nat)
    requires DistinctPaths(entries) && i < |entries| && entries[i].kind.FileKind?
    ensures !HasDirectory(entries, entries[i].path)
  {
  }

  /**
    The entries form a forest whose roots are exactly the group's objects: every object has one
    one-part entry, at its own target and of its own kind, and every entry lies under the one of
    its object.
   */
  lemma RootsAreObjects(objects: map<string, Object>, entries: seq<Entry>)
    requires IndexOf(objects) && SealedShape(objects, entries)
    ensures forall id <- objects :: HasRoot(objects, entries, id)
    ensures forall i :: 0 <= i < |entries| ==> entries[i].objectId in objects && [entries[i].objectId] <= entries[i].path
    ensures forall i :: 0 <= i < |entries| && |entries[i].path| == 1 ==> RootOf(objects, entries[i], entries[i].objectId)
  {
    forall i | 0 <= i < |entries|
      ensures entries[i].objectId in objects && [entries[i].objectId] <= entries[i].path
      ensures |entries[i].path| == 1 ==> RootOf(objects, entries[i], entries[i].objectId)
    {
      assert EntryFits(objects, entries[i]);
    }
    forall id <- objects ensures HasRoot(objects, entries, id) {
      assert HasPath(entries, [id]);
      var r :| 0 <= r < |entries| && entries[r].path == [id];
      assert EntryFits(objects, entries[r]) && RootOf(objects, entries[r], id);
    }
  }

  predicate HasRoot(objects: map<string, Object>, entries: seq<Entry>, id: string) {
    exists r :: 0 <= r < |entries| && RootOf(objects, entries[r], id)
  }

  predicate RootOf(objects: map<string, Object>, e: Entry, id: string) {
    id in objects && e.path == [id] && e.objectId == id && e.target == objects[id].target && e.kind == objects[id].kind
  }

  /** No restore target lies on or under a target of another object. */
  lemma ObjectsStayApart(objects: map<string, Object>, a: Entry, b: Entry)
    requires IndexOf(objects) && EntryFits(objects, a) && EntryFits(objects, b) && a.objectId != b.objectId
    ensures !Comparable(a.target, b.target)
  {
    TargetsMirrorPaths(objects, a, b);
    TargetsMirrorPaths(objects, b, a);
  }
}
