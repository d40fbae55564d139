/**
  The explicit-stack tree walks: scripts/upgrade_inventory.py:275-293 (scan_tree) and
  scripts/upgrade_backup.py:193-213 (copy_tree).
 */
module TreeWalk {
  import opened Basics
  import opened Sorting

  type Name = string
  type Path = seq<Name>
  type Content = string

  /** A directory has its children in whatever order it lists them. */
  datatype Tree = File(content: Content, mode: nat) | Directory(mode: nat, children: seq<Child>)
  datatype Child = Child(name: Name, tree: Tree)

  datatype Digest = Sha(content: Content)

  /** A line of the inventory. */
  datatype Entry =
    | DirectoryEntry(path: Path, mode: nat)
    | FileEntry(path: Path, size: nat, digest: Digest, mode: nat)

  const FILE_BUDGET: nat := 0x100_0000_0000

  predicate WellNamed(t: Tree) {
    t.File? || (NamesDiffer(t.children) && forall c <- t.children :: WellNamed(c.tree))
  }

  predicate NamesDiffer(children: seq<Child>) {
    forall i, j :: 0 <= i < j < |children| ==> children[i].name != children[j].name
  }

  // ---------------------------------------------------------------- the order of names

  function ByName(): (Child, Child) -> bool {
    (a: Child, b: Child) => TextAtMost(a.name, b.name)
  }

  /** The tree with every directory's children sorted by name. */
  function InNameOrder(t: Tree): Tree
    decreases t, 1
  {
    if t.File? then t else Directory(t.mode, Sort(EachInOrder(t.children), ByName()))
  }

  function EachInOrder(children: seq<Child>): (ordered: seq<Child>)
    ensures |ordered| == |children|
    ensures forall i :: 0 <= i < |children| ==> ordered[i].name == children[i].name
    decreases children, 0
  {
    seq(|children|, i requires 0 <= i < |children| => Child(children[i].name, InNameOrder(children[i].tree)))
  }

  /** Two trees with the same names, kinds, modes and contents, however their directories list them. */
  predicate SameTree(t: Tree, u: Tree) {
    InNameOrder(t) == InNameOrder(u)
  }

  lemma OrderedSplit(children: seq<Child>, c: Child)
    ensures EachInOrder(children + [c]) == EachInOrder(children) + [Child(c.name, InNameOrder(c.tree))]
  {
  }

  lemma {:induction false} InsertOrdered(children: seq<Child>, c: Child)
    ensures EachInOrder(Insert(children, c, ByName()))
         == Insert(EachInOrder(children), Child(c.name, InNameOrder(c.tree)), ByName())
    decreases |children|
  {
    if children == [] || ByName()(children[|children| - 1], c) {
      OrderedSplit(children, c);
    } else {
      var n := |children| - 1;
      InsertOrdered(children[..n], c);
      assert EachInOrder(children)[..n] == EachInOrder(children[..n]);
      OrderedSplit(Insert(children[..n], c, ByName()), children[n]);
    }
  }

  /** Sorting the children first or last is the same. */
  lemma {:induction false} SortOrdered(children: seq<Child>)
    ensures EachInOrder(Sort(children, ByName())) == Sort(EachInOrder(children), ByName())
    decreases |children|
  {
    if children != [] {
      var n := |children| - 1;
      SortOrdered(children[..n]);
      assert EachInOrder(children)[..n] == EachInOrder(children[..n]);
      InsertOrdered(Sort(children[..n], ByName()), children[n]);
    } else {
      assert EachInOrder([]) == [];
    }
  }

  predicate NameIn(children: seq<Child>, name: Name) {
    exists c <- children :: c.name == name
  }

  lemma NamesDifferMore(children: seq<Child>, c: Child)
    requires NamesDiffer(children) && !NameIn(children, c.name)
    ensures NamesDiffer(children + [c])
  {
  }

  lemma {:induction false} InsertNamesDiffer(children: seq<Child>, c: Child)
    requires NamesDiffer(children) && !NameIn(children, c.name)
    ensures NamesDiffer(Insert(children, c, ByName()))
    decreases |children|
  {
    NamesDifferMore(children, c);
    if children != [] {
      var n := |children| - 1;
      InsertNamesDiffer(children[..n], c);
      InsertMembers(children[..n], c, ByName());
      forall d <- Insert(children[..n], c, ByName()) ensures d.name != children[n].name {
        if d != c {
          var i :| 0 <= i < n && children[i] == d;
        } else {
          assert children[n] in children;
        }
      }
      NamesDifferMore(Insert(children[..n], c, ByName()), children[n]);
    }
  }

  lemma {:induction false} SortNamesDiffer(children: seq<Child>)
    requires NamesDiffer(children)
    ensures NamesDiffer(Sort(children, ByName()))
    decreases |children|
  {
    if children != [] {
      var n := |children| - 1;
      var sorted := Sort(children[..n], ByName());
      SortNamesDiffer(children[..n]);
      SortMembers(children[..n], ByName());
      forall d <- sorted ensures d.name != children[n].name {
        var i :| 0 <= i < n && children[i] == d;
      }
      InsertNamesDiffer(sorted, children[n]);
    }
  }

  lemma {:induction false} OrderKeepsNames(t: Tree)
    requires WellNamed(t)
    ensures WellNamed(InNameOrder(t))
    decreases t
  {
    if t.Directory? {
      var ordered := EachInOrder(t.children);
      SortNamesDiffer(ordered);
      SortMembers(ordered, ByName());
      forall c <- Sort(ordered, ByName()) ensures WellNamed(c.tree) {
        var i :| 0 <= i < |ordered| && ordered[i] == c;
        OrderKeepsNames(t.children[i].tree);
      }
    }
  }

  // ---------------------------------------------------------------- the recursive definition

  function EntryOf(path: Path, t: Tree): Entry {
    match t
    case File(content, mode) => FileEntry(path, |content|, Sha(content), mode)
    case Directory(mode, _) => DirectoryEntry(path, mode)
  }

  function Below(t: Tree): seq<Child> {
    if t.Directory? then t.children else []
  }

  /** What a walk pushes: the children sorted by name. */
  function SortedBelow(t: Tree): seq<Child> {
    Sort(Below(t), ByName())
  }

  /** Pre-order, children as the tree has them. */
  function Listing(path: Path, t: Tree): seq<Entry>
    decreases t, 1
  {
    [EntryOf(path, t)] + if t.Directory? then ListAll(path, t.children) else []
  }

  function ListAll(path: Path, children: seq<Child>): seq<Entry>
    decreases children, 0
  {
    if children == [] then [] else
      Listing(path + [children[0].name], children[0].tree) + ListAll(path, children[1..])
  }

  function Total(entries: seq<Entry>): nat {
    if entries == [] then 0 else
      Total(entries[..|entries| - 1]) + if entries[|entries| - 1].FileEntry? then entries[|entries| - 1].size else 0
  }

  // ---------------------------------------------------------------- the stack

  datatype Frame = Frame(path: Path, tree: Tree)

  /** What the frames still have to produce, the last one first. */
  function ListStack(stack: seq<Frame>): seq<Entry>
    decreases |stack|
  {
    if stack == [] then [] else
      var top := stack[|stack| - 1];
      Listing(top.path, InNameOrder(top.tree)) + ListStack(stack[..|stack| - 1])
  }

  /** The children in reverse, so that the first is popped first. */
  function Frames(path: Path, children: seq<Child>): seq<Frame> {
    if children == [] then [] else
      Frames(path, children[1..]) + [Frame(path + [children[0].name], children[0].tree)]
  }

  lemma Grouped(a: seq<Entry>, b: seq<Entry>, c: seq<Entry>)
    ensures a + (b + c) == (a + b) + c
  {
  }

  lemma StackTop(rest: seq<Frame>, top: Frame)
    ensures ListStack(rest + [top]) == Listing(top.path, InNameOrder(top.tree)) + ListStack(rest)
  {
    assert (rest + [top])[..|rest|] == rest;
  }

  lemma OrderedHead(path: Path, children: seq<Child>)
    requires children != []
    ensures ListAll(path, EachInOrder(children))
         == Listing(path + [children[0].name], InNameOrder(children[0].tree)) + ListAll(path, EachInOrder(children[1..]))
  {
    assert EachInOrder(children)[1..] == EachInOrder(children[1..]);
  }

  lemma {:induction false} PushedFrames(stack: seq<Frame>, path: Path, children: seq<Child>)
    ensures ListStack(stack + Frames(path, children)) == ListAll(path, EachInOrder(children)) + ListStack(stack)
    decreases |children|
  {
    if children == [] {
      assert stack + [] == stack && EachInOrder([]) == [] && [] + ListStack(stack) == ListStack(stack);
    } else {
      var top := Frame(path + [children[0].name], children[0].tree);
      var first, rest := Listing(top.path, InNameOrder(top.tree)), ListAll(path, EachInOrder(children[1..]));
      PushedFrames(stack, path, children[1..]);
      OrderedHead(path, children);
      PushedTop(stack, Frames(path, children[1..]), top);
      Grouped(first, rest, ListStack(stack));
    }
  }

  lemma PushedTop(stack: seq<Frame>, frames: seq<Frame>, top: Frame)
    ensures ListStack(stack + (frames + [top])) == Listing(top.path, InNameOrder(top.tree)) + ListStack(stack + frames)
  {
    assert stack + (frames + [top]) == (stack + frames) + [top];
    StackTop(stack + frames, top);
  }

  /** Popping a frame and pushing its children takes the first line off what is still to come. */
  lemma PoppedFrame(rest: seq<Frame>, top: Frame)
    ensures ListStack(rest + [top]) == [EntryOf(top.path, top.tree)] + ListStack(rest + Frames(top.path, SortedBelow(top.tree)))
  {
    var below := SortedBelow(top.tree);
    PushedFrames(rest, top.path, below);
    StackTop(rest, top);
    SortOrdered(Below(top.tree));
    assert Listing(top.path, InNameOrder(top.tree)) == [EntryOf(top.path, top.tree)] + ListAll(top.path, EachInOrder(below));
    Grouped([EntryOf(top.path, top.tree)], ListAll(top.path, EachInOrder(below)), ListStack(rest));
  }

  /** One turn of a walk: the line of the popped frame moves from what is to come to what is done. */
  lemma WalkTurn(done: seq<Entry>, rest: seq<Frame>, top: Frame)
    ensures done + ListStack(rest + [top])
         == (done + [EntryOf(top.path, top.tree)]) + ListStack(rest + Frames(top.path, SortedBelow(top.tree)))
    ensures |ListStack(rest + Frames(top.path, SortedBelow(top.tree)))| < |ListStack(rest + [top])|
  {
    PoppedFrame(rest, top);
    Grouped(done, [EntryOf(top.path, top.tree)], ListStack(rest + Frames(top.path, SortedBelow(top.tree))));
  }

  /** The inventory of a tree: the recursive listing of its name-ordered form. */
  function Inventory(root: Tree): seq<Entry> {
    Listing([], InNameOrder(root))
  }

  lemma WalkStart(root: Tree)
    ensures [] + ListStack([Frame([], root)]) == Inventory(root)
  {
    StackTop([], Frame([], root));
    assert [] + [Frame([], root)] == [Frame([], root)];
  }

  // ---------------------------------------------------------------- scan_tree

  datatype ScanError = InventoryBudget | FileBudget

  predicate TooBig(e: Entry) {
    e.FileEntry? && e.size > FILE_BUDGET
  }

  /** The first line that breaks a budget decides. */
  function Checked(entries: seq<Entry>, limit: nat): Result<seq<Entry>, ScanError>
    decreases |entries|
  {
    if entries == [] then Ok([]) else
      var n := |entries| - 1;
      var before := Checked(entries[..n], limit);
      if before.Err? then before
      else if n >= limit then Err(InventoryBudget)
      else if TooBig(entries[n]) then Err(FileBudget)
      else Ok(entries)
  }

  lemma {:induction false} CheckedExact(entries: seq<Entry>, limit: nat)
    ensures Checked(entries, limit).Ok? <==> |entries| <= limit && forall e <- entries :: !TooBig(e)
    ensures Checked(entries, limit).Ok? ==> Checked(entries, limit).value == entries
    decreases |entries|
  {
    if entries != [] {
      var n := |entries| - 1;
      CheckedExact(entries[..n], limit);
      assert entries == entries[..n] + [entries[n]];
    }
  }

  lemma {:induction false} CheckedPrefix(entries: seq<Entry>, more: seq<Entry>, limit: nat)
    requires Checked(entries, limit).Err?
    ensures Checked(entries + more, limit) == Checked(entries, limit)
    decreases |more|
  {
    if more == [] {
      assert entries + more == entries;
    } else {
      var m := |more| - 1;
      CheckedPrefix(entries, more[..m], limit);
      assert (entries + more)[..|entries| + m] == entries + more[..m];
    }
  }

  lemma CheckedTurn(entries: seq<Entry>, entry: Entry, more: seq<Entry>, limit: nat)
    requires Checked(entries, limit).Ok?
    ensures |entries| >= limit ==> Checked((entries + [entry]) + more, limit) == Err(InventoryBudget)
    ensures |entries| < limit && TooBig(entry) ==> Checked((entries + [entry]) + more, limit) == Err(FileBudget)
    ensures |entries| < limit && !TooBig(entry) ==> Checked(entries + [entry], limit).Ok?
  {
    assert (entries + [entry])[..|entries|] == entries;
    if |entries| >= limit || TooBig(entry) { CheckedPrefix(entries + [entry], more, limit); }
  }

  lemma TotalNext(entries: seq<Entry>, entry: Entry)
    ensures Total(entries + [entry]) == Total(entries) + if entry.FileEntry? then entry.size else 0
  {
    assert (entries + [entry])[..|entries|] == entries;
  }

  /** One turn of the scan, on the lines done and still to come. */
  lemma ScanTurn(whole: seq<Entry>, entries: seq<Entry>, rest: seq<Frame>, top: Frame, limit: nat)
    requires entries + ListStack(rest + [top]) == whole && Checked(entries, limit).Ok?
    ensures var (entry, next) := (EntryOf(top.path, top.tree), rest + Frames(top.path, SortedBelow(top.tree)));
      && (entries + [entry]) + ListStack(next) == whole && |ListStack(next)| < |ListStack(rest + [top])|
      && (|entries| >= limit ==> Checked(whole, limit) == Err(InventoryBudget))
      && (|entries| < limit && TooBig(entry) ==> Checked(whole, limit) == Err(FileBudget))
      && (|entries| < limit && !TooBig(entry) ==> Checked(entries + [entry], limit).Ok?)
      && Total(entries + [entry]) == Total(entries) + if entry.FileEntry? then entry.size else 0
  {
    var (entry, next) := (EntryOf(top.path, top.tree), rest + Frames(top.path, SortedBelow(top.tree)));
    WalkTurn(entries, rest, top);
    CheckedTurn(entries, entry, ListStack(next), limit);
    TotalNext(entries, entry);
  }

  /** Terminates with the recursive listing and the sum of its file sizes, or with its first budget error. */
  method ScanTree(root: Tree, limit: nat) returns (result: Result<seq<Entry>, ScanError>, total: nat)
    ensures result == Checked(Inventory(root), limit)
    ensures result.Ok? ==> result.value == Inventory(root) && total == Total(Inventory(root))
  {
    var entries: seq<Entry> := [];
    total := 0;
    var stack := [Frame([], root)];
    WalkStart(root);
    while stack != []
      invariant entries + ListStack(stack) == Inventory(root)
      invariant Checked(entries, limit).Ok? && total == Total(entries)
      decreases |ListStack(stack)|
    {
      var top, rest := stack[|stack| - 1], stack[..|stack| - 1];
      assert stack == rest + [top];
      ScanTurn(Inventory(root), entries, rest, top, limit);
      var entry := EntryOf(top.path, top.tree);
      stack := rest + Frames(top.path, SortedBelow(top.tree));
      if |entries| >= limit { return Err(InventoryBudget), total; }
      if TooBig(entry) { return Err(FileBudget), total; }
      if entry.FileEntry? { total := total + entry.size; }
      entries := entries + [entry];
    }
    assert entries + [] == entries;
    CheckedExact(entries, limit);
    result := Ok(entries);
  }

  // ---------------------------------------------------------------- the listing determines the tree

  /** The line after a subtree does not belong to it. */
  predicate Outside(rest: seq<Entry>, path: Path) {
    rest == [] || !(path <= rest[0].path)
  }

  lemma LongerPrefix(path: Path, below: Path, q: Path)
    requires path <= below
    ensures below <= q ==> path <= q
  {
  }

  lemma OutsideNext(path: Path, children: seq<Child>, rest: seq<Entry>)
    requires children != [] && NamesDiffer(children) && Outside(rest, path)
    ensures Outside(ListAll(path, children[1..]) + rest, path + [children[0].name])
  {
    var below := path + [children[0].name];
    if |children| == 1 {
      assert children[1..] == [];
      if rest != [] { LongerPrefix(path, below, rest[0].path); }
    } else {
      var next := path + [children[1].name];
      assert children[1..][0] == children[1];
      assert ListAll(path, children[1..])[0].path == next;
      assert below[|path|] != next[|path|];
    }
  }

  lemma {:induction false} TreesEqual(path: Path, t: Tree, u: Tree, rest: seq<Entry>, rest': seq<Entry>)
    requires WellNamed(t) && WellNamed(u) && Outside(rest, path) && Outside(rest', path)
    requires Listing(path, t) + rest == Listing(path, u) + rest'
    ensures t == u && rest == rest'
    decreases t, 2
  {
    var below, below' := Listing(path, t)[1..], Listing(path, u)[1..];
    assert (Listing(path, t) + rest)[0] == EntryOf(path, t) && (Listing(path, t) + rest)[1..] == below + rest;
    assert (Listing(path, u) + rest')[0] == EntryOf(path, u) && (Listing(path, u) + rest')[1..] == below' + rest';
    if t.Directory? { ForestsEqual(path, t.children, u.children, rest, rest'); }
  }

  lemma FirstBelow(path: Path, children: seq<Child>, rest: seq<Entry>)
    requires children != []
    ensures ListAll(path, children) + rest
         == Listing(path + [children[0].name], children[0].tree) + (ListAll(path, children[1..]) + rest)
    ensures ListAll(path, children) != [] && ListAll(path, children)[0].path == path + [children[0].name]
    ensures !Outside(ListAll(path, children) + rest, path)
  {
    Grouped(Listing(path + [children[0].name], children[0].tree), ListAll(path, children[1..]), rest);
  }

  /** Two listings of several children that agree begin with the same name. */
  lemma HeadsEqual(path: Path, cs: seq<Child>, ds: seq<Child>, rest: seq<Entry>, rest': seq<Entry>)
    requires cs != [] && ds != [] && ListAll(path, cs) + rest == ListAll(path, ds) + rest'
    ensures cs[0].name == ds[0].name
    ensures var below := path + [cs[0].name];
      Listing(below, cs[0].tree) + (ListAll(path, cs[1..]) + rest) == Listing(below, ds[0].tree) + (ListAll(path, ds[1..]) + rest')
  {
    FirstBelow(path, cs, rest);
    FirstBelow(path, ds, rest');
    assert (path + [cs[0].name])[|path|] == (path + [ds[0].name])[|path|];
  }

  /** An empty listing does not agree with one of several children. */
  lemma NothingBelow(path: Path, children: seq<Child>, rest: seq<Entry>, rest': seq<Entry>)
    requires Outside(rest, path) && [] + rest == ListAll(path, children) + rest'
    ensures children == [] && rest == rest'
  {
    if children != [] { FirstBelow(path, children, rest'); }
    assert [] + rest == rest && [] + rest' == rest';
  }

  lemma {:induction false} FirstEqual(path: Path, cs: seq<Child>, ds: seq<Child>, rest: seq<Entry>, rest': seq<Entry>)
    requires cs != [] && ds != [] && NamesDiffer(cs) && NamesDiffer(ds)
    requires WellNamed(cs[0].tree) && WellNamed(ds[0].tree) && Outside(rest, path) && Outside(rest', path)
    requires ListAll(path, cs) + rest == ListAll(path, ds) + rest'
    ensures cs[0] == ds[0] && ListAll(path, cs[1..]) + rest == ListAll(path, ds[1..]) + rest'
    decreases cs, 0
  {
    HeadsEqual(path, cs, ds, rest, rest');
    OutsideNext(path, cs, rest);
    OutsideNext(path, ds, rest');
    TreesEqual(path + [cs[0].name], cs[0].tree, ds[0].tree, ListAll(path, cs[1..]) + rest, ListAll(path, ds[1..]) + rest');
  }

  lemma {:induction false} ForestsEqual(path: Path, cs: seq<Child>, ds: seq<Child>, rest: seq<Entry>, rest': seq<Entry>)
    requires NamesDiffer(cs) && NamesDiffer(ds)
    requires (forall c <- cs :: WellNamed(c.tree)) && (forall d <- ds :: WellNamed(d.tree))
    requires Outside(rest, path) && Outside(rest', path)
    requires ListAll(path, cs) + rest == ListAll(path, ds) + rest'
    ensures cs == ds && rest == rest'
    decreases cs, 1
  {
    if cs == [] {
      NothingBelow(path, ds, rest, rest');
    } else if ds == [] {
      NothingBelow(path, cs, rest', rest);
    } else {
      FirstEqual(path, cs, ds, rest, rest');
      ForestsEqual(path, cs[1..], ds[1..], rest, rest');
      assert cs == [cs[0]] + cs[1..] && ds == [ds[0]] + ds[1..];
    }
  }

  /** Two trees have the same inventory exactly when they are the same tree. */
  lemma EqualListingsEqualTrees(t: Tree, u: Tree)
    requires WellNamed(t) && WellNamed(u)
    ensures Inventory(t) == Inventory(u) <==> SameTree(t, u)
  {
    OrderKeepsNames(t);
    OrderKeepsNames(u);
    if Inventory(t) == Inventory(u) { TreesEqual([], InNameOrder(t), InNameOrder(u), [], []); }
  }

  // ---------------------------------------------------------------- copy_tree

  datatype Node = Folder | Copied(content: Content)

  function NodeOf(t: Tree): Node {
    if t.Directory? then Folder else Copied(t.content)
  }

  /** The subtree a relative path names. */
  function Find(t: Tree, path: Path): Option<Tree>
    decreases t, 1
  {
    if path == [] then Some(t)
    else if t.File? then None
    else FindIn(t.children, path)
  }

  function FindIn(children: seq<Child>, path: Path): Option<Tree>
    requires path != []
    decreases children, 0
  {
    if children == [] then None
    else if children[0].name == path[0] then Find(children[0].tree, path[1..])
    else FindIn(children[1..], path)
  }

  type Files = map<Path, Node>

  /** The destination holds exactly the source's names, with its kinds and contents. */
  ghost predicate Mirrors(files: Files, t: Tree) {
    forall path: Path ::
      && (path in files <==> Find(t, path).Some?)
      && (path in files ==> files[path] == NodeOf(Find(t, path).value))
  }

  /** Every name below the destination stands in a directory. */
  predicate Rooted(files: Files) {
    forall path <- files :: path != [] ==> path[..|path| - 1] in files && files[path[..|path| - 1]] == Folder
  }

  function Parent(path: Path): Path
    requires path != []
  {
    path[..|path| - 1]
  }

  /** mkdir without exist_ok, or an exclusive create: fails on an existing name or a missing parent. */
  function Created(files: Files, path: Path, node: Node): Option<Files> {
    if path !in files && (path == [] || (Parent(path) in files && files[Parent(path)] == Folder))
    then Some(files[path := node]) else None
  }

  function NodeOfEntry(e: Entry): Node {
    if e.DirectoryEntry? then Folder else Copied(e.digest.content)
  }

  /** Creating the lines of a listing in order. */
  function Apply(files: Files, entries: seq<Entry>): Option<Files>
    decreases |entries|
  {
    if entries == [] then Some(files) else
      match Created(files, entries[0].path, NodeOfEntry(entries[0]))
      case None => None
      case Some(next) => Apply(next, entries[1..])
  }

  lemma {:induction false} ApplyJoin(files: Files, a: seq<Entry>, b: seq<Entry>)
    requires Apply(files, a).Some?
    ensures Apply(files, a + b) == Apply(Apply(files, a).value, b)
    decreases |a|
  {
    if a == [] {
      assert a + b == b;
    } else {
      assert (a + b)[0] == a[0] && (a + b)[1..] == a[1..] + b;
      ApplyJoin(Created(files, a[0].path, NodeOfEntry(a[0])).value, a[1..], b);
    }
  }

  /** The tree found at a path below `base`, when the tree itself stands there. */
  function Placed(base: Path, t: Tree, path: Path): Option<Tree> {
    if base <= path then Find(t, path[|base|..]) else None
  }

  function PlacedIn(base: Path, children: seq<Child>, path: Path): Option<Tree> {
    if base <= path && path != base then FindIn(children, path[|base|..]) else None
  }

  /** What stands at a path when `found` is laid over the files before. */
  predicate Laid(before: Files, after: Files, path: Path, found: Option<Tree>) {
    && (path in after <==> path in before || found.Some?)
    && (path in after ==> after[path] == if found.Some? then NodeOf(found.value) else before[path])
  }

  ghost predicate LaidTree(before: Files, after: Files, base: Path, t: Tree) {
    forall path: Path :: Laid(before, after, path, Placed(base, t, path))
  }

  ghost predicate LaidChildren(before: Files, after: Files, base: Path, children: seq<Child>) {
    forall path: Path :: Laid(before, after, path, PlacedIn(base, children, path))
  }

  lemma {:induction false} FindInAbsent(children: seq<Child>, path: Path)
    requires path != [] && forall c <- children :: c.name != path[0]
    ensures FindIn(children, path) == None
  {
    if children != [] { FindInAbsent(children[1..], path); }
  }

  lemma PlacedSplit(base: Path, children: seq<Child>, path: Path)
    requires children != [] && NamesDiffer(children)
    ensures var first := Placed(base + [children[0].name], children[0].tree, path);
      && PlacedIn(base, children, path) == (if first.Some? then first else PlacedIn(base, children[1..], path))
      && (base + [children[0].name] <= path ==> PlacedIn(base, children[1..], path) == None)
  {
    var below := base + [children[0].name];
    if base <= path && path != base {
      var rest := path[|base|..];
      assert below <= path <==> rest[0] == children[0].name;
      if below <= path {
        assert path[|below|..] == rest[1..];
        FindInAbsent(children[1..], rest);
      }
    } else {
      LongerPrefix(base, below, path);
    }
  }

  lemma LaidRoot(before: Files, next: Files, after: Files, base: Path, t: Tree)
    requires base !in before && next == before[base := NodeOf(t)]
    requires if t.Directory? then LaidChildren(next, after, base, t.children) else after == next
    ensures LaidTree(before, after, base, t)
  {
    forall path: Path ensures Laid(before, after, path, Placed(base, t, path)) {
      if base <= path { assert path == base <==> path[|base|..] == []; }
      assert t.Directory? ==> Laid(next, after, path, PlacedIn(base, t.children, path));
    }
  }

  lemma LaidMore(before: Files, next: Files, after: Files, base: Path, children: seq<Child>)
    requires children != [] && NamesDiffer(children)
    requires LaidTree(before, next, base + [children[0].name], children[0].tree)
    requires LaidChildren(next, after, base, children[1..])
    ensures LaidChildren(before, after, base, children)
  {
    forall path: Path ensures Laid(before, after, path, PlacedIn(base, children, path)) {
      PlacedSplit(base, children, path);
      assert Laid(before, next, path, Placed(base + [children[0].name], children[0].tree, path));
      assert Laid(next, after, path, PlacedIn(base, children[1..], path));
    }
  }

  predicate FreeFor(files: Files, base: Path, children: seq<Child>) {
    forall path <- files, c <- children :: !(base + [c.name] <= path)
  }

  lemma StillFree(before: Files, next: Files, base: Path, children: seq<Child>)
    requires children != [] && NamesDiffer(children) && FreeFor(before, base, children)
    requires LaidTree(before, next, base + [children[0].name], children[0].tree)
    ensures FreeFor(next, base, children[1..])
  {
    var below := base + [children[0].name];
    forall path <- next, c <- children[1..] ensures !(base + [c.name] <= path) {
      assert Laid(before, next, path, Placed(below, children[0].tree, path));
      assert (base + [c.name])[|base|] != below[|base|];
    }
  }

  /** Creating a whole subtree succeeds when its parent is there and nothing stands at its place. */
  lemma {:induction false} CopySubtree(files: Files, base: Path, t: Tree)
    requires WellNamed(t)
    requires base == [] || (Parent(base) in files && files[Parent(base)] == Folder)
    requires forall path <- files :: !(base <= path)
    ensures Apply(files, Listing(base, t)).Some?
    ensures LaidTree(files, Apply(files, Listing(base, t)).value, base, t)
    decreases t, 1
  {
    assert base !in files;
    var next := files[base := NodeOf(t)];
    var whole := Listing(base, t);
    assert whole[0] == EntryOf(base, t) && whole[1..] == ListAll(base, Below(t));
    assert Created(files, base, NodeOfEntry(whole[0])) == Some(next);
    assert Apply(files, whole) == Apply(next, whole[1..]);
    if t.Directory? {
      forall path <- next, c <- t.children ensures !(base + [c.name] <= path) {
        LongerPrefix(base, base + [c.name], path);
      }
      CopyChildren(next, base, t.children);
    }
    LaidRoot(files, next, Apply(files, whole).value, base, t);
  }

  lemma {:induction false} CopyChildren(files: Files, base: Path, children: seq<Child>)
    requires NamesDiffer(children) && forall c <- children :: WellNamed(c.tree)
    requires base in files && files[base] == Folder && FreeFor(files, base, children)
    ensures Apply(files, ListAll(base, children)).Some?
    ensures LaidChildren(files, Apply(files, ListAll(base, children)).value, base, children)
    decreases children, 0
  {
    if children != [] {
      var below := base + [children[0].name];
      assert Parent(below) == base;
      CopySubtree(files, below, children[0].tree);
      var next := Apply(files, Listing(below, children[0].tree)).value;
      StillFree(files, next, base, children);
      assert Laid(files, next, base, Placed(below, children[0].tree, base));
      CopyChildren(next, base, children[1..]);
      ApplyJoin(files, Listing(below, children[0].tree), ListAll(base, children[1..]));
      LaidMore(files, next, Apply(files, ListAll(base, children)).value, base, children);
    }
  }

  lemma {:induction false} RootedHoldsRoot(files: Files, path: Path)
    requires Rooted(files) && path in files
    ensures [] in files
    decreases |path|
  {
    if path != [] { RootedHoldsRoot(files, Parent(path)); }
  }

  lemma {:induction false} FindInIs(children: seq<Child>, c: Child, path: Path)
    requires NamesDiffer(children) && c in children && path != [] && c.name == path[0]
    ensures FindIn(children, path) == Find(c.tree, path[1..])
  {
    if children[0] != c {
      assert children == [children[0]] + children[1..];
      FindInIs(children[1..], c, path);
    }
  }

  /** A name-ordered tree has the same things at the same paths. */
  lemma {:induction false} FindOrdered(t: Tree, path: Path)
    requires WellNamed(t)
    ensures Find(InNameOrder(t), path) == match Find(t, path) case None => None case Some(x) => Some(InNameOrder(x))
    decreases t
  {
    if t.Directory? && path != [] {
      var ordered := EachInOrder(t.children);
      SortNamesDiffer(ordered);
      SortMembers(ordered, ByName());
      if NameIn(t.children, path[0]) {
        var c :| c in t.children && c.name == path[0];
        var i :| 0 <= i < |t.children| && t.children[i] == c;
        assert ordered[i] in ordered;
        FindInIs(t.children, c, path);
        FindInIs(Sort(ordered, ByName()), ordered[i], path);
        FindOrdered(c.tree, path[1..]);
      } else {
        FindInAbsent(t.children, path);
        forall d <- Sort(ordered, ByName()) ensures d.name != path[0] {
          var i :| 0 <= i < |ordered| && ordered[i] == d;
          assert t.children[i] in t.children;
        }
        FindInAbsent(Sort(ordered, ByName()), path);
      }
    }
  }

  /** On a volume the copy succeeds exactly when nothing stands at the destination, and then it mirrors the source. */
  lemma CopyExact(files: Files, source: Tree)
    requires WellNamed(source) && Rooted(files)
    ensures Apply(files, Inventory(source)).Some? <==> files == map[]
    ensures files == map[] ==> Mirrors(Apply(files, Inventory(source)).value, source)
  {
    if files == map[] {
      CopyMirrors(files, source);
    } else {
      RootedExact(files);
    }
  }

  lemma CopyMirrors(files: Files, source: Tree)
    requires WellNamed(source) && files == map[]
    ensures Apply(files, Inventory(source)).Some? && Mirrors(Apply(files, Inventory(source)).value, source)
  {
    OrderKeepsNames(source);
    CopySubtree(files, [], InNameOrder(source));
    var after := Apply(files, Inventory(source)).value;
    forall path: Path ensures path in after <==> Find(source, path).Some?
      ensures path in after ==> after[path] == NodeOf(Find(source, path).value)
    {
      FindOrdered(source, path);
      assert Laid(files, after, path, Placed([], InNameOrder(source), path)) && path[0..] == path;
    }
  }

  lemma RootedExact(files: Files)
    requires Rooted(files)
    ensures [] in files <==> files != map[]
  {
    if files != map[] {
      var path :| path in files;
      RootedHoldsRoot(files, path);
    }
  }

  lemma CopyTurn(files: Files, rest: seq<Frame>, top: Frame)
    ensures var made := Created(files, top.path, NodeOf(top.tree));
      Apply(files, ListStack(rest + [top])) ==
        if made == None then None else Apply(made.value, ListStack(rest + Frames(top.path, SortedBelow(top.tree))))
    ensures |ListStack(rest + Frames(top.path, SortedBelow(top.tree)))| < |ListStack(rest + [top])|
  {
    PoppedFrame(rest, top);
    var more := ListStack(rest + Frames(top.path, SortedBelow(top.tree)));
    assert ([EntryOf(top.path, top.tree)] + more)[1..] == more;
  }

  class Volume {
    var files: Files

    constructor ()
      ensures files == map[]
    {
      files := map[];
    }

    method Create(path: Path, node: Node) returns (ok: bool)
      modifies this
      ensures ok == Created(old(files), path, node).Some?
      ensures files == if ok then old(files)[path := node] else old(files)
    {
      ok := path !in files && (path == [] || (Parent(path) in files && files[Parent(path)] == Folder));
      if ok { files := files[path := node]; }
    }

    /** One turn of the copy: the top node is created and its children are pushed. */
    method CopyTop(stack: seq<Frame>) returns (ok: bool, next: seq<Frame>)
      requires stack != []
      modifies this
      ensures Apply(old(files), ListStack(stack)) == if ok then Apply(files, ListStack(next)) else None
      ensures if ok then |ListStack(next)| < |ListStack(stack)| else files == old(files)
      ensures stack[|stack| - 1].path in old(files) ==> !ok
    {
      var top, rest := stack[|stack| - 1], stack[..|stack| - 1];
      assert stack == rest + [top];
      CopyTurn(files, rest, top);
      ok := Create(top.path, NodeOf(top.tree));
      next := rest + Frames(top.path, SortedBelow(top.tree));
    }

    /** Copies into a place where nothing stands yet; otherwise it fails at the first step. */
    method CopyTree(source: Tree) returns (ok: bool)
      requires WellNamed(source) && Rooted(files)
      modifies this
      ensures ok == (old(files) == map[])
      ensures if ok then Mirrors(files, source) else files == old(files)
    {
      CopyExact(files, source);
      var stack := [Frame([], source)];
      WalkStart(source);
      assert [] + ListStack(stack) == ListStack(stack);
      RootedExact(files);
      while stack != []
        invariant Apply(files, ListStack(stack)) == Apply(old(files), Inventory(source))
        invariant [] in old(files) ==> files == old(files) && stack[|stack| - 1].path == []
        decreases |ListStack(stack)|
      {
        ok, stack := CopyTop(stack);
        if !ok { return; }
      }
      return true;
    }
  }
}
