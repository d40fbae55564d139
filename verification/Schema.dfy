/** The additive schema comparison of scripts/upgrade_engine.py:134-157 on database snapshots. */
module Schema {
  import opened Basics
  import opened Sorting

  type Name = string
  type Cell = string
  type Row = seq<Cell>

  /** A line of table_info; the shape is everything after the name. */
  datatype Column = Column(name: Name, shape: string)

  datatype Table = Table(columns: seq<Column>, rows: seq<Row>,
                         indexes: seq<string>, foreignKeys: seq<string>, triggers: seq<string>)

  type Snapshot = map<Name, Table>

  datatype Change =
    | ColumnAdded(table: Name, column: Column)
    | TableAdded(table: Name, columns: seq<Column>)

  predicate Distinct(columns: seq<Column>) {
    forall i, j :: 0 <= i < j < |columns| ==> columns[i].name != columns[j].name
  }

  /** What SQLite hands out: the column names of a table differ .. */
  predicate WellFormed(snapshot: Snapshot) {
    forall name <- snapshot :: Distinct(snapshot[name].columns)
  }

  /** .. and a row has one value for each column. */
  predicate Filled(snapshot: Snapshot) {
    forall name <- snapshot, row <- snapshot[name].rows :: |row| == |snapshot[name].columns|
  }

  // ---------------------------------------------------------------- projection

  predicate Named(columns: seq<Column>, name: Name) {
    exists c <- columns :: c.name == name
  }

  predicate Covers(columns: seq<Column>, wanted: seq<Column>) {
    forall w <- wanted :: w in columns
  }

  /** The first position with the name. */
  function Place(columns: seq<Column>, name: Name): (place: nat)
    requires Named(columns, name)
    ensures place < |columns| && columns[place].name == name
  {
    if columns[0].name == name then 0 else 1 + Place(columns[1..], name)
  }

  /** The value of one wanted column; filled tables never reach the blank. */
  function Value(row: Row, columns: seq<Column>, name: Name): Cell {
    if Named(columns, name) && Place(columns, name) < |row| then row[Place(columns, name)] else ""
  }

  function Project(row: Row, columns: seq<Column>, wanted: seq<Column>): Row {
    seq(|wanted|, k requires 0 <= k < |wanted| => Value(row, columns, wanted[k].name))
  }

  function Projection(columns: seq<Column>, wanted: seq<Column>): Row -> Row {
    row => Project(row, columns, wanted)
  }

  function Map<A, B>(f: A -> B, xs: seq<A>): seq<B> {
    seq(|xs|, i requires 0 <= i < |xs| => f(xs[i]))
  }

  function ProjectRows(rows: seq<Row>, columns: seq<Column>, wanted: seq<Column>): seq<Row> {
    Map(Projection(columns, wanted), rows)
  }

  // ---------------------------------------------------------------- the relation

  predicate TableKept(before: Table, after: Table) {
    && before.indexes == after.indexes
    && before.foreignKeys == after.foreignKeys
    && before.triggers == after.triggers
    && Covers(after.columns, before.columns)
    && multiset(ProjectRows(after.rows, after.columns, before.columns)) == multiset(before.rows)
  }

  predicate Additive(before: Snapshot, after: Snapshot) {
    KeptFor(before, after, before.Keys)
  }

  predicate KeptFor(before: Snapshot, after: Snapshot, names: set<Name>)
    requires names <= before.Keys
  {
    forall name <- names :: name in after && TableKept(before[name], after[name])
  }

  /** What the comparison reports. */
  predicate Reported(before: Snapshot, after: Snapshot, change: Change) {
    match change
    case ColumnAdded(table, c) =>
      table in before && table in after && c in after[table].columns && !Named(before[table].columns, c.name)
    case TableAdded(table, columns) => table in after && table !in before && columns == after[table].columns
  }

  // ---------------------------------------------------------------- lemmas on projection

  lemma PlaceUnique(columns: seq<Column>, i: nat)
    requires Distinct(columns) && i < |columns|
    ensures Named(columns, columns[i].name) && Place(columns, columns[i].name) == i
  {
    assert columns[i] in columns;
  }

  lemma SameNameSameColumn(columns: seq<Column>, c: Column, d: Column)
    requires Distinct(columns) && c in columns && d in columns && c.name == d.name
    ensures c == d
  {
  }

  lemma ProjectAll(row: Row, columns: seq<Column>)
    requires Distinct(columns) && |row| == |columns|
    ensures Project(row, columns, columns) == row
  {
    forall k | 0 <= k < |columns| ensures Project(row, columns, columns)[k] == row[k] {
      PlaceUnique(columns, k);
    }
  }

  lemma ProjectTwice(row: Row, top: seq<Column>, middle: seq<Column>, low: seq<Column>)
    requires Distinct(middle) && Distinct(top) && Covers(top, middle) && Covers(middle, low)
    ensures Project(Project(row, top, middle), middle, low) == Project(row, top, low)
  {
    var once := Project(row, top, middle);
    forall k | 0 <= k < |low| ensures Value(once, middle, low[k].name) == Value(row, top, low[k].name) {
      assert low[k] in low && low[k] in middle;
      var i :| 0 <= i < |middle| && middle[i] == low[k];
      PlaceUnique(middle, i);
    }
  }

  lemma RowsProjectAll(rows: seq<Row>, columns: seq<Column>)
    requires Distinct(columns) && forall row <- rows :: |row| == |columns|
    ensures ProjectRows(rows, columns, columns) == rows
  {
    forall i | 0 <= i < |rows| ensures Project(rows[i], columns, columns) == rows[i] {
      ProjectAll(rows[i], columns);
    }
  }

  lemma RowsProjectTwice(rows: seq<Row>, top: seq<Column>, middle: seq<Column>, low: seq<Column>)
    requires Distinct(middle) && Distinct(top) && Covers(top, middle) && Covers(middle, low)
    ensures ProjectRows(ProjectRows(rows, top, middle), middle, low) == ProjectRows(rows, top, low)
  {
    forall i | 0 <= i < |rows|
      ensures Project(Project(rows[i], top, middle), middle, low) == Project(rows[i], top, low)
    {
      ProjectTwice(rows[i], top, middle, low);
    }
  }

  lemma MapJoin<A, B>(f: A -> B, xs: seq<A>, ys: seq<A>)
    ensures Map(f, xs + ys) == Map(f, xs) + Map(f, ys)
  {
  }

  lemma MapMiddle<A, B>(f: A -> B, left: seq<A>, x: A, right: seq<A>)
    ensures multiset(Map(f, left + [x] + right)) == multiset{f(x)} + multiset(Map(f, left + right))
  {
    MapJoin(f, left + [x], right);
    MapJoin(f, left, [x]);
    MapJoin(f, left, right);
    assert Map(f, [x]) == [f(x)];
  }

  /** Mapping respects multisets. */
  lemma {:induction false} MapPermuted<A, B>(f: A -> B, xs: seq<A>, ys: seq<A>)
    requires multiset(xs) == multiset(ys)
    ensures multiset(Map(f, xs)) == multiset(Map(f, ys))
  {
    if xs == [] {
      assert |multiset(ys)| == 0;
    } else {
      var i := Removed(xs, ys);
      MapPermuted(f, xs[1..], ys[..i] + ys[i + 1..]);
      MapMiddle(f, ys[..i], ys[i], ys[i + 1..]);
      MapMiddle(f, [], xs[0], xs[1..]);
      assert ys == ys[..i] + [ys[i]] + ys[i + 1..] && xs == [] + [xs[0]] + xs[1..] && xs[1..] == [] + xs[1..];
    }
  }

  lemma Without<A>(xs: seq<A>, i: nat)
    requires i < |xs|
    ensures multiset(xs[..i] + xs[i + 1..]) == multiset(xs) - multiset{xs[i]}
  {
    assert xs == xs[..i] + [xs[i]] + xs[i + 1..];
    assert multiset(xs) == multiset(xs[..i]) + multiset{xs[i]} + multiset(xs[i + 1..]);
  }

  lemma Removed<A>(xs: seq<A>, ys: seq<A>) returns (i: nat)
    requires multiset(xs) == multiset(ys) && xs != []
    ensures i < |ys| && ys[i] == xs[0]
    ensures multiset(xs[1..]) == multiset(ys[..i] + ys[i + 1..])
  {
    SameElements(xs, ys);
    assert xs[0] in xs;
    i :| 0 <= i < |ys| && ys[i] == xs[0];
    Without(xs, 0);
    Without(ys, i);
    assert xs[..0] + xs[1..] == xs[1..];
  }

  // ---------------------------------------------------------------- theorems

  lemma ComparesEqualToItself(s: Snapshot)
    requires WellFormed(s) && Filled(s)
    ensures Additive(s, s) && NothingReported(s, s)
  {
    forall name <- s ensures TableKept(s[name], s[name]) {
      RowsProjectAll(s[name].rows, s[name].columns);
    }
  }

  lemma TableKeptTransitive(a: Table, b: Table, c: Table)
    requires Distinct(b.columns) && Distinct(c.columns)
    requires TableKept(a, b) && TableKept(b, c)
    ensures TableKept(a, c)
  {
    RowsProjectTwice(c.rows, c.columns, b.columns, a.columns);
    MapPermuted(Projection(b.columns, a.columns), ProjectRows(c.rows, c.columns, b.columns), b.rows);
  }

  /**
    Two accepted steps make an accepted one. It reports the columns either step added to a's tables,
    and the tables either step added, with the columns they have in c.
   */
  lemma StepsCompose(a: Snapshot, b: Snapshot, c: Snapshot)
    requires WellFormed(b) && WellFormed(c)
    requires Additive(a, b) && Additive(b, c)
    ensures Additive(a, c)
    ensures forall table, column ::
      Reported(a, c, ColumnAdded(table, column)) <==>
        Reported(a, b, ColumnAdded(table, column)) || (table in a && Reported(b, c, ColumnAdded(table, column)))
    ensures forall table, columns ::
      Reported(a, c, TableAdded(table, columns)) <==>
        Reported(b, c, TableAdded(table, columns))
        || (table in b && Reported(a, b, TableAdded(table, b[table].columns)) && columns == c[table].columns)
  {
    forall name <- a ensures name in c && TableKept(a[name], c[name]) {
      TableKeptTransitive(a[name], b[name], c[name]);
    }
    forall name, column ensures Reported(a, c, ColumnAdded(name, column)) <==>
        Reported(a, b, ColumnAdded(name, column)) || (name in a && Reported(b, c, ColumnAdded(name, column)))
    {
      if name in a { ColumnsCompose(a[name].columns, b[name].columns, c[name].columns, column); }
    }
  }

  lemma ColumnsCompose(a: seq<Column>, b: seq<Column>, c: seq<Column>, x: Column)
    requires Distinct(c) && Covers(b, a) && Covers(c, b)
    ensures x in c && !Named(a, x.name) <==>
      (x in b && !Named(a, x.name)) || (x in c && !Named(b, x.name))
  {
    if x in c && Named(b, x.name) {
      var d :| d in b && d.name == x.name;
      SameNameSameColumn(c, d, x);
    }
    if Named(a, x.name) {
      var d :| d in a && d.name == x.name;
      assert d in b;
    }
  }

  lemma NewColumnOrSame(before: seq<Column>, after: seq<Column>)
    requires Distinct(after) && Covers(after, before)
    ensures Covers(before, after) <==> forall c <- after :: Named(before, c.name)
  {
    if forall c <- after :: Named(before, c.name) {
      forall c <- after ensures c in before {
        var d :| d in before && d.name == c.name;
        SameNameSameColumn(after, c, d);
      }
    }
  }

  ghost predicate NothingReported(a: Snapshot, b: Snapshot) {
    forall change: Change :: !Reported(a, b, change)
  }

  predicate SameColumns(a: Snapshot, b: Snapshot) {
    a.Keys == b.Keys && forall name <- a :: Covers(a[name].columns, b[name].columns)
  }

  lemma NothingReportedSame(a: Snapshot, b: Snapshot)
    requires WellFormed(b) && Additive(a, b) && NothingReported(a, b)
    ensures SameColumns(a, b)
  {
    forall name <- b ensures name in a {
      assert !Reported(a, b, TableAdded(name, b[name].columns));
    }
    forall name <- a ensures Covers(a[name].columns, b[name].columns) {
      assert TableKept(a[name], b[name]);
      forall c <- b[name].columns ensures Named(a[name].columns, c.name) {
        assert !Reported(a, b, ColumnAdded(name, c));
      }
      NewColumnOrSame(a[name].columns, b[name].columns);
    }
  }

  /** An accepted comparison reports nothing exactly when both have the same tables with the same columns. */
  lemma NothingReportedExactly(a: Snapshot, b: Snapshot)
    requires WellFormed(b) && Additive(a, b)
    ensures NothingReported(a, b) <==> SameColumns(a, b)
  {
    if NothingReported(a, b) { NothingReportedSame(a, b); }
    if SameColumns(a, b) {
      forall name <- a, c <- b[name].columns ensures Named(a[name].columns, c.name) {
        assert c in a[name].columns;
      }
    }
  }

  /** Each database in the run is an accepted upgrade of the one before it. */
  predicate Upgrades(history: seq<Snapshot>)
    requires |history| > 0
    decreases |history|
  {
    var n := |history|;
    && WellFormed(history[n - 1]) && Filled(history[n - 1])
    && (n > 1 ==> Upgrades(history[..n - 1]) && Additive(history[n - 2], history[n - 1]))
  }

  /** Over any run of accepted upgrades the last database still holds the first one's rows. */
  lemma {:induction false} RunKeepsData(history: seq<Snapshot>)
    requires |history| > 0 && Upgrades(history)
    ensures Additive(history[0], history[|history| - 1])
    decreases |history|
  {
    var n := |history|;
    if n == 1 {
      ComparesEqualToItself(history[0]);
    } else {
      RunKeepsData(history[..n - 1]);
      StepsCompose(history[0], history[n - 2], history[n - 1]);
    }
  }

  // ---------------------------------------------------------------- the comparison

  predicate NoRepeats(changes: seq<Change>) {
    changes == [] || (changes[|changes| - 1] !in changes[..|changes| - 1] && NoRepeats(changes[..|changes| - 1]))
  }

  lemma OneMore(changes: seq<Change>, change: Change)
    requires NoRepeats(changes) && change !in changes
    ensures NoRepeats(changes + [change])
  {
    assert (changes + [change])[..|changes|] == changes;
  }

  /** The dictionary from names to shapes; a later column of the same name would win. */
  method ShapesByName(columns: seq<Column>) returns (shapes: map<Name, string>)
    requires Distinct(columns)
    ensures forall c: Column :: (c.name in shapes && shapes[c.name] == c.shape) <==> c in columns
  {
    shapes := map[];
    var i := 0;
    while i < |columns|
      invariant i <= |columns|
      invariant forall name <- shapes :: Named(columns[..i], name)
      invariant forall c: Column :: (c.name in shapes && shapes[c.name] == c.shape) <==> c in columns[..i]
    {
      assert columns[..i + 1] == columns[..i] + [columns[i]];
      shapes := shapes[columns[i].name := columns[i].shape];
      i := i + 1;
    }
    assert columns[..i] == columns;
  }

  method CompareTable(before: Table, after: Table) returns (kept: bool)
    requires Distinct(before.columns) && Distinct(after.columns)
    ensures kept == TableKept(before, after)
  {
    if before.indexes != after.indexes || before.foreignKeys != after.foreignKeys || before.triggers != after.triggers {
      return false;
    }
    var shapes := ShapesByName(after.columns);
    var i := 0;
    while i < |before.columns|
      invariant i <= |before.columns|
      invariant Covers(after.columns, before.columns[..i])
    {
      var c := before.columns[i];
      if c.name !in shapes || shapes[c.name] != c.shape {
        assert c in before.columns && c !in after.columns;
        return false;
      }
      assert before.columns[..i + 1] == before.columns[..i] + [c];
      i := i + 1;
    }
    assert before.columns[..i] == before.columns;
    var projected := ProjectTable(before, after);
    return multiset(projected) == multiset(before.rows);
  }

  method ProjectTable(before: Table, after: Table) returns (projected: seq<Row>)
    requires Distinct(after.columns) && Covers(after.columns, before.columns)
    ensures projected == ProjectRows(after.rows, after.columns, before.columns)
  {
    projected := [];
    var i := 0;
    while i < |after.rows|
      invariant i <= |after.rows|
      invariant projected == ProjectRows(after.rows[..i], after.columns, before.columns)
    {
      assert after.rows[..i + 1] == after.rows[..i] + [after.rows[i]];
      MapJoin(Projection(after.columns, before.columns), after.rows[..i], [after.rows[i]]);
      projected := projected + [Project(after.rows[i], after.columns, before.columns)];
      i := i + 1;
    }
    assert after.rows[..i] == after.rows;
  }

  /** Appends the added columns of one table. */
  method AppendColumns(changes: seq<Change>, table: Name, before: seq<Column>, after: seq<Column>)
    returns (longer: seq<Change>)
    requires NoRepeats(changes) && Distinct(after)
    requires forall c <- changes :: c.table != table
    ensures NoRepeats(longer)
    ensures forall c: Change :: c in longer <==>
      c in changes || (c.ColumnAdded? && c.table == table && c.column in after && !Named(before, c.column.name))
  {
    longer := changes;
    var i := 0;
    while i < |after|
      invariant i <= |after|
      invariant NoRepeats(longer)
      invariant forall c: Change :: c in longer <==>
        c in changes || (c.ColumnAdded? && c.table == table && c.column in after[..i] && !Named(before, c.column.name))
    {
      assert after[..i + 1] == after[..i] + [after[i]];
      if !Named(before, after[i].name) {
        OneMore(longer, ColumnAdded(table, after[i]));
        longer := longer + [ColumnAdded(table, after[i])];
      }
      i := i + 1;
    }
    assert after[..i] == after;
  }

  /** What the first loop has reported when these tables are done. */
  ghost predicate ReportedFor(before: Snapshot, after: Snapshot, done: set<Name>, changes: seq<Change>) {
    && NoRepeats(changes)
    && forall c: Change :: c in changes <==> c.ColumnAdded? && c.table in done && Reported(before, after, c)
  }

  /** One turn of the first loop. */
  method CompareNext(before: Snapshot, after: Snapshot, ghost done: set<Name>, table: Name, changes: seq<Change>)
    returns (result: Option<seq<Change>>)
    requires WellFormed(before) && WellFormed(after)
    requires table in before && table !in done && done <= before.Keys
    requires KeptFor(before, after, done) && ReportedFor(before, after, done, changes)
    ensures result.Some? <==> KeptFor(before, after, done + {table})
    ensures result.Some? ==> ReportedFor(before, after, done + {table}, result.value)
  {
    if table !in after { return None; }
    var kept := CompareTable(before[table], after[table]);
    if !kept { return None; }
    var longer := AppendColumns(changes, table, before[table].columns, after[table].columns);
    return Some(longer);
  }

  /** The first loop: every old table in turn. */
  method CompareTables(before: Snapshot, after: Snapshot) returns (result: Option<seq<Change>>)
    requires WellFormed(before) && WellFormed(after)
    ensures result.Some? <==> Additive(before, after)
    ensures result.Some? ==> ReportedFor(before, after, before.Keys, result.value)
  {
    var changes: seq<Change> := [];
    var todo := before.Keys;
    ghost var done: set<Name> := {};
    while todo != {}
      invariant done + todo == before.Keys && done !! todo
      invariant KeptFor(before, after, done) && ReportedFor(before, after, done, changes)
      decreases todo
    {
      var table :| table in todo;
      var next := CompareNext(before, after, done, table, changes);
      if next == None {
        assert !KeptFor(before, after, before.Keys);
        return None;
      }
      changes, todo, done := next.value, todo - {table}, done + {table};
    }
    assert done == before.Keys;
    return Some(changes);
  }

  /** The second loop: the tables only the newer snapshot has. */
  method AppendTables(before: Snapshot, after: Snapshot, changes: seq<Change>) returns (longer: seq<Change>)
    requires NoRepeats(changes) && forall c <- changes :: c.ColumnAdded?
    ensures NoRepeats(longer)
    ensures forall c: Change :: c in longer <==> c in changes || (c.TableAdded? && Reported(before, after, c))
  {
    longer := changes;
    var extra := after.Keys - before.Keys;
    while extra != {}
      invariant extra <= after.Keys - before.Keys && NoRepeats(longer)
      invariant forall c: Change :: c in longer <==>
        c in changes || (c.TableAdded? && Reported(before, after, c) && c.table !in extra)
      decreases extra
    {
      var table :| table in extra;
      OneMore(longer, TableAdded(table, after[table].columns));
      longer := longer + [TableAdded(table, after[table].columns)];
      extra := extra - {table};
    }
  }

  // ---------------------------------------------------------------- the report

  /** The hexadecimal digests in the report, of a column's shape and of a table's columns. */
  datatype Digests = Digests(shape: string -> string, columns: seq<Column> -> string)

  function Line(change: Change, digests: Digests): string {
    match change
    case ColumnAdded(table, c) => "column:" + table + "." + c.name + ":" + digests.shape(c.shape)
    case TableAdded(table, columns) => "table:" + table + ":" + digests.columns(columns)
  }

  function Lines(digests: Digests): Change -> string {
    change => Line(change, digests)
  }

  /** `changes` lists what is reported, each once; `report` is their lines in order. */
  ghost predicate Reports(before: Snapshot, after: Snapshot, changes: seq<Change>, report: seq<string>, digests: Digests) {
    && NoRepeats(changes) && (forall c: Change :: c in changes <==> Reported(before, after, c))
    && multiset(report) == multiset(Map(Lines(digests), changes)) && Sorted(report, ByText())
  }

  /** Accepts exactly the additive changes, and returns the sorted lines of what they add. */
  method SchemaChanges(before: Snapshot, after: Snapshot, digests: Digests)
    returns (report: Option<seq<string>>, ghost changes: seq<Change>)
    requires WellFormed(before) && WellFormed(after)
    ensures report.Some? <==> Additive(before, after)
    ensures report.Some? ==> Reports(before, after, changes, report.value, digests)
  {
    changes := [];
    var columns := CompareTables(before, after);
    if columns == None { return None, []; }
    var all := AppendTables(before, after, columns.value);
    var lines := Map(Lines(digests), all);
    TextOrder();
    SortKeeps(lines, ByText());
    SortSorts(lines, ByText());
    return Some(Sort(lines, ByText())), all;
  }

  lemma {:induction false} SameChanges(a: seq<Change>, b: seq<Change>)
    requires NoRepeats(a) && NoRepeats(b) && forall c: Change :: c in a <==> c in b
    ensures multiset(a) == multiset(b)
  {
    forall c: Change ensures multiset(a)[c] == multiset(b)[c] {
      OnceEach(a, c);
      OnceEach(b, c);
    }
  }

  lemma {:induction false} OnceEach(changes: seq<Change>, c: Change)
    requires NoRepeats(changes)
    ensures multiset(changes)[c] == if c in changes then 1 else 0
    decreases |changes|
  {
    if changes != [] {
      var n := |changes| - 1;
      OnceEach(changes[..n], c);
      assert changes == changes[..n] + [changes[n]];
    }
  }

  /** The report depends on the two snapshots alone, not on the order in which tables and columns are visited. */
  lemma ReportDetermined(before: Snapshot, after: Snapshot, a: seq<Change>, b: seq<Change>,
                         ra: seq<string>, rb: seq<string>, digests: Digests)
    requires Reports(before, after, a, ra, digests) && Reports(before, after, b, rb, digests)
    ensures ra == rb
  {
    SameChanges(a, b);
    MapPermuted(Lines(digests), a, b);
    TextOrder();
    SortedUnique(ra, rb, ByText());
  }
}
