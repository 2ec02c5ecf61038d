/** The ClickHouse database behind the generated storage: the raw table, and the typed tables and materialized views that the
    generated migrations create. */
module ClickHouse {
  import opened Bytes
  import opened Sequences
  import opened Schema
  import opened CodeGen
  import opened EventDecoder
  import opened Storage

  /** The raw table every server uses. */
  const EVENTS := "events"

  /** `fmt.Sprintf` of a name in the migrations. */
  function Filled(n: Name, table: string): string {
    n.before + table + n.after
  }

  datatype Table = Table(columns: seq<TableColumn>, rows: seq<seq<Value>>)

  /** A materialized view; `event` is the number its `WHERE` compares with. */
  datatype View = View(name: string, target: string, select: seq<Column>, source: string, event: nat)

  function ColumnFields(select: seq<Column>): (r: seq<string>)
    ensures |r| == |select| && forall i :: 0 <= i < |r| ==> r[i] == select[i].field
  {
    MapSeq((c: Column) => c.field, select)
  }

  /** What a view puts into one column of its target: the selected value of that name, or the default of the type. */
  function Cell(select: seq<Column>, column: TableColumn, payload: map<string, Value>): Value {
    var fields := ColumnFields(select);
    if column.field in fields then ExtractField(select[IndexOf(fields, column.field)], payload)
    else if column.ty.StringColumn? then Str([]) else Num(0)
  }

  function Cells(select: seq<Column>, columns: seq<TableColumn>, payload: map<string, Value>): (r: seq<Value>)
    ensures |r| == |columns| && forall i :: 0 <= i < |r| ==> r[i] == Cell(select, columns[i], payload)
  {
    seq(|columns|, i requires 0 <= i < |columns| => Cell(select, columns[i], payload))
  }

  // ---- What the tables should hold ---------------------------------------------------------------

  function TableName(f: Func): string
    requires |f.params| >= 1
  {
    "events_" + EventName(f)
  }

  function ViewName(f: Func): string
    requires |f.params| >= 1
  {
    "mv_events_" + EventName(f)
  }

  /** The SQL type of a column fits the values of its field. */
  predicate ColumnFits(ty: ColumnType, v: Value) {
    match ty
    case UInt64Column => v.Num?
    case StringColumn => v.Str?
    case BoolColumn => v == Num(0) || v == Num(1)
  }

  ghost predicate TableFits(t: Table) {
    forall r :: r in t.rows ==> |r| == |t.columns| && forall i :: 0 <= i < |r| ==> ColumnFits(t.columns[i].ty, r[i])
  }

  /** One table for each of the first `n` events, under its own name, with one column for each field, holding what was logged of
      that event, in order. */
  ghost predicate Holds(tables: map<string, Table>, fs: seq<Func>, es: seq<Event>, n: nat)
    requires Usable(fs) && n <= |fs|
  {
    && (forall name :: name in tables ==> OfSome(fs, n, name))
    && (forall i :: 0 <= i < n ==> HoldsType(tables, fs[i], OfType(es, i)))
  }

  ghost predicate OfSome(fs: seq<Func>, n: nat, name: string)
    requires Usable(fs) && n <= |fs|
  {
    exists i :: 0 <= i < n && name == TableName(fs[i])
  }

  ghost predicate HoldsType(tables: map<string, Table>, f: Func, rows: seq<seq<Value>>)
    requires |f.params| >= 1 && Named(f.params)
  {
    TableName(f) in tables && tables[TableName(f)] == Table(TableColumnsOf(Fields(f)), rows)
  }

  function ViewFor(f: Func, id: nat): View
    requires |f.params| >= 1 && Named(f.params)
  {
    View(ViewName(f), TableName(f), ColumnsOf(Fields(f)), EVENTS, id)
  }

  function ViewsFor(fs: seq<Func>, n: nat): (r: seq<View>)
    requires Usable(fs) && n <= |fs|
    ensures |r| == n && forall i :: 0 <= i < n ==> r[i] == ViewFor(fs[i], i)
  {
    seq(n, i requires 0 <= i < n => ViewFor(fs[i], i))
  }

  // ---- Names -------------------------------------------------------------------------------------

  lemma Prefixed(prefix: string, a: string, b: string)
    requires prefix + a == prefix + b
    ensures a == b
  {
    assert (prefix + a)[|prefix|..] == a && (prefix + b)[|prefix|..] == b;
  }

  /** No two tables share a name, and no table has the name of a view or of the raw table. */
  lemma NamesApart(fs: seq<Func>, i: nat, j: nat)
    requires WellFormed(fs) && i < |fs| && j < |fs|
    ensures TableName(fs[i]) == TableName(fs[j]) <==> i == j
    ensures ViewName(fs[i]) == ViewName(fs[j]) <==> i == j
    ensures TableName(fs[i]) != ViewName(fs[j])
    ensures TableName(fs[i]) != EVENTS && ViewName(fs[i]) != EVENTS
  {
    hide WellFormedFunc, GoConstants;
    if TableName(fs[i]) == TableName(fs[j]) {
      Prefixed("events_", EventName(fs[i]), EventName(fs[j]));
      DistinctEventNames(fs, i, j);
    }
    if ViewName(fs[i]) == ViewName(fs[j]) {
      Prefixed("mv_events_", EventName(fs[i]), EventName(fs[j]));
      DistinctEventNames(fs, i, j);
    }
    assert TableName(fs[i])[0] == 'e' && ViewName(fs[j])[0] == 'm' && ViewName(fs[i])[0] == 'm' && EVENTS[0] == 'e';
    assert |TableName(fs[i])| > 6 == |EVENTS|;
  }

  lemma FewerTables(tables: map<string, Table>, fs: seq<Func>, es: seq<Event>, n: nat)
    requires WellFormed(fs) && 0 < n <= |fs| && Holds(tables, fs, es, n)
    ensures TableName(fs[n - 1]) in tables && Holds(tables - {TableName(fs[n - 1])}, fs, es, n - 1)
  {
    hide WellFormedFunc, GoConstants, OfType, TableName, ViewName, HoldsType, OfSome;
    var last := TableName(fs[n - 1]);
    HoldsItsTable(tables, fs, es, n, n - 1);
    forall i | 0 <= i < n - 1 ensures HoldsType(tables - {last}, fs[i], OfType(es, i)) {
      NamesApart(fs, i, n - 1);
      HoldsItsTable(tables, fs, es, n, i);
      KeepsTable(tables, tables - {last}, fs[i], OfType(es, i));
    }
    forall name | name in tables - {last} ensures OfSome(fs, n - 1, name) {
      FewerNames(fs, n, name);
    }
  }

  lemma FewerNames(fs: seq<Func>, n: nat, name: string)
    requires Usable(fs) && 0 < n <= |fs| && OfSome(fs, n, name) && name != TableName(fs[n - 1])
    ensures OfSome(fs, n - 1, name)
  {
    hide TableName;
  }

  lemma HoldsItsTable(tables: map<string, Table>, fs: seq<Func>, es: seq<Event>, n: nat, i: nat)
    requires Usable(fs) && i < n <= |fs| && Holds(tables, fs, es, n)
    ensures HoldsType(tables, fs[i], OfType(es, i)) && TableName(fs[i]) in tables
    ensures tables[TableName(fs[i])] == Table(TableColumnsOf(Fields(fs[i])), OfType(es, i))
  {
    hide TableName, OfType, OfSome;
    assert HoldsType(tables, fs[i], OfType(es, i));
  }

  lemma KeepsTable(tables: map<string, Table>, after: map<string, Table>, f: Func, rows: seq<seq<Value>>)
    requires |f.params| >= 1 && Named(f.params) && HoldsType(tables, f, rows)
    requires TableName(f) in after && after[TableName(f)] == tables[TableName(f)]
    ensures HoldsType(after, f, rows)
  {
    hide TableName;
  }

  /** There are as many typed tables as events. */
  lemma {:induction false} TableCount(tables: map<string, Table>, fs: seq<Func>, es: seq<Event>, n: nat)
    requires WellFormed(fs) && n <= |fs| && Holds(tables, fs, es, n)
    ensures |tables| == n
  {
    hide WellFormedFunc, GoConstants, Holds, TableName;
    if n > 0 {
      var last := TableName(fs[n - 1]);
      FewerTables(tables, fs, es, n);
      TableCount(tables - {last}, fs, es, n - 1);
      assert (tables - {last})[last := tables[last]] == tables;
    } else {
      NoTables(tables, fs, es);
    }
  }

  lemma NoTables(tables: map<string, Table>, fs: seq<Func>, es: seq<Event>)
    requires Usable(fs) && Holds(tables, fs, es, 0)
    ensures tables == map[]
  {
    hide TableName, OfSome;
    forall name ensures name !in tables {
      NoneNamed(fs, name);
    }
  }

  lemma NothingHeld(fs: seq<Func>)
    requires Usable(fs)
    ensures Holds(map[], fs, [], 0) && ViewsFor(fs, 0) == [] && forall i :: 0 <= i < |fs| ==> OfType([], i) == []
  {
  }

  lemma NoneNamed(fs: seq<Func>, name: string)
    requires Usable(fs)
    ensures !OfSome(fs, 0, name)
  {
  }

  // ---- One inserted row --------------------------------------------------------------------------

  /** Columns and selected values carry the same names, so every value of the event lands in its own column. */
  lemma CellsAreArgs(fs: seq<Func>, e: Event)
    requires WellFormed(fs) && IsEvent(fs, e)
    ensures var ps := Fields(fs[e.id]);
            Named(ps) && Cells(ColumnsOf(ps), TableColumnsOf(ps), RowOf(fs, e).payload) == e.args
  {
    TupleIsArgs(fs, e);
    FieldsApart(fs, e.id);
    hide RowOf, WellFormedFunc, ExtractField;
    var ps, payload := Fields(fs[e.id]), RowOf(fs, e).payload;
    var fields, cells := ColumnFields(ColumnsOf(ps)), Cells(ColumnsOf(ps), TableColumnsOf(ps), payload);
    assert |e.args| == |ps| by { ArgCount(fs, e); }
    forall i | 0 <= i < |ps| ensures cells[i] == e.args[i] {
      IndexOfDistinct(fields, i);
      assert Tuple(ColumnsOf(ps), payload)[i] == e.args[i];
    }
  }

  lemma ArgCount(fs: seq<Func>, e: Event)
    requires WellFormed(fs) && IsEvent(fs, e)
    ensures |e.args| == |Fields(fs[e.id])|
  {
  }

  lemma FieldsApart(fs: seq<Func>, id: nat)
    requires WellFormed(fs) && id < |fs|
    ensures Named(Fields(fs[id])) && Distinct(ColumnFields(ColumnsOf(Fields(fs[id]))))
  {
    assert WellFormedFunc(fs[id]);
    var names, fields := FieldNames(fs[id].params), ColumnFields(ColumnsOf(Fields(fs[id])));
    forall i, j | 0 <= i < j < |fields| ensures fields[i] != fields[j] {
      assert names[i + 1] != names[j + 1];
    }
  }

  function WithTuple(tables: map<string, Table>, name: string, tuple: seq<Value>): map<string, Table>
    requires name in tables
  {
    tables[name := Table(tables[name].columns, tables[name].rows + [tuple])]
  }

  lemma OfTypeSnoc(es: seq<Event>, e: Event, id: nat)
    ensures OfType(es + [e], id) == OfType(es, id) + if e.id == id then [e.args] else []
  {
    assert (es + [e])[..|es|] == es;
  }

  lemma WithTupleHolds(tables: map<string, Table>, fs: seq<Func>, es: seq<Event>, e: Event)
    requires WellFormed(fs) && IsEvent(fs, e) && Holds(tables, fs, es, |fs|)
    ensures TableName(fs[e.id]) in tables
    ensures Holds(WithTuple(tables, TableName(fs[e.id]), e.args), fs, es + [e], |fs|)
  {
    hide WellFormedFunc, GoConstants, OfType, TableName, ViewName, Matches, OfSome, HoldsType;
    HoldsItsTable(tables, fs, es, |fs|, e.id);
    var after := WithTuple(tables, TableName(fs[e.id]), e.args);
    forall i | 0 <= i < |fs| ensures HoldsType(after, fs[i], OfType(es + [e], i)) {
      HoldsItsTable(tables, fs, es, |fs|, i);
      NamesApart(fs, i, e.id);
      OfTypeSnoc(es, e, i);
      SameTable(after, fs[i], OfType(es + [e], i));
    }
  }

  lemma SameTable(tables: map<string, Table>, f: Func, rows: seq<seq<Value>>)
    requires |f.params| >= 1 && Named(f.params)
    requires TableName(f) in tables && tables[TableName(f)] == Table(TableColumnsOf(Fields(f)), rows)
    ensures HoldsType(tables, f, rows)
  {
    hide TableName;
  }

  /** Every row of a typed table has a value for each column, of the column's SQL type. */
  lemma RowsFit(tables: map<string, Table>, fs: seq<Func>, es: seq<Event>, name: string)
    requires WellFormed(fs) && AllEvents(fs, es) && Holds(tables, fs, es, |fs|) && name in tables
    ensures TableFits(tables[name])
  {
    hide WellFormedFunc, OfType, TableName, TableFits, HoldsType;
    assert OfSome(fs, |fs|, name);
    var i :| 0 <= i < |fs| && name == TableName(fs[i]);
    HoldsItsTable(tables, fs, es, |fs|, i);
    TypedRowsFit(fs, es, i);
  }

  lemma {:induction false} TypedRowsFit(fs: seq<Func>, es: seq<Event>, id: nat)
    requires WellFormed(fs) && AllEvents(fs, es) && id < |fs|
    ensures TableFits(Table(TableColumnsOf(Fields(fs[id])), OfType(es, id)))
  {
    hide WellFormedFunc;
    if es != [] {
      var k := |es| - 1;
      TypedRowsFit(fs, es[..k], id);
      if es[k].id == id {
        assert es[k] in es;
        ArgsFit(fs, es[k]);
      }
    }
  }

  lemma ArgsFit(fs: seq<Func>, e: Event)
    requires WellFormed(fs) && IsEvent(fs, e)
    ensures |e.args| == |Fields(fs[e.id])|
    ensures forall i :: 0 <= i < |e.args| ==> ColumnFits(TableColumnsOf(Fields(fs[e.id]))[i].ty, e.args[i])
  {
    var ps := Fields(fs[e.id]);
    forall i | 0 <= i < |e.args| ensures ColumnFits(TableColumnsOf(ps)[i].ty, e.args[i]) {
      PlainField(fs, e.id, i);
      assert Types(ps)[i] == ps[i].ty;
    }
  }

  /** Whatever the type of a parameter and whatever the payload holds, the selected value has the type of its column; third types
      but `bool` become text. */
  lemma SelectFits(p: Param, payload: map<string, Value>)
    requires p.name != ""
    ensures ColumnFits(TableColumnOf(p).ty, ExtractField(ColumnOf(p), payload))
    ensures TableColumnOf(p).field == ColumnOf(p).field
    ensures TableColumnOf(p).ty.UInt64Column? <==> p.ty.Uint64?
    ensures TableColumnOf(p).ty.BoolColumn? <==> p.ty == Other("bool")
  {
  }

  // ---- The database ------------------------------------------------------------------------------

  class Database {
    var rows: seq<Row>
    var tables: map<string, Table>
    var views: seq<View>

    /** `Init` creates the raw table before the migrations run. */
    constructor ()
      ensures rows == [] && tables == map[] && views == []
    {
      rows, tables, views := [], map[], [];
    }

    /** Tables and views share one set of names. */
    predicate Free(name: string)
      reads this
    {
      name != EVENTS && name !in tables && forall v :: v in views ==> v.name != name
    }

    method CreateTable(name: string, columns: seq<TableColumn>)
      modifies this`tables
      ensures tables == if old(Free(name)) then old(tables)[name := Table(columns, [])] else old(tables)
    {
      if Free(name) {
        tables := tables[name := Table(columns, [])];
      }
    }

    method CreateView(v: View)
      modifies this`views
      ensures views == if old(Free(v.name)) then old(views) + [v] else old(views)
    {
      if Free(v.name) {
        views := views + [v];
      }
    }

    /** All is set up for the first `n` events, whose rows are `es`. */
    ghost predicate Migrated(fs: seq<Func>, es: seq<Event>, n: nat)
      requires Usable(fs) && n <= |fs|
      reads this
    {
      Holds(tables, fs, es, n) && views == ViewsFor(fs, n)
    }

    lemma NamesTaken(fs: seq<Func>, es: seq<Event>, n: nat, i: nat)
      requires WellFormed(fs) && n <= |fs| && i < |fs| && Migrated(fs, es, n)
      ensures Free(TableName(fs[i])) <==> n <= i
      ensures Free(ViewName(fs[i])) <==> n <= i
    {
      hide WellFormedFunc, GoConstants, OfType, TableName, ViewName, HoldsType;
      if i < n {
        HoldsItsTable(tables, fs, es, n, i);
        assert views[i].name == ViewName(fs[i]);
      } else {
        NamesApart(fs, i, i);
        forall v | v in views ensures v.name != TableName(fs[i]) && v.name != ViewName(fs[i]) {
          var j :| 0 <= j < n && v == ViewFor(fs[j], j);
          NamesApart(fs, i, j);
        }
        forall name | name in tables ensures name != TableName(fs[i]) && name != ViewName(fs[i]) {
          assert OfSome(fs, n, name);
          var j :| 0 <= j < n && name == TableName(fs[j]);
          NamesApart(fs, i, j);
          NamesApart(fs, j, i);
        }
      }
    }

    /** One migration: `CREATE TABLE IF NOT EXISTS`, then `CREATE MATERIALIZED VIEW IF NOT EXISTS`. */
    method Execute(ghost fs: seq<Func>, ghost es: seq<Event>, ghost n: nat, ghost i: nat, m: Migration, event: nat)
      requires WellFormed(fs) && n <= |fs| && i < |fs| && i <= n && m == MigrationOf(fs[i]) && event == i
      requires Migrated(fs, es, n) && (i == n ==> OfType(es, i) == [])
      modifies this`tables, this`views
      ensures Migrated(fs, es, if i == n then n + 1 else n)
    {
      hide WellFormedFunc, GoConstants, OfType, Holds;
      NamesTaken(fs, es, n, i);
      FilledNames(fs[i]);
      ghost var before := tables;
      CreateTable(Filled(m.table, EVENTS), m.columns);
      if i == n {
        MoreHolds(before, fs, es, n);
      }
      CreateView(View(Filled(m.view, EVENTS), Filled(m.target, EVENTS), m.select, Filled(m.source, EVENTS), event));
    }

    /** Runs the generated statements. What an earlier start has set up, for the first `n` events, stays as it is. */
    method Migrate(ghost fs: seq<Func>, ghost es: seq<Event>, ghost n: nat, migrations: seq<Migration>, constants: seq<string>)
      requires WellFormed(fs) && n <= |fs| && migrations == MigrationsOf(fs) && constants == GoConstants(fs)
      requires Migrated(fs, es, n) && forall i :: n <= i < |fs| ==> OfType(es, i) == []
      modifies this`tables, this`views
      ensures Migrated(fs, es, |fs|)
    {
      hide WellFormedFunc, OfType, Holds;
      ghost var reached := n;
      for i := 0 to |migrations|
        invariant i <= reached <= |fs| && n <= reached && (reached == n || reached == i) && Migrated(fs, es, reached)
      {
        ConstantNumber(fs, i);
        Execute(fs, es, reached, i, migrations[i], IndexOf(constants, migrations[i].constant));
        reached := if i == reached then reached + 1 else reached;
      }
    }

    /** One row of a batch: each view adds what passes its filter to its target. */
    method Insert(ghost fs: seq<Func>, ghost es: seq<Event>, ghost e: Event, row: Row)
      requires WellFormed(fs) && IsEvent(fs, e) && row == RowOf(fs, e) && Migrated(fs, es, |fs|)
      modifies this`rows, this`tables
      ensures rows == old(rows) + [row] && Migrated(fs, es + [e], |fs|)
    {
      hide WellFormedFunc, GoConstants, OfType, Holds, RowOf, Cells, Matches;
      rows := rows + [row];
      RowNumber(fs, e);
      for i := 0 to |views|
        invariant rows == old(rows) + [row] && Migrated(fs, if i <= e.id then es else es + [e], |fs|)
      {
        var v := views[i];
        if v.source == EVENTS && row.event == v.event {
          CellsAreArgs(fs, e);
          WithTupleHolds(tables, fs, es, e);
          HoldsItsTable(tables, fs, es, |fs|, e.id);
          tables := WithTuple(tables, v.target, Cells(v.select, tables[v.target].columns, row.payload));
        }
      }
    }

    /** A batch that was sent. */
    method InsertAll(ghost fs: seq<Func>, ghost es: seq<Event>, ghost more: seq<Event>, batch: seq<Row>)
      requires WellFormed(fs) && AllEvents(fs, more) && batch == RowsOf(fs, more) && Migrated(fs, es, |fs|)
      modifies this`rows, this`tables
      ensures rows == old(rows) + batch && Migrated(fs, es + more, |fs|)
    {
      hide WellFormedFunc, GoConstants, OfType, Holds, RowOf, Matches;
      assert es + more[..0] == es;
      for i := 0 to |batch|
        invariant rows == old(rows) + batch[..i] && Migrated(fs, es + more[..i], |fs|)
      {
        assert more[i] in more;
        Insert(fs, es + more[..i], more[i], batch[i]);
        assert es + more[..i] + [more[i]] == es + more[..i + 1];
        assert batch[..i + 1] == batch[..i] + [batch[i]];
      }
      assert more[..|batch|] == more && batch[..|batch|] == batch;
    }
  }

  /** The number that the `WHERE` of a view compares with. */
  lemma ConstantNumber(fs: seq<Func>, i: nat)
    requires WellFormed(fs) && i < |fs|
    ensures MigrationOf(fs[i]).constant in GoConstants(fs)
    ensures IndexOf(GoConstants(fs), MigrationOf(fs[i]).constant) == i
  {
    hide WellFormedFunc;
    assert GoConstants(fs)[i] == MigrationOf(fs[i]).constant;
    IndexOfDistinct(GoConstants(fs), i);
  }

  lemma RowNumber(fs: seq<Func>, e: Event)
    requires WellFormed(fs) && IsEvent(fs, e)
    ensures RowOf(fs, e).event == e.id
  {
    RowIsStruct(fs, e);
  }

  lemma FilledNames(f: Func)
    requires |f.params| >= 1 && Named(f.params)
    ensures var m := MigrationOf(f);
            && Filled(m.table, EVENTS) == TableName(f) && Filled(m.target, EVENTS) == TableName(f)
            && Filled(m.view, EVENTS) == ViewName(f) && Filled(m.source, EVENTS) == EVENTS
            && m.select == ColumnsOf(Fields(f)) && m.columns == TableColumnsOf(Fields(f))
  {
  }

  lemma MoreHolds(tables: map<string, Table>, fs: seq<Func>, es: seq<Event>, n: nat)
    requires WellFormed(fs) && n < |fs| && Holds(tables, fs, es, n) && OfType(es, n) == []
    ensures Holds(tables[TableName(fs[n]) := Table(TableColumnsOf(Fields(fs[n])), [])], fs, es, n + 1)
  {
    hide WellFormedFunc, GoConstants, OfType, TableName, ViewName, HoldsType, OfSome;
    var after := tables[TableName(fs[n]) := Table(TableColumnsOf(Fields(fs[n])), [])];
    forall i | 0 <= i < n + 1 ensures HoldsType(after, fs[i], OfType(es, i)) {
      if i < n {
        HoldsItsTable(tables, fs, es, n, i);
        NamesApart(fs, i, n);
      }
      SameTable(after, fs[i], OfType(es, i));
    }
    forall name | name in after ensures OfSome(fs, n + 1, name) {
      MoreNames(fs, n, name);
    }
  }

  lemma MoreNames(fs: seq<Func>, n: nat, name: string)
    requires Usable(fs) && n < |fs| && (name == TableName(fs[n]) || OfSome(fs, n, name))
    ensures OfSome(fs, n + 1, name)
  {
    hide TableName;
  }
}
