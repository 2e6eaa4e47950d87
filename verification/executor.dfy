/**
 The statement executors of src/main.rs over a store of tables. Table `t`
 lives in the file `data/t.csv`; the store maps each table name whose file
 exists to that file's content. An executor returns the new store, the
 lines it prints on standard output, and what went wrong, if anything:
 either a message after which the session goes on, or a panic, which ends it.
 */
module Executor {
  import opened Text
  import opened Query
  import opened Projection

  /** Table name to the content of its csv file. */
  type Store = map<string, string>

  /** The rows the csv reader yields for a file's content, header row first. */
  type CsvReader = string -> seq<seq<string>>

  datatype ExecError =
    | NoColumnNames    // create_table prints "Error empty or no column name provided"
    | ColumnsMismatch  // insert_into reports on standard error that the columns do not match
    | TableMissing     // `expect` on opening or removing an absent file panics
    | TableEmpty       // `unwrap` on the first line of an empty file panics
    | RowLength        // the reader refuses a record whose field count differs from the first record's; `expect` panics
    | Unparsed         // the main loop prints the parse error

  /** Errors after which the program does not continue. */
  predicate Panics(e: ExecError) {
    e.TableMissing? || e.TableEmpty? || e.RowLength?
  }

  datatype Outcome = Outcome(store: Store, printed: seq<string>, error: Option<ExecError>)

  /** `a` and `b` agree on every table other than `name`. */
  ghost predicate SameElsewhere(a: Store, b: Store, name: string) {
    forall k :: k != name ==> (k in a <==> k in b) && (k in a ==> a[k] == b[k])
  }

  /** The check `create_table` makes before writing anything. */
  predicate ValidSchema(columns: seq<string>) {
    |columns| > 0 && "" !in columns
  }

  /** `create_table`: writes the comma-joined column names as the whole file, replacing any earlier one. */
  function Create(store: Store, q: SqlCreate): (o: Outcome)
    ensures o.error.None? <==> ValidSchema(q.columns)
    ensures o.error.Some? ==> o.error == Some(NoColumnNames) && o.store == store
    ensures o.error.Some? ==> o.printed == ["Error empty or no column name provided"]
    ensures o.error.None? ==> o.store == store[q.tableName := Join(q.columns, ",")]
    ensures o.error.None? ==> q.tableName in o.store && SameElsewhere(store, o.store, q.tableName)
    ensures o.error.None? ==> o.printed == ["Created table " + q.tableName]
  {
    if !ValidSchema(q.columns) then
      Outcome(store, ["Error empty or no column name provided"], Some(NoColumnNames))
    else
      Outcome(store[q.tableName := Join(q.columns, ",")], ["Created table " + q.tableName], None)
  }

  /** `drop_table`: removes the file, and panics when there is none. */
  function DropTable(store: Store, q: SqlDrop): (o: Outcome)
    ensures o.error.None? <==> q.tableName in store
    ensures o.error.Some? ==> o.error == Some(TableMissing) && o.store == store && o.printed == []
    ensures o.error.None? ==> q.tableName !in o.store && SameElsewhere(store, o.store, q.tableName)
    ensures o.error.None? ==> o.printed == ["Table " + q.tableName + " is dropped"]
  {
    if q.tableName !in store then Outcome(store, [], Some(TableMissing))
    else Outcome(store - {q.tableName}, ["Table " + q.tableName + " is dropped"], None)
  }

  /** The column names `insert_into` reads: the first line split at commas; None for an empty file. */
  function HeaderColumns(content: string): (h: Option<seq<string>>)
    ensures h.None? <==> content == ""
    ensures h.Some? ==> |h.value| >= 1
    ensures h.Some? ==> FirstLine(content).Some? && Join(h.value, ",") == FirstLine(content).value
    ensures h.Some? ==> forall k :: 0 <= k < |h.value| ==> ',' !in h.value[k] && '\n' !in h.value[k]
  {
    match FirstLine(content)
    case None => None
    case Some(line) =>
      var parts := Split(line, ',');
      JoinSplit(line, ',');
      assert [','] == ",";
      forall k | 0 <= k < |parts| ensures '\n' !in parts[k] {
        PieceOfJoin(parts, ",", k);
      }
      Some(parts)
  }

  /** A piece of a joined list is a contiguous part of the joined text. */
  lemma {:induction false} PieceOfJoin(items: seq<string>, sep: string, k: nat)
    requires k < |items|
    ensures forall c :: c in items[k] ==> c in Join(items, sep)
  {
    if k > 0 {
      PieceOfJoin(items[1..], sep, k - 1);
      assert items[1..][k - 1] == items[k];
      forall c | c in Join(items[1..], sep) ensures c in Join(items, sep) {
        var i :| 0 <= i < |Join(items[1..], sep)| && Join(items[1..], sep)[i] == c;
        assert Join(items, sep)[|items[0] + sep| + i] == c;
      }
    } else if |items| > 1 {
      forall c | c in items[0] ensures c in Join(items, sep) {
        var i :| 0 <= i < |items[0]| && items[0][i] == c;
        assert Join(items, sep)[i] == c;
      }
    }
  }

  /**
   `insert_into`: when the table's column names equal the statement's, in
   order, appends a line feed and the comma-joined values. The number of
   values is not checked. Inserting into a table that does not exist does
   nothing at all.
   */
  function InsertInto(store: Store, q: SqlInsert): (o: Outcome)
    ensures o.printed == []
    ensures q.tableName !in store ==> o == Outcome(store, [], None)
    ensures q.tableName in store && store[q.tableName] == "" ==> o.error == Some(TableEmpty)
    ensures q.tableName in store && store[q.tableName] != "" ==>
              (o.error.None? <==> HeaderColumns(store[q.tableName]) == Some(q.columns))
    ensures q.tableName in store && HeaderColumns(store[q.tableName]).Some? && HeaderColumns(store[q.tableName]) != Some(q.columns) ==>
              o.error == Some(ColumnsMismatch)
    ensures o.error.Some? ==> o.store == store
    ensures o.error.None? && q.tableName in store ==>
              o.store == store[q.tableName := store[q.tableName] + "\n" + Join(q.values, ",")]
  {
    if q.tableName !in store then Outcome(store, [], None)
    else
      var content := store[q.tableName];
      match HeaderColumns(content)
      case None => Outcome(store, [], Some(TableEmpty))
      case Some(header) =>
        if header == q.columns then
          Outcome(store[q.tableName := content + "\n" + Join(q.values, ",")], [], None)
        else Outcome(store, [], Some(ColumnsMismatch))
  }

  /** How many leading records have exactly `width` fields. */
  function SameWidthPrefix(rows: seq<seq<string>>, width: nat): (n: nat)
    ensures n <= |rows|
    ensures forall k :: 0 <= k < n ==> |rows[k]| == width
    ensures n < |rows| ==> |rows[n]| != width
  {
    if |rows| == 0 || |rows[0]| != width then 0
    else
      var n := SameWidthPrefix(rows[1..], width);
      assert forall k :: 1 <= k < |rows| ==> rows[k] == rows[1..][k - 1];
      1 + n
  }

  /**
   How many records the reader hands over before it refuses one. The reader
   is not flexible: every record must have as many fields as the first.
   */
  function ReadableRows(rows: seq<seq<string>>): (n: nat)
    ensures n <= |rows|
    ensures forall k :: 0 <= k < n ==> |rows[k]| == |rows[0]|
    ensures n == |rows| <==> forall k :: 0 <= k < |rows| ==> |rows[k]| == |rows[0]|
  {
    if |rows| == 0 then 0 else SameWidthPrefix(rows, |rows[0]|)
  }

  /** The header row the csv reader reports; an empty file has an empty one. */
  function HeaderRow(rows: seq<seq<string>>): (h: seq<string>)
    ensures |rows| > 0 ==> h == rows[0]
    ensures |rows| == 0 ==> h == []
  {
    if |rows| == 0 then [] else rows[0]
  }

  /**
   `select_table`. The reader is built without header handling, so the header
   row is also the first record, and is printed like any other. A record
   whose field count differs from the first's ends the run with a panic, after
   the records before it were printed; every record the reader does hand over
   is as wide as the header, so each chosen field exists.
   */
  function SelectTable(store: Store, q: SqlSelect, reader: CsvReader): (o: Outcome)
    ensures o.store == store
    ensures q.tableName !in store ==> o.error == Some(TableMissing) && o.printed == []
    ensures q.tableName in store ==>
              var rows := reader(store[q.tableName]);
              && (o.error.None? <==> forall k :: 0 <= k < |rows| ==> |rows[k]| == |rows[0]|)
              && (o.error.Some? ==> o.error == Some(RowLength))
    ensures q.tableName in store && q.allColumns.Some? ==>
              var rows := reader(store[q.tableName]);
              && |o.printed| == ReadableRows(rows)
              && forall k :: 0 <= k < |o.printed| ==> o.printed[k] == RenderRow(rows[k])
    ensures q.tableName in store && q.allColumns.None? && q.columns.Some? ==>
              var rows := reader(store[q.tableName]);
              var idx := ColIndex(HeaderRow(rows), q.columns.value);
              && |o.printed| == ReadableRows(rows)
              && forall k :: 0 <= k < |o.printed| ==>
                   Project(rows[k], idx).Some? && o.printed[k] == RenderRow(Project(rows[k], idx).value)
  {
    if q.tableName !in store then Outcome(store, [], Some(TableMissing))
    else
      var rows := reader(store[q.tableName]);
      var header := HeaderRow(rows);
      var n := ReadableRows(rows);
      var failure := if n < |rows| then Some(RowLength) else None;
      if q.allColumns.Some? then
        Outcome(store, seq(n, k requires 0 <= k < n => RenderRow(rows[k])), failure)
      else
        match q.columns
        case None =>
          var notes := seq(|header|, _ => "Table has no column names");
          Outcome(store, notes + seq(n, _ => ""), failure)
        case Some(columns) =>
          var idx := ColIndex(header, columns);
          Outcome(store, seq(n, k requires 0 <= k < n => RenderRow(Project(rows[k], idx).value)), failure)
  }

  /** The dispatch in the main loop. Only the named table can change. */
  function Execute(store: Store, q: SqlQuery, reader: CsvReader): (o: Outcome)
    ensures SameElsewhere(store, o.store, q.TableName())
    ensures q.Selection? ==> o.store == store
  {
    match q
    case CreateTable(c) => Create(store, c)
    case Drop(d) => DropTable(store, d)
    case Insert(i) => InsertInto(store, i)
    case Selection(s) => SelectTable(store, s, reader)
  }
}
