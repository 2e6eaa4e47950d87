/**
 Whole lines through the loop of `main`: parsing and execution together.
 */
module Scenarios {
  import opened Text
  import opened Query
  import opened Parser
  import opened ParserLaws
  import opened Executor
  import opened ExecutorLaws
  import opened Session

  lemma NotQuit(q: SqlQuery)
    requires Printable(q)
    ensures !IsQuit(QueryText(q) + "\n")
  {
    PrintedLineTrim(q);
    PrintedTrimmed(q);
    assert "quit"[0] == 'q';
  }

  lemma PrintedLineTrim(q: SqlQuery)
    requires Printable(q)
    ensures Trim(QueryText(q) + "\n") == QueryText(q)
  {
    var text := QueryText(q);
    PrintedTrimmed(q);
    assert AllWhitespace("\n");
    assert "" + text + "\n" == text + "\n";
    TrimOfPadded("", text, "\n");
  }

  /** Two lines, neither of which panics or quits: the store after both is the store after the second. */
  lemma TwoLineRun(store: Store, lines: seq<string>, reader: CsvReader, first: Outcome, second: Outcome)
    requires |lines| == 2 && !IsQuit(lines[0]) && !IsQuit(lines[1])
    requires first == RunLine(store, lines[0], reader) && first.error.None?
    requires second == RunLine(first.store, lines[1], reader) && second.error.None?
    ensures Run(store, lines, reader).store == second.store
  {
    var rest := lines[1..];
    assert rest[0] == lines[1] && |rest[1..]| == 0;
    var last := Run(second.store, rest[1..], reader);
    assert last.store == second.store;
    RunStep(first.store, rest, reader, second, last);
    RunStep(store, lines, reader, first, Run(first.store, rest, reader));
  }

  /** A printed statement on its own line runs as that statement and is not `quit`. */
  lemma PrintedLine(store: Store, q: SqlQuery, line: string, reader: CsvReader)
    requires Printable(q) && line == QueryText(q) + "\n"
    ensures RunLine(store, line, reader) == Execute(store, q, reader) && !IsQuit(line)
  {
    PrintedLineRuns(store, q, reader);
    NotQuit(q);
  }

  /**
   Typing a create statement and then an insert of the same columns leaves
   the table's file holding the header line and the values line.
   */
  lemma CreateThenInsertSession(store: Store, t: string, columns: seq<string>, values: seq<string>,
                                lines: seq<string>, reader: CsvReader, session: Outcome)
    requires IsIdent(t) && ValidSchema(columns) && AllIdents(columns) && |values| >= 1 && AllIdents(values)
    requires |lines| == 2 && lines[0] == CreateText(t, columns) + "\n" && lines[1] == InsertText(t, columns, values) + "\n"
    requires session == Run(store, lines, reader)
    ensures t in session.store && session.store[t] == Join(columns, ",") + "\n" + Join(values, ",")
  {
    var c := SqlCreate(t, columns);
    var i := SqlInsert(t, columns, values);
    assert Printable(CreateTable(c)) && Printable(Insert(i));
    PrintedLine(store, CreateTable(c), lines[0], reader);
    var first := Create(store, c);
    PrintedLine(first.store, Insert(i), lines[1], reader);
    InsertAfterCreate(store, c, i);
    CreateThenInsert(store, c, values);
    var second := InsertInto(first.store, i);
    assert second.store[t] == Join(columns, ",") + "\n" + Join(values, ",");
    TwoLineRun(store, lines, reader, first, second);
  }

  /** `CREATE TABLE t ();` parses, and the executor then refuses it without touching any table. */
  lemma EmptyColumnListRefused(store: Store, reader: CsvReader)
    ensures RunLine(store, "CREATE TABLE t ();\n", reader).store == store
    ensures RunLine(store, "CREATE TABLE t ();\n", reader).error == Some(NoColumnNames)
  {
    var q := CreateTable(SqlCreate("t", [""]));
    assert QueryText(q) + "\n" == "CREATE TABLE t ();\n";
    PrintedLineRuns(store, q, reader);
  }

  /** `quit` is not a statement: the loop prints a parse error for it and then stops, store unchanged. */
  lemma QuitReportsParseError(store: Store, quit: string, after: seq<string>, reader: CsvReader)
    requires IsQuit(quit)
    ensures Run(store, [quit] + after, reader) == Outcome(store, [ParseErrorLine], None)
  {
    ParseQueryFirstMatch("quit");
    assert "quit"[0] == 'q';
    var lines := [quit] + after;
    assert lines[0] == quit;
    RunHalts(store, lines, reader, RunLine(store, quit, reader));
  }
}
