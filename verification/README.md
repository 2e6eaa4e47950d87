# Rust-Database: a Dafny model of the SQL shell

Rust-Database is a small interactive SQL shell. Every line typed at the
`psql> ` prompt is trimmed and parsed by nom parsers into one of four
statements:

- `CREATE TABLE t (a, b);`
- `DROP TABLE t;`
- `INSERT INTO t (a, b) VALUES (1, 2);`
- `SELECT * FROM t;`, `SELECT (a, b) FROM t;` or `SELECT a, b FROM t;`

The statement is then executed against a directory of csv files, one file
`data/t.csv` per table. The first line of that file holds the column names.

This project models all of `src/main.rs` except the I/O:

- the parsers and the nom combinators they are built from, with nom's
  `Error` / `Incomplete` distinction;
- the four executors over a store that maps each table name to its file's
  content;
- the read-parse-execute loop, over a sequence of input lines.

Modules follow the program's structure:

| file | module | contents |
|---|---|---|
| text.dfy | Text | character classes, `take_while` spans, `join`, `split`, the first line `BufRead::lines` yields |
| combinators.dfy | Combinators | `tag`, `take_while`, `multispace0`, streaming `space0`, `separated_list0`, `delimited`, `alt`, `opt` |
| combinator_laws.dfy | CombinatorLaws | what the combinators return on text of a known shape |
| query.dfy | Query | the statement records `SqlCreate`, `SqlDrop`, `SqlInsert`, `SqlSelect`, `SqlQuery` |
| parser.dfy | Parser | `parse_create`, `parse_drop`, `parse_insert`, `parse_select`, `parse_query` |
| parser_laws.dfy | ParserLaws | dispatch, a printer for each statement, and the print-then-parse round trips |
| parser_examples.dfy | ParserExamples | the statements of `parses_test` and edge cases of the grammar |
| projection.dfy | Projection | the column-index loop of `select_table` and the ` value |` row rendering |
| executor.dfy | Executor | `create_table`, `drop_table`, `insert_into`, `select_table`, the dispatch in `main` |
| executor_laws.dfy | ExecutorLaws | what the executors promise across several statements |
| session.dfy | Session | `str::trim`, one loop iteration, the whole loop |
| scenarios.dfy | Scenarios | whole lines through parser and executor together |

An executor returns an `Outcome` with three parts:

- the new store;
- the lines it prints;
- an optional `ExecError`.

An error is either a printed message after which the loop goes on
(`NoColumnNames`, `ColumnsMismatch`, `Unparsed`; the second on standard
error, the others on standard output) or a panic that ends the
program (`TableMissing`, `TableEmpty`, `RowLength`).

The csv crate's reader is a parameter of type `CsvReader`. It maps a file's
content to the records it yields. Because the reader is built with
`has_headers(false)`, the header row is also the first record.

### Behaviours of the code worth knowing

These follow from the code as written, and the model keeps them:

- Identifiers may be empty, because `take_while` matches nothing.
  - `CREATE TABLE t ();` parses, with the column list `[""]`.
  - The executor then refuses it (`Scenarios.EmptyColumnListRefused`).
- A successful select always has `columns = Some(...)`.
  - `SELECT * FROM t;` carries `Some([""])` next to `Some("*")`, because the
    bare list after `*` matches the empty name.
- `FROM ` must be followed by a space.
- `SELECT  FROM t;` is refused: the bare list takes `FROM` as a column name.
- A trailing comma at the end of the line (`SELECT a,`) is `Incomplete`
  rather than `Error`, because `space0` is the streaming variant.
- Keywords are upper case only.
- Whitespace is skipped after `CREATE TABLE ` and `INSERT INTO `, including
  line breaks.
- Dropping a table that does not exist panics.
- Inserting into a table that does not exist does nothing and prints nothing.
- Inserting into an empty file panics.
- An insert is accepted when its column names equal the file's first line
  split at commas, in the same order. The number of values is never compared
  with the number of columns.
- The csv reader is not flexible. A record whose number of fields differs
  from the first record's is refused, and `expect` panics. This happens in
  both select modes, after the records before it were printed.
- As a result, every record a select prints is as wide as the header, so
  each chosen field exists.
- A select prints the header row as a record as well.
- A select prints the chosen fields in the table's column order, not in the
  order the statement lists them.

## Model

| member | source | states |
|---|---|---|
| Combinators.Tag | src/main.rs:74 | `tag` succeeds exactly when the input starts with the tag, returning the tag and the text after it; otherwise it fails with `Error` |
| Combinators.Ident | src/main.rs:105 | `take_while(is_alphanumeric)` never fails, splits the input into an alphanumeric prefix and a rest that does not start with an alphanumeric |
| Combinators.Multispace0 | src/main.rs:103 | `multispace0` never fails and consumes exactly the leading run of spaces, tabs, CR and LF |
| Combinators.Space0 | src/main.rs:81 | streaming `space0` reports `Incomplete` exactly when everything left is blank; otherwise it consumes the blanks and stops at a non-blank |
| Combinators.Comma | src/main.rs:81 | the separator `tag(",").and(space0)` fails with `Error` without a comma and with `Incomplete` when only blanks follow the comma |
| Combinators.IdentList | src/main.rs:81 | `separated_list0` of identifiers yields at least one identifier, consumes a prefix, and stops before a character that is neither a comma nor alphanumeric; it can fail only with `Incomplete` |
| Combinators.ParenList | src/main.rs:79-83 | a parenthesised list needs an opening `(`, yields at least one identifier and consumes through a `)` |
| Combinators.PaddedIdent | src/main.rs:76-77 | a whitespace-padded name never fails and leaves no leading whitespace |
| Combinators.OrElse | src/main.rs:196-201 | `alt` returns the first branch unless it failed with `Error`; `Incomplete` is passed through |
| Combinators.Opt | src/main.rs:161 | `opt` turns an `Error` into a successful `None` that consumes nothing and passes `Incomplete` through |
| CombinatorLaws.IdentListOfJoin | src/main.rs:81 | identifiers joined by a comma and blanks parse back, through the list parser, to exactly those identifiers |
| CombinatorLaws.ParenListOfJoin | src/main.rs:79-83 | identifiers joined by `, ` inside parentheses parse back to exactly those identifiers |
| CombinatorLaws.PaddedIdentOf | src/main.rs:76-77 | a name followed by whitespace parses to that name, with the text after the whitespace left over |
| CombinatorLaws.PaddedIdentBetween | src/main.rs:76-77 | a name with whitespace on both sides parses to that name, with the text after the trailing whitespace left over; that text may be empty, and may start with a letter or digit when a nonempty gap parts it from a nonempty name |
| Parser.ParseCreate | src/main.rs:72-94 | fails with `Error` unless the line starts with `CREATE TABLE `; on success it consumed through a `;` and yields an alphanumeric name and at least one alphanumeric column |
| Parser.ParseDrop | src/main.rs:99-110 | fails with `Error` unless the line starts with `DROP TABLE `; on success it consumed through a `;` and yields an alphanumeric name |
| Parser.ParseInsert | src/main.rs:115-150 | fails with `Error` unless the line starts with `INSERT INTO `; on success it consumed through a `;` and yields nonempty lists of alphanumeric columns and values |
| Parser.SelectColumns | src/main.rs:161-169 | the optional `*` is reported exactly when the text starts with `*`, and a successful parse always yields a column list of at least one name |
| Parser.SelectSource | src/main.rs:171-180 | the `FROM` part yields an alphanumeric table name and consumes through a `;` |
| Parser.ParseSelect | src/main.rs:155-190 | fails with `Error` unless the line starts with `SELECT `; on success the column list is always present and the wildcard is reported exactly when `*` is the first non-whitespace character after `SELECT ` |
| Parser.MapResult | src/main.rs:197-200 | `map` succeeds exactly when its parser does, applies the constructor to the value and keeps the rest and the error kind |
| Parser.ParseQuery | src/main.rs:195-202 | a successful dispatch consumed through a `;` and its statement is exactly what the parser for its kind returns on the same line |
| ParserLaws.KeywordsExclusive | src/main.rs:74-157 | no line starts with two different statement keywords |
| ParserLaws.AtMostOneParserSucceeds | src/main.rs:195-202 | on any line at most one of the four statement parsers succeeds |
| ParserLaws.ParseQueryFirstMatch | src/main.rs:195-202 | a line starting with a keyword is decided by that keyword's parser alone, and a line starting with none of them fails with `Error` |
| ParserLaws.CreateRoundTrip | src/main.rs:72-94 | a printed create statement, followed by any text, parses back to the same table and columns with that text left over |
| ParserLaws.DropRoundTrip | src/main.rs:99-110 | a printed drop statement parses back to the same table, leaving the following text |
| ParserLaws.InsertRoundTrip | src/main.rs:115-150 | a printed insert statement parses back to the same table, columns and values, leaving the following text |
| ParserLaws.SelectRoundTrip | src/main.rs:155-190 | a printed select with a parenthesised column list, with or without `*`, parses back to the same table, columns and wildcard |
| ParserLaws.BareSelectRoundTrip | src/main.rs:162-169 | a select with a bare comma list (last name nonempty) and any blanks after the commas parses back to the same columns without a wildcard |
| ParserLaws.SelectStarRoundTrip | src/main.rs:157-173 | `SELECT * FROM t;` parses to the wildcard with the column list `[""]` |
| ParserLaws.ParseQueryRoundTrip | src/main.rs:195-202 | every printable statement, printed and followed by any text, is parsed by the dispatcher back to itself with that text left over |
| ParserLaws.ParsedIsPrintable | src/main.rs:195-202 | every statement the dispatcher returns is printable, and its printed form parses back to it |
| ParserExamples.CreateOneColumn | src/main.rs:355-364 | `CREATE TABLE name (column);` parses to table `name` with the column `column`, consuming the whole line |
| ParserExamples.CreateTwoColumns | src/main.rs:367-376 | `CREATE TABLE name (column, column2);` parses to the two columns |
| ParserExamples.DropName | src/main.rs:379-382 | `DROP TABLE name;` parses to a drop of `name` |
| ParserExamples.InsertTwoValues | src/main.rs:385-395 | `INSERT INTO name (column, column2) VALUES (0, 1);` parses to those columns and values |
| ParserExamples.SelectStar | src/main.rs:411-421 | `SELECT * FROM name;` parses to the wildcard with the column list `[""]` |
| ParserExamples.SelectBareList | src/main.rs:424-434 | `SELECT column,        column2 FROM name;` parses to the two columns without a wildcard |
| ParserExamples.CreateEmptyColumns | src/main.rs:79-83 | `CREATE TABLE t ();` parses, with the single empty column name |
| ParserExamples.FromTakenAsColumn | src/main.rs:168 | `SelectColumns("FROM name;")`: with no `*` and no parentheses, the bare list takes the word `FROM` as a column name |
| ParserExamples.MissingFromFails | src/main.rs:171-173 | `SelectSource(" name;")`: a source part with no `FROM ` is refused with `Error` |
| ParserExamples.SelectNothingFails | src/main.rs:157-173 | `SELECT  FROM name;` is refused with `Error` |
| ParserExamples.TrailingCommaIncomplete | src/main.rs:165-168 | `SELECT a,` is reported `Incomplete` |
| ParserExamples.LowerCaseRefused | src/main.rs:196-201 | a lower-case `select * from name;` is not a statement |
| Projection.ColIndex | src/main.rs:297-318 | every collected position lies inside the header |
| Projection.ColIndexAscending | src/main.rs:300-318 | the collected positions come in header order |
| Projection.ColIndexCounts | src/main.rs:304-307 | header position `i` is collected exactly as often as its name occurs among the requested columns, and nothing past the header is collected |
| Projection.ColIndexNames | src/main.rs:301-308 | every collected position names a requested column, and every requested column present in the header is collected |
| Projection.ColIndexEachOnce | src/main.rs:297-318 | when every header name is requested exactly once, every header position is chosen once, in order |
| Projection.ProjectEvery | src/main.rs:321-322 | choosing every position of a record in order gives the record back |
| Projection.ComputeColIndex | src/main.rs:297-318 | the nested loops over header positions and requested columns compute exactly the positions `ColIndex` specifies |
| Projection.Project | src/main.rs:321-322 | the fields at the chosen positions are available exactly when every position lies inside the record, and are then the record's fields at those positions |
| Projection.RenderField | src/main.rs:291 | the text `print!(" {} \|", …)` writes for one field: a blank, the field unchanged, then a blank and `\|`, three characters in all beyond the field |
| Projection.RenderRow | src/main.rs:290-293 | one printed record: its fields rendered in turn and then the line ended by `println!()`; empty exactly when there are no fields, and otherwise it starts with a blank and ends with `\|` |
| Projection.RenderRowSplit | src/main.rs:290-293 | splitting a printed row at `\|` gives back every field with one blank on either side, and a final empty piece |
| Projection.RenderRowInjective | src/main.rs:321-324 | two rows with no `\|` in their fields are printed the same only when they are the same |
| Executor.Create | src/main.rs:206-221 | the table is written exactly when the column list is nonempty with no empty name, and its file then holds exactly the comma-joined column names, replacing any earlier file; otherwise nothing changes and the error message is printed |
| Executor.DropTable | src/main.rs:225-230 | succeeds exactly when the table exists, and then removes only that table; otherwise it panics with nothing changed |
| Executor.HeaderColumns | src/main.rs:248-259 | an empty file has no header; otherwise the header is the file's first line cut at its commas: at least one name, none holding a comma or a line feed, and joined with commas they give that line back |
| Executor.InsertInto | src/main.rs:234-272 | a missing table is a silent no-op; an empty file panics; otherwise the values line is appended exactly when the header names equal the statement's columns, and a mismatch changes nothing and is reported as the non-panicking `ColumnsMismatch` |
| Executor.HeaderRow | src/main.rs:286 | by definition, the first record the reader yields, or no names for an empty file |
| Executor.ReadableRows | src/main.rs:282-289 | the reader hands over the leading records that are as wide as the first record, and all of them exactly when every record is that wide |
| Executor.SelectTable | src/main.rs:276-327 | never changes the store; panics on a missing table; panics exactly when some record's width differs from the first record's; with `*` prints each readable record in full; with a column list prints, for each readable record, its fields at the chosen positions, all of which exist |
| Executor.Execute | src/main.rs:338-343 | a statement changes no table other than the one it names, and a select changes nothing |
| ExecutorLaws.CreateReadsBack | src/main.rs:206-261 | the file `create_table` writes reads back, through the header check of `insert_into`, as the same column list |
| ExecutorLaws.InsertAfterCreate | src/main.rs:206-272 | after a create, an insert into that table succeeds exactly when it names the same columns in the same order |
| ExecutorLaws.CreateThenInsert | src/main.rs:206-272 | a create followed by a matching insert leaves the header, a line feed and the comma-joined values |
| ExecutorLaws.InsertKeepsHeader | src/main.rs:248-267 | a successful insert leaves the column names that later inserts are checked against unchanged |
| ExecutorLaws.InsertAppendsLine | src/main.rs:261-267 | a successful insert adds exactly one line, the comma-joined values, after the lines already in the file |
| ExecutorLaws.CreateWritesOneLine | src/main.rs:215-217 | a freshly created table's file is exactly one line, its header |
| ExecutorLaws.DropAfterCreate | src/main.rs:206-230 | dropping a table just created succeeds and leaves the store as it was, without that table |
| ExecutorLaws.DropTwicePanics | src/main.rs:225-228 | a second drop of the same table panics |
| ExecutorLaws.ColumnOrderMatters | src/main.rs:261 | an insert naming the right columns in another order is refused |
| ExecutorLaws.ArityUnchecked | src/main.rs:261-267 | an insert with fewer values than columns is accepted and written |
| ExecutorLaws.AllColumnsLikeStar | src/main.rs:287-325 | naming every column of the table exactly once, in any order, prints the same and fails the same as `*` |
| ExecutorLaws.SelectFollowsHeaderOrder | src/main.rs:300-318 | requesting `c, a` of a table `a, b, c` chooses positions 0 and 2, in header order |
| ExecutorLaws.UnknownColumnSkipped | src/main.rs:304-307 | a requested name missing from the header chooses no position and raises no complaint |
| Session.Trim | src/main.rs:337 | trimming leaves no whitespace at either end |
| Session.TrimOfPadded | src/main.rs:337 | trimming removes exactly the whitespace around a text whose ends are not whitespace |
| Session.TrimIdempotent | src/main.rs:331 | trimming twice is trimming once |
| Session.RunLine | src/main.rs:336-346 | a line that does not parse changes nothing, prints one `Error: ` line on standard output and reports `Unparsed`; a parsed statement changes only the table it names, and a select changes nothing |
| Session.Run | src/main.rs:329-351 | any error the loop ends with is a panic: parse errors, bad schemas and column mismatches never end it |
| Session.RunStep | src/main.rs:331-349 | the defining equation of `Run` for a line that neither panics nor is `quit`: the loop goes on with the next line from the store that line left |
| Session.UnparsedLineReported | src/main.rs:344-346 | a line that does not parse leaves its `Error: ` line in the run's output ahead of everything later lines print, and the run goes on from the same store |
| Session.RunHalts | src/main.rs:331 | the defining equation of `Run` for a line that panics or is `quit`: nothing after it is read |
| Session.IsQuit | src/main.rs:331 | the loop's exit test, by definition: the line, trimmed, is `quit` (the line itself is still parsed and run first) |
| Session.RunStopsAtQuit | src/main.rs:331 | whatever follows the line `quit` has no effect |
| Session.ReadOnlyRun | src/main.rs:329-351 | lines holding only selects or nothing parseable leave every table as it was |
| Session.PrintedLineRuns | src/main.rs:336-343 | a printed statement, read with its line feed, runs as exactly that statement |
| Session.PrintedTrimmed | src/main.rs:337 | a printed statement has no whitespace at either end and starts with an upper-case keyword letter |
| Scenarios.NotQuit | src/main.rs:331 | a printed statement line is never taken for `quit` |
| Scenarios.TwoLineRun | src/main.rs:329-351 | two lines that neither panic nor quit leave the store the second line leaves |
| Scenarios.CreateThenInsertSession | src/main.rs:329-351 | typing a create and then a matching insert leaves the header line and the values line in the table's file |
| Scenarios.QuitReportsParseError | src/main.rs:331-346 | `quit` is not a statement: it is parsed like any line, prints a parse error, and then ends the loop with the store unchanged and no later line read |
| Scenarios.EmptyColumnListRefused | src/main.rs:207-208 | the line `CREATE TABLE t ();` leaves every table alone and reports the missing column names |
| Text.Split | src/main.rs:257-259 | `split` gives at least one piece and no piece contains the separator |
| Text.JoinSplit | src/main.rs:257-259 | joining the pieces with the separator gives back the split string |
| Text.SplitJoin | src/main.rs:257-259 | splitting names that hold no separator, once joined, gives back the names |
| Text.FirstLine | src/main.rs:248-249 | the first line of a nonempty file holds no line feed and is the whole file, or ends at the first line feed with a preceding CR removed |

## Left out

- Files, paths and standard output are not modelled as I/O. The store maps
  table names to file contents, and printed lines are collected in the
  outcome. The `psql> ` prompt and the stdout flush are not modelled.
- Read and write failures of existing files are not modelled, and neither
  are invalid UTF-8 input or the `Err` arm of `read_line`.
- The csv crate is not part of this model. Its splitting of a file into
  records, including quoted fields and skipped blank lines, is replaced by
  the `CsvReader` parameter. Its check that every record has as many fields
  as the first is modelled, in `Executor.ReadableRows`.
- Text.IsAlnum: Rust's `char::is_alphanumeric` is Unicode-wide. The model
  accepts ASCII letters and digits only.
- Panics end the model's run with an error value instead of unwinding. The
  lines printed before the panic are kept.
- Session.Run: `input.clear()` runs before each `read_line`, and at end of
  input `read_line` returns 0 bytes and leaves the buffer empty. The real
  loop then spins forever on an empty line, printing the prompt and a parse
  error each time, and never re-runs the last statement. The model ends the
  run when the lines run out instead.
- Session.RunLine prints `Error: <parse error>` for a line that does not
  parse. The source prints nom's Debug text of the error after `Error: `,
  which depends on nom's internals and is not modelled.
- Session.Run keeps only standard output. The column-mismatch message goes
  to standard error, so a run keeps no trace of it: the `ColumnsMismatch`
  value is visible in `Execute` and `RunLine`, not in `Run`. The message
  `insert_into` writes to standard error when the first line cannot be read
  (an I/O or UTF-8 error) is not modelled, since the store holds text only.
- ParserLaws.BareSelectRoundTrip requires the last column to be nonempty.
  An empty last name leaves a comma right before the blanks and `FROM`, a
  shape this lemma does not cover; SelectStarRoundTrip covers the one such
  list that occurs in practice, the empty name after `*`.
- ParserLaws.ParseQueryRoundTrip prints selects with a parenthesised list.
  The bare form is covered separately by BareSelectRoundTrip.
