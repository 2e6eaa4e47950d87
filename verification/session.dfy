/**
 The read-parse-execute loop of `main`: each line read is trimmed, parsed,
 and its statement executed; the loop ends after the line `quit` or at the
 first panic. Whatever follows the statement's `;` on a line is ignored.
 */
module Session {
  import opened Text
  import opened Combinators
  import opened Query
  import opened Parser
  import opened ParserLaws
  import opened Executor

  /** Rust's `char::is_whitespace`: the Unicode White_Space characters. */
  predicate IsWhitespace(c: char) {
    || ('\t' <= c <= '\r') || c == ' ' || c == '\U{0085}' || c == '\U{00A0}' || c == '\U{1680}'
    || ('\U{2000}' <= c <= '\U{200A}') || c == '\U{2028}' || c == '\U{2029}' || c == '\U{202F}'
    || c == '\U{205F}' || c == '\U{3000}'
  }

  predicate AllWhitespace(s: string) {
    forall i :: 0 <= i < |s| ==> IsWhitespace(s[i])
  }

  /** Neither end of `s` is whitespace. */
  predicate Trimmed(s: string) {
    s == "" || (!IsWhitespace(s[0]) && !IsWhitespace(s[|s| - 1]))
  }

  function TrimStart(s: string): (r: string)
    ensures IsSuffix(r, s) && AllWhitespace(s[..|s| - |r|])
    ensures r == "" || !IsWhitespace(r[0])
  {
    var n := Span(IsWhitespace, s);
    assert s[..n] == s[..|s| - |s[n..]|];
    s[n..]
  }

  function TrimEnd(s: string): (r: string)
    ensures r <= s && AllWhitespace(s[|r|..])
    ensures r == "" || !IsWhitespace(r[|r| - 1])
  {
    if |s| > 0 && IsWhitespace(s[|s| - 1]) then
      var r := TrimEnd(s[..|s| - 1]);
      assert s[|r|..] == s[..|s| - 1][|r|..] + [s[|s| - 1]];
      r
    else s
  }

  /** `str::trim`. */
  function Trim(s: string): (r: string)
    ensures Trimmed(r)
  {
    TrimEnd(TrimStart(s))
  }

  lemma {:induction false} TrimEndOfPadded(t: string, w: string)
    requires Trimmed(t) && AllWhitespace(w)
    ensures TrimEnd(t + w) == t
  {
    if |w| > 0 {
      var s := t + w;
      assert s[..|s| - 1] == t + w[..|w| - 1];
      TrimEndOfPadded(t, w[..|w| - 1]);
    } else {
      assert t + w == t;
    }
  }

  lemma TrimStartOfPadded(w: string, t: string, w2: string)
    requires Trimmed(t) && AllWhitespace(w) && AllWhitespace(w2)
    ensures TrimStart(w + t + w2) == if t == "" then "" else t + w2
  {
    assert w + t + w2 == w + (t + w2);
    SpanCrosses(IsWhitespace, w, t + w2);
    if t == "" {
      assert t + w2 == w2;
    } else {
      assert (t + w2)[0] == t[0];
    }
  }

  /** Trimming removes exactly the whitespace around a text whose ends are not whitespace. */
  lemma TrimOfPadded(w: string, t: string, w2: string)
    requires Trimmed(t) && AllWhitespace(w) && AllWhitespace(w2)
    ensures Trim(w + t + w2) == t
  {
    TrimStartOfPadded(w, t, w2);
    if t != "" {
      TrimEndOfPadded(t, w2);
    }
  }

  lemma TrimIdempotent(s: string)
    ensures Trim(Trim(s)) == Trim(s)
  {
    var t := Trim(s);
    assert "" + t + "" == t;
    TrimOfPadded("", t, "");
  }

  /**
   The line the loop prints on standard output for a statement it cannot
   parse: `Error: ` and then nom's Debug text of the error, which the model
   does not reproduce.
   */
  const ParseErrorLine := "Error: <parse error>"

  /** One iteration of the loop: parse the trimmed line, then run the statement. */
  function RunLine(store: Store, line: string, reader: CsvReader): (o: Outcome)
    ensures ParseQuery(Trim(line)).Err? ==> o == Outcome(store, [ParseErrorLine], Some(Unparsed))
    ensures ParseQuery(Trim(line)).Ok? ==> SameElsewhere(store, o.store, ParseQuery(Trim(line)).value.TableName())
    ensures ParseQuery(Trim(line)).Ok? && ParseQuery(Trim(line)).value.Selection? ==> o.store == store
  {
    match ParseQuery(Trim(line))
    case Err(_) => Outcome(store, [ParseErrorLine], Some(Unparsed))
    case Ok(q, _) => Execute(store, q, reader)
  }

  /** The line `quit` ends the loop, after it has been handled like any other line. */
  predicate IsQuit(line: string) {
    Trim(line) == "quit"
  }

  /**
   The lines `main` reads, run in order until `quit` or a panic. The result
   carries the final store, every line printed on standard output (the
   parse-error line included), and the panic that ended the run, if one did.
   Errors that do not panic leave only what they print.
   */
  function Run(store: Store, lines: seq<string>, reader: CsvReader): (o: Outcome)
    ensures o.error.Some? ==> Panics(o.error.value)
    decreases |lines|
  {
    if |lines| == 0 then Outcome(store, [], None)
    else
      var first := RunLine(store, lines[0], reader);
      var panicked := first.error.Some? && Panics(first.error.value);
      if panicked then first
      else if IsQuit(lines[0]) then Outcome(first.store, first.printed, None)
      else
        var later := Run(first.store, lines[1..], reader);
        Outcome(later.store, first.printed + later.printed, later.error)
  }

  lemma RunStep(store: Store, lines: seq<string>, reader: CsvReader, first: Outcome, later: Outcome)
    requires |lines| > 0 && first == RunLine(store, lines[0], reader)
    requires !(first.error.Some? && Panics(first.error.value)) && !IsQuit(lines[0])
    requires later == Run(first.store, lines[1..], reader)
    ensures Run(store, lines, reader) == Outcome(later.store, first.printed + later.printed, later.error)
  {
  }

  /** A line that does not parse is reported on its own output line, and the loop goes on with the store unchanged. */
  lemma UnparsedLineReported(store: Store, lines: seq<string>, reader: CsvReader, later: Outcome)
    requires |lines| > 0 && ParseQuery(Trim(lines[0])).Err? && !IsQuit(lines[0])
    requires later == Run(store, lines[1..], reader)
    ensures Run(store, lines, reader) == Outcome(later.store, [ParseErrorLine] + later.printed, later.error)
  {
    RunStep(store, lines, reader, RunLine(store, lines[0], reader), later);
  }

  /** Nothing after the `quit` line is read. */
  lemma RunHalts(store: Store, lines: seq<string>, reader: CsvReader, first: Outcome)
    requires |lines| > 0 && first == RunLine(store, lines[0], reader)
    requires (first.error.Some? && Panics(first.error.value)) || IsQuit(lines[0])
    ensures Run(store, lines, reader)
         == if first.error.Some? && Panics(first.error.value) then first else Outcome(first.store, first.printed, None)
  {
  }

  lemma {:induction false} RunStopsAtQuit(store: Store, before: seq<string>, quit: string, after: seq<string>, reader: CsvReader)
    requires IsQuit(quit)
    ensures Run(store, before + [quit] + after, reader) == Run(store, before + [quit], reader)
    decreases |before|
  {
    var whole := before + [quit] + after;
    var short := before + [quit];
    var line := if |before| == 0 then quit else before[0];
    assert whole[0] == line && short[0] == line;
    var first := RunLine(store, line, reader);
    if (first.error.Some? && Panics(first.error.value)) || IsQuit(line) {
      RunHalts(store, whole, reader, first);
      RunHalts(store, short, reader, first);
    } else {
      assert whole[1..] == before[1..] + [quit] + after;
      assert short[1..] == before[1..] + [quit];
      RunStopsAtQuit(first.store, before[1..], quit, after, reader);
      RunStep(store, whole, reader, first, Run(first.store, whole[1..], reader));
      RunStep(store, short, reader, first, Run(first.store, short[1..], reader));
    }
  }

  /** The statement a line holds, when it holds one. */
  function StatementOf(line: string): Option<SqlQuery> {
    match ParseQuery(Trim(line))
    case Ok(q, _) => Some(q)
    case Err(_) => None
  }

  /** A run of lines none of which creates, drops or inserts leaves every table as it was. */
  lemma {:induction false} ReadOnlyRun(store: Store, lines: seq<string>, reader: CsvReader)
    requires forall k :: 0 <= k < |lines| ==> StatementOf(lines[k]).None? || StatementOf(lines[k]).value.Selection?
    ensures Run(store, lines, reader).store == store
    decreases |lines|
  {
    if |lines| > 0 {
      var first := RunLine(store, lines[0], reader);
      assert StatementOf(lines[0]).None? || StatementOf(lines[0]).value.Selection?;
      assert first.store == store;
      if (first.error.Some? && Panics(first.error.value)) || IsQuit(lines[0]) {
        RunHalts(store, lines, reader, first);
      } else {
        assert forall k :: 0 <= k < |lines| - 1 ==> lines[1..][k] == lines[k + 1];
        ReadOnlyRun(store, lines[1..], reader);
        RunStep(store, lines, reader, first, Run(store, lines[1..], reader));
      }
    }
  }


  /** A printed statement, as `read_line` hands it over with its line feed, runs as that statement. */
  lemma PrintedLineRuns(store: Store, q: SqlQuery, reader: CsvReader)
    requires Printable(q)
    ensures RunLine(store, QueryText(q) + "\n", reader) == Execute(store, q, reader)
  {
    var text := QueryText(q);
    PrintedTrimmed(q);
    assert AllWhitespace("\n");
    assert "" + text + "\n" == text + "\n";
    TrimOfPadded("", text, "\n");
    assert text + "" == text;
    ParseQueryRoundTrip(q, "");
  }

  lemma StatementEnds(text: string, keyword: string, body: string, tail: string)
    requires text == keyword + body + tail && keyword != "" && tail != ""
    requires !IsWhitespace(keyword[0]) && !IsWhitespace(tail[|tail| - 1])
    ensures Trimmed(text) && text != "" && text[0] == keyword[0]
  {
    assert text[0] == keyword[0];
    assert text[|text| - 1] == tail[|tail| - 1];
  }

  lemma PrintedTrimmed(q: SqlQuery)
    requires Printable(q)
    ensures Trimmed(QueryText(q))
    ensures QueryText(q) != "" && 'A' <= QueryText(q)[0] <= 'Z'
  {
    match q
    case CreateTable(c) => CreateTrimmed(c);
    case Drop(d) => StatementEnds(QueryText(q), DropKeyword, d.tableName, ";");
    case Insert(i) => InsertTrimmed(i);
    case Selection(s) => SelectTrimmed(s);
  }

  lemma CreateTrimmed(c: SqlCreate)
    ensures Trimmed(CreateText(c.tableName, c.columns))
    ensures CreateText(c.tableName, c.columns)[0] == CreateKeyword[0]
  {
    var body := c.tableName + " (" + Join(c.columns, ", ");
    assert CreateText(c.tableName, c.columns) == CreateKeyword + body + ");";
    StatementEnds(CreateText(c.tableName, c.columns), CreateKeyword, body, ");");
  }

  lemma InsertTrimmed(i: SqlInsert)
    ensures Trimmed(InsertText(i.tableName, i.columns, i.values))
    ensures InsertText(i.tableName, i.columns, i.values)[0] == InsertKeyword[0]
  {
    var body := i.tableName + " (" + Join(i.columns, ", ") + ") VALUES (" + Join(i.values, ", ");
    assert InsertText(i.tableName, i.columns, i.values) == InsertKeyword + body + ");";
    StatementEnds(InsertText(i.tableName, i.columns, i.values), InsertKeyword, body, ");");
  }

  lemma SelectTrimmed(s: SqlSelect)
    requires s.columns.Some?
    ensures Trimmed(SelectText(s.tableName, s.columns.value, s.allColumns.Some?))
    ensures SelectText(s.tableName, s.columns.value, s.allColumns.Some?)[0] == SelectKeyword[0]
  {
    var star := if s.allColumns.Some? then "*" else "";
    var body := star + "(" + Join(s.columns.value, ", ") + ") FROM " + s.tableName;
    assert SelectText(s.tableName, s.columns.value, s.allColumns.Some?) == SelectKeyword + body + ";";
    StatementEnds(SelectText(s.tableName, s.columns.value, s.allColumns.Some?), SelectKeyword, body, ";");
  }
}
