/**
 What the statement parsers promise as a whole: the dispatcher picks the one
 parser whose keyword starts the line, and every statement the parsers can
 produce is printed by `QueryText` to a line that parses back to it.
 */
module ParserLaws {
  import opened Text
  import opened Combinators
  import opened CombinatorLaws
  import opened Query
  import opened Parser

  // ---------------------------------------------------------------------------
  // Dispatch

  /** The four keywords begin with different letters, so a line starts with at most one. */
  lemma KeywordsExclusive(input: string)
    ensures CreateKeyword <= input ==> !(DropKeyword <= input) && !(InsertKeyword <= input) && !(SelectKeyword <= input)
    ensures DropKeyword <= input ==> !(InsertKeyword <= input) && !(SelectKeyword <= input)
    ensures InsertKeyword <= input ==> !(SelectKeyword <= input)
  {
    if |input| > 0 {
      assert CreateKeyword <= input ==> input[0] == 'C';
      assert DropKeyword <= input ==> input[0] == 'D';
      assert InsertKeyword <= input ==> input[0] == 'I';
      assert SelectKeyword <= input ==> input[0] == 'S';
    }
  }

  /** At most one of the four statement parsers succeeds on any line. */
  lemma AtMostOneParserSucceeds(input: string)
    ensures (if ParseCreate(input).Ok? then 1 else 0) + (if ParseDrop(input).Ok? then 1 else 0)
          + (if ParseInsert(input).Ok? then 1 else 0) + (if ParseSelect(input).Ok? then 1 else 0) <= 1
  {
    KeywordsExclusive(input);
  }

  /**
   `parse_query` returns exactly what the parser of the keyword the line
   starts with returns, `Incomplete` included, and fails with `Error` when
   the line starts with none of the keywords.
   */
  lemma ParseQueryFirstMatch(input: string)
    ensures CreateKeyword <= input ==> ParseQuery(input) == MapResult(ParseCreate(input), AsCreate)
    ensures DropKeyword <= input ==> ParseQuery(input) == MapResult(ParseDrop(input), AsDrop)
    ensures InsertKeyword <= input ==> ParseQuery(input) == MapResult(ParseInsert(input), AsInsert)
    ensures SelectKeyword <= input ==> ParseQuery(input) == MapResult(ParseSelect(input), AsSelection)
    ensures (!(CreateKeyword <= input) && !(DropKeyword <= input) && !(InsertKeyword <= input)
             && !(SelectKeyword <= input)) ==> ParseQuery(input) == Err(Error)
  {
    KeywordsExclusive(input);
  }

  // ---------------------------------------------------------------------------
  // Printing statements

  /** The statements the parsers can produce: exactly the ones `QueryText` prints. */
  predicate Printable(q: SqlQuery) {
    match q
    case CreateTable(c) => IsIdent(c.tableName) && |c.columns| >= 1 && AllIdents(c.columns)
    case Drop(d) => IsIdent(d.tableName)
    case Insert(i) =>
      && IsIdent(i.tableName)
      && |i.columns| >= 1 && AllIdents(i.columns)
      && |i.values| >= 1 && AllIdents(i.values)
    case Selection(s) =>
      && IsIdent(s.tableName)
      && s.columns.Some? && |s.columns.value| >= 1 && AllIdents(s.columns.value)
      && (s.allColumns.None? || s.allColumns == Some("*"))
  }

  function CreateText(table: string, columns: seq<string>): string {
    CreateKeyword + table + " (" + Join(columns, ", ") + ");"
  }

  function DropText(table: string): string {
    DropKeyword + table + ";"
  }

  function InsertText(table: string, columns: seq<string>, values: seq<string>): string {
    InsertKeyword + table + " (" + Join(columns, ", ") + ") VALUES (" + Join(values, ", ") + ");"
  }

  /** The parenthesised select form, which can carry the wildcard, a column list, or both. */
  function SelectText(table: string, columns: seq<string>, star: bool): string {
    SelectKeyword + (if star then "*" else "") + "(" + Join(columns, ", ") + ") FROM " + table + ";"
  }

  function QueryText(q: SqlQuery): string
    requires Printable(q)
  {
    match q
    case CreateTable(c) => CreateText(c.tableName, c.columns)
    case Drop(d) => DropText(d.tableName)
    case Insert(i) => InsertText(i.tableName, i.columns, i.values)
    case Selection(s) => SelectText(s.tableName, s.columns.value, s.allColumns.Some?)
  }

  // ---------------------------------------------------------------------------
  // Unfolding each parser along known intermediate results

  lemma CreateSteps(input: string, r0: string, name: string, r1: string, cols: seq<string>, r2: string, rest: string)
    requires Tag(CreateKeyword, input) == Ok(CreateKeyword, r0)
    requires PaddedIdent(r0) == Ok(name, r1)
    requires ParenList(r1) == Ok(cols, r2)
    requires Tag(";", r2) == Ok(";", rest)
    ensures ParseCreate(input) == Ok(SqlCreate(name, cols), rest)
  {
  }

  lemma DropSteps(input: string, r0: string, blank: string, r1: string, name: string, r2: string, rest: string)
    requires Tag(DropKeyword, input) == Ok(DropKeyword, r0)
    requires Multispace0(r0) == Ok(blank, r1)
    requires Ident(r1) == Ok(name, r2)
    requires Tag(";", r2) == Ok(";", rest)
    ensures ParseDrop(input) == Ok(SqlDrop(name), rest)
  {
  }

  lemma InsertSteps(input: string, r0: string, name: string, r1: string, cols: seq<string>, r2: string,
                    gap: string, r3: string, r4: string, gap2: string, r5: string, vals: seq<string>, r6: string, rest: string)
    requires Tag(InsertKeyword, input) == Ok(InsertKeyword, r0)
    requires PaddedIdent(r0) == Ok(name, r1)
    requires ParenList(r1) == Ok(cols, r2)
    requires Multispace0(r2) == Ok(gap, r3)
    requires Tag("VALUES", r3) == Ok("VALUES", r4)
    requires Multispace0(r4) == Ok(gap2, r5)
    requires ParenList(r5) == Ok(vals, r6)
    requires Tag(";", r6) == Ok(";", rest)
    ensures ParseInsert(input) == Ok(SqlInsert(name, cols, vals), rest)
  {
  }

  lemma SelectSteps(input: string, r0: string, blank: string, r1: string,
                    star: Option<string>, cols: Option<seq<string>>, r2: string, name: string, rest: string)
    requires Tag(SelectKeyword, input) == Ok(SelectKeyword, r0)
    requires Multispace0(r0) == Ok(blank, r1)
    requires SelectColumns(r1) == Ok((star, cols), r2)
    requires SelectSource(r2) == Ok(name, rest)
    ensures ParseSelect(input) == Ok(SqlSelect(cols, name, star), rest)
  {
  }

  lemma SelectColumnsSteps(s: string, star: Option<string>, r1: string, cols: seq<string>, rest: string)
    requires Opt(s, Tag("*", s)) == Ok(star, r1)
    requires OrElse(ParenList(r1), IdentList(r1)) == Ok(cols, rest)
    ensures SelectColumns(s) == Ok((star, Some(cols)), rest)
  {
  }

  lemma SelectSourceSteps(s: string, gap: string, r1: string, r2: string, gap2: string, r3: string, name: string, r4: string, rest: string)
    requires Multispace0(s) == Ok(gap, r1)
    requires Tag("FROM ", r1) == Ok("FROM ", r2)
    requires Multispace0(r2) == Ok(gap2, r3)
    requires PaddedIdent(r3) == Ok(name, r4)
    requires Tag(";", r4) == Ok(";", rest)
    ensures SelectSource(s) == Ok(name, rest)
  {
  }

  // ---------------------------------------------------------------------------
  // Round trips, statement by statement

  lemma NoLeadingSpace(t: string, after: string)
    requires IsIdent(t) && after != "" && !IsMultispace(after[0])
    ensures Multispace0(t + after) == Ok("", t + after)
  {
    if t != "" {
      FirstOfAppend(t, after);
      assert IsAlnum(t[0]);
    } else {
      AppendEmpty(after);
    }
    AppendEmpty(t + after);
    Multispace0Of("", t + after);
  }

  lemma CreateTextShape(t: string, cols: seq<string>, rest: string)
    ensures CreateText(t, cols) + rest
         == CreateKeyword + (t + " " + ("(" + Join(cols, ", ") + ")" + (";" + rest)))
  {
  }

  /** A printed CREATE TABLE statement parses back to the same table name and columns. */
  lemma CreateRoundTrip(t: string, cols: seq<string>, rest: string)
    requires IsIdent(t) && |cols| >= 1 && AllIdents(cols)
    ensures ParseCreate(CreateText(t, cols) + rest) == Ok(SqlCreate(t, cols), rest)
  {
    var list := "(" + Join(cols, ", ") + ")" + (";" + rest);
    var r0 := t + " " + list;
    CreateTextShape(t, cols, rest);
    TagOf(CreateKeyword, r0);
    FirstOfAppend("(" + Join(cols, ", ") + ")", ";" + rest);
    assert (forall i :: 0 <= i < |" "| ==> IsMultispace(" "[i]));
    PaddedIdentOf(t, " ", list);
    ParenListOfJoin(cols, ";" + rest);
    TagOf(";", rest);
    CreateSteps(CreateText(t, cols) + rest, r0, t, list, cols, ";" + rest, rest);
  }

  lemma DropTextShape(t: string, rest: string)
    ensures DropText(t) + rest == DropKeyword + (t + (";" + rest))
  {
  }

  /** A printed DROP TABLE statement parses back to the same table name. */
  lemma DropRoundTrip(t: string, rest: string)
    requires IsIdent(t)
    ensures ParseDrop(DropText(t) + rest) == Ok(SqlDrop(t), rest)
  {
    DropTextShape(t, rest);
    TagOf(DropKeyword, t + (";" + rest));
    NoLeadingSpace(t, ";" + rest);
    IdentOf(t, ";" + rest);
    TagOf(";", rest);
    DropSteps(DropText(t) + rest, t + (";" + rest), "", t + (";" + rest), t, ";" + rest, rest);
  }

  lemma InsertTextShape(t: string, cols: seq<string>, vals: seq<string>, rest: string)
    ensures InsertText(t, cols, vals) + rest
         == InsertKeyword + (t + " " + ("(" + Join(cols, ", ") + ")" + (" " + ("VALUES" + (" " + ("(" + Join(vals, ", ") + ")" + (";" + rest)))))))
  {
  }

  lemma ValuesClause(vals: seq<string>, rest: string)
    requires |vals| >= 1 && AllIdents(vals)
    ensures Multispace0(" " + ("VALUES" + (" " + ("(" + Join(vals, ", ") + ")" + (";" + rest)))))
         == Ok(" ", "VALUES" + (" " + ("(" + Join(vals, ", ") + ")" + (";" + rest))))
    ensures Tag("VALUES", "VALUES" + (" " + ("(" + Join(vals, ", ") + ")" + (";" + rest))))
         == Ok("VALUES", " " + ("(" + Join(vals, ", ") + ")" + (";" + rest)))
    ensures Multispace0(" " + ("(" + Join(vals, ", ") + ")" + (";" + rest)))
         == Ok(" ", "(" + Join(vals, ", ") + ")" + (";" + rest))
    ensures ParenList("(" + Join(vals, ", ") + ")" + (";" + rest)) == Ok(vals, ";" + rest)
  {
    var list := "(" + Join(vals, ", ") + ")" + (";" + rest);
    var clause := "VALUES" + (" " + list);
    FirstOfAppend("VALUES", " " + list);
    assert (forall i :: 0 <= i < |" "| ==> IsMultispace(" "[i]));
    Multispace0Of(" ", clause);
    TagOf("VALUES", " " + list);
    FirstOfAppend("(" + Join(vals, ", ") + ")", ";" + rest);
    Multispace0Of(" ", list);
    ParenListOfJoin(vals, ";" + rest);
  }

  /** A printed INSERT INTO statement parses back to the same table, columns and values. */
  lemma InsertRoundTrip(t: string, cols: seq<string>, vals: seq<string>, rest: string)
    requires IsIdent(t) && |cols| >= 1 && AllIdents(cols) && |vals| >= 1 && AllIdents(vals)
    ensures ParseInsert(InsertText(t, cols, vals) + rest) == Ok(SqlInsert(t, cols, vals), rest)
  {
    var vlist := "(" + Join(vals, ", ") + ")" + (";" + rest);
    var clause := "VALUES" + (" " + vlist);
    var clist := "(" + Join(cols, ", ") + ")" + (" " + clause);
    var r0 := t + " " + clist;
    InsertTextShape(t, cols, vals, rest);
    TagOf(InsertKeyword, r0);
    FirstOfAppend("(" + Join(cols, ", ") + ")", " " + clause);
    assert (forall i :: 0 <= i < |" "| ==> IsMultispace(" "[i]));
    PaddedIdentOf(t, " ", clist);
    ParenListOfJoin(cols, " " + clause);
    ValuesClause(vals, rest);
    TagOf(";", rest);
    InsertSteps(InsertText(t, cols, vals) + rest, r0, t, clist, cols, " " + clause,
                " ", clause, " " + vlist, " ", vlist, vals, ";" + rest, rest);
  }

  lemma PaddedIdentTight(t: string, after: string)
    requires IsIdent(t) && after != "" && !IsAlnum(after[0]) && !IsMultispace(after[0])
    ensures PaddedIdent(t + after) == Ok(t, after)
  {
    AppendEmpty(t);
    PaddedIdentOf(t, "", after);
  }

  /** The tail ` FROM <table>;` of a select statement yields the table name. */
  lemma SelectSourceOf(t: string, rest: string)
    requires IsIdent(t)
    ensures SelectSource(" FROM " + (t + (";" + rest))) == Ok(t, rest)
  {
    var named := t + (";" + rest);
    assert " FROM " + named == " " + ("FROM " + named);
    FirstOfAppend("FROM ", named);
    assert (forall i :: 0 <= i < |" "| ==> IsMultispace(" "[i]));
    Multispace0Of(" ", "FROM " + named);
    TagOf("FROM ", named);
    PaddedIdentTight(t, ";" + rest);
    TagOf(";", rest);
    SelectSourceSteps(" FROM " + named, " ", "FROM " + named, named, "", named, t, ";" + rest, rest);
  }

  lemma SelectTextShape(t: string, cols: seq<string>, star: bool, rest: string)
    ensures SelectText(t, cols, star) + rest
         == SelectKeyword + ((if star then "*" else "") + ("(" + Join(cols, ", ") + ")" + (" FROM " + (t + (";" + rest)))))
  {
  }

  lemma ParenColumns(cols: seq<string>, star: bool, after: string)
    requires |cols| >= 1 && AllIdents(cols)
    ensures SelectColumns((if star then "*" else "") + ("(" + Join(cols, ", ") + ")" + after))
         == Ok((if star then Some("*") else None, Some(cols)), after)
  {
    var list := "(" + Join(cols, ", ") + ")" + after;
    ParenListOfJoin(cols, after);
    if star {
      TagOf("*", list);
    } else {
      AppendEmpty(list);
      FirstOfAppend("(" + Join(cols, ", ") + ")", after);
      assert !("*" <= list);
    }
    SelectColumnsSteps((if star then "*" else "") + list, if star then Some("*") else None, list, cols, after);
  }

  /** A printed select statement, with or without the wildcard, parses back to the same statement. */
  lemma SelectRoundTrip(t: string, cols: seq<string>, star: bool, rest: string)
    requires IsIdent(t) && |cols| >= 1 && AllIdents(cols)
    ensures ParseSelect(SelectText(t, cols, star) + rest)
         == Ok(SqlSelect(Some(cols), t, if star then Some("*") else None), rest)
  {
    var from := " FROM " + (t + (";" + rest));
    var body := (if star then "*" else "") + ("(" + Join(cols, ", ") + ")" + from);
    SelectTextShape(t, cols, star, rest);
    TagOf(SelectKeyword, body);
    if star {
      FirstOfAppend("*", "(" + Join(cols, ", ") + ")" + from);
    } else {
      AppendEmpty("(" + Join(cols, ", ") + ")" + from);
      FirstOfAppend("(" + Join(cols, ", ") + ")", from);
    }
    AppendEmpty(body);
    Multispace0Of("", body);
    ParenColumns(cols, star, from);
    SelectSourceOf(t, rest);
    SelectSteps(SelectText(t, cols, star) + rest, body, "", body,
                if star then Some("*") else None, Some(cols), from, t, rest);
  }

  lemma JoinHead(items: seq<string>, sep: string, rest: string)
    requires |items| >= 1 && items[0] != ""
    ensures Join(items, sep) + rest != "" && (Join(items, sep) + rest)[0] == items[0][0]
  {
    if |items| >= 2 {
      JoinUncons(items, sep, rest);
      FirstOfAppend(items[0], sep + (Join(items[1..], sep) + rest));
    } else {
      FirstOfAppend(items[0], rest);
    }
  }

  /** A bare list whose last name is not empty starts with a letter or digit, or with the comma after an empty first name. */
  lemma BareHead(cols: seq<string>, blank: string, from: string)
    requires |cols| >= 1 && AllIdents(cols) && cols[|cols| - 1] != ""
    ensures Join(cols, "," + blank) + from != ""
    ensures IsAlnum((Join(cols, "," + blank) + from)[0]) || (Join(cols, "," + blank) + from)[0] == ','
  {
    if cols[0] != "" {
      JoinHead(cols, "," + blank, from);
      assert IsIdent(cols[0]);
    } else {
      JoinUncons(cols, "," + blank, from);
      AppendEmpty("," + blank + (Join(cols[1..], "," + blank) + from));
      FirstOfAppend("," + blank, Join(cols[1..], "," + blank) + from);
    }
  }

  /** The bare-list select form: `SELECT a,<blanks>b FROM t;`, without parentheses or wildcard. */
  function BareSelectText(table: string, columns: seq<string>, blank: string): string {
    SelectKeyword + Join(columns, "," + blank) + " FROM " + table + ";"
  }

  lemma BareSelectTextShape(t: string, cols: seq<string>, blank: string, rest: string)
    ensures BareSelectText(t, cols, blank) + rest
         == SelectKeyword + (Join(cols, "," + blank) + (" FROM " + (t + (";" + rest))))
  {
  }

  lemma BareColumns(cols: seq<string>, blank: string, from: string)
    requires |cols| >= 1 && AllIdents(cols) && AllBlank(blank)
    requires cols[|cols| - 1] != ""
    requires from != "" && from[0] == ' '
    ensures SelectColumns(Join(cols, "," + blank) + from) == Ok((None, Some(cols)), from)
  {
    var body := Join(cols, "," + blank) + from;
    BareHead(cols, blank, from);
    assert !("*" <= body) && !("(" <= body);
    IdentListOfJoin(cols, blank, from);
    SelectColumnsSteps(body, None, body, cols, from);
  }

  /**
   A bare column list, any blanks after its commas, is read back as the same
   columns with no wildcard, provided its last name is not empty.
   */
  lemma BareSelectRoundTrip(t: string, cols: seq<string>, blank: string, rest: string)
    requires IsIdent(t) && |cols| >= 1 && AllIdents(cols) && AllBlank(blank)
    requires cols[|cols| - 1] != ""
    ensures ParseSelect(BareSelectText(t, cols, blank) + rest) == Ok(SqlSelect(Some(cols), t, None), rest)
  {
    var from := " FROM " + (t + (";" + rest));
    var body := Join(cols, "," + blank) + from;
    BareSelectTextShape(t, cols, blank, rest);
    TagOf(SelectKeyword, body);
    BareHead(cols, blank, from);
    AppendEmpty(body);
    Multispace0Of("", body);
    BareColumns(cols, blank, from);
    SelectSourceOf(t, rest);
    SelectSteps(BareSelectText(t, cols, blank) + rest, body, "", body, None, Some(cols), from, t, rest);
  }

  /** `SELECT * FROM t;` carries the wildcard and the one empty column name the bare list yields. */
  lemma SelectStarRoundTrip(t: string, rest: string)
    requires IsIdent(t)
    ensures ParseSelect(SelectKeyword + "*" + " FROM " + t + ";" + rest)
         == Ok(SqlSelect(Some([""]), t, Some("*")), rest)
  {
    var from := " FROM " + (t + (";" + rest));
    var body := "*" + from;
    assert SelectKeyword + "*" + " FROM " + t + ";" + rest == SelectKeyword + body;
    TagOf(SelectKeyword, body);
    AppendEmpty(body);
    Multispace0Of("", body);
    TagOf("*", from);
    FirstOfAppend(" FROM ", t + (";" + rest));
    assert !("(" <= from);
    AppendEmpty(from);
    IdentListJoinSingle("", from);
    SelectColumnsSteps(body, Some("*"), from, [""], from);
    SelectSourceOf(t, rest);
    SelectSteps(SelectKeyword + body, body, "", body, Some("*"), Some([""]), from, t, rest);
  }

  // ---------------------------------------------------------------------------
  // The whole dispatcher

  /** Every printable statement is printed to a line that `parse_query` turns back into it. */
  lemma ParseQueryRoundTrip(q: SqlQuery, rest: string)
    requires Printable(q)
    ensures ParseQuery(QueryText(q) + rest) == Ok(q, rest)
  {
    var line := QueryText(q) + rest;
    ParseQueryFirstMatch(line);
    match q
    case CreateTable(c) =>
      CreateRoundTrip(c.tableName, c.columns, rest);
      CreateTextShape(c.tableName, c.columns, rest);
    case Drop(d) =>
      DropRoundTrip(d.tableName, rest);
      DropTextShape(d.tableName, rest);
    case Insert(i) =>
      InsertRoundTrip(i.tableName, i.columns, i.values, rest);
      InsertTextShape(i.tableName, i.columns, i.values, rest);
    case Selection(s) =>
      var star := s.allColumns.Some?;
      SelectRoundTrip(s.tableName, s.columns.value, star, rest);
      SelectTextShape(s.tableName, s.columns.value, star, rest);
      assert s == SqlSelect(Some(s.columns.value), s.tableName, if star then Some("*") else None);
  }

  /** Whatever `parse_query` accepts is a statement `QueryText` can print. */
  lemma ParsedPrintable(input: string, q: SqlQuery, rest: string)
    requires ParseQuery(input) == Ok(q, rest)
    ensures Printable(q)
  {
    match q
    case CreateTable(c) =>
      var p := ParseCreate(input);
      assert p == Ok(c, rest);
    case Drop(d) =>
      var p := ParseDrop(input);
      assert p == Ok(d, rest);
    case Insert(i) =>
      var p := ParseInsert(input);
      assert p == Ok(i, rest);
    case Selection(sel) =>
      var p := ParseSelect(input);
      assert p == Ok(sel, rest);
  }

  /**
   Printing what `parse_query` accepted gives a canonical line that parses to
   the same statement. Only the layout of the original line is lost: its
   whitespace, and whether a select's column list was parenthesised.
   */
  lemma ParsedIsPrintable(input: string, q: SqlQuery, rest: string)
    requires ParseQuery(input) == Ok(q, rest)
    ensures Printable(q)
    ensures ParseQuery(QueryText(q) + rest) == Ok(q, rest)
  {
    ParsedPrintable(input, q, rest);
    ParseQueryRoundTrip(q, rest);
  }


}
