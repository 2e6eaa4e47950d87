/**
 The statements of `parses_test` in src/main.rs, and a few lines that show
 where the parsers stop short of the grammar one might expect.
 */
module ParserExamples {
  import opened Text
  import opened Combinators
  import opened Query
  import opened Parser
  import opened CombinatorLaws
  import opened ParserLaws

  lemma PrintedParses(line: string, q: SqlQuery)
    requires Printable(q) && line == QueryText(q)
    ensures ParseQuery(line) == Ok(q, "")
  {
    AppendEmpty(line);
    ParseQueryRoundTrip(q, "");
  }

  lemma CreateOneColumn()
    ensures ParseQuery("CREATE TABLE name (column);") == Ok(CreateTable(SqlCreate("name", ["column"])), "")
  {
    assert "CREATE TABLE name (column);" == QueryText(CreateTable(SqlCreate("name", ["column"]))) + "";
    ParseQueryRoundTrip(CreateTable(SqlCreate("name", ["column"])), "");
  }

  lemma CreateTwoColumns()
    ensures ParseQuery("CREATE TABLE name (column, column2);")
         == Ok(CreateTable(SqlCreate("name", ["column", "column2"])), "")
  {
    var q := CreateTable(SqlCreate("name", ["column", "column2"]));
    JoinPair("column", "column2", ", ");
    assert "CREATE TABLE name (column, column2);" == QueryText(q) + "";
    ParseQueryRoundTrip(q, "");
  }

  lemma DropName()
    ensures ParseQuery("DROP TABLE name;") == Ok(Drop(SqlDrop("name")), "")
  {
    assert "DROP TABLE name;" == QueryText(Drop(SqlDrop("name"))) + "";
    ParseQueryRoundTrip(Drop(SqlDrop("name")), "");
  }

  lemma InsertTwoValues()
    ensures ParseQuery("INSERT INTO name (column, column2) VALUES (0, 1);")
         == Ok(Insert(SqlInsert("name", ["column", "column2"], ["0", "1"])), "")
  {
    var q := Insert(SqlInsert("name", ["column", "column2"], ["0", "1"]));
    InsertTwoValuesPrintable();
    InsertTwoValuesText();
    PrintedParses("INSERT INTO name (column, column2) VALUES (0, 1);", q);
  }

  lemma InsertTwoValuesPrintable()
    ensures Printable(Insert(SqlInsert("name", ["column", "column2"], ["0", "1"])))
  {
    assert IsIdent("name") && IsIdent("column") && IsIdent("column2") && IsIdent("0") && IsIdent("1");
  }

  lemma InsertTwoValuesText()
    ensures QueryText(Insert(SqlInsert("name", ["column", "column2"], ["0", "1"])))
         == "INSERT INTO name (column, column2) VALUES (0, 1);"
  {
    JoinPair("column", "column2", ", ");
    JoinPair("0", "1", ", ");
    InsertTwoValuesPieces();
  }

  lemma JoinPair(a: string, b: string, sep: string)
    ensures Join([a, b], sep) == a + sep + b
  {
    assert [a, b][1..] == [b];
  }

  lemma InsertTwoValuesPieces()
    ensures "INSERT INTO name (column, column2) VALUES (0, 1);"
         == InsertKeyword + "name" + " (" + ("column" + ", " + "column2") + ") VALUES (" + ("0" + ", " + "1") + ");"
  {
  }

  /** The wildcard select still reports a column list: the single empty name. */
  lemma SelectStar()
    ensures ParseQuery("SELECT * FROM name;") == Ok(Selection(SqlSelect(Some([""]), "name", Some("*"))), "")
  {
    assert "SELECT * FROM name;" == SelectKeyword + "*" + " FROM " + "name" + ";" + "";
    SelectStarRoundTrip("name", "");
    ParseQueryFirstMatch("SELECT * FROM name;");
  }

  /** Blanks after a comma of a bare list are skipped. */
  lemma SelectBareList()
    ensures ParseQuery("SELECT column,        column2 FROM name;")
         == Ok(Selection(SqlSelect(Some(["column", "column2"]), "name", None)), "")
  {
    var blank := "        ";
    assert AllBlank(blank);
    JoinPair("column", "column2", "," + blank);
    assert "SELECT column,        column2 FROM name;" == BareSelectText("name", ["column", "column2"], blank) + "";
    BareSelectRoundTrip("name", ["column", "column2"], blank, "");
    ParseQueryFirstMatch("SELECT column,        column2 FROM name;");
  }

  /** `CREATE TABLE t ();` parses, with the one empty column name; it is the executor that refuses it. */
  lemma CreateEmptyColumns()
    ensures ParseQuery("CREATE TABLE t ();") == Ok(CreateTable(SqlCreate("t", [""])), "")
  {
    var q := CreateTable(SqlCreate("t", [""]));
    assert "CREATE TABLE t ();" == QueryText(q) + "";
    ParseQueryRoundTrip(q, "");
  }

  /**
   Without the wildcard and without a column list, the bare list takes the
   word `FROM` as a column name, and the statement is refused.
   */
  lemma FromTakenAsColumn()
    ensures SelectColumns("FROM name;") == Ok((None, Some(["FROM"])), " name;")
  {
    assert "FROM name;" == "FROM" + " name;";
    IdentListJoinSingle("FROM", " name;");
    assert !("*" <= "FROM name;") && !("(" <= "FROM name;");
    SelectColumnsSteps("FROM name;", None, "FROM name;", ["FROM"], " name;");
  }

  lemma MissingFromFails()
    ensures SelectSource(" name;") == Err(Error)
  {
    assert " name;" == " " + "name;";
    Multispace0Of(" ", "name;");
    assert !("FROM " <= "name;");
  }

  lemma SelectNothingFails()
    ensures ParseQuery("SELECT  FROM name;") == Err(Error)
  {
    var s := "SELECT  FROM name;";
    SelectNothingText();
    TagOf(SelectKeyword, " FROM name;");
    assert " FROM name;" == " " + "FROM name;";
    Multispace0Of(" ", "FROM name;");
    FromTakenAsColumn();
    MissingFromFails();
    assert ParseSelect(s) == Err(Error);
    ParseQueryFirstMatch(s);
  }


  lemma SelectNothingText()
    ensures "SELECT  FROM name;" == SelectKeyword + " FROM name;"
  {
  }

  /**
   A trailing comma leaves the streaming `space0` with nothing to look at, so
   the line is reported incomplete rather than wrong.
   */
  lemma TrailingCommaIncomplete()
    ensures ParseQuery("SELECT a,") == Err(Incomplete)
  {
    var s := "SELECT a,";
    assert s == SelectKeyword + "a,";
    TagOf(SelectKeyword, "a,");
    AppendEmpty("a,");
    Multispace0Of("", "a,");
    assert "a," == "a" + ",";
    IdentOf("a", ",");
    assert Comma(",") == Err(Incomplete);
    assert IdentList("a,") == Err(Incomplete);
    assert !("*" <= "a,") && !("(" <= "a,");
    assert SelectColumns("a,") == Err(Incomplete);
    assert ParseSelect(s) == Err(Incomplete);
    ParseQueryFirstMatch(s);
  }

  /** Keywords are matched exactly: lower case is not a statement. */
  lemma LowerCaseRefused()
    ensures ParseQuery("select * from name;") == Err(Error)
  {
    var s := "select * from name;";
    assert s[0] == 's';
    assert !(CreateKeyword <= s) && !(DropKeyword <= s) && !(InsertKeyword <= s) && !(SelectKeyword <= s);
    ParseQueryFirstMatch(s);
  }
}
