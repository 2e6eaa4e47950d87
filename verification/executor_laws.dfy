/**
 What the executors promise over several statements: a created table reads
 back its own column names, an insert succeeds exactly when it names those
 columns in order and then adds one line to the file and leaves the header
 alone, and a dropped table is gone.
 */
module ExecutorLaws {
  import opened Text
  import opened Query
  import opened Projection
  import opened Executor

  // ---------------------------------------------------------------------------
  // Text facts about identifier lists

  lemma IdentsAvoid(items: seq<string>, c: char)
    requires AllIdents(items) && !IsAlnum(c)
    ensures forall k :: 0 <= k < |items| ==> c !in items[k]
  {
    forall k | 0 <= k < |items| ensures c !in items[k] {
      assert IsIdent(items[k]);
    }
  }

  lemma JoinedIdentsAvoid(items: seq<string>, c: char)
    requires AllIdents(items) && !IsAlnum(c) && c != ','
    ensures c !in Join(items, ",")
  {
    JoinedIdentsChars(items);
  }

  lemma JoinNonEmpty(items: seq<string>, sep: string)
    requires |items| >= 1 && items[0] != ""
    ensures Join(items, sep) != ""
  {
  }

  /** A string without the separator splits into itself alone. */
  lemma SplitPlain(s: string, c: char)
    requires c !in s
    ensures Split(s, c) == [s]
  {
    SplitAfterPlainPrefix(s, "", c);
    assert s + "" == s;
    assert Split("", c) == [""];
  }

  // ---------------------------------------------------------------------------
  // First lines

  /** Once the content holds a line feed, text appended after it leaves the first line alone. */
  lemma FirstLineStable(content: string, more: string)
    requires '\n' in content
    ensures FirstLine(content + more) == FirstLine(content)
  {
    var whole := content + more;
    var i :| 0 <= i < |content| && content[i] == '\n';
    var n := Span(NotNewline, content);
    assert !NotNewline(content[i]);
    SpanStopsInside(NotNewline, content, more);
    assert whole[..n] == content[..n];
    assert n > 0 ==> whole[n - 1] == content[n - 1];
    assert whole[..n + 1] == content[..n + 1];
    assert n > 0 ==> whole[..n - 1] == content[..n - 1];
  }

  // ---------------------------------------------------------------------------
  // Create, insert, drop

  /** The file `create_table` writes reads back, through `insert_into`'s header reading, as the same columns. */
  lemma CreateReadsBack(store: Store, q: SqlCreate)
    requires ValidSchema(q.columns) && AllIdents(q.columns)
    ensures HeaderColumns(Create(store, q).store[q.tableName]) == Some(q.columns)
  {
    var content := Join(q.columns, ",");
    assert q.columns[0] in q.columns;
    JoinNonEmpty(q.columns, ",");
    JoinedIdentsAvoid(q.columns, '\n');
    FirstLineOfSingle(content);
    IdentsAvoid(q.columns, ',');
    SplitJoin(q.columns, ',');
    assert [','] == ",";
  }

  /** After a create, an insert succeeds exactly when it names the same columns in the same order. */
  lemma InsertAfterCreate(store: Store, c: SqlCreate, i: SqlInsert)
    requires ValidSchema(c.columns) && AllIdents(c.columns)
    requires i.tableName == c.tableName
    ensures InsertInto(Create(store, c).store, i).error.None? <==> i.columns == c.columns
  {
    CreateReadsBack(store, c);
    assert Join(c.columns, ",") != "" by {
      assert c.columns[0] in c.columns;
      JoinNonEmpty(c.columns, ",");
    }
  }

  /** Create followed by a matching insert leaves the header line, a line feed and the values line. */
  lemma CreateThenInsert(store: Store, c: SqlCreate, values: seq<string>)
    requires ValidSchema(c.columns) && AllIdents(c.columns)
    ensures InsertInto(Create(store, c).store, SqlInsert(c.tableName, c.columns, values)).store[c.tableName]
         == Join(c.columns, ",") + "\n" + Join(values, ",")
  {
    InsertAfterCreate(store, c, SqlInsert(c.tableName, c.columns, values));
  }

  /** A successful insert does not change the column names the next insert is checked against. */
  lemma InsertKeepsHeader(store: Store, q: SqlInsert)
    requires q.tableName in store && AllIdents(q.columns)
    requires InsertInto(store, q).error.None?
    ensures HeaderColumns(InsertInto(store, q).store[q.tableName]) == HeaderColumns(store[q.tableName])
  {
    var content := store[q.tableName];
    var tail := Join(q.values, ",");
    if '\n' in content {
      FirstLineStable(content, "\n" + tail);
      assert content + "\n" + tail == content + ("\n" + tail);
    } else {
      FirstLineOfSingle(content);
      JoinSplit(content, ',');
      assert Split(content, ',') == q.columns;
      assert content == Join(q.columns, ",");
      JoinedIdentsChars(q.columns);
      assert !EndsWithCR(content) by {
        assert content[|content| - 1] != '\r';
      }
      FirstLineOfAppended(content, tail);
    }
  }

  /** Each successful insert adds exactly one line, the comma-joined values, to the end of the file. */
  lemma InsertAppendsLine(store: Store, q: SqlInsert)
    requires q.tableName in store && AllIdents(q.values)
    requires InsertInto(store, q).error.None?
    ensures Split(InsertInto(store, q).store[q.tableName], '\n')
         == Split(store[q.tableName], '\n') + [Join(q.values, ",")]
  {
    var content := store[q.tableName];
    var line := Join(q.values, ",");
    assert content + "\n" + line == content + ['\n'] + line;
    SplitAround(content, line, '\n');
    JoinedIdentsAvoid(q.values, '\n');
    SplitPlain(line, '\n');
  }

  /** A freshly created table is one line: its header. */
  lemma CreateWritesOneLine(store: Store, q: SqlCreate)
    requires ValidSchema(q.columns) && AllIdents(q.columns)
    ensures Split(Create(store, q).store[q.tableName], '\n') == [Join(q.columns, ",")]
  {
    JoinedIdentsAvoid(q.columns, '\n');
    SplitPlain(Join(q.columns, ","), '\n');
  }

  /** Dropping a table just created removes it, whether or not it existed before the create. */
  lemma DropAfterCreate(store: Store, c: SqlCreate)
    requires ValidSchema(c.columns)
    ensures DropTable(Create(store, c).store, SqlDrop(c.tableName)).store == store - {c.tableName}
    ensures DropTable(Create(store, c).store, SqlDrop(c.tableName)).error.None?
  {
  }

  /** A second drop of the same table panics. */
  lemma DropTwicePanics(store: Store, q: SqlDrop)
    requires q.tableName in store
    ensures DropTable(DropTable(store, q).store, q).error == Some(TableMissing)
  {
  }

  /**
   Naming every column of the table exactly once, in any order, prints what
   `*` prints: the fields come out in the table's order either way.
   */
  lemma AllColumnsLikeStar(store: Store, t: string, columns: seq<string>, reader: CsvReader)
    requires t in store && |reader(store[t])| > 0
    requires forall i :: 0 <= i < |reader(store[t])[0]| ==> multiset(columns)[reader(store[t])[0][i]] == 1
    ensures SelectTable(store, SqlSelect(Some(columns), t, None), reader)
         == SelectTable(store, SqlSelect(Some(columns), t, Some("*")), reader)
  {
    var rows := reader(store[t]);
    ColIndexEachOnce(rows[0], columns);
    var n := ReadableRows(rows);
    forall k | 0 <= k < n
      ensures Project(rows[k], ColIndex(HeaderRow(rows), columns)) == Some(rows[k])
    {
      ProjectEvery(rows[k]);
    }
  }

  // ---------------------------------------------------------------------------
  // Examples

  /** Naming the columns in another order is refused, even though the same columns are named. */
  lemma ColumnOrderMatters()
    ensures InsertInto(Create(map[], SqlCreate("t", ["a", "b"])).store,
                       SqlInsert("t", ["b", "a"], ["2", "1"])).error == Some(ColumnsMismatch)
  {
    var c := SqlCreate("t", ["a", "b"]);
    assert AllIdents(c.columns) by {
      assert IsIdent("a") && IsIdent("b");
    }
    InsertAfterCreate(map[], c, SqlInsert("t", ["b", "a"], ["2", "1"]));
    assert ["b", "a"] != ["a", "b"] by {
      assert ["b", "a"][0] != ["a", "b"][0];
    }
  }

  /** The number of values is not compared with the number of columns. */
  lemma ArityUnchecked()
    ensures InsertInto(Create(map[], SqlCreate("t", ["a", "b"])).store,
                       SqlInsert("t", ["a", "b"], ["1"])).store["t"] == "a,b\n1"
  {
    var c := SqlCreate("t", ["a", "b"]);
    assert AllIdents(c.columns) by {
      assert IsIdent("a") && IsIdent("b");
    }
    CreateThenInsert(map[], c, ["1"]);
    assert Join(["a", "b"], ",") == "a,b";
    assert Join(["1"], ",") == "1";
  }

  /** Selected fields come out in the table's column order, not in the order the statement names them. */
  lemma SelectFollowsHeaderOrder()
    ensures ColIndex(["a", "b", "c"], ["c", "a"]) == [0, 2]
  {
    var header := ["a", "b", "c"];
    var cols := ["c", "a"];
    assert multiset(cols)["a"] == 1;
    assert multiset(cols)["b"] == 0;
    assert multiset(cols)["c"] == 1;
    assert header[..0] == [] && header[..1] == ["a"] && header[..2] == ["a", "b"];
    assert ColIndex(["a"], cols) == [0];
    assert ColIndex(["a", "b"], cols) == [0];
  }

  /** A requested name the table does not have is skipped without complaint. */
  lemma {:induction false} UnknownColumnSkipped(header: seq<string>, name: string)
    requires name !in header
    ensures ColIndex(header, [name]) == []
  {
    if |header| > 0 {
      var last := |header| - 1;
      assert header[last] != name;
      assert name !in header[..last];
      UnknownColumnSkipped(header[..last], name);
      assert multiset([name])[header[last]] == 0;
    }
  }

}
