/**
 The four statement parsers of src/main.rs and the dispatcher that tries
 them in order. Each consumes a prefix of the line ending in `;` and returns
 the statement together with everything after that `;`.
 */
module Parser {
  import opened Text
  import opened Combinators
  import opened Query

  const CreateKeyword := "CREATE TABLE "
  const DropKeyword := "DROP TABLE "
  const InsertKeyword := "INSERT INTO "
  const SelectKeyword := "SELECT "

  /** `input` was consumed up to and including a `;`, and `rest` is everything after it. */
  predicate EndsStatement(rest: string, input: string) {
    IsSuffix(rest, input) && |rest| < |input| && input[|input| - |rest| - 1] == ';'
  }

  lemma ConsumedTerminator(input: string, before: string, rest: string)
    requires IsSuffix(before, input) && before == ";" + rest
    ensures EndsStatement(rest, input)
  {
    assert input[|input| - |before|..] == before;
    assert input[|input| - |rest| - 1] == before[0];
    SuffixOfAppend(";", rest);
    SuffixTransitive(rest, before, input);
  }

  /** `parse_create`: `CREATE TABLE `, a padded name, a parenthesised column list, `;`. */
  function ParseCreate(input: string): (r: PResult<SqlCreate>)
    ensures !(CreateKeyword <= input) ==> r == Err(Error)
    ensures r.Ok? ==> CreateKeyword <= input && EndsStatement(r.rest, input)
    ensures r.Ok? ==> IsIdent(r.value.tableName)
    ensures r.Ok? ==> |r.value.columns| >= 1 && AllIdents(r.value.columns)
  {
    var kw :- Tag(CreateKeyword, input);
    var name := PaddedIdent(kw.rest);
    var cols :- ParenList(name.rest);
    var semi :- Tag(";", cols.rest);
    SuffixOfAppend(CreateKeyword, kw.rest);
    SuffixTransitive(name.rest, kw.rest, input);
    SuffixTransitive(cols.rest, name.rest, input);
    ConsumedTerminator(input, cols.rest, semi.rest);
    Ok(SqlCreate(name.value, cols.value), semi.rest)
  }

  /** `parse_drop`: `DROP TABLE `, optional whitespace, a name, `;`. */
  function ParseDrop(input: string): (r: PResult<SqlDrop>)
    ensures !(DropKeyword <= input) ==> r == Err(Error)
    ensures r.Ok? ==> DropKeyword <= input && EndsStatement(r.rest, input)
    ensures r.Ok? ==> IsIdent(r.value.tableName)
  {
    var kw :- Tag(DropKeyword, input);
    var blank := Multispace0(kw.rest);
    var name := Ident(blank.rest);
    var semi :- Tag(";", name.rest);
    SuffixOfAppend(DropKeyword, kw.rest);
    SuffixOfAppend(blank.value, blank.rest);
    SuffixOfAppend(name.value, name.rest);
    SuffixTransitive(blank.rest, kw.rest, input);
    SuffixTransitive(name.rest, blank.rest, input);
    ConsumedTerminator(input, name.rest, semi.rest);
    Ok(SqlDrop(name.value), semi.rest)
  }

  /** `parse_insert`: `INSERT INTO `, a padded name, a column list, `VALUES`, a value list, `;`. */
  function ParseInsert(input: string): (r: PResult<SqlInsert>)
    ensures !(InsertKeyword <= input) ==> r == Err(Error)
    ensures r.Ok? ==> InsertKeyword <= input && EndsStatement(r.rest, input)
    ensures r.Ok? ==> IsIdent(r.value.tableName)
    ensures r.Ok? ==> |r.value.columns| >= 1 && AllIdents(r.value.columns)
    ensures r.Ok? ==> |r.value.values| >= 1 && AllIdents(r.value.values)
  {
    var kw :- Tag(InsertKeyword, input);
    var name := PaddedIdent(kw.rest);
    var cols :- ParenList(name.rest);
    var gap := Multispace0(cols.rest);
    var valuesKw :- Tag("VALUES", gap.rest);
    var gap2 := Multispace0(valuesKw.rest);
    var vals :- ParenList(gap2.rest);
    var semi :- Tag(";", vals.rest);
    SuffixOfAppend(InsertKeyword, kw.rest);
    SuffixTransitive(name.rest, kw.rest, input);
    SuffixTransitive(cols.rest, name.rest, input);
    SuffixOfAppend(gap.value, gap.rest);
    SuffixTransitive(gap.rest, cols.rest, input);
    SuffixOfAppend("VALUES", valuesKw.rest);
    SuffixTransitive(valuesKw.rest, gap.rest, input);
    SuffixOfAppend(gap2.value, gap2.rest);
    SuffixTransitive(gap2.rest, valuesKw.rest, input);
    SuffixTransitive(vals.rest, gap2.rest, input);
    ConsumedTerminator(input, vals.rest, semi.rest);
    Ok(SqlInsert(name.value, cols.value, vals.value), semi.rest)
  }

  /** The first character after `SELECT ` and any whitespace is `*`. */
  predicate StarFollowsSelect(input: string)
    requires SelectKeyword <= input
  {
    var after := input[|SelectKeyword|..];
    var n := Span(IsMultispace, after);
    n < |after| && after[n] == '*'
  }

  lemma EndsStatementTransitive(rest: string, mid: string, input: string)
    requires EndsStatement(rest, mid) && IsSuffix(mid, input)
    ensures EndsStatement(rest, input)
  {
    SuffixTransitive(rest, mid, input);
    assert input[|input| - |mid|..][|mid| - |rest| - 1] == mid[|mid| - |rest| - 1];
  }

  lemma StarAfterBlanks(input: string, afterKw: string, blank: string, rest: string)
    requires input == SelectKeyword + afterKw
    requires afterKw == blank + rest
    requires forall i :: 0 <= i < |blank| ==> IsMultispace(blank[i])
    requires rest == "" || !IsMultispace(rest[0])
    ensures StarFollowsSelect(input) <==> "*" <= rest
  {
    assert input[|SelectKeyword|..] == afterKw;
    SpanCrosses(IsMultispace, blank, rest);
    assert Span(IsMultispace, rest) == 0;
    assert |rest| > 0 ==> afterKw[|blank|] == rest[0];
  }

  /**
   The middle of `parse_select`: `opt(tag("*"))` followed by
   `opt(alt((<parenthesised list>, <bare list>)))`. The bare list never fails
   with `Error`, so a column list is always produced, `[""]` when there is none.
   */
  function SelectColumns(s: string): (r: PResult<(Option<string>, Option<seq<string>>)>)
    ensures r.Ok? ==> IsSuffix(r.rest, s)
    ensures r.Ok? ==> (r.value.0.Some? <==> "*" <= s) && (r.value.0.Some? ==> r.value.0.value == "*")
    ensures r.Ok? ==> r.value.1.Some? && |r.value.1.value| >= 1 && AllIdents(r.value.1.value)
  {
    var star := Opt(s, Tag("*", s));
    assert star.Ok? && IsSuffix(star.rest, s) by {
      if "*" <= s {
        SuffixOfAppend("*", star.rest);
      } else {
        assert star.rest == s;
        SuffixOfAppend("", s);
      }
    }
    var choice := OrElse(ParenList(star.rest), IdentList(star.rest));
    var cols := Opt(star.rest, choice);
    if cols.Err? then Err(cols.err)
    else
      assert choice.Ok?;
      SuffixTransitive(cols.rest, star.rest, s);
      Ok((star.value, cols.value), cols.rest)
  }

  /** The end of `parse_select`: whitespace, `FROM `, whitespace, a padded table name, `;`. */
  function SelectSource(s: string): (r: PResult<string>)
    ensures r.Ok? ==> IsIdent(r.value) && EndsStatement(r.rest, s)
  {
    var gap := Multispace0(s);
    var fromKw :- Tag("FROM ", gap.rest);
    var gap2 := Multispace0(fromKw.rest);
    var name := PaddedIdent(gap2.rest);
    var semi :- Tag(";", name.rest);
    SuffixOfAppend(gap.value, gap.rest);
    SuffixOfAppend("FROM ", fromKw.rest);
    SuffixTransitive(fromKw.rest, gap.rest, s);
    SuffixOfAppend(gap2.value, gap2.rest);
    SuffixTransitive(gap2.rest, fromKw.rest, s);
    SuffixTransitive(name.rest, gap2.rest, s);
    ConsumedTerminator(s, name.rest, semi.rest);
    Ok(name.value, semi.rest)
  }

  /**
   `parse_select`: `SELECT `, whitespace, an optional `*`, then optionally a
   parenthesised or a bare column list, whitespace, `FROM `, a padded name, `;`.
   */
  function ParseSelect(input: string): (r: PResult<SqlSelect>)
    ensures !(SelectKeyword <= input) ==> r == Err(Error)
    ensures r.Ok? ==> SelectKeyword <= input && EndsStatement(r.rest, input)
    ensures r.Ok? ==> IsIdent(r.value.tableName)
    ensures r.Ok? ==> r.value.columns.Some? && |r.value.columns.value| >= 1 && AllIdents(r.value.columns.value)
    ensures r.Ok? ==> (r.value.allColumns.Some? <==> StarFollowsSelect(input))
    ensures r.Ok? && r.value.allColumns.Some? ==> r.value.allColumns.value == "*"
  {
    var kw :- Tag(SelectKeyword, input);
    var blank := Multispace0(kw.rest);
    var head :- SelectColumns(blank.rest);
    var name :- SelectSource(head.rest);
    SuffixOfAppend(SelectKeyword, kw.rest);
    SuffixOfAppend(blank.value, blank.rest);
    SuffixTransitive(blank.rest, kw.rest, input);
    SuffixTransitive(head.rest, blank.rest, input);
    EndsStatementTransitive(name.rest, head.rest, input);
    StarAfterBlanks(input, kw.rest, blank.value, blank.rest);
    Ok(SqlSelect(head.value.1, name.value, head.value.0), name.rest)
  }

  /** nom's `map(parser, f)` on an outcome. */
  function MapResult<T, U>(r: PResult<T>, f: T -> U): (m: PResult<U>)
    ensures m.Ok? <==> r.Ok?
    ensures m.Ok? ==> m.value == f(r.value) && m.rest == r.rest
    ensures m.Err? ==> m.err == r.err
  {
    match r
    case Ok(v, rest) => Ok(f(v), rest)
    case Err(e) => Err(e)
  }

  function AsCreate(c: SqlCreate): SqlQuery { CreateTable(c) }
  function AsDrop(d: SqlDrop): SqlQuery { Drop(d) }
  function AsInsert(i: SqlInsert): SqlQuery { Insert(i) }
  function AsSelection(s: SqlSelect): SqlQuery { Selection(s) }

  /** `parse_query`: create, drop, insert and select are tried in that order; the first that does not fail with `Error` decides. */
  function ParseQuery(input: string): (r: PResult<SqlQuery>)
    ensures r.Ok? ==> EndsStatement(r.rest, input)
    ensures r.Ok? && r.value.CreateTable? ==> ParseCreate(input) == Ok(r.value.create, r.rest)
    ensures r.Ok? && r.value.Drop? ==> ParseDrop(input) == Ok(r.value.drop, r.rest)
    ensures r.Ok? && r.value.Insert? ==> ParseInsert(input) == Ok(r.value.insert, r.rest)
    ensures r.Ok? && r.value.Selection? ==> ParseSelect(input) == Ok(r.value.select, r.rest)
  {
    OrElse(MapResult(ParseCreate(input), AsCreate),
    OrElse(MapResult(ParseDrop(input), AsDrop),
    OrElse(MapResult(ParseInsert(input), AsInsert),
           MapResult(ParseSelect(input), AsSelection))))
  }
}
