/**
 The statement types the parser produces (src/main.rs:19-67). The source
 keeps borrowed slices of the input line; here every identifier is an owned
 copy of the characters it was parsed from.
 */
module Query {
  import opened Text

  datatype SqlCreate = SqlCreate(tableName: string, columns: seq<string>)

  datatype SqlDrop = SqlDrop(tableName: string)

  /** Values pair with columns only by position; nothing checks their number. */
  datatype SqlInsert = SqlInsert(tableName: string, columns: seq<string>, values: seq<string>)

  /** Both the wildcard and the column list are representable; parsing may fill both. */
  datatype SqlSelect = SqlSelect(columns: Option<seq<string>>, tableName: string, allColumns: Option<string>)

  datatype SqlQuery =
    | CreateTable(create: SqlCreate)
    | Drop(drop: SqlDrop)
    | Insert(insert: SqlInsert)
    | Selection(select: SqlSelect)
  {
    /** The table a statement is about, which is the only table it may touch. */
    function TableName(): string {
      match this
      case CreateTable(c) => c.tableName
      case Drop(d) => d.tableName
      case Insert(i) => i.tableName
      case Selection(s) => s.tableName
    }
  }
}
