/** The generator's records: a column as the database describes it, and the table being generated. */
module Domain {
  import opened Wrappers

  /**
   * A column as fetched: its name and its key role ("PRI" for a primary-key
   * column). A null key role is modelled as the empty string.
   */
  datatype ColumnInfo = ColumnInfo(columnName: string, columnKey: string)

  /** The value of every modelled field of a TableInfo at one moment. */
  datatype TableView = TableView(
    tableName: string,
    tableNameDB: string,
    tableComment: string,
    className: string,
    primaryKey: Option<string>,
    columns: seq<ColumnInfo>)

  /** TableInfo: a mutable bean whose setters the service calls one after another. */
  class TableInfo {
    var tableName: string
    var tableNameDB: string
    var tableComment: string
    var className: string
    /** Null until a primary-key column is assigned. */
    var primaryKey: Option<string>
    var columns: seq<ColumnInfo>

    constructor (v: TableView)
      ensures View() == v
    {
      tableName := v.tableName;
      tableNameDB := v.tableNameDB;
      tableComment := v.tableComment;
      className := v.className;
      primaryKey := v.primaryKey;
      columns := v.columns;
    }

    function View(): TableView
      reads this
    {
      TableView(tableName, tableNameDB, tableComment, className, primaryKey, columns)
    }
  }
}
