/**
 * GenServiceImpl: turns a table's metadata into one archive entry per code
 * template, for one table or for many tables written into one stream.
 */
module GenService {
  import opened Wrappers
  import opened Naming
  import opened Archive
  import opened Domain

  /**
   * The helpers of GenUtils and the template engine, whose code is not part of
   * this model: each is an arbitrary total function. `templates` is the list
   * getTemplates returns; `render` is the merge of a template with the
   * context built from the normalised table.
   */
  datatype GenUtils = GenUtils(
    tableToJava: string -> string,
    transColums: seq<ColumnInfo> -> seq<ColumnInfo>,
    moduleName: string -> string,
    templates: seq<string>,
    fileName: (string, TableView, string) -> string,
    render: (string, TableView) -> string)

  /** The database lookups: a table that is not found comes back as null. */
  datatype GenMapper = GenMapper(
    selectTableByName: string -> Option<TableView>,
    selectTableColumnsByName: string -> seq<ColumnInfo>)

  /**
   * How generation ends abnormally: the looked-up table was null (the call
   * fails with a NullPointerException), or the archive refused an entry and
   * the failure is rethrown as a BaseException naming the table.
   */
  datatype GenError = NullTable | RenderFailed(tableName: string, cause: IoError)

  predicate IsPrimary(c: ColumnInfo) {
    c.columnKey == "PRI"
  }

  /**
   * The primary key after the column scan: every "PRI" column overwrites it,
   * so the last one wins; with none, `prior` is kept.
   */
  function LastPrimaryKey(columns: seq<ColumnInfo>, prior: Option<string>): Option<string>
    decreases |columns|
  {
    if columns == [] then prior
    else
      var last := columns[|columns| - 1];
      if IsPrimary(last) then Some(last.columnName)
      else LastPrimaryKey(columns[..|columns| - 1], prior)
  }

  /** With at least one "PRI" column, the key is the name of the last of them. */
  lemma {:induction false} LastPrimaryKeyIsLastPri(columns: seq<ColumnInfo>, prior: Option<string>, i: nat)
    requires i < |columns| && IsPrimary(columns[i])
    ensures exists k :: i <= k < |columns| && IsPrimary(columns[k])
              && LastPrimaryKey(columns, prior) == Some(columns[k].columnName)
              && forall j :: k < j < |columns| ==> !IsPrimary(columns[j])
    decreases |columns|
  {
    var n := |columns| - 1;
    if !IsPrimary(columns[n]) {
      var init := columns[..n];
      LastPrimaryKeyIsLastPri(init, prior, i);
      var k :| i <= k < |init| && IsPrimary(init[k])
               && LastPrimaryKey(init, prior) == Some(init[k].columnName)
               && forall j :: k < j < |init| ==> !IsPrimary(init[j]);
      assert columns[k] == init[k];
      assert forall j :: k < j < n ==> columns[j] == init[j];
    }
  }

  /** Without any "PRI" column the primary key is never assigned. */
  lemma {:induction false} LastPrimaryKeyNoPri(columns: seq<ColumnInfo>, prior: Option<string>)
    requires forall j :: 0 <= j < |columns| ==> !IsPrimary(columns[j])
    ensures LastPrimaryKey(columns, prior) == prior
    decreases |columns|
  {
    if columns != [] {
      var init := columns[..|columns| - 1];
      assert forall j :: 0 <= j < |init| ==> init[j] == columns[j];
      LastPrimaryKeyNoPri(init, prior);
    }
  }

  /** A table with two primary-key columns keeps the second, not the first. */
  lemma CompositeKeyKeepsLast(prior: Option<string>)
    ensures LastPrimaryKey([ColumnInfo("id", "PRI"), ColumnInfo("code", "PRI")], prior) == Some("code")
  {
  }

  /**
   * The table after the setters: the name as fetched is kept as the DB name,
   * the class name is derived from it, the table name becomes the
   * uncapitalized class name, the columns are the transformed columns, and
   * the primary key is the scan's result.
   */
  function Normalized(v: TableView, columns: seq<ColumnInfo>, utils: GenUtils): TableView
  {
    var className := utils.tableToJava(v.tableName);
    v.(tableNameDB := v.tableName,
       className := className,
       tableName := Uncapitalize(className),
       columns := utils.transColums(columns),
       primaryKey := LastPrimaryKey(columns, v.primaryKey))
  }

  /**
   * Normalising depends on the fetched table only through its name, its
   * comment and its prior primary key: what the fields written by the
   * setters held before has no effect.
   */
  lemma NormalizedForgetsDerivedFields(v: TableView, u: TableView, columns: seq<ColumnInfo>, utils: GenUtils)
    requires v.tableName == u.tableName && v.tableComment == u.tableComment && v.primaryKey == u.primaryKey
    ensures Normalized(v, columns, utils) == Normalized(u, columns, utils)
  {
  }

  /** The entries for one normalised table: one per template, in template order. */
  function TemplateEntries(utils: GenUtils, v: TableView, moduleName: string): (es: seq<Entry>)
  {
    seq(|utils.templates|, i requires 0 <= i < |utils.templates| =>
      Entry(utils.fileName(utils.templates[i], v, moduleName), utils.render(utils.templates[i], v)))
  }

  datatype TableResult = TableResult(entries: seq<Entry>, error: Option<GenError>)

  /**
   * generatorCode(table, columns, zip) on values: what the stream holds
   * afterwards and how the call ends.
   */
  function GenerateTableSpec(row: Option<TableView>, columns: seq<ColumnInfo>, utils: GenUtils,
                             packageName: string, written: seq<Entry>, closed: bool): TableResult
  {
    if row.None? then TableResult(written, Some(NullTable))
    else
      var v := Normalized(row.value, columns, utils);
      var w := WriteAll(written, closed, TemplateEntries(utils, v, utils.moduleName(packageName)));
      TableResult(w.entries, if w.failure.Some? then Some(RenderFailed(v.tableName, w.failure.value)) else None)
  }

  /**
   * One table's call: on success the stream holds its old entries followed by
   * exactly one entry per template, in template order, each named by the
   * template's file name and holding its rendering; on a refused entry the
   * remaining templates are skipped and the error names the normalised
   * (uncapitalized) table name, not the DB name.
   */
  lemma GenerateTableAppendsTemplates(row: TableView, columns: seq<ColumnInfo>, utils: GenUtils,
                                      packageName: string, written: seq<Entry>, closed: bool)
    ensures var t := GenerateTableSpec(Some(row), columns, utils, packageName, written, closed);
      var v := Normalized(row, columns, utils);
      var moduleName := utils.moduleName(packageName);
      && |written| <= |t.entries| <= |written| + |utils.templates|
      && t.entries[..|written|] == written
      && (forall i :: |written| <= i < |t.entries| ==>
            t.entries[i] == Entry(utils.fileName(utils.templates[i - |written|], v, moduleName),
                                  utils.render(utils.templates[i - |written|], v)))
      && (t.error.None? <==> |t.entries| == |written| + |utils.templates|)
      && (t.error.Some? ==>
            t.error.value.RenderFailed? &&
            t.error.value.tableName == Uncapitalize(utils.tableToJava(row.tableName)))
  {
    var v := Normalized(row, columns, utils);
    var es := TemplateEntries(utils, v, utils.moduleName(packageName));
    WriteAllExtends(written, closed, es);
  }

  /** The batch call on values: tables in order into one open stream; the first error ends it. */
  function BatchSpec(mapper: GenMapper, utils: GenUtils, packageName: string,
                     tableNames: seq<string>, written: seq<Entry>): Result<seq<Entry>, GenError>
    decreases |tableNames|
  {
    if tableNames == [] then Ok(written)
    else
      var name := tableNames[0];
      var t := GenerateTableSpec(mapper.selectTableByName(name), mapper.selectTableColumnsByName(name),
                                 utils, packageName, written, false);
      if t.error.Some? then Err(t.error.value)
      else BatchSpec(mapper, utils, packageName, tableNames[1..], t.entries)
  }

  /** The single-table call on values: one table into a fresh stream. */
  function SingleSpec(mapper: GenMapper, utils: GenUtils, packageName: string,
                      tableName: string): Result<seq<Entry>, GenError>
  {
    var t := GenerateTableSpec(mapper.selectTableByName(tableName), mapper.selectTableColumnsByName(tableName),
                               utils, packageName, [], false);
    if t.error.Some? then Err(t.error.value) else Ok(t.entries)
  }

  /** The lookup of line 61: a fresh TableInfo holding the fetched row, or null. */
  method SelectTableByName(mapper: GenMapper, tableName: string) returns (table: TableInfo?)
    ensures table == null <==> mapper.selectTableByName(tableName).None?
    ensures table != null ==> fresh(table) && table.View() == mapper.selectTableByName(tableName).value
  {
    match mapper.selectTableByName(tableName)
    case None => table := null;
    case Some(v) => table := new TableInfo(v);
  }

  /** The column scan: every "PRI" column assigns the table's primary key. */
  method ScanPrimaryKey(table: TableInfo, columns: seq<ColumnInfo>)
    modifies table
    ensures table.primaryKey == LastPrimaryKey(columns, old(table.primaryKey))
    ensures table.View() == old(table.View()).(primaryKey := table.primaryKey)
  {
    for i := 0 to |columns|
      invariant table.primaryKey == LastPrimaryKey(columns[..i], old(table.primaryKey))
      invariant table.View() == old(table.View()).(primaryKey := table.primaryKey)
    {
      assert columns[..i + 1][..i] == columns[..i];
      if IsPrimary(columns[i]) {
        table.primaryKey := Some(columns[i].columnName);
      }
    }
    assert columns[..|columns|] == columns;
  }

  /** The template loop: render each template and write it as one entry, stopping at the first refusal. */
  method WriteTemplates(zip: ZipArchive, utils: GenUtils, v: TableView, moduleName: string)
    returns (err: Option<IoError>)
    requires zip.Valid()
    modifies zip
    ensures zip.Valid() && zip.closed == old(zip.closed) && zip.closeCount == old(zip.closeCount)
    ensures var w := WriteAll(old(zip.entries), old(zip.closed), TemplateEntries(utils, v, moduleName));
      zip.entries == w.entries && err == w.failure
  {
    var all := TemplateEntries(utils, v, moduleName);
    var templates := utils.templates;
    for i := 0 to |templates|
      invariant zip.Valid() && zip.closed == old(zip.closed) && zip.closeCount == old(zip.closeCount)
      invariant WriteAll(zip.entries, zip.closed, all[i..]) == WriteAll(old(zip.entries), old(zip.closed), all)
    {
      var template := templates[i];
      var content := utils.render(template, v);
      var name := utils.fileName(template, v, moduleName);
      assert all[i] == Entry(name, content);
      err := zip.WriteEntry(name, content);
      if err.Some? {
        return;
      }
      assert all[i..][1..] == all[i + 1..];
    }
    err := None;
  }

  /**
   * generatorCode(table, columns, zip): normalise the table in place, then
   * write one entry per template into the shared stream.
   */
  method GenerateTable(table: TableInfo?, columns: seq<ColumnInfo>, zip: ZipArchive,
                       utils: GenUtils, packageName: string) returns (err: Option<GenError>)
    requires zip.Valid()
    modifies table, zip
    ensures zip.Valid() && zip.closed == old(zip.closed) && zip.closeCount == old(zip.closeCount)
    ensures table != null ==> table.View() == Normalized(old(table.View()), columns, utils)
    ensures table != null ==>
              && table.tableNameDB == old(table.tableName)
              && table.className == utils.tableToJava(old(table.tableName))
              && table.tableName == Uncapitalize(table.className)
              && table.primaryKey == LastPrimaryKey(columns, old(table.primaryKey))
    ensures var t := GenerateTableSpec(if table == null then None else Some(old(table.View())),
                                       columns, utils, packageName, old(zip.entries), old(zip.closed));
      zip.entries == t.entries && err == t.error
  {
    if table == null {
      return Some(NullTable);
    }
    table.tableNameDB := table.tableName;
    var className := utils.tableToJava(table.tableName);
    table.className := className;
    table.tableName := className;
    table.tableName := Uncapitalize(className);
    table.columns := utils.transColums(columns);
    ScanPrimaryKey(table, columns);
    var moduleName := utils.moduleName(packageName);
    var ioErr := WriteTemplates(zip, utils, table.View(), moduleName);
    if ioErr.Some? {
      return Some(RenderFailed(table.tableName, ioErr.value));
    }
    return None;
  }

  /**
   * generatorCode(tableName): one table into a fresh stream, which is closed
   * once if and only if generation completes.
   */
  method GenerateOne(tableName: string, mapper: GenMapper, utils: GenUtils, packageName: string)
    returns (zip: ZipArchive, r: Result<seq<Entry>, GenError>)
    ensures fresh(zip) && zip.Valid()
    ensures r == SingleSpec(mapper, utils, packageName, tableName)
    ensures zip.closeCount == if r.Ok? then 1 else 0
    ensures r.Ok? ==> r.value == zip.entries
  {
    zip := new ZipArchive();
    var table := SelectTableByName(mapper, tableName);
    var columns := mapper.selectTableColumnsByName(tableName);
    var err := GenerateTable(table, columns, zip, utils, packageName);
    if err.Some? {
      return zip, Err(err.value);
    }
    zip.Close();
    r := Ok(zip.entries);
  }

  /**
   * generatorCode(tableNames): every table, in order, into one stream, which
   * is closed once, after the last table, if and only if no table failed.
   */
  method GenerateBatch(tableNames: seq<string>, mapper: GenMapper, utils: GenUtils, packageName: string)
    returns (zip: ZipArchive, r: Result<seq<Entry>, GenError>)
    ensures fresh(zip) && zip.Valid()
    ensures r == BatchSpec(mapper, utils, packageName, tableNames, [])
    ensures zip.closeCount == if r.Ok? then 1 else 0
    ensures r.Ok? ==> r.value == zip.entries
  {
    zip := new ZipArchive();
    for i := 0 to |tableNames|
      invariant fresh(zip) && zip.Valid() && !zip.closed && zip.closeCount == 0
      invariant BatchSpec(mapper, utils, packageName, tableNames[i..], zip.entries)
                == BatchSpec(mapper, utils, packageName, tableNames, [])
    {
      var table := SelectTableByName(mapper, tableNames[i]);
      var columns := mapper.selectTableColumnsByName(tableNames[i]);
      var err := GenerateTable(table, columns, zip, utils, packageName);
      if err.Some? {
        return zip, Err(err.value);
      }
      assert tableNames[i..][1..] == tableNames[i + 1..];
    }
    zip.Close();
    r := Ok(zip.entries);
  }
}
