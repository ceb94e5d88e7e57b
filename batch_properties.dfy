/**
 * What the batch call produces, stated against the per-table calls: the
 * archive is the tables' entries in table order, it is complete exactly when
 * no entry name repeats, and naming a table twice makes the batch fail.
 */
module BatchProperties {
  import opened Wrappers
  import opened Naming
  import opened Archive
  import opened Domain
  import opened GenService

  /** The entries one table contributes when its generation succeeds (none for a missing table). */
  function TableEntries(mapper: GenMapper, utils: GenUtils, packageName: string, tableName: string): seq<Entry>
  {
    match mapper.selectTableByName(tableName)
    case None => []
    case Some(row) =>
      TemplateEntries(utils, Normalized(row, mapper.selectTableColumnsByName(tableName), utils),
                      utils.moduleName(packageName))
  }

  /** The tables' entries one after another, in the order the tables are listed. */
  function AllEntries(mapper: GenMapper, utils: GenUtils, packageName: string, tableNames: seq<string>): seq<Entry>
    decreases |tableNames|
  {
    if tableNames == [] then []
    else TableEntries(mapper, utils, packageName, tableNames[0])
         + AllEntries(mapper, utils, packageName, tableNames[1..])
  }

  predicate AllTablesFound(mapper: GenMapper, tableNames: seq<string>) {
    forall i :: 0 <= i < |tableNames| ==> mapper.selectTableByName(tableNames[i]).Some?
  }

  lemma AllTablesFoundCons(mapper: GenMapper, tableNames: seq<string>)
    requires tableNames != []
    ensures AllTablesFound(mapper, tableNames) <==>
              mapper.selectTableByName(tableNames[0]).Some? && AllTablesFound(mapper, tableNames[1..])
  {
    var rest := tableNames[1..];
    if mapper.selectTableByName(tableNames[0]).Some? && AllTablesFound(mapper, rest) {
      forall i | 0 <= i < |tableNames| ensures mapper.selectTableByName(tableNames[i]).Some? {
        if i > 0 {
          assert tableNames[i] == rest[i - 1];
        }
      }
    }
    if AllTablesFound(mapper, tableNames) {
      forall i | 0 <= i < |rest| ensures mapper.selectTableByName(rest[i]).Some? {
        assert rest[i] == tableNames[i + 1];
      }
    }
  }

  /** One table written into an open stream: on success, exactly its entries are appended. */
  lemma TableStep(mapper: GenMapper, utils: GenUtils, packageName: string, tableName: string, written: seq<Entry>)
    requires mapper.selectTableByName(tableName).Some?
    ensures var t := GenerateTableSpec(mapper.selectTableByName(tableName),
                                       mapper.selectTableColumnsByName(tableName),
                                       utils, packageName, written, false);
      t.error.None? ==> t.entries == written + TableEntries(mapper, utils, packageName, tableName)
  {
    var row := mapper.selectTableByName(tableName).value;
    var es := TableEntries(mapper, utils, packageName, tableName);
    WriteAllExtends(written, false, es);
  }

  /**
   * A successful batch found every table, and its archive is the entries
   * already in the stream followed by each table's entries, in table order.
   */
  lemma {:induction false} BatchConcatenation(mapper: GenMapper, utils: GenUtils, packageName: string,
                                              tableNames: seq<string>, written: seq<Entry>)
    ensures var r := BatchSpec(mapper, utils, packageName, tableNames, written);
      r.Ok? ==> AllTablesFound(mapper, tableNames)
                && r.value == written + AllEntries(mapper, utils, packageName, tableNames)
    decreases |tableNames|
  {
    if tableNames == [] {
      assert written + [] == written;
    } else {
      var name := tableNames[0];
      var rest := tableNames[1..];
      var t := GenerateTableSpec(mapper.selectTableByName(name), mapper.selectTableColumnsByName(name),
                                 utils, packageName, written, false);
      if t.error.None? && mapper.selectTableByName(name).Some? {
        assert BatchSpec(mapper, utils, packageName, tableNames, written)
               == BatchSpec(mapper, utils, packageName, rest, t.entries);
        TableStep(mapper, utils, packageName, name, written);
        BatchConcatenation(mapper, utils, packageName, rest, t.entries);
        var e0 := TableEntries(mapper, utils, packageName, name);
        var er := AllEntries(mapper, utils, packageName, rest);
        assert (written + e0) + er == written + (e0 + er);
        AllTablesFoundCons(mapper, tableNames);
      }
    }
  }

  /**
   * Into a stream with distinct entry names, a batch succeeds exactly when
   * every table is found and no entry name repeats across the whole archive.
   */
  lemma {:induction false} BatchSucceedsIff(mapper: GenMapper, utils: GenUtils, packageName: string,
                                            tableNames: seq<string>, written: seq<Entry>)
    requires NamesDistinct(written)
    ensures BatchSpec(mapper, utils, packageName, tableNames, written).Ok? <==>
              AllTablesFound(mapper, tableNames)
              && NamesDistinct(written + AllEntries(mapper, utils, packageName, tableNames))
    decreases |tableNames|
  {
    if tableNames == [] {
      assert written + [] == written;
    } else {
      var name := tableNames[0];
      var rest := tableNames[1..];
      AllTablesFoundCons(mapper, tableNames);
      if mapper.selectTableByName(name).Some? {
        var e0 := TableEntries(mapper, utils, packageName, name);
        var er := AllEntries(mapper, utils, packageName, rest);
        assert written + (e0 + er) == (written + e0) + er;
        WriteAllSucceedsIff(written, false, e0);
        var t := GenerateTableSpec(mapper.selectTableByName(name), mapper.selectTableColumnsByName(name),
                                   utils, packageName, written, false);
        if t.error.None? {
          TableStep(mapper, utils, packageName, name, written);
          BatchSucceedsIff(mapper, utils, packageName, rest, written + e0);
        } else if NamesDistinct((written + e0) + er) {
          NamesDistinctPrefix(written + e0, er);
        }
      }
    }
  }

  /**
   * A batch against a stream that already holds the file name of some listed,
   * existing table's first template fails.
   */
  lemma {:induction false} BatchFailsOnWrittenName(mapper: GenMapper, utils: GenUtils, packageName: string,
                                                   tableNames: seq<string>, written: seq<Entry>, k: nat)
    requires k < |tableNames| && |utils.templates| > 0
    requires mapper.selectTableByName(tableNames[k]).Some?
    requires TableEntries(mapper, utils, packageName, tableNames[k])[0].name in NameSet(written)
    ensures BatchSpec(mapper, utils, packageName, tableNames, written).Err?
    decreases |tableNames|
  {
    var name := tableNames[0];
    var t := GenerateTableSpec(mapper.selectTableByName(name), mapper.selectTableColumnsByName(name),
                               utils, packageName, written, false);
    if mapper.selectTableByName(name).Some? {
      var e0 := TableEntries(mapper, utils, packageName, name);
      if k == 0 {
        assert PutError(written, false, e0[0].name).Some?;
      } else if t.error.None? {
        TableStep(mapper, utils, packageName, name, written);
        assert NameSet(written) <= NameSet(written + e0);
        assert tableNames[1..][k - 1] == tableNames[k];
        BatchFailsOnWrittenName(mapper, utils, packageName, tableNames[1..], t.entries, k - 1);
      }
    }
  }

  /**
   * A batch that lists the same table twice fails: the second pass repeats
   * the first pass's file names and the stream refuses a duplicate entry.
   */
  lemma {:induction false} BatchRepeatedTableFails(mapper: GenMapper, utils: GenUtils, packageName: string,
                                                   tableNames: seq<string>, written: seq<Entry>, i: nat, j: nat)
    requires i < j < |tableNames| && tableNames[i] == tableNames[j]
    requires |utils.templates| > 0
    ensures BatchSpec(mapper, utils, packageName, tableNames, written).Err?
    decreases i
  {
    var name := tableNames[0];
    var t := GenerateTableSpec(mapper.selectTableByName(name), mapper.selectTableColumnsByName(name),
                               utils, packageName, written, false);
    if mapper.selectTableByName(name).Some? && t.error.None? {
      TableStep(mapper, utils, packageName, name, written);
      var e0 := TableEntries(mapper, utils, packageName, name);
      assert tableNames[1..][j - 1] == tableNames[j];
      if i == 0 {
        assert (written + e0)[|written|] == e0[0];
        BatchFailsOnWrittenName(mapper, utils, packageName, tableNames[1..], t.entries, j - 1);
      } else {
        assert tableNames[1..][i - 1] == tableNames[i];
        BatchRepeatedTableFails(mapper, utils, packageName, tableNames[1..], t.entries, i - 1, j - 1);
      }
    }
  }

  /**
   * How a batch fails: a table was not found, or the stream refused an entry
   * as a duplicate (it is never closed mid-batch), and then the error names
   * the normalised name of a listed table rather than its DB name.
   */
  lemma {:induction false} BatchErrorNamesTable(mapper: GenMapper, utils: GenUtils, packageName: string,
                                                tableNames: seq<string>, written: seq<Entry>)
    ensures var r := BatchSpec(mapper, utils, packageName, tableNames, written);
      r.Err? ==>
        r.error == NullTable ||
        (r.error.RenderFailed? && r.error.cause.DuplicateEntry? &&
         exists k :: 0 <= k < |tableNames| && mapper.selectTableByName(tableNames[k]).Some? &&
           r.error.tableName == Uncapitalize(utils.tableToJava(mapper.selectTableByName(tableNames[k]).value.tableName)))
    decreases |tableNames|
  {
    if tableNames != [] {
      var name := tableNames[0];
      var row := mapper.selectTableByName(name);
      var t := GenerateTableSpec(row, mapper.selectTableColumnsByName(name), utils, packageName, written, false);
      if row.Some? {
        GenerateTableAppendsTemplates(row.value, mapper.selectTableColumnsByName(name), utils,
                                      packageName, written, false);
        var v := Normalized(row.value, mapper.selectTableColumnsByName(name), utils);
        WriteAllExtends(written, false, TemplateEntries(utils, v, utils.moduleName(packageName)));
      }
      if t.error.None? {
        BatchErrorNamesTable(mapper, utils, packageName, tableNames[1..], t.entries);
        var r := BatchSpec(mapper, utils, packageName, tableNames, written);
        if r.Err? && r.error.RenderFailed? {
          var k :| 0 <= k < |tableNames[1..]| && mapper.selectTableByName(tableNames[1..][k]).Some? &&
            r.error.tableName == Uncapitalize(utils.tableToJava(mapper.selectTableByName(tableNames[1..][k]).value.tableName));
          assert tableNames[1..][k] == tableNames[k + 1];
        }
      }
    }
  }

  /** The single-table call produces the same archive as a batch of that one table. */
  lemma SingleIsBatchOfOne(mapper: GenMapper, utils: GenUtils, packageName: string, tableName: string)
    ensures SingleSpec(mapper, utils, packageName, tableName) == BatchSpec(mapper, utils, packageName, [tableName], [])
  {
  }

  function SingleEntries(mapper: GenMapper, utils: GenUtils, packageName: string, tableNames: seq<string>): seq<Entry>
    decreases |tableNames|
  {
    if tableNames == [] then []
    else
      var single := SingleSpec(mapper, utils, packageName, tableNames[0]);
      (if single.Ok? then single.value else [])
      + SingleEntries(mapper, utils, packageName, tableNames[1..])
  }

  lemma NamesDistinctSuffix(es: seq<Entry>, rest: seq<Entry>)
    requires NamesDistinct(es + rest)
    ensures NamesDistinct(rest)
  {
    forall i, j | 0 <= i < j < |rest| ensures rest[i].name != rest[j].name {
      assert (es + rest)[|es| + i] == rest[i] && (es + rest)[|es| + j] == rest[j];
    }
  }

  lemma {:induction false} SinglesCover(mapper: GenMapper, utils: GenUtils, packageName: string,
                                        tableNames: seq<string>)
    requires AllTablesFound(mapper, tableNames)
    requires NamesDistinct(AllEntries(mapper, utils, packageName, tableNames))
    ensures forall k :: 0 <= k < |tableNames| ==> SingleSpec(mapper, utils, packageName, tableNames[k]).Ok?
    ensures SingleEntries(mapper, utils, packageName, tableNames) == AllEntries(mapper, utils, packageName, tableNames)
    decreases |tableNames|
  {
    if tableNames != [] {
      var name := tableNames[0];
      var rest := tableNames[1..];
      var e0 := TableEntries(mapper, utils, packageName, name);
      var er := AllEntries(mapper, utils, packageName, rest);
      NamesDistinctPrefix(e0, er);
      NamesDistinctSuffix(e0, er);
      assert [] + e0 == e0;
      WriteAllSucceedsIff([], false, e0);
      TableStep(mapper, utils, packageName, name, []);
      forall i | 0 <= i < |rest| ensures mapper.selectTableByName(rest[i]).Some? {
        assert rest[i] == tableNames[i + 1];
      }
      SinglesCover(mapper, utils, packageName, rest);
      forall k | 0 <= k < |tableNames| ensures SingleSpec(mapper, utils, packageName, tableNames[k]).Ok? {
        if k > 0 {
          assert tableNames[k] == rest[k - 1];
        }
      }
    }
  }

  /**
   * A successful batch into a fresh stream is the concatenation, in list
   * order, of the archives the single-table call produces for each table,
   * every one of which succeeds.
   */
  lemma BatchIsConcatenationOfSingles(mapper: GenMapper, utils: GenUtils, packageName: string,
                                      tableNames: seq<string>)
    ensures var r := BatchSpec(mapper, utils, packageName, tableNames, []);
      r.Ok? ==>
        (forall k :: 0 <= k < |tableNames| ==> SingleSpec(mapper, utils, packageName, tableNames[k]).Ok?)
        && r.value == SingleEntries(mapper, utils, packageName, tableNames)
  {
    var r := BatchSpec(mapper, utils, packageName, tableNames, []);
    if r.Ok? {
      BatchConcatenation(mapper, utils, packageName, tableNames, []);
      BatchSucceedsIff(mapper, utils, packageName, tableNames, []);
      var all := AllEntries(mapper, utils, packageName, tableNames);
      assert [] + all == all;
      SinglesCover(mapper, utils, packageName, tableNames);
    }
  }
}
