# Code generation service: table normalisation and archive assembly

This project models the core of `GenServiceImpl`, the service of a code generator that turns a
database table's metadata into source files, one per code template, packed into a zip archive.

- **Normalisation.** The service rewrites a mutable `TableInfo` with its setters, in a fixed order.
  The table name as fetched is kept as `tableNameDB`. The class name is derived with
  `GenUtils.tableToJava`. The table name is set twice, and the second write wins: it ends up as the
  uncapitalized class name. The columns become `GenUtils.transColums(columns)`. A scan over the raw
  columns then assigns the primary key from every column whose key is `"PRI"`, so the **last** such
  column wins. With no such column the key keeps its prior value.
- **Archive assembly.** For each table there is one entry per template, in template-list order. The
  entry is named by `GenUtils.getFileName` and holds the template rendered against the normalised
  table. The single-table call writes into a fresh stream. The batch call writes every listed table,
  in order, into one shared stream. In both calls the stream is closed once, after the last table,
  and only if nothing failed: no `finally` guards it.

Modules:

- `Wrappers`: `Option` (Java's null) and `Result` (a thrown exception).
- `Naming`: `Uncapitalize`, the `StringUtils.uncapitalize` the service applies.
- `Archive`: the `ZipOutputStream` as a class holding its entries and a `closed` flag, plus a ghost
  count of `close` calls. The pure function `WriteAll` describes writing a batch of entries.
  `putNextEntry` over a byte-array sink raises an `IOException` in exactly two cases: the stream is
  closed, or an entry of the same name was already written (a `ZipException`). These are the only
  write failures modelled.
- `Domain`: `ColumnInfo` (a value), `TableView` (a snapshot of a table's fields) and the class
  `TableInfo`, whose fields the service overwrites.
- `GenService`: the helpers, the specification functions and the imperative service methods.
  `GenUtils` and the template engine are records of arbitrary total functions. The database mapper
  `GenMapper` is a record of lookup functions, and a table that is not found comes back as null.
- `BatchProperties`: lemmas relating the batch call to the per-table and single-table calls.

Three behaviours of the code are worth stating outright:

- When several columns have the key `"PRI"`, the last of them becomes the primary key.
- The stream is closed only on normal completion. No `finally` guards the close, so a failure
  leaves it open.
- A repeated file name makes `putNextEntry` throw a `ZipException`. The service rethrows it as a
  `BaseException`, so the whole call fails. As a result, a batch that lists one table twice always
  fails, provided the template list is not empty (`BatchRepeatedTableFails`).

## Model

| member | source | states |
|---|---|---|
| `Naming.Uncapitalize` | generator/src/main/java/com/kevin/generator/service/impl/GenServiceImpl.java:108 | same length; only the first character can change: an upper-case first letter becomes its lower-case form, and a name that does not start with an upper-case letter is returned unchanged |
| `Naming.UncapitalizeIdempotent` | generator/src/main/java/com/kevin/generator/service/impl/GenServiceImpl.java:108 | uncapitalizing an already uncapitalized table name changes nothing |
| `Archive.PutError` | generator/src/main/java/com/kevin/generator/service/impl/GenServiceImpl.java:135 | an entry is accepted exactly when the stream is open and no earlier entry has its name; a closed stream is the `StreamClosed` failure, and on an open stream the refusal is `DuplicateEntry` carrying that name |
| `Archive.WriteAllExtends` | generator/src/main/java/com/kevin/generator/service/impl/GenServiceImpl.java:128-142 | writing a batch leaves the earlier entries untouched and appends a prefix of the batch, in order; it appends the whole batch exactly when nothing failed, and otherwise the failure is the refusal of the first entry not written |
| `Archive.WriteAllSucceedsIff` | generator/src/main/java/com/kevin/generator/service/impl/GenServiceImpl.java:128-142 | into a stream with distinct names, a batch is written in full if and only if the stream is open (or the batch is empty) and all entry names stay distinct |
| `Archive.ZipArchive.constructor` | generator/src/main/java/com/kevin/generator/service/impl/GenServiceImpl.java:58-59 | a new stream is open, empty and never closed |
| `Archive.ZipArchive.WriteEntry` | generator/src/main/java/com/kevin/generator/service/impl/GenServiceImpl.java:135-138 | appends exactly the entry (name, content) when the stream accepts it, and otherwise changes nothing; it never closes the stream |
| `Archive.ZipArchive.Close` | generator/src/main/java/com/kevin/generator/service/impl/GenServiceImpl.java:88 | closes the stream, keeps its entries and counts one more close |
| `Domain.TableInfo.constructor` | generator/src/main/java/com/kevin/generator/service/impl/GenServiceImpl.java:61 | the new object holds exactly the fetched field values |
| `GenService.SelectTableByName` | generator/src/main/java/com/kevin/generator/service/impl/GenServiceImpl.java:61 | returns null exactly when the mapper finds no table; otherwise a fresh `TableInfo` holding the fetched row |
| `GenService.LastPrimaryKeyIsLastPri` | generator/src/main/java/com/kevin/generator/service/impl/GenServiceImpl.java:111-116 | when some column's key is "PRI", the primary key is the name of a "PRI" column with no "PRI" column after it, that is, the last one |
| `GenService.LastPrimaryKeyNoPri` | generator/src/main/java/com/kevin/generator/service/impl/GenServiceImpl.java:111-116 | when no column's key is "PRI", the primary key keeps its prior value |
| `GenService.CompositeKeyKeepsLast` | generator/src/main/java/com/kevin/generator/service/impl/GenServiceImpl.java:111-116 | with two "PRI" columns, `id` then `code`, the primary key is `code` |
| `GenService.ScanPrimaryKey` | generator/src/main/java/com/kevin/generator/service/impl/GenServiceImpl.java:111-116 | the loop leaves the primary key equal to the last "PRI" column's name (or its prior value) and changes no other field |
| `GenService.NormalizedForgetsDerivedFields` | generator/src/main/java/com/kevin/generator/service/impl/GenServiceImpl.java:101-110 | the normalised table depends only on the fetched name, comment and prior key; the values `tableNameDB`, `className` and `columns` held before the setters have no effect (that the intermediate write of `tableName` at line 106 has no lasting effect is stated by `GenerateTable`) |
| `GenService.GenerateTableAppendsTemplates` | generator/src/main/java/com/kevin/generator/service/impl/GenServiceImpl.java:127-142 | for a found table, the earlier entries are untouched and entry i appended is (getFileName(template i), render(template i)) of the normalised table; all templates are written exactly when there is no error; an error is a write failure naming uncapitalize(tableToJava(DB name)) |
| `GenService.WriteTemplates` | generator/src/main/java/com/kevin/generator/service/impl/GenServiceImpl.java:127-142 | the template loop leaves the stream as `WriteAll` of the template entries describes and returns its failure; it never closes the stream |
| `GenService.GenerateTable` | generator/src/main/java/com/kevin/generator/service/impl/GenServiceImpl.java:100-143 | a null table fails with `NullTable` and writes nothing; otherwise the table becomes its normalised view (DB name kept, class name derived, final table name the uncapitalized class name so the write of the class name at line 106 does not last, transformed columns, last "PRI" key) and the stream and error are as `GenerateTableSpec` states |
| `GenService.GenerateOne` | generator/src/main/java/com/kevin/generator/service/impl/GenServiceImpl.java:57-68 | returns the archive of the one table into a fresh stream; the stream is closed exactly once if the call succeeds and never if it fails |
| `GenService.GenerateBatch` | generator/src/main/java/com/kevin/generator/service/impl/GenServiceImpl.java:77-90 | the tables are processed in order into one fresh stream, as `BatchSpec` states; the stream is closed exactly once, after the loop, if and only if no table failed |
| `BatchProperties.BatchConcatenation` | generator/src/main/java/com/kevin/generator/service/impl/GenServiceImpl.java:80-87 | a successful batch found every table, and its archive is the earlier entries followed by each table's template entries, in the order the tables are listed |
| `BatchProperties.BatchSucceedsIff` | generator/src/main/java/com/kevin/generator/service/impl/GenServiceImpl.java:80-87 | a batch succeeds if and only if every table is found and no file name repeats across the whole archive |
| `BatchProperties.BatchFailsOnWrittenName` | generator/src/main/java/com/kevin/generator/service/impl/GenServiceImpl.java:80-87 | a batch fails when the stream already holds the first file name of a listed table that exists |
| `BatchProperties.BatchRepeatedTableFails` | generator/src/main/java/com/kevin/generator/service/impl/GenServiceImpl.java:80-87 | with a non-empty template list, a batch that lists the same table twice fails |
| `BatchProperties.BatchErrorNamesTable` | generator/src/main/java/com/kevin/generator/service/impl/GenServiceImpl.java:133-141 | a batch fails only on a null table or a duplicate entry (never a closed stream), and a write failure carries the normalised name of one of the listed tables, not its DB name |
| `BatchProperties.SingleIsBatchOfOne` | generator/src/main/java/com/kevin/generator/service/impl/GenServiceImpl.java:57-90 | the single-table call gives the same result as a batch of that one table |
| `BatchProperties.BatchIsConcatenationOfSingles` | generator/src/main/java/com/kevin/generator/service/impl/GenServiceImpl.java:77-90 | when a batch succeeds, the single-table call succeeds for every listed table, and the batch archive is the concatenation of their archives in list order |

## Left out

- Compression, UTF-8 encoding, the entry timestamps `putNextEntry` writes, `IOUtils.write` and `ByteArrayOutputStream.toByteArray`: an archive is its sequence of (name, content) entries, and a call returns that sequence.
- Velocity initialisation, `Velocity.getTemplate`, `GenUtils.getVelocityContext` and the merge: rendering is one arbitrary total function of the template and the normalised table. It is assumed to give the same text, and `getFileName` the same name, on every call, with no clock or other state in the context. `SingleIsBatchOfOne` and `BatchIsConcatenationOfSingles` rely on that assumption. A rendering failure escapes as an uncaught runtime exception and is not modelled.
- The internals of `GenUtils` (`tableToJava`, `transColums`, `getModuleName`, `getTemplates`, `getFileName`) are not part of this model. Each is an arbitrary function, so nothing is assumed about order or count in `transColums`. `GenConfig.getPackageName()` is a parameter.
- The `GenUtils` helpers are assumed not to change their arguments. `transColums` is assumed to leave the `columns` list as it was, so the key scan sees the raw columns in their original order. `getVelocityContext` and `getFileName` are assumed to leave `table` unchanged. A helper that mutated either one in place is not modelled.
- `selectTableList` and `selectTableColumn`, and the mapper's queries: these are plain delegation to the database. The lookups become functions given as input.
- The null pointer on a missing table at line 101 is modelled as the `NullTable` outcome. A null file name hitting `requireNonNull` at line 135 is not modelled, because file names are total.
- `ZipEntry` rejects names longer than 65535 characters with an unchecked exception. This is not modelled.
- `IOUtils.closeQuietly` swallows errors on close. Closing never fails in the model.
- `ColumnInfo` and `TableInfo` have more fields than the ones modelled (types, comments, Java names). The service does not touch them. A null `columnKey` is modelled as the empty string.
- Naming.Uncapitalize: lower-cases only ASCII letters, not the full Unicode case mapping of `Character.toLowerCase`.
- Spring `@Service`/`@Resource` wiring.
