# sqlgen in Dafny

A Dafny model of the object-selection and emission logic of **sqlgen**. sqlgen exports
SQL Server tables, stored procedures and views as script files, one file per object,
organised into per-database folders. The repository contains two exporters, and both are
modelled:

- **The original top-level exporter** (`src/Program.cs`, module `LegacyExport`):
  - It walks the configured tables depth first.
  - It follows every foreign key to its parent table before writing the child's file.
  - One `visited` set of raw reference strings is shared by all databases.
  - It then writes the configured stored procedures and one file per schema touched in
    the database.
- **The dependency-collection exporter** (`GeneratorService`, module `GeneratorService`):
  - It resolves the configured tables, stored procedures and views to URNs.
  - It hands the URNs to SMO's dependency walker.
  - It writes each dependency into the `Tables`, `StoredProcedures` or `Views` subfolder
    of its database's folder.
  - It then writes one `CREATE SCHEMA` file per touched `database.schema` key.

The supporting pieces are modelled as well:
- the bracket stripper `StripBracket` (module `DotNet`, together with the .NET string
  operations the code relies on);
- the command-line parser `ArgumentParser.Parse` (module `ArgumentParser`);
- the two versions of the configuration classes (modules `LegacyConfig` and
  `SqlGenConfig`).

The SQL Server catalog (SMO) is modelled as plain values (module `Catalog`):
- a server maps database names to databases;
- a database maps `(name, schema)` keys to tables, stored procedures and views;
- each object carries its URN, its foreign keys, and the script lines that rendering it
  produces.

Conventions of the model:
- File output is an append-only log of `(path, lines)` writes.
- A C# `null` is `None`.
- An exception that escapes is an explicit outcome: `Outcome.Threw`, a `threw` flag, or
  `ParseResult.Raised`.
- The enumeration order of a `HashSet` is a parameter `order`. Lemmas that need it
  require that it lists each element once (`DotNet.IsListing`).
- The output of SMO's `DependencyWalker` is a parameter `walker`.

The code that changes state in place is written as classes:
- `ArgumentParser.CommandList` is filled by `Parse`.
- `LegacyExport.ExportRun` holds `visited`, `schemas` and the file log.
- `GeneratorService.Generator` holds the configuration, the server, the root path and
  the file log.

Each loop or recursive method of a class is proved equal to a recursive specification
function, for example `WalkTable`, `ParseSpec` or `RunFrom`. The other methods and the
constructors state their new state directly: `Generator.GenerateFile` appends `ObjectFiles`,
and `ExportRun.GenerateSchema` appends `SchemaFile`. The lemmas state what the source promises about
those functions.

Behaviours of the code the model keeps as written:
- Deduplication in the table walk is on the raw reference string. `dbo.X` and
  `[dbo].[X]` are two different keys, and the table is scripted twice
  (`LegacyExport.RawReferencesNotMerged`).
- The legacy schema file holds the bare schema name, not a `CREATE SCHEMA` statement.
- The `--server`, `--username`, `--password` and `--targetPath` cases of the parser can
  never match (see Findings).
- Neither exporter writes anything back into the configuration.

## Model

| member | source | states |
|---|---|---|
| DotNet.StripBracket | src/StringExtension.cs:5-8 | the result has no `[` and no `]`, and is shorter than the input by exactly the number of brackets in it |
| DotNet.StripBracketIsFilter | src/StringExtension.cs:5-8 | the result is the input with every `[` and `]` filtered out, so the other characters keep their order |
| DotNet.StripBracketNoBrackets | src/StringExtension.cs:7 | the result contains no `[` and no `]` |
| DotNet.StripBracketMembers | src/StringExtension.cs:7 | a character occurs in the result iff it occurs in the input and is not a bracket |
| DotNet.StripBracketIdempotent | src/StringExtension.cs:7 | stripping twice gives the same as stripping once |
| DotNet.StripBracketUnchanged | src/StringExtension.cs:7 | a string without brackets is returned unchanged |
| DotNet.StripBracketCount | src/StringExtension.cs:7 | the number of every non-bracket character, such as `.`, is preserved |
| DotNet.StripBracketLength | src/StringExtension.cs:7 | the length drops by exactly the number of bracket characters |
| DotNet.StripBracketWrapped | src/StringExtension.cs:7 | `[s]` strips to `s` for a bracket-free `s` |
| DotNet.SplitLength | src/Siganberg.SqlGen/ArgumentParser.cs:58 | `Split(s, '.')` has one more piece than `s` has dots, which is the count the three-segment test checks |
| DotNet.JoinSplit | src/Siganberg.SqlGen/ArgumentParser.cs:58 | joining the pieces of a split with the separator gives the string back |
| DotNet.SplitJoin | src/Siganberg.SqlGen/ArgumentParser.cs:58 | splitting a join of separator-free pieces gives the pieces back |
| LegacyConfig.NewSqlGenConfig | src/SqlGenConfig.cs:15-18 | a new configuration has no databases and null settings |
| LegacyConfig.NewDatabase | src/SqlGenConfig.cs:29-33 | a new database entry has empty table and procedure lists and a null name and folder |
| LegacyConfig.GeneratedName | src/SqlGenConfig.cs:27 | the folder override when it is non-null and non-empty, otherwise the name |
| LegacyConfig.GeneratedNameBlank | src/SqlGenConfig.cs:27 | the generated name is null or empty iff both the override and the name are |
| SqlGenConfig.NewConfig | src/Siganberg.SqlGen/SqlGenConfig.cs:15-18 | a new configuration has no databases and null settings |
| SqlGenConfig.NewDatabase | src/Siganberg.SqlGen/SqlGenConfig.cs:30-35 | a new database entry has empty table, procedure and view lists and a null name and folder |
| SqlGenConfig.GeneratedName | src/Siganberg.SqlGen/SqlGenConfig.cs:27 | the folder override when it is non-null and non-empty, otherwise the name |
| ArgumentParser.CommandList.constructor | src/Siganberg.SqlGen/ArgumentParser.cs:14-17 | a new command list has no commands and null settings |
| ArgumentParser.Parse | src/Siganberg.SqlGen/ArgumentParser.cs:30-76 | the method returns null, throws the same exception, or returns the same command list as the recursive definition `ParseSpec` |
| ArgumentParser.ParseWith | src/Siganberg.SqlGen/ArgumentParser.cs:32-33 | `Parse` returns null exactly when `args` holds one token |
| ArgumentParser.ParseFrom | src/Siganberg.SqlGen/ArgumentParser.cs:35-75 | the loop never yields null: it returns the list or throws, and null comes only from the one-token test before it |
| ArgumentParser.ParseSpec | src/Siganberg.SqlGen/ArgumentParser.cs:30-76 | `Parse` as written returns null iff `args` holds one token, and a list it returns has all four settings null |
| ArgumentParser.FlagCasesUnreachable | src/Siganberg.SqlGen/ArgumentParser.cs:38-55 | a key with its dashes removed never equals `--server`, `--username`, `--password` or `--targetPath`, so those cases are dead |
| ArgumentParser.ParseIgnoresFirstToken | src/Siganberg.SqlGen/ArgumentParser.cs:36 | the first token, which the loop skips (`i` starts at 1), does not matter: two argument arrays that differ only in `args[0]` parse alike |
| ArgumentParser.ParseReturned | src/Siganberg.SqlGen/ArgumentParser.cs:35-75 | a returned list has null settings and exactly one command per pair, in order, each built from the de-dashed key and the three segments of the stripped value; `(args.Length-1)/2` commands, none for empty `args` |
| ArgumentParser.ParseFromReturned | src/Siganberg.SqlGen/ArgumentParser.cs:36-69 | from pair `j` on, a completed loop keeps the settings and appends one command per remaining pair to the list so far |
| ArgumentParser.ParseSucceedsIff | src/Siganberg.SqlGen/ArgumentParser.cs:36-69 | `Parse` returns a list iff `args` is empty, or has an odd length greater than one with every value splitting into exactly three segments |
| ArgumentParser.ParseMissingValue | src/Siganberg.SqlGen/ArgumentParser.cs:39-40 | an even number of tokens whose pairs are valid throws "Missing value for command" naming the last de-dashed key |
| ArgumentParser.ParseInvalidValue | src/Siganberg.SqlGen/ArgumentParser.cs:58-61 | the first pair whose value does not have exactly three segments throws "Invalid value" |
| ArgumentParser.EmptySegmentsAccepted | src/Siganberg.SqlGen/ArgumentParser.cs:58-69 | `-t a..b` is accepted as database `a`, empty schema, name `b` |
| ArgumentParser.ServerFlagRejected | src/Siganberg.SqlGen/ArgumentParser.cs:38-46 | as written, `--server host` for a dot-free host throws "Invalid value" |
| ArgumentParser.IntendedFlagSets | src/Siganberg.SqlGen/ArgumentParser.cs:42-55 | with labels a de-dashed key can equal, `--<flag> value` sets exactly that property |
| Catalog.GetAttribute | src/Siganberg.SqlGen/GeneratorService.cs:146-147 | an attribute is non-null iff the URN node has it |
| Catalog.Find | src/Siganberg.SqlGen/GeneratorService.cs:44-46 | the `[name, schema]` indexer finds an object iff the key is in the collection, and that object belongs to it |
| Catalog.FindDatabase | src/Program.cs:48 | `server.Databases[name]` is non-null iff the name is non-null and the server has it |
| Catalog.Lookup | src/Program.cs:129-131 | looking up a `schema.name` reference throws, with `split[1]` out of range, iff it has no `.`; an object it finds belongs to the collection searched |
| Catalog.LookupIgnoresBrackets | src/Program.cs:129-131 | `schema.name` and `[schema].[name]` look up the same `(name, schema)` key |
| LegacyExport.WalkTable | src/Program.cs:124-170 | a walk leaves its reference visited and only adds to `visited`; it throws iff the reference is new and has no `.`, and then changes nothing but `visited` |
| LegacyExport.WalkParents | src/Program.cs:144-149 | the foreign-key loop never throws and leaves every parent key `[schema].[table]` visited |
| LegacyExport.ParentKeyLookup | src/Program.cs:147 | a parent key always contains a `.`, so its lookup never throws |
| LegacyExport.WalkTableShallow | src/Program.cs:126-137 | a visited reference changes nothing; a new reference the catalog does not find is marked visited, with no schema and no file |
| LegacyExport.WalkTableFound | src/Program.cs:126-170 | a new found table is visited, adds its schema, walks its parents, then writes its own file last |
| LegacyExport.WalkTableLogs | src/Program.cs:142-169 | a walk appends exactly the table files of the references it emitted, in order, and adds exactly their schemas |
| LegacyExport.WalkTableEmits | src/Program.cs:126-127 | each emitted reference is emitted once and was new; every newly visited reference that names a table is emitted |
| LegacyExport.WalkTableInvariant | src/Program.cs:124-170 | every walk from one reference keeps the walk invariant: grows, logs and emits as above |
| LegacyExport.WalkParentsInvariant | src/Program.cs:144-149 | the foreign-key loop keeps the walk invariant |
| LegacyExport.TableFilesOfList | src/Program.cs:160-169 | the log of a walk equals the reference list of table files of the emitted references |
| LegacyExport.ParentsWrittenFirst | src/Program.cs:144-169 | a new table's file is the walk's last write, and the file of every new parent is written earlier in the same walk |
| LegacyExport.CycleWrittenOnce | src/Program.cs:126-149 | two tables referencing each other: the walk from A terminates and writes B, then A, once each |
| LegacyExport.RawReferencesNotMerged | src/Program.cs:126-131 | `dbo.X` and `[dbo].[X]` are different keys: the same table is written twice |
| LegacyExport.WalkTableVisits | src/Program.cs:126-149 | a walk visits only its own reference and parent keys |
| LegacyExport.WalkSeedsInvariant | src/Program.cs:58-59 | the table loop keeps the walk invariant; without an exception every listed reference ends up visited |
| LegacyExport.WalkSeedsVisits | src/Program.cs:58-59 | the table loop visits only what was visited before, the listed references and parent keys |
| LegacyExport.WalkSeedsThrows | src/Program.cs:124-131 | the table loop throws iff a listed reference not visited before has no `.` |
| LegacyExport.WalkSeeds | src/Program.cs:58-59 | the table loop only adds to `visited`, and without an exception every listed reference from `i` on ends up visited |
| LegacyExport.TableFile | src/Program.cs:160-161 | a table's file lies under `<target>/Tables` (its path starts with `<target>/Tables/`) and holds the table's script |
| LegacyExport.ProcedureFile | src/Program.cs:96-97 | a procedure's file lies under `<target>/StoredProcedures` (its path starts with `<target>/StoredProcedures/`) and holds the procedure's script |
| LegacyExport.GenerateProcedure | src/Program.cs:83-106 | one procedure never touches `visited`; it throws iff the name has no `.`, and then changes nothing; otherwise it writes at most one file |
| LegacyExport.GenerateProcedures | src/Program.cs:62-63 | the procedure loop never touches `visited` and writes at most one file per name |
| LegacyExport.GenerateProceduresThrows | src/Program.cs:83-86 | the procedure loop never touches `visited` and throws iff a listed name has no `.` |
| LegacyExport.GenerateProceduresFiles | src/Program.cs:83-106 | without an exception, the procedure loop appends exactly the files of the listed procedures that exist, in list order, and adds exactly their schemas |
| LegacyExport.GenerateProceduresWritten | src/Program.cs:88-105 | the files part of the procedure loop, from name `i` on |
| LegacyExport.GenerateProceduresSchemas | src/Program.cs:88-94 | the schemas part of the procedure loop, from name `i` on |
| LegacyExport.GenerateProcedureFound | src/Program.cs:85-97 | a missing procedure changes nothing; a found one adds its schema and writes `<target>/StoredProcedures/<Schema>.<Name>.sql` |
| LegacyExport.DatabaseFolder | src/Program.cs:59 | `<target>/<FolderName>` when the override is non-null and non-empty, else `<target>/<Name>` |
| LegacyExport.CreateDatabaseFolder | src/Program.cs:108-116 | the three directories created are `Tables`, `StoredProcedures` and `Schemas` under the same folder as `d.GeneratedName` gives |
| LegacyExport.FilesInCreatedFolders | src/Program.cs:108-116 | table, procedure and schema files land under the three directories `CreateDatabaseFolder` creates, although the folder name is computed twice |
| LegacyExport.AbsentDatabaseSkipped | src/Program.cs:48-53 | a database the server does not have writes nothing |
| LegacyExport.ExportDatabase | src/Program.cs:44-68 | one database only adds to `visited`; a database the server does not have writes nothing and does not throw |
| LegacyExport.ExportDatabaseFiles | src/Program.cs:44-68 | one database without an exception writes the table files of the newly visited tables, then the existing procedures' files, then one file per schema of this database; references visited in earlier databases are not written again |
| LegacyExport.SchemaFile | src/Program.cs:73-81 | a schema file lies under `<target>/Schemas` (its path starts with `<target>/Schemas/`) and holds the bare schema name |
| LegacyExport.SchemaFiles | src/Program.cs:66-67 | one file per enumerated schema, the `j`-th that of the `j`-th schema |
| LegacyExport.SchemaFilesOnePerSchema | src/Program.cs:73-81 | one schema file per schema in the set, each holding the bare schema name at `<target>/Schemas/<schema>.sql` |
| LegacyExport.ExportDatabaseGrows | src/Program.cs:44-68 | one database only adds to `visited` and only appends to the log |
| LegacyExport.ExportAllGrows | src/Program.cs:43-68 | the database loop only adds to the shared `visited` and only appends to the log |
| LegacyExport.ExportAll | src/Program.cs:43-68 | the database loop only adds to the shared `visited` |
| LegacyExport.RunExport | src/Program.cs:11-71 | without a configuration nothing is written and nothing is thrown |
| LegacyExport.ExportRun.GenerateTableContent | src/Program.cs:124-170 | the recursive method leaves the state and exception flag given by `WalkTable` |
| LegacyExport.ExportRun.ScriptTable | src/Program.cs:142-169 | the found-table part: schema, parents, then the table file, as `WalkParents` gives |
| LegacyExport.ExportRun.ScriptTables | src/Program.cs:58-59 | the table loop, as `WalkSeeds` gives |
| LegacyExport.ExportRun.GenerateStoredProcedures | src/Program.cs:83-106 | one procedure, as `GenerateProcedure` gives |
| LegacyExport.ExportRun.ScriptStoredProcedures | src/Program.cs:62-63 | the procedure loop, as `GenerateProcedures` gives |
| LegacyExport.ExportRun.GenerateSchema | src/Program.cs:73-81 | appends the file `<target>/Schemas/<schema>.sql` holding the bare name |
| LegacyExport.ExportRun.ScriptSchemas | src/Program.cs:66-67 | appends one schema file per schema in the set's enumeration order |
| LegacyExport.ExportRun.GenerateDatabase | src/Program.cs:45-67 | one database, as `ExportDatabase` gives |
| LegacyExport.ExportRun.GenerateSqlFiles | src/Program.cs:11-71 | the whole run, as `RunExport` gives: nothing without a configuration, else every database with one shared `visited` |
| GeneratorService.FirstByName | src/Siganberg.SqlGen/GeneratorService.cs:135 | a found entry is in the list and its name matches ignoring case; the only exception is `NullReference`, and only when some entry's name is null |
| GeneratorService.FirstByNameAt | src/Siganberg.SqlGen/GeneratorService.cs:135 | after passing over earlier entries, a case-insensitive match is returned, and an entry with a null name throws |
| GeneratorService.FirstByNameNone | src/Siganberg.SqlGen/GeneratorService.cs:135 | nothing is found iff every entry has a non-null, non-matching name |
| GeneratorService.FirstByNameIgnoresCase | src/Siganberg.SqlGen/GeneratorService.cs:135 | names equal up to `ToLower` find the same entry |
| GeneratorService.MapDatabaseToFolderNameAt | src/Siganberg.SqlGen/GeneratorService.cs:133-140 | the first matching entry's non-empty `FolderName`, else the bracket-stripped name; an earlier null name throws |
| GeneratorService.MapDatabaseToFolderNameDefault | src/Siganberg.SqlGen/GeneratorService.cs:136-139 | a name no entry matches maps to itself without brackets |
| GeneratorService.MapDatabaseToFolderName | src/Siganberg.SqlGen/GeneratorService.cs:133-140 | the only exception is `NullReference`; a folder other than the bracket-stripped name is the non-empty `FolderName` of the entry the search found |
| GeneratorService.Ancestors | src/Siganberg.SqlGen/GeneratorService.cs:82-93 | every node met on the way up is non-null |
| GeneratorService.DatabaseNode | src/Siganberg.SqlGen/GeneratorService.cs:82-94 | a found node is of type `Database` |
| GeneratorService.DatabaseNodeNearest | src/Siganberg.SqlGen/GeneratorService.cs:82-93 | the walk stops at the nearest `Database` ancestor |
| GeneratorService.DatabaseNodeNone | src/Siganberg.SqlGen/GeneratorService.cs:94 | the walk returns null iff no ancestor is a database |
| GeneratorService.DatabaseOf | src/Siganberg.SqlGen/GeneratorService.cs:79-95 | a database is found only for a non-null URN |
| GeneratorService.Generator.GetDatabaseOfUrn | src/Siganberg.SqlGen/GeneratorService.cs:79-95 | the parent-link loop returns what `DatabaseOf` gives |
| GeneratorService.FoundUrns | src/Siganberg.SqlGen/GeneratorService.cs:163-175 | misses are dropped, so no more URNs than names |
| GeneratorService.CollectFrom | src/Siganberg.SqlGen/GeneratorService.cs:166-172 | the loop throws only `IndexOutOfRange`; it keeps the URNs so far as a prefix, adds at most one per name, and each added URN is that of a catalog object |
| GeneratorService.Collect | src/Siganberg.SqlGen/GeneratorService.cs:163-175 | collection throws only `IndexOutOfRange`; it yields at most one URN per name, each the URN of a catalog object |
| GeneratorService.CollectIsFound | src/Siganberg.SqlGen/GeneratorService.cs:163-175 | collection throws iff a name has no `.`; otherwise it yields the URNs of the objects found, in list order |
| GeneratorService.CollectFromIsFound | src/Siganberg.SqlGen/GeneratorService.cs:166-172 | the same for the loop from name `i` on |
| GeneratorService.FoundUrnsInCatalog | src/Siganberg.SqlGen/GeneratorService.cs:169-171 | every collected URN is an object of the catalog |
| GeneratorService.CollectUrn | src/Siganberg.SqlGen/GeneratorService.cs:163-175 | the loop returns what `Collect` gives |
| GeneratorService.GetSqlObject | src/Siganberg.SqlGen/GeneratorService.cs:144-153 | a found object belongs to the collection searched |
| GeneratorService.DependencyWithoutDatabase | src/Siganberg.SqlGen/GeneratorService.cs:103-104 | a dependency without a database is skipped entirely |
| GeneratorService.DependencyWithDatabase | src/Siganberg.SqlGen/GeneratorService.cs:105-127 | a table, procedure or view writes `<root>/<folder>/<Tables/StoredProcedures/Views>/<Schema>.<Name>.sql` if its object exists; any type adds `<db>.<schema>` |
| GeneratorService.DependencyStep | src/Siganberg.SqlGen/GeneratorService.cs:103-127 | one dependency only adds schema keys and appends at most one file; when the folder mapping throws it changes nothing |
| GeneratorService.GenerateSqlFilesFrom | src/Siganberg.SqlGen/GeneratorService.cs:97-131 | the dependency loop only adds schema keys and only appends to the log, whatever it throws |
| GeneratorService.DependencyStepFiles | src/Siganberg.SqlGen/GeneratorService.cs:103-127 | one dependency that does not throw appends exactly its reference files: none without a database or for another type, else the object's file in the subfolder of its type |
| GeneratorService.GenerateSqlFilesWritten | src/Siganberg.SqlGen/GeneratorService.cs:97-131 | without an exception, the loop appends exactly the reference files of the dependencies, in the walker's order |
| GeneratorService.GenerateSqlFilesKeys | src/Siganberg.SqlGen/GeneratorService.cs:97-131 | without an exception, the returned set is exactly the schema keys of the dependencies that have a database |
| GeneratorService.Generator.GenerateFile | src/Siganberg.SqlGen/GeneratorService.cs:177-192 | appends `<target>/<Schema>.<Name>.sql`, or nothing for a null object |
| GeneratorService.Generator.GenerateSqlFiles | src/Siganberg.SqlGen/GeneratorService.cs:97-131 | the loop gives the keys, log and exception flag of `GenerateSqlFilesFrom` |
| GeneratorService.SchemaKeyRoundTrip | src/Siganberg.SqlGen/GeneratorService.cs:194-205 | a key `db.schema` of dot-free parts splits back into them: the file is `<root>/<folder of db>/Schemas/<schema>.sql` holding `CREATE SCHEMA <schema>` |
| GeneratorService.DottedDatabaseNameSplit | src/Siganberg.SqlGen/GeneratorService.cs:196-199 | a database named `a.b` is split as database `a`, schema `b` |
| GeneratorService.SchemaFile | src/Siganberg.SqlGen/GeneratorService.cs:194-205 | a key without `.` throws `IndexOutOfRange` and only such a key does; otherwise the exception can only be the folder mapping's `NullReference`, and the file holds the one line `CREATE SCHEMA ...` |
| GeneratorService.Generator.GenerateSchema | src/Siganberg.SqlGen/GeneratorService.cs:194-205 | appends the key's schema file, or throws and writes nothing |
| GeneratorService.GenerateSchemasOnePerKey | src/Siganberg.SqlGen/GeneratorService.cs:53-54 | without an exception, the loop writes one file per key, the key's own, in enumeration order |
| GeneratorService.GenerateSchemasFrom | src/Siganberg.SqlGen/GeneratorService.cs:53-54 | the schema loop only appends to the log, at most one file per key, whatever it throws |
| GeneratorService.GenerateSchemasLength | src/Siganberg.SqlGen/GeneratorService.cs:53-54 | without an exception, the loop appends exactly one file per key after the old log |
| GeneratorService.GenerateSchemasAt | src/Siganberg.SqlGen/GeneratorService.cs:53-54 | without an exception, the file of key `j` is the `j`-th appended |
| GeneratorService.Generator.GenerateSchemas | src/Siganberg.SqlGen/GeneratorService.cs:53-54 | the loop gives the log and exception flag of `GenerateSchemasFrom` |
| GeneratorService.ValidateDatabaseInput | src/Siganberg.SqlGen/GeneratorService.cs:60-69 | an entry is skipped iff its name is null or empty |
| GeneratorService.Seeds | src/Siganberg.SqlGen/GeneratorService.cs:44-46 | the seeds throw only `IndexOutOfRange`, and each seed is the URN of a table, procedure or view of the database |
| GeneratorService.CollectSeeds | src/Siganberg.SqlGen/GeneratorService.cs:44-46 | the three `CollectUrn` calls give the seed set of `Seeds` |
| GeneratorService.SkippedDatabases | src/Siganberg.SqlGen/GeneratorService.cs:38-48 | a null or empty name, a database the server lacks, or no object found writes nothing |
| GeneratorService.NothingFound | src/Siganberg.SqlGen/GeneratorService.cs:163-175 | names that all look up to nothing collect no URN and do not throw |
| GeneratorService.ExportDatabaseUnfold | src/Siganberg.SqlGen/GeneratorService.cs:48-54 | a database with seeds whose dependency loop does not throw ends with the schema loop over the enumerated keys |
| GeneratorService.GenerateSchemasCover | src/Siganberg.SqlGen/GeneratorService.cs:53-54 | without an exception, the schema loop over a listing of a key set appends one file per key, and every key's file is among them |
| GeneratorService.ExportDatabaseSchemaFiles | src/Siganberg.SqlGen/GeneratorService.cs:50-54 | after the dependency files, exactly one schema file per distinct key of the dependencies |
| GeneratorService.ExportDatabase | src/Siganberg.SqlGen/GeneratorService.cs:33-55 | one database only appends to the log, whatever it throws |
| GeneratorService.Generator.ScriptDatabase | src/Siganberg.SqlGen/GeneratorService.cs:35-54 | the loop body gives the log and exception flag of `ExportDatabase` |
| GeneratorService.RunFrom | src/Siganberg.SqlGen/GeneratorService.cs:28-58 | `Run` only appends to the log: files written before an exception stay written |
| GeneratorService.RunNothingToExport | src/Siganberg.SqlGen/GeneratorService.cs:38-42 | a configuration whose every entry is unnamed or absent from the server writes nothing |
| GeneratorService.Generator.Run | src/Siganberg.SqlGen/GeneratorService.cs:28-58 | the loop gives the log and exception flag of `RunFrom` |
| GeneratorService.Generator.constructor | src/Siganberg.SqlGen/GeneratorService.cs:17-26 | the root path is `<current directory>/<TargetPath>` |

## Left out

- Reading and deserialising `sqlgen.json` (`ConfigurationService`, `Program.cs` lines 21-38)
  is I/O. The legacy run takes the configuration as an `Option`, where `None` stands for the
  missing or invalid file.
- The wiring script `src/Siganberg.SqlGen/Program.cs` is I/O: it connects to the server and
  calls `Run`.
- Serilog logging, directory creation (`CreateDirectoryIfNotExist`,
  `CreateDirectoryFirst`), `File.CreateText`, flush and close are left out. File output is a
  log of `(path, lines)` writes. `LegacyExport.CreateDatabaseFolder` only computes the
  directory names.
- The contents of a script come from SMO's `Script(ScriptingOptions)` renderer, a foreign
  library. Each object carries its script lines as given.
- `DependencyWalker.DiscoverDependencies`/`WalkDependencies` is a foreign library. Its result
  is the parameter `walker`, and nothing is required of its order or contents.
- The enumeration order of a `HashSet` is unspecified. It is the parameter `order`, and
  lemmas that need it require that it lists each element once. The model fixes one order
  per set content, whereas a .NET `HashSet` may list two equal sets differently depending
  on how each was built. No proved property depends on this, because the lemmas only
  require `IsListing`.
- SMO indexers given a null name are modelled as finding nothing. This covers
  `server.Databases[d.Name]` with a null name in `Program.cs` line 48,
  `_server.Databases[name]` with a null `Name` attribute of a URN in `GetDatabase(Urn)`
  (`src/Siganberg.SqlGen/GeneratorService.cs` line 87, through `FindDatabase` in
  `DatabaseOf`), and `Tables[name, schema]` with a null URN attribute in `GetSqlObject`. The
  behaviour of SMO there cannot be seen.
- A null `Databases` list, or a null `Tables`/`StoredProcedures`/`Views` list, after
  deserialisation is not modelled. The lists are sequences, possibly empty.
- Null list entries are not modelled either, because a sequence of strings or of database
  entries cannot hold null. In the source, a null name throws `NullReferenceException` at
  `tableName.Split(".")` (`src/Program.cs` line 129), at `storeProcedureName.Split(".")`
  (line 85) and at `name.Split(".")` (`src/Siganberg.SqlGen/GeneratorService.cs` line 168).
  A null database entry throws at its first `d.Name`, which is the log call at
  `GeneratorService.cs` line 35, before `ValidateDatabaseInput` reads it at line 62.
- `Catalog.FindDatabase` matches database names exactly. SMO's collation-dependent name
  comparison is not modelled.
- Exceptions from the file system or from SMO are not modelled. The modelled exceptions are:
  - the out-of-range `split[1]`;
  - the null dereference in `MapDatabaseToFolderName`;
  - the two `ArgumentException`s of `Parse`.
- `DotNet.ToLower` lowers ASCII letters only. Culture-sensitive case mapping of other
  characters is not modelled.
- The `isReference` flag of `GenerateTableContent` only selects a log message, so it is
  left out.

## Findings

| source | as written | input that shows it | evidently intended | confidence | as-written member | corrected member |
|---|---|---|---|---|---|---|
| src/Siganberg.SqlGen/ArgumentParser.cs:38-55 | every `-` is removed from the key before the `switch`, whose labels start with `--`, so the settings cases never match | `sqlgen --server localhost` throws "Invalid value" instead of setting `Server` | `--server`, `--username`, `--password` and `--targetPath` set their property | not executed | ArgumentParser.ServerFlagRejected | ArgumentParser.IntendedFlagSets |
