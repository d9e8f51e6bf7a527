/** The dependency-collection exporter (src/Siganberg.SqlGen/GeneratorService.cs). For every
    configured database it collects the URNs of the listed tables, stored procedures and
    views, hands them to SMO's dependency walker, writes one file per dependency into the
    subfolder of its type, and then one `CREATE SCHEMA` file per touched
    `database.schema` key. The walker and the enumeration order of a HashSet are
    parameters. */
module GeneratorService {
  import opened DotNet
  import opened Catalog
  import SqlGenConfig

  // ---------------------------------------------------------------------------
  // Folder names (`MapDatabaseToFolderName`)

  /** Entry `d` is the one `a.Name.ToLower() == databaseName.ToLower()` picks. */
  predicate Matches(d: SqlGenConfig.Database, databaseName: string) {
    d.name.Some? && ToLower(d.name.value) == ToLower(databaseName)
  }

  /** Entry `d` is passed over: its name is not null and does not match. */
  predicate PassesOver(d: SqlGenConfig.Database, databaseName: string) {
    d.name.Some? && ToLower(d.name.value) != ToLower(databaseName)
  }

  /** `_config.Databases.FirstOrDefault(a => a.Name.ToLower() == databaseName.ToLower())`;
      `a.Name.ToLower()` on an entry with a null name throws. */
  function FirstByName(dbs: seq<SqlGenConfig.Database>, databaseName: string): (r: Outcome<Option<SqlGenConfig.Database>>)
    ensures r.Threw? ==> r.exception == NullReference && exists d :: d in dbs && d.name.None?
    ensures r.Done? && r.value.Some? ==> r.value.value in dbs && Matches(r.value.value, databaseName)
  {
    if dbs == [] then Done(None)
    else if dbs[0].name.None? then Threw(NullReference)
    else if Matches(dbs[0], databaseName) then Done(Some(dbs[0]))
    else FirstByName(dbs[1..], databaseName)
  }

  /** The entry at `k`, reached after passing over every earlier one, decides the search:
      it is the answer when it matches, and it throws when its name is null. */
  lemma {:induction false} FirstByNameAt(dbs: seq<SqlGenConfig.Database>, databaseName: string, k: nat)
    requires k < |dbs|
    requires forall j :: 0 <= j < k ==> PassesOver(dbs[j], databaseName)
    ensures Matches(dbs[k], databaseName) ==> FirstByName(dbs, databaseName) == Done(Some(dbs[k]))
    ensures dbs[k].name.None? ==> FirstByName(dbs, databaseName) == Threw(NullReference)
  {
    if k > 0 {
      assert PassesOver(dbs[0], databaseName);
      FirstByNameAt(dbs[1..], databaseName, k - 1);
    }
  }

  /** The search finds nothing exactly when it passes over every entry. */
  lemma {:induction false} FirstByNameNone(dbs: seq<SqlGenConfig.Database>, databaseName: string)
    ensures FirstByName(dbs, databaseName) == Done(None) <==>
              forall j :: 0 <= j < |dbs| ==> PassesOver(dbs[j], databaseName)
  {
    if dbs != [] {
      FirstByNameNone(dbs[1..], databaseName);
      if forall j :: 0 <= j < |dbs| ==> PassesOver(dbs[j], databaseName) {
        assert forall j :: 0 <= j < |dbs| - 1 ==> dbs[1..][j] == dbs[j + 1];
      }
      if forall j :: 0 <= j < |dbs[1..]| ==> PassesOver(dbs[1..][j], databaseName) {
        assert forall j :: 1 <= j < |dbs| ==> dbs[j] == dbs[1..][j - 1];
      }
    }
  }

  /** The search only looks at names through `ToLower`. */
  lemma {:induction false} FirstByNameIgnoresCase(dbs: seq<SqlGenConfig.Database>, a: string, b: string)
    requires ToLower(a) == ToLower(b)
    ensures FirstByName(dbs, a) == FirstByName(dbs, b)
  {
    if dbs != [] {
      FirstByNameIgnoresCase(dbs[1..], a, b);
    }
  }

  /** `MapDatabaseToFolderName`: the `FolderName` of the first entry whose name matches
      ignoring case, unless it is null or empty; otherwise the bracket-stripped name. */
  function MapDatabaseToFolderName(config: SqlGenConfig.Config, databaseName: string): (r: Outcome<string>)
    ensures r.Threw? ==> r.exception == NullReference
    ensures r.Done? && r.value != StripBracket(databaseName) ==>
              var found := FirstByName(config.databases, databaseName);
              found.Done? && found.value.Some? && found.value.value.folderName == Some(r.value) && r.value != ""
  {
    match FirstByName(config.databases, databaseName)
    case Threw(e) => Threw(e)
    case Done(d) =>
      var name := if d.Some? then d.value.folderName else None;
      Done(if IsNullOrEmpty(name) then StripBracket(databaseName) else name.value)
  }

  /** The three outcomes of the folder mapping, by the first entry it does not pass over. */
  lemma MapDatabaseToFolderNameAt(config: SqlGenConfig.Config, databaseName: string, k: nat)
    requires k < |config.databases|
    requires forall j :: 0 <= j < k ==> PassesOver(config.databases[j], databaseName)
    ensures var d := config.databases[k];
      && (Matches(d, databaseName) && !IsNullOrEmpty(d.folderName) ==>
            MapDatabaseToFolderName(config, databaseName) == Done(d.folderName.value))
      && (Matches(d, databaseName) && IsNullOrEmpty(d.folderName) ==>
            MapDatabaseToFolderName(config, databaseName) == Done(StripBracket(databaseName)))
      && (d.name.None? ==> MapDatabaseToFolderName(config, databaseName) == Threw(NullReference))
  {
    FirstByNameAt(config.databases, databaseName, k);
  }

  /** A name no entry matches maps to itself without brackets. */
  lemma MapDatabaseToFolderNameDefault(config: SqlGenConfig.Config, databaseName: string)
    requires forall j :: 0 <= j < |config.databases| ==> PassesOver(config.databases[j], databaseName)
    ensures MapDatabaseToFolderName(config, databaseName) == Done(StripBracket(databaseName))
  {
    FirstByNameNone(config.databases, databaseName);
  }

  // ---------------------------------------------------------------------------
  // The database of a URN (`GetDatabase(Urn)`)

  /** The node itself and its parents, up to the root. */
  function Ancestors(urn: Urn): (r: seq<Urn>)
    ensures forall a :: a in r ==> a.Urn?
  {
    match urn
    case NoUrn => []
    case Urn(_, _, parent) => [urn] + Ancestors(parent)
  }

  /** The first node of type `Database` on the way up from `urn`. */
  function DatabaseNode(urn: Urn): (r: Option<Urn>)
    ensures r.Some? ==> urn.Urn? && r.value.Urn? && r.value.kind == "Database"
  {
    match urn
    case NoUrn => None
    case Urn(kind, _, parent) => if kind == "Database" then Some(urn) else DatabaseNode(parent)
  }

  /** The walk stops at the nearest `Database` ancestor. */
  lemma {:induction false} DatabaseNodeNearest(urn: Urn, k: nat)
    requires k < |Ancestors(urn)| && Ancestors(urn)[k].kind == "Database"
    requires forall j :: 0 <= j < k ==> Ancestors(urn)[j].kind != "Database"
    ensures DatabaseNode(urn) == Some(Ancestors(urn)[k])
  {
    var anc := Ancestors(urn);
    assert urn.Urn?;
    var up := Ancestors(urn.parent);
    assert anc == [urn] + up;
    if k > 0 {
      assert anc[0] == urn;
      forall j | 0 <= j < k - 1 ensures up[j].kind != "Database" {
        assert up[j] == anc[j + 1];
      }
      assert up[k - 1] == anc[k];
      DatabaseNodeNearest(urn.parent, k - 1);
    }
  }

  /** The walk reaches the root without an answer exactly when no ancestor is a database. */
  lemma {:induction false} DatabaseNodeNone(urn: Urn)
    ensures DatabaseNode(urn).None? <==> forall a :: a in Ancestors(urn) ==> a.kind != "Database"
  {
    if urn.Urn? {
      DatabaseNodeNone(urn.parent);
      assert Ancestors(urn) == [urn] + Ancestors(urn.parent);
    }
  }

  /** `GetDatabase(urn)`: the server's database named by the nearest `Database` node. */
  function DatabaseOf(server: Server, urn: Urn): (r: Option<Database>)
    ensures r.Some? ==> urn.Urn?
  {
    match DatabaseNode(urn)
    case None => None
    case Some(node) => FindDatabase(server, GetAttribute(node, "Name"))
  }

  // ---------------------------------------------------------------------------
  // Seed collection (`CollectUrn`)

  /** The loop of `CollectUrn` from name `i` on, with the URNs collected so far. */
  function CollectFrom(names: seq<string>, objects: map<ObjectKey, SqlObject>, i: nat, acc: seq<Urn>): (r: Outcome<seq<Urn>>)
    requires i <= |names|
    ensures r.Threw? ==> r.exception == IndexOutOfRange
    ensures r.Done? ==> |acc| <= |r.value| <= |acc| + |names| - i && r.value[..|acc|] == acc
    ensures r.Done? ==> forall u :: u in r.value ==> u in acc || exists o :: o in objects.Values && o.urn == u
    decreases |names| - i
  {
    if i == |names| then Done(acc)
    else
      match Lookup(objects, names[i])
      case Threw(e) => Threw(e)
      case Done(None) => CollectFrom(names, objects, i + 1, acc)
      case Done(Some(o)) =>
        var r := CollectFrom(names, objects, i + 1, acc + [o.urn]);
        assert r.Done? ==> r.value[..|acc|] == r.value[..|acc| + 1][..|acc|];
        r
  }

  /** `CollectUrn` as a value: it throws only `IndexOutOfRange`, and it collects at most one
      URN per name, each the URN of an object of the catalog. */
  function Collect(names: seq<string>, objects: map<ObjectKey, SqlObject>): (r: Outcome<seq<Urn>>)
    ensures r.Threw? ==> r.exception == IndexOutOfRange
    ensures r.Done? ==> |r.value| <= |names| && forall u :: u in r.value ==> exists o :: o in objects.Values && o.urn == u
  {
    CollectFrom(names, objects, 0, [])
  }

  /** Reference definition: the URNs of the listed objects the catalog has, in list order. */
  function FoundUrns(names: seq<string>, objects: map<ObjectKey, SqlObject>): (r: seq<Urn>)
    ensures |r| <= |names|
  {
    if names == [] then []
    else
      (match Lookup(objects, names[0])
       case Done(Some(o)) => [o.urn]
       case _ => []) + FoundUrns(names[1..], objects)
  }

  /** Some name from `i` on has no `.`. */
  predicate SomeWithoutDot(names: seq<string>, i: nat) {
    exists j :: i <= j < |names| && '.' !in names[j]
  }

  lemma SomeWithoutDotStep(names: seq<string>, i: nat)
    requires i < |names| && '.' in names[i]
    ensures SomeWithoutDot(names, i) <==> SomeWithoutDot(names, i + 1)
  {
    if SomeWithoutDot(names, i) {
      var j :| i <= j < |names| && '.' !in names[j];
      assert i + 1 <= j;
    }
    if SomeWithoutDot(names, i + 1) {
      var j :| i + 1 <= j < |names| && '.' !in names[j];
      assert i <= j;
    }
  }

  /** Collection throws exactly when a listed name has no `.`; otherwise it yields the URNs
      of the objects found, in list order, dropping the misses. */
  lemma {:induction false} CollectFromIsFound(names: seq<string>, objects: map<ObjectKey, SqlObject>, i: nat, acc: seq<Urn>)
    requires i <= |names|
    ensures CollectFrom(names, objects, i, acc) ==
              if SomeWithoutDot(names, i) then Threw(IndexOutOfRange)
              else Done(acc + FoundUrns(names[i..], objects))
    decreases |names| - i
  {
    if i == |names| {
      assert names[i..] == [];
      assert acc + [] == acc;
    } else {
      var rest := names[i..];
      assert rest[0] == names[i] && rest[1..] == names[i + 1..];
      match Lookup(objects, names[i])
      case Threw(_) =>
        assert i <= i < |names| && '.' !in names[i];
      case Done(None) =>
        CollectFromIsFound(names, objects, i + 1, acc);
        SomeWithoutDotStep(names, i);
        assert FoundUrns(rest, objects) == [] + FoundUrns(names[i + 1..], objects);
        assert [] + FoundUrns(names[i + 1..], objects) == FoundUrns(names[i + 1..], objects);
        assert CollectFrom(names, objects, i, acc) == CollectFrom(names, objects, i + 1, acc);
      case Done(Some(o)) =>
        CollectFromIsFound(names, objects, i + 1, acc + [o.urn]);
        SomeWithoutDotStep(names, i);
        assert acc + [o.urn] + FoundUrns(names[i + 1..], objects) == acc + ([o.urn] + FoundUrns(names[i + 1..], objects));
    }
  }

  lemma CollectIsFound(names: seq<string>, objects: map<ObjectKey, SqlObject>)
    ensures Collect(names, objects) ==
              if SomeWithoutDot(names, 0) then Threw(IndexOutOfRange)
              else Done(FoundUrns(names, objects))
  {
    CollectFromIsFound(names, objects, 0, []);
    assert names[0..] == names;
    assert [] + FoundUrns(names, objects) == FoundUrns(names, objects);
  }

  /** Every collected URN is the URN of an object of the catalog. */
  lemma {:induction false} FoundUrnsInCatalog(names: seq<string>, objects: map<ObjectKey, SqlObject>, u: Urn)
    requires u in FoundUrns(names, objects)
    ensures exists o :: o in objects.Values && o.urn == u
  {
    if names != [] {
      match Lookup(objects, names[0])
      case Done(Some(o)) =>
        if u != o.urn {
          FoundUrnsInCatalog(names[1..], objects, u);
        }
      case _ =>
        FoundUrnsInCatalog(names[1..], objects, u);
    }
  }

  /** `CollectUrn`; the collector lambda is a lookup in `objects`. */
  method CollectUrn(names: seq<string>, objects: map<ObjectKey, SqlObject>) returns (r: Outcome<seq<Urn>>)
    ensures r == Collect(names, objects)
  {
    var urns: seq<Urn> := [];
    for i := 0 to |names|
      invariant CollectFrom(names, objects, i, urns) == Collect(names, objects)
    {
      var split := Split(names[i], '.');
      if |split| < 2 {
        return Threw(IndexOutOfRange);
      }
      var sqlObject := Find(objects, StripBracket(split[1]), StripBracket(split[0]));
      if sqlObject.None? {
        continue;
      }
      urns := urns + [sqlObject.value.urn];
    }
    return Done(urns);
  }

  // ---------------------------------------------------------------------------
  // Dependency files (`GenerateSqlFiles`, `GetSqlObject`, `GenerateFile`)

  /** The subfolder of the three types the `switch` handles. */
  function Subfolder(kind: string): Option<string> {
    if kind == "Table" then Some("Tables")
    else if kind == "StoredProcedure" then Some("StoredProcedures")
    else if kind == "View" then Some("Views")
    else None
  }

  /** The collection the `switch` looks a dependency up in. */
  function ObjectsOfKind(db: Database, kind: string): map<ObjectKey, SqlObject> {
    if kind == "Table" then db.tables
    else if kind == "StoredProcedure" then db.storedProcedures
    else db.views
  }

  /** `GetSqlObject`: the object keyed by the URN's `Name` and `Schema` attributes. */
  function GetSqlObject(urn: Urn, objects: map<ObjectKey, SqlObject>): (r: Option<SqlObject>)
    requires urn.Urn?
    ensures r.Some? ==> r.value in objects.Values
  {
    var name := GetAttribute(urn, "Name");
    var schema := GetAttribute(urn, "Schema");
    if name.Some? && schema.Some? then Find(objects, name.value, schema.value) else None
  }

  /** `GenerateFile`: nothing for a null object, else `<targetPath>/<Schema>.<Name>.sql`. */
  function ObjectFiles(obj: Option<SqlObject>, targetPath: string): seq<FileWrite> {
    match obj
    case None => []
    case Some(o) => [FileWrite(targetPath + "/" + o.schema + "." + o.name + ".sql", o.script)]
  }

  /** `$"{database.Name}.{dep.Urn.GetAttribute("Schema")}"`. */
  function SchemaKey(databaseName: string, schema: Option<string>): string {
    databaseName + "." + Interp(schema)
  }

  /** The touched schema keys and the files written so far, and whether an exception escaped. */
  datatype Emit = Emit(schemas: set<string>, written: seq<FileWrite>, threw: bool)

  /** One dependency: skipped without a database; otherwise its file (for the three
      handled types) and then its schema key. */
  function DependencyStep(config: SqlGenConfig.Config, server: Server, rootPath: string, dep: Urn,
                          schemas: set<string>, written: seq<FileWrite>): (r: Emit)
    ensures schemas <= r.schemas
    ensures r.threw ==> r.schemas == schemas && r.written == written
    ensures Extends(written, r.written) && |r.written| <= |written| + 1
  {
    match DatabaseOf(server, dep)
    case None => Emit(schemas, written, false)
    case Some(db) =>
      var key := SchemaKey(db.name, GetAttribute(dep, "Schema"));
      match Subfolder(dep.kind)
      case None => Emit(schemas + {key}, written, false)
      case Some(sub) =>
        var obj := GetSqlObject(dep, ObjectsOfKind(db, dep.kind));
        match MapDatabaseToFolderName(config, db.name)
        case Threw(_) => Emit(schemas, written, true)
        case Done(folder) => Emit(schemas + {key}, written + ObjectFiles(obj, rootPath + "/" + folder + "/" + sub), false)
  }

  /** The loop of `GenerateSqlFiles` from dependency `i` on. */
  function GenerateSqlFilesFrom(config: SqlGenConfig.Config, server: Server, rootPath: string, deps: seq<Urn>, i: nat,
                                schemas: set<string>, written: seq<FileWrite>): (r: Emit)
    requires i <= |deps|
    ensures schemas <= r.schemas
    ensures Extends(written, r.written)
    decreases |deps| - i
  {
    if i == |deps| then Emit(schemas, written, false)
    else
      var s := DependencyStep(config, server, rootPath, deps[i], schemas, written);
      if s.threw then s
      else
        var r := GenerateSqlFilesFrom(config, server, rootPath, deps, i + 1, s.schemas, s.written);
        ExtendsTrans(written, s.written, r.written);
        r
  }

  /** A dependency whose database cannot be found changes nothing. */
  lemma DependencyWithoutDatabase(config: SqlGenConfig.Config, server: Server, rootPath: string, dep: Urn,
                                  schemas: set<string>, written: seq<FileWrite>)
    requires DatabaseOf(server, dep).None?
    ensures DependencyStep(config, server, rootPath, dep, schemas, written) == Emit(schemas, written, false)
  {
  }

  /** A dependency with a database: of a handled type, it gets the file
      `<root>/<folder>/<subfolder>/<Schema>.<Name>.sql` when its object exists (no file when
      it does not); of any other type, no file. Either way its `database.schema` key is
      added, unless the folder mapping throws. */
  lemma DependencyWithDatabase(config: SqlGenConfig.Config, server: Server, rootPath: string, dep: Urn,
                               schemas: set<string>, written: seq<FileWrite>, db: Database)
    requires DatabaseOf(server, dep) == Some(db)
    ensures dep.Urn?
    ensures var r := DependencyStep(config, server, rootPath, dep, schemas, written);
      var key := db.name + "." + Interp(GetAttribute(dep, "Schema"));
      var folder := MapDatabaseToFolderName(config, db.name);
      && (dep.kind !in {"Table", "StoredProcedure", "View"} ==> r == Emit(schemas + {key}, written, false))
      && (dep.kind in {"Table", "StoredProcedure", "View"} && folder.Threw? ==> r == Emit(schemas, written, true))
      && (dep.kind == "Table" && folder.Done? ==>
            r == Emit(schemas + {key}, written + ObjectFiles(GetSqlObject(dep, db.tables), rootPath + "/" + folder.value + "/Tables"), false))
      && (dep.kind == "StoredProcedure" && folder.Done? ==>
            r == Emit(schemas + {key}, written + ObjectFiles(GetSqlObject(dep, db.storedProcedures), rootPath + "/" + folder.value + "/StoredProcedures"), false))
      && (dep.kind == "View" && folder.Done? ==>
            r == Emit(schemas + {key}, written + ObjectFiles(GetSqlObject(dep, db.views), rootPath + "/" + folder.value + "/Views"), false))
  {
    var folder := MapDatabaseToFolderName(config, db.name);
    if dep.kind == "Table" {
      assert Subfolder(dep.kind) == Some("Tables") && ObjectsOfKind(db, dep.kind) == db.tables;
      if folder.Done? {
        assert rootPath + "/" + folder.value + "/" + "Tables" == rootPath + "/" + folder.value + "/Tables";
      }
    } else if dep.kind == "StoredProcedure" {
      assert Subfolder(dep.kind) == Some("StoredProcedures") && ObjectsOfKind(db, dep.kind) == db.storedProcedures;
      if folder.Done? {
        assert rootPath + "/" + folder.value + "/" + "StoredProcedures" == rootPath + "/" + folder.value + "/StoredProcedures";
      }
    } else if dep.kind == "View" {
      assert Subfolder(dep.kind) == Some("Views") && ObjectsOfKind(db, dep.kind) == db.views;
      if folder.Done? {
        assert rootPath + "/" + folder.value + "/" + "Views" == rootPath + "/" + folder.value + "/Views";
      }
    } else {
      assert Subfolder(dep.kind) == None;
    }
  }

  /** Reference definition: the schema keys of the dependencies that have a database. */
  ghost function DependencyKeys(server: Server, deps: seq<Urn>): set<string> {
    set dep | dep in deps && DatabaseOf(server, dep).Some? ::
      SchemaKey(DatabaseOf(server, dep).value.name, GetAttribute(dep, "Schema"))
  }

  /** Without an exception, `GenerateSqlFiles` returns exactly the schema keys of the
      dependencies that have a database, each once. */
  lemma {:induction false} GenerateSqlFilesKeys(config: SqlGenConfig.Config, server: Server, rootPath: string, deps: seq<Urn>, i: nat,
                                                schemas: set<string>, written: seq<FileWrite>)
    requires i <= |deps|
    requires !GenerateSqlFilesFrom(config, server, rootPath, deps, i, schemas, written).threw
    ensures GenerateSqlFilesFrom(config, server, rootPath, deps, i, schemas, written).schemas ==
              schemas + DependencyKeys(server, deps[i..])
    decreases |deps| - i
  {
    if i == |deps| {
      assert deps[i..] == [];
    } else {
      var s := DependencyStep(config, server, rootPath, deps[i], schemas, written);
      GenerateSqlFilesKeys(config, server, rootPath, deps, i + 1, s.schemas, s.written);
      var rest := deps[i..];
      assert rest[0] == deps[i] && rest[1..] == deps[i + 1..];
      assert forall dep :: dep in rest <==> dep == deps[i] || dep in deps[i + 1..];
      match DatabaseOf(server, deps[i])
      case None =>
      case Some(db) =>
        DependencyWithDatabase(config, server, rootPath, deps[i], schemas, written, db);
    }
  }

  /** Reference definition: the file a dependency with database `db` gets, by its type.
      Tables, stored procedures and views go to their own subfolder of the database's folder
      when the object exists; other types, and a throwing folder mapping, get none. */
  function DependencyFile(config: SqlGenConfig.Config, rootPath: string, dep: Urn, db: Database): seq<FileWrite>
    requires dep.Urn?
  {
    match MapDatabaseToFolderName(config, db.name)
    case Threw(_) => []
    case Done(folder) =>
      if dep.kind == "Table" then ObjectFiles(GetSqlObject(dep, db.tables), rootPath + "/" + folder + "/Tables")
      else if dep.kind == "StoredProcedure" then
        ObjectFiles(GetSqlObject(dep, db.storedProcedures), rootPath + "/" + folder + "/StoredProcedures")
      else if dep.kind == "View" then ObjectFiles(GetSqlObject(dep, db.views), rootPath + "/" + folder + "/Views")
      else []
  }

  /** The files of one dependency: none without a database. */
  function DependencyFilesOf(config: SqlGenConfig.Config, server: Server, rootPath: string, dep: Urn): seq<FileWrite> {
    match DatabaseOf(server, dep)
    case None => []
    case Some(db) => DependencyFile(config, rootPath, dep, db)
  }

  /** Reference definition: the files of the dependencies that have a database, in order. */
  function DependencyFiles(config: SqlGenConfig.Config, server: Server, rootPath: string, deps: seq<Urn>): seq<FileWrite> {
    if deps == [] then []
    else DependencyFilesOf(config, server, rootPath, deps[0]) + DependencyFiles(config, server, rootPath, deps[1..])
  }

  /** One dependency that does not throw appends exactly its reference file. */
  lemma DependencyStepFiles(config: SqlGenConfig.Config, server: Server, rootPath: string, dep: Urn,
                            schemas: set<string>, written: seq<FileWrite>)
    requires !DependencyStep(config, server, rootPath, dep, schemas, written).threw
    ensures DependencyStep(config, server, rootPath, dep, schemas, written).written ==
              written + DependencyFilesOf(config, server, rootPath, dep)
  {
    match DatabaseOf(server, dep)
    case None =>
      assert written + [] == written;
    case Some(db) =>
      DependencyWithDatabase(config, server, rootPath, dep, schemas, written, db);
      if dep.kind !in {"Table", "StoredProcedure", "View"} || MapDatabaseToFolderName(config, db.name).Threw? {
        assert written + [] == written;
      }
  }

  /** The files from dependency `i` on: those of dependency `i`, then the rest's. */
  lemma DependencyFilesCons(config: SqlGenConfig.Config, server: Server, rootPath: string, deps: seq<Urn>, i: nat)
    requires i < |deps|
    ensures DependencyFiles(config, server, rootPath, deps[i..]) ==
              DependencyFilesOf(config, server, rootPath, deps[i]) + DependencyFiles(config, server, rootPath, deps[i + 1..])
  {
    var rest := deps[i..];
    assert rest[0] == deps[i] && rest[1..] == deps[i + 1..];
  }

  /** One step of the dependency loop that does not throw. */
  lemma GenerateSqlFilesStep(config: SqlGenConfig.Config, server: Server, rootPath: string, deps: seq<Urn>, i: nat,
                             schemas: set<string>, written: seq<FileWrite>)
    requires i < |deps|
    requires !GenerateSqlFilesFrom(config, server, rootPath, deps, i, schemas, written).threw
    ensures var s := DependencyStep(config, server, rootPath, deps[i], schemas, written);
      && !s.threw
      && GenerateSqlFilesFrom(config, server, rootPath, deps, i, schemas, written) ==
           GenerateSqlFilesFrom(config, server, rootPath, deps, i + 1, s.schemas, s.written)
  {
  }

  /** Without an exception, `GenerateSqlFiles` appends exactly the files of the dependencies
      that have a database, in the walker's order. */
  lemma {:induction false} GenerateSqlFilesWritten(config: SqlGenConfig.Config, server: Server, rootPath: string, deps: seq<Urn>, i: nat,
                                                   schemas: set<string>, written: seq<FileWrite>)
    requires i <= |deps|
    requires !GenerateSqlFilesFrom(config, server, rootPath, deps, i, schemas, written).threw
    ensures GenerateSqlFilesFrom(config, server, rootPath, deps, i, schemas, written).written ==
              written + DependencyFiles(config, server, rootPath, deps[i..])
    decreases |deps| - i
  {
    if i == |deps| {
      assert deps[i..] == [];
      assert written + [] == written;
    } else {
      var s := DependencyStep(config, server, rootPath, deps[i], schemas, written);
      GenerateSqlFilesStep(config, server, rootPath, deps, i, schemas, written);
      DependencyStepFiles(config, server, rootPath, deps[i], schemas, written);
      GenerateSqlFilesWritten(config, server, rootPath, deps, i + 1, s.schemas, s.written);
      DependencyFilesCons(config, server, rootPath, deps, i);
      var head := DependencyFilesOf(config, server, rootPath, deps[i]);
      var tail := DependencyFiles(config, server, rootPath, deps[i + 1..]);
      assert written + head + tail == written + (head + tail);
    }
  }

  /** A log `after` that extends `before`. */
  predicate Extends(before: seq<FileWrite>, after: seq<FileWrite>) {
    before <= after
  }

  lemma ExtendsTrans(a: seq<FileWrite>, b: seq<FileWrite>, c: seq<FileWrite>)
    requires Extends(a, b) && Extends(b, c)
    ensures Extends(a, c)
  {
  }

  // ---------------------------------------------------------------------------
  // Schema files (`GenerateSchema`)

  /** `GenerateSchema(key)`: the key splits at `.` into a database name and a schema name;
      the file goes to the database's folder and holds `CREATE SCHEMA <name>`. */
  function SchemaFile(config: SqlGenConfig.Config, rootPath: string, key: string): (r: Outcome<FileWrite>)
    ensures '.' !in key <==> r == Threw(IndexOutOfRange)
    ensures r.Threw? ==> r.exception == IndexOutOfRange || r.exception == NullReference
    ensures r.Done? ==> |r.value.lines| == 1 && "CREATE SCHEMA " <= r.value.lines[0]
  {
    CountPositive(key, '.');
    SplitLength(key, '.');
    var split := Split(key, '.');
    if |split| < 2 then Threw(IndexOutOfRange)
    else
      match MapDatabaseToFolderName(config, split[0])
      case Threw(e) => Threw(e)
      case Done(folder) => Done(FileWrite(rootPath + "/" + folder + "/Schemas/" + split[1] + ".sql", ["CREATE SCHEMA " + split[1]]))
  }

  /** Splitting a key built from a dot-free database name and schema name gives both back:
      the file of `db.schema` is `<root>/<folder of db>/Schemas/<schema>.sql`. */
  lemma SchemaKeyRoundTrip(config: SqlGenConfig.Config, rootPath: string, databaseName: string, schema: string)
    requires '.' !in databaseName && '.' !in schema
    ensures SchemaFile(config, rootPath, SchemaKey(databaseName, Some(schema))) ==
              match MapDatabaseToFolderName(config, databaseName)
              case Threw(e) => Threw(e)
              case Done(folder) => Done(FileWrite(rootPath + "/" + folder + "/Schemas/" + schema + ".sql", ["CREATE SCHEMA " + schema]))
  {
    SplitOfSepFree(schema, '.');
    SplitPrefix(databaseName, schema, '.');
  }

  /** A database name with a `.` in it does not survive the round trip: the key of schema
      `s` in database `a.b` is split as database `a` and schema `b`. */
  lemma DottedDatabaseNameSplit(config: SqlGenConfig.Config, rootPath: string, a: string, b: string, schema: string)
    requires '.' !in a && '.' !in b && '.' !in schema
    ensures SchemaFile(config, rootPath, SchemaKey(a + "." + b, Some(schema))) ==
              match MapDatabaseToFolderName(config, a)
              case Threw(e) => Threw(e)
              case Done(folder) => Done(FileWrite(rootPath + "/" + folder + "/Schemas/" + b + ".sql", ["CREATE SCHEMA " + b]))
  {
    var rest := b + "." + schema;
    assert SchemaKey(a + "." + b, Some(schema)) == a + ['.'] + rest;
    SplitOfSepFree(schema, '.');
    SplitPrefix(b, schema, '.');
    SplitPrefix(a, rest, '.');
  }

  /** The written files and whether an exception escaped. */
  datatype Files = Files(written: seq<FileWrite>, threw: bool)

  /** `foreach (var schema in schemas) GenerateSchema(schema)` over the enumeration `keys`. */
  function GenerateSchemasFrom(config: SqlGenConfig.Config, rootPath: string, keys: seq<string>, i: nat,
                               written: seq<FileWrite>): (r: Files)
    requires i <= |keys|
    ensures Extends(written, r.written) && |r.written| <= |written| + |keys| - i
    decreases |keys| - i
  {
    if i == |keys| then Files(written, false)
    else
      match SchemaFile(config, rootPath, keys[i])
      case Threw(_) => Files(written, true)
      case Done(f) =>
        var r := GenerateSchemasFrom(config, rootPath, keys, i + 1, written + [f]);
        ExtendsTrans(written, written + [f], r.written);
        r
  }

  /** Without an exception, the schema loop writes exactly one file per key after the old log. */
  lemma {:induction false} GenerateSchemasLength(config: SqlGenConfig.Config, rootPath: string, keys: seq<string>, i: nat,
                                                 written: seq<FileWrite>)
    requires i <= |keys|
    requires !GenerateSchemasFrom(config, rootPath, keys, i, written).threw
    ensures var r := GenerateSchemasFrom(config, rootPath, keys, i, written).written;
      |r| == |written| + |keys| - i && r[..|written|] == written
    decreases |keys| - i
  {
    if i < |keys| {
      var f := SchemaFile(config, rootPath, keys[i]).value;
      GenerateSchemasLength(config, rootPath, keys, i + 1, written + [f]);
    }
  }

  /** One step of the schema loop that does not throw: the key's file is appended. */
  lemma GenerateSchemasStep(config: SqlGenConfig.Config, rootPath: string, keys: seq<string>, i: nat,
                            written: seq<FileWrite>)
    requires i < |keys|
    requires !GenerateSchemasFrom(config, rootPath, keys, i, written).threw
    ensures SchemaFile(config, rootPath, keys[i]).Done?
    ensures GenerateSchemasFrom(config, rootPath, keys, i, written) ==
              GenerateSchemasFrom(config, rootPath, keys, i + 1, written + [SchemaFile(config, rootPath, keys[i]).value])
  {
  }

  /** Without an exception, the file of key `j` sits at position `j - i` after the old log. */
  lemma {:induction false} GenerateSchemasAt(config: SqlGenConfig.Config, rootPath: string, keys: seq<string>, i: nat,
                                             written: seq<FileWrite>, j: nat)
    requires i <= j < |keys|
    requires !GenerateSchemasFrom(config, rootPath, keys, i, written).threw
    ensures var r := GenerateSchemasFrom(config, rootPath, keys, i, written).written;
      |written| + j - i < |r| && SchemaFile(config, rootPath, keys[j]) == Done(r[|written| + j - i])
    decreases |keys| - i
  {
    GenerateSchemasStep(config, rootPath, keys, i, written);
    var f := SchemaFile(config, rootPath, keys[i]).value;
    var next := written + [f];
    if j == i {
      GenerateSchemasLength(config, rootPath, keys, i + 1, next);
      var r := GenerateSchemasFrom(config, rootPath, keys, i + 1, next).written;
      assert r[|written|] == r[..|next|][|written|];
    } else {
      GenerateSchemasAt(config, rootPath, keys, i + 1, next, j);
      assert |next| + j - (i + 1) == |written| + j - i;
    }
  }

  /** Without an exception, the schema loop writes exactly one file per key, the key's own,
      in the order of the keys. */
  lemma GenerateSchemasOnePerKey(config: SqlGenConfig.Config, rootPath: string, keys: seq<string>, i: nat,
                                 written: seq<FileWrite>)
    requires i <= |keys|
    requires !GenerateSchemasFrom(config, rootPath, keys, i, written).threw
    ensures var r := GenerateSchemasFrom(config, rootPath, keys, i, written).written;
      && |r| == |written| + |keys| - i
      && r[..|written|] == written
      && forall j :: i <= j < |keys| ==> SchemaFile(config, rootPath, keys[j]) == Done(r[|written| + j - i])
  {
    GenerateSchemasLength(config, rootPath, keys, i, written);
    forall j | i <= j < |keys|
      ensures SchemaFile(config, rootPath, keys[j]) == Done(GenerateSchemasFrom(config, rootPath, keys, i, written).written[|written| + j - i])
    {
      GenerateSchemasAt(config, rootPath, keys, i, written, j);
    }
  }

  // ---------------------------------------------------------------------------
  // The database loop (`Run`)

  /** `ValidateDatabaseInput`: true when the entry is to be skipped. */
  function ValidateDatabaseInput(d: SqlGenConfig.Database): (skip: bool)
    ensures skip <==> d.name.None? || d.name.value == ""
  {
    IsNullOrEmpty(d.name)
  }

  function UrnSet(urns: seq<Urn>): set<Urn> {
    set u | u in urns
  }

  /** An object of one of the three collections of `db`. */
  predicate InDatabase(db: Database, o: SqlObject) {
    o in db.tables.Values || o in db.storedProcedures.Values || o in db.views.Values
  }

  /** The seeds of one entry: the URNs `CollectUrn` finds among the listed tables, stored
      procedures and views, united into one set. Only a name without a `.` throws, and every
      seed is the URN of an object of the database. */
  function Seeds(d: SqlGenConfig.Database, db: Database): (r: Outcome<set<Urn>>)
    ensures r.Threw? ==> r.exception == IndexOutOfRange
    ensures r.Done? ==> forall u :: u in r.value ==> exists o :: InDatabase(db, o) && o.urn == u
  {
    match Collect(d.tables, db.tables)
    case Threw(e) => Threw(e)
    case Done(tables) =>
      match Collect(d.storedProcedures, db.storedProcedures)
      case Threw(e) => Threw(e)
      case Done(procedures) =>
        match Collect(d.views, db.views)
        case Threw(e) => Threw(e)
        case Done(views) => Done(UrnSet(tables) + UrnSet(procedures) + UrnSet(views))
  }

  /** The three `urns.UnionWith(CollectUrn(...))` calls of `Run`. */
  method CollectSeeds(d: SqlGenConfig.Database, db: Database) returns (r: Outcome<set<Urn>>)
    ensures r == Seeds(d, db)
  {
    var urns: set<Urn> := {};
    var tables := CollectUrn(d.tables, db.tables);
    if tables.Threw? {
      return Threw(tables.exception);
    }
    urns := urns + UrnSet(tables.value);
    assert urns == UrnSet(tables.value);
    var procedures := CollectUrn(d.storedProcedures, db.storedProcedures);
    if procedures.Threw? {
      return Threw(procedures.exception);
    }
    urns := urns + UrnSet(procedures.value);
    var views := CollectUrn(d.views, db.views);
    if views.Threw? {
      return Threw(views.exception);
    }
    urns := urns + UrnSet(views.value);
    return Done(urns);
  }

  /** One iteration of `Run`; `walker` is SMO's dependency walker and `order` the
      enumeration order of a HashSet of schema keys. */
  function ExportDatabase(config: SqlGenConfig.Config, server: Server, rootPath: string, d: SqlGenConfig.Database,
                          walker: set<Urn> -> seq<Urn>, order: set<string> -> seq<string>, written: seq<FileWrite>): (r: Files)
    ensures Extends(written, r.written)
  {
    if ValidateDatabaseInput(d) then Files(written, false)
    else
      match FindDatabase(server, d.name)
      case None => Files(written, false)
      case Some(db) =>
        match Seeds(d, db)
        case Threw(_) => Files(written, true)
        case Done(urns) =>
          if |urns| == 0 then Files(written, false)
          else
            var e := GenerateSqlFilesFrom(config, server, rootPath, walker(urns), 0, {}, written);
            if e.threw then Files(e.written, true)
            else
              var s := GenerateSchemasFrom(config, rootPath, order(e.schemas), 0, e.written);
              ExtendsTrans(written, e.written, s.written);
              s
  }

  /** The loop of `Run` from entry `k` on. */
  function RunFrom(config: SqlGenConfig.Config, server: Server, rootPath: string, walker: set<Urn> -> seq<Urn>,
                   order: set<string> -> seq<string>, k: nat, written: seq<FileWrite>): (r: Files)
    requires k <= |config.databases|
    ensures Extends(written, r.written)
    decreases |config.databases| - k
  {
    if k == |config.databases| then Files(written, false)
    else
      var s := ExportDatabase(config, server, rootPath, config.databases[k], walker, order, written);
      if s.threw then s
      else
        var r := RunFrom(config, server, rootPath, walker, order, k + 1, s.written);
        ExtendsTrans(written, s.written, r.written);
        r
  }

  /** The entries `Run` skips without output: a null or empty name, a database the server
      does not have, and a database none of whose listed objects exist. */
  lemma SkippedDatabases(config: SqlGenConfig.Config, server: Server, rootPath: string, d: SqlGenConfig.Database,
                         walker: set<Urn> -> seq<Urn>, order: set<string> -> seq<string>, written: seq<FileWrite>)
    ensures IsNullOrEmpty(d.name) ==> ExportDatabase(config, server, rootPath, d, walker, order, written) == Files(written, false)
    ensures FindDatabase(server, d.name).None? ==> ExportDatabase(config, server, rootPath, d, walker, order, written) == Files(written, false)
    ensures FindDatabase(server, d.name).Some? &&
            (forall n :: n in d.tables ==> Lookup(FindDatabase(server, d.name).value.tables, n) == Done(None)) &&
            (forall n :: n in d.storedProcedures ==> Lookup(FindDatabase(server, d.name).value.storedProcedures, n) == Done(None)) &&
            (forall n :: n in d.views ==> Lookup(FindDatabase(server, d.name).value.views, n) == Done(None)) ==>
              ExportDatabase(config, server, rootPath, d, walker, order, written) == Files(written, false)
  {
    match FindDatabase(server, d.name)
    case None =>
    case Some(db) =>
      if && (forall n :: n in d.tables ==> Lookup(db.tables, n) == Done(None))
         && (forall n :: n in d.storedProcedures ==> Lookup(db.storedProcedures, n) == Done(None))
         && (forall n :: n in d.views ==> Lookup(db.views, n) == Done(None))
      {
        NothingFound(d.tables, db.tables);
        NothingFound(d.storedProcedures, db.storedProcedures);
        NothingFound(d.views, db.views);
      }
  }

  /** Names that all look up to nothing collect no URN and do not throw. */
  lemma NothingFound(names: seq<string>, objects: map<ObjectKey, SqlObject>)
    requires forall n :: n in names ==> Lookup(objects, n) == Done(None)
    ensures Collect(names, objects) == Done([])
  {
    CollectIsFound(names, objects);
    forall j | 0 <= j < |names| ensures '.' in names[j] {
      assert names[j] in names;
    }
    NothingFoundUrns(names, objects);
  }

  lemma {:induction false} NothingFoundUrns(names: seq<string>, objects: map<ObjectKey, SqlObject>)
    requires forall n :: n in names ==> Lookup(objects, n) == Done(None)
    ensures FoundUrns(names, objects) == []
  {
    if names != [] {
      assert names[0] in names;
      assert forall n :: n in names[1..] ==> n in names;
      NothingFoundUrns(names[1..], objects);
    }
  }

  /** A database with seeds whose dependency loop does not throw ends with the schema loop
      over the enumeration of the touched keys. */
  lemma ExportDatabaseUnfold(config: SqlGenConfig.Config, server: Server, rootPath: string, d: SqlGenConfig.Database,
                             walker: set<Urn> -> seq<Urn>, order: set<string> -> seq<string>, written: seq<FileWrite>,
                             db: Database, urns: set<Urn>)
    requires !ValidateDatabaseInput(d) && FindDatabase(server, d.name) == Some(db)
    requires Seeds(d, db) == Done(urns)
    requires urns != {}
    requires !ExportDatabase(config, server, rootPath, d, walker, order, written).threw
    ensures var e := GenerateSqlFilesFrom(config, server, rootPath, walker(urns), 0, {}, written);
      && !e.threw
      && ExportDatabase(config, server, rootPath, d, walker, order, written) ==
           GenerateSchemasFrom(config, rootPath, order(e.schemas), 0, e.written)
  {
    assert |urns| != 0;
  }

  /** Without an exception, the schema loop over a listing of `keys` appends exactly one file
      per key, and the file of every key is among them. */
  lemma GenerateSchemasCover(config: SqlGenConfig.Config, rootPath: string, list: seq<string>, keys: set<string>,
                             written: seq<FileWrite>)
    requires IsListing(list, keys)
    requires !GenerateSchemasFrom(config, rootPath, list, 0, written).threw
    ensures var r := GenerateSchemasFrom(config, rootPath, list, 0, written).written;
      && |r| == |written| + |keys|
      && r[..|written|] == written
      && forall key :: key in keys ==> SchemaFile(config, rootPath, key).Done? && SchemaFile(config, rootPath, key).value in r[|written|..]
  {
    GenerateSchemasOnePerKey(config, rootPath, list, 0, written);
    ListingLength(list, keys);
    var r := GenerateSchemasFrom(config, rootPath, list, 0, written).written;
    forall key | key in keys
      ensures SchemaFile(config, rootPath, key).Done? && SchemaFile(config, rootPath, key).value in r[|written|..]
    {
      var j :| 0 <= j < |list| && list[j] == key;
      assert r[|written|..][j] == r[|written| + j];
    }
  }

  /** A database that exports without an exception: after the dependency files, exactly
      one schema file per distinct `database.schema` key of the dependencies. */
  lemma ExportDatabaseSchemaFiles(config: SqlGenConfig.Config, server: Server, rootPath: string, d: SqlGenConfig.Database,
                                  walker: set<Urn> -> seq<Urn>, order: set<string> -> seq<string>, written: seq<FileWrite>,
                                  db: Database, urns: set<Urn>)
    requires !ValidateDatabaseInput(d) && FindDatabase(server, d.name) == Some(db)
    requires Seeds(d, db) == Done(urns)
    requires urns != {}
    requires !ExportDatabase(config, server, rootPath, d, walker, order, written).threw
    requires IsListing(order(DependencyKeys(server, walker(urns))), DependencyKeys(server, walker(urns)))
    ensures var e := GenerateSqlFilesFrom(config, server, rootPath, walker(urns), 0, {}, written);
      var r := ExportDatabase(config, server, rootPath, d, walker, order, written).written;
      var keys := DependencyKeys(server, walker(urns));
      && !e.threw
      && |r| == |e.written| + |keys|
      && r[..|e.written|] == e.written
      && forall key :: key in keys ==> SchemaFile(config, rootPath, key).Done? && SchemaFile(config, rootPath, key).value in r[|e.written|..]
  {
    var deps := walker(urns);
    var e := GenerateSqlFilesFrom(config, server, rootPath, deps, 0, {}, written);
    ExportDatabaseUnfold(config, server, rootPath, d, walker, order, written, db, urns);
    GenerateSqlFilesKeys(config, server, rootPath, deps, 0, {}, written);
    assert deps[0..] == deps;
    var keys := DependencyKeys(server, deps);
    assert e.schemas == keys;
    GenerateSchemasCover(config, rootPath, order(keys), keys, e.written);
  }

  /** A configuration whose every entry is skipped (no name, or a database the server does
      not have) writes nothing and ends normally. */
  lemma {:induction false} RunNothingToExport(config: SqlGenConfig.Config, server: Server, rootPath: string, walker: set<Urn> -> seq<Urn>,
                                              order: set<string> -> seq<string>, k: nat, written: seq<FileWrite>)
    requires k <= |config.databases|
    requires forall j :: k <= j < |config.databases| ==>
               IsNullOrEmpty(config.databases[j].name) || FindDatabase(server, config.databases[j].name).None?
    ensures RunFrom(config, server, rootPath, walker, order, k, written) == Files(written, false)
    decreases |config.databases| - k
  {
    if k < |config.databases| {
      SkippedDatabases(config, server, rootPath, config.databases[k], walker, order, written);
      RunNothingToExport(config, server, rootPath, walker, order, k + 1, written);
    }
  }

  // ---------------------------------------------------------------------------
  // The service

  /** `GeneratorService`: the configuration, the server and the root path are fixed at
      construction; the only state that changes is the file log. */
  class Generator {
    const config: SqlGenConfig.Config
    const server: Server
    const rootPath: string
    var written: seq<FileWrite>

    /** `_rootPath = Directory.GetCurrentDirectory() + "/" + _config.TargetPath`. */
    constructor (configuration: SqlGenConfig.Config, server: Server, currentDirectory: string, log: seq<FileWrite>)
      ensures config == configuration && this.server == server
      ensures rootPath == currentDirectory + "/" + Interp(configuration.targetPath)
      ensures written == log
    {
      config := configuration;
      this.server := server;
      rootPath := currentDirectory + "/" + Interp(configuration.targetPath);
      written := log;
    }

    /** `GetDatabase(Urn)`: walks the parent links up to the first `Database` node. */
    method GetDatabaseOfUrn(urn: Urn) returns (database: Option<Database>)
      ensures database == DatabaseOf(server, urn)
    {
      var node := urn;
      while node.Urn?
        invariant DatabaseNode(node) == DatabaseNode(urn)
        decreases node
      {
        if node.kind == "Database" {
          return FindDatabase(server, GetAttribute(node, "Name"));
        }
        node := node.parent;
      }
      return None;
    }

    method GenerateFile(obj: Option<SqlObject>, targetPath: string)
      modifies this
      ensures written == old(written) + ObjectFiles(obj, targetPath)
    {
      if obj.None? {
        return;
      }
      var o := obj.value;
      written := written + [FileWrite(targetPath + "/" + o.schema + "." + o.name + ".sql", o.script)];
    }

    /** `GenerateSqlFiles`: returns the touched schema keys and whether an exception escaped. */
    method GenerateSqlFiles(deps: seq<Urn>) returns (schemas: set<string>, threw: bool)
      modifies this
      ensures Emit(schemas, written, threw) == GenerateSqlFilesFrom(config, server, rootPath, deps, 0, {}, old(written))
    {
      schemas := {};
      ghost var goal := GenerateSqlFilesFrom(config, server, rootPath, deps, 0, {}, written);
      for i := 0 to |deps|
        invariant GenerateSqlFilesFrom(config, server, rootPath, deps, i, schemas, written) == goal
      {
        var dep := deps[i];
        var database := GetDatabaseOfUrn(dep);
        if database.None? {
          continue;
        }
        var db := database.value;
        var sub := Subfolder(dep.kind);
        if sub.Some? {
          var obj := GetSqlObject(dep, ObjectsOfKind(db, dep.kind));
          var folder := MapDatabaseToFolderName(config, db.name);
          if folder.Threw? {
            return schemas, true;
          }
          GenerateFile(obj, rootPath + "/" + folder.value + "/" + sub.value);
        }
        schemas := schemas + {SchemaKey(db.name, GetAttribute(dep, "Schema"))};
      }
      threw := false;
    }

    /** `GenerateSchema`; returns true when an exception escaped. */
    method GenerateSchema(schemaName: string) returns (threw: bool)
      modifies this
      ensures !threw ==> SchemaFile(config, rootPath, schemaName).Done? &&
                         written == old(written) + [SchemaFile(config, rootPath, schemaName).value]
      ensures threw ==> SchemaFile(config, rootPath, schemaName).Threw? && written == old(written)
    {
      var split := Split(schemaName, '.');
      if |split| < 2 {
        return true;
      }
      var databaseName := split[0];
      var name := split[1];
      var folder := MapDatabaseToFolderName(config, databaseName);
      if folder.Threw? {
        return true;
      }
      written := written + [FileWrite(rootPath + "/" + folder.value + "/Schemas/" + name + ".sql", ["CREATE SCHEMA " + name])];
      threw := false;
    }

    /** The body of the loop in `Run` for one configured database. */
    method ScriptDatabase(d: SqlGenConfig.Database, walker: set<Urn> -> seq<Urn>, order: set<string> -> seq<string>)
      returns (threw: bool)
      modifies this
      ensures Files(written, threw) == ExportDatabase(config, server, rootPath, d, walker, order, old(written))
    {
      if ValidateDatabaseInput(d) {
        return false;
      }
      var database := FindDatabase(server, d.name);
      if database.None? {
        return false;
      }
      var db := database.value;
      var seeds := CollectSeeds(d, db);
      if seeds.Threw? {
        return true;
      }
      var urns := seeds.value;
      if |urns| == 0 {
        return false;
      }
      var schemas;
      schemas, threw := GenerateSqlFiles(walker(urns));
      if threw {
        return;
      }
      threw := GenerateSchemas(order(schemas));
    }

    /** `foreach (var schema in schemas) GenerateSchema(schema)` over the enumeration `keys`. */
    method GenerateSchemas(keys: seq<string>) returns (threw: bool)
      modifies this
      ensures Files(written, threw) == GenerateSchemasFrom(config, rootPath, keys, 0, old(written))
    {
      ghost var goal := GenerateSchemasFrom(config, rootPath, keys, 0, written);
      for j := 0 to |keys|
        invariant GenerateSchemasFrom(config, rootPath, keys, j, written) == goal
      {
        threw := GenerateSchema(keys[j]);
        if threw {
          return;
        }
      }
      threw := false;
    }

    /** `Run`: the configured databases in order; an exception ends the run. */
    method Run(walker: set<Urn> -> seq<Urn>, order: set<string> -> seq<string>) returns (threw: bool)
      modifies this
      ensures Files(written, threw) == RunFrom(config, server, rootPath, walker, order, 0, old(written))
    {
      ghost var goal := RunFrom(config, server, rootPath, walker, order, 0, written);
      for k := 0 to |config.databases|
        invariant RunFrom(config, server, rootPath, walker, order, k, written) == goal
      {
        threw := ScriptDatabase(config.databases[k], walker, order);
        if threw {
          return;
        }
      }
      threw := false;
    }
  }
}
