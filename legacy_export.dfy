/** The original top-level exporter (src/Program.cs). For every configured database it
    walks the listed tables depth first, visiting the parent table of each foreign key
    before writing the child's file, then writes the listed stored procedures and one
    file per schema touched. A single `visited` set of raw reference strings is shared by
    all databases; the touched-schema set is per database. */
module LegacyExport {
  import opened DotNet
  import opened Catalog
  import LegacyConfig

  /** The exporter's mutable state: `visited`, the current database's `schemas`, and the
      files written so far. */
  datatype Export = Export(visited: set<string>, schemas: set<string>, written: seq<FileWrite>)

  /** The result of a table walk: the new state, the raw references whose table files it
      wrote (in writing order), and whether an exception escaped. */
  datatype Walk = Walk(state: Export, emitted: seq<string>, threw: bool)

  /** The result of a step that does not walk tables. */
  datatype Step = Step(state: Export, threw: bool)

  /** `$"[{ReferencedTableSchema}].[{ReferencedTable}]"`: the key a parent table is visited under. */
  function ParentKey(fk: ForeignKey): string {
    "[" + fk.referencedTableSchema + "].[" + fk.referencedTable + "]"
  }

  /** Every key the foreign keys of the database's tables produce; the recursion stays inside it. */
  ghost function ParentKeys(db: Database): set<string> {
    set t, fk | t in db.tables.Values && fk in t.foreignKeys :: ParentKey(fk)
  }

  /** `database.Tables[split[1].StripBracket(), split[0].StripBracket()]`. */
  function LookupTable(db: Database, tableName: string): Outcome<Option<SqlObject>> {
    Lookup(db.tables, tableName)
  }

  /** The table a reference names, if the lookup neither throws nor misses. */
  function Resolve(db: Database, key: string): Option<SqlObject> {
    match LookupTable(db, key)
    case Done(t) => t
    case Threw(_) => None
  }

  /** `path` names a file under directory `dir`: it starts with `dir/`. A schema or name that
      holds a `/` puts the file in a subdirectory of `dir`, as the source does. */
  predicate InDirectory(path: string, dir: string) {
    |dir| < |path| && path[..|dir| + 1] == dir + "/"
  }

  lemma InDirectoryAppend(dir: string, name: string)
    ensures InDirectory(dir + "/" + name, dir)
  {
    assert (dir + "/" + name)[..|dir| + 1] == dir + "/";
  }

  /** `$"{targetPath}/Tables/{table.Schema}.{table.Name}.sql"` with the table's script. */
  function TableFile(target: string, t: SqlObject): (f: FileWrite)
    ensures InDirectory(f.path, target + "/Tables") && f.lines == t.script
  {
    var path := target + "/Tables/" + t.schema + "." + t.name + ".sql";
    assert path == target + "/Tables" + "/" + (t.schema + "." + t.name + ".sql");
    InDirectoryAppend(target + "/Tables", t.schema + "." + t.name + ".sql");
    FileWrite(path, t.script)
  }

  /** `$"{targetPath}/StoredProcedures/{storedProcedure.Schema}.{storedProcedure.Name}.sql"`. */
  function ProcedureFile(target: string, p: SqlObject): (f: FileWrite)
    ensures InDirectory(f.path, target + "/StoredProcedures") && f.lines == p.script
  {
    var path := target + "/StoredProcedures/" + p.schema + "." + p.name + ".sql";
    assert path == target + "/StoredProcedures" + "/" + (p.schema + "." + p.name + ".sql");
    InDirectoryAppend(target + "/StoredProcedures", p.schema + "." + p.name + ".sql");
    FileWrite(path, p.script)
  }

  /** `GenerateSchema`: `$"{targetPath}/Schemas/{schemaName}.sql"`, holding the bare schema name. */
  function SchemaFile(target: string, schema: string): (f: FileWrite)
    ensures InDirectory(f.path, target + "/Schemas") && f.lines == [schema]
  {
    var path := target + "/Schemas/" + schema + ".sql";
    assert path == target + "/Schemas" + "/" + (schema + ".sql");
    InDirectoryAppend(target + "/Schemas", schema + ".sql");
    FileWrite(path, [schema])
  }

  function SchemaFiles(target: string, schemas: seq<string>): (r: seq<FileWrite>)
    ensures |r| == |schemas|
    ensures forall j :: 0 <= j < |schemas| ==> r[j] == SchemaFile(target, schemas[j])
  {
    if schemas == [] then [] else [SchemaFile(target, schemas[0])] + SchemaFiles(target, schemas[1..])
  }

  lemma SchemaFilesSnoc(target: string, schemas: seq<string>, i: nat)
    requires i < |schemas|
    ensures SchemaFiles(target, schemas[..i + 1]) == SchemaFiles(target, schemas[..i]) + [SchemaFile(target, schemas[i])]
  {
  }

  // ---------------------------------------------------------------------------
  // The foreign-key walk (`GenerateTableContent`)

  lemma VisitShrinks(keys: set<string>, visited: set<string>, x: string)
    requires x !in visited
    ensures |keys - (visited + {x})| == if x in keys then |keys - visited| - 1 else |keys - visited|
  {
    if x in keys {
      assert keys - visited == (keys - (visited + {x})) + {x};
    } else {
      assert keys - (visited + {x}) == keys - visited;
    }
  }

  lemma GrowShrinks(keys: set<string>, visited: set<string>, visited': set<string>)
    requires visited <= visited'
    ensures |keys - visited'| <= |keys - visited|
  {
    var a, b := keys - visited', keys - visited;
    assert b == a + (b - a);
  }

  lemma ParentKeyInside(db: Database, t: SqlObject, i: nat)
    requires t in db.tables.Values && i < |t.foreignKeys|
    ensures ParentKey(t.foreignKeys[i]) in ParentKeys(db)
  {
    assert t.foreignKeys[i] in t.foreignKeys;
  }

  /** A parent key always has a `.`, so looking it up never throws. */
  lemma ParentKeyLookup(db: Database, fk: ForeignKey)
    ensures LookupTable(db, ParentKey(fk)).Done?
  {
    var key := ParentKey(fk);
    assert key[|fk.referencedTableSchema| + 2] == '.';
  }

  lemma ParentsVisitedStep(fks: seq<ForeignKey>, i: nat, v1: set<string>, v2: set<string>)
    requires i < |fks| && ParentKey(fks[i]) in v1 && v1 <= v2
    requires forall j :: i + 1 <= j < |fks| ==> ParentKey(fks[j]) in v2
    ensures forall j :: i <= j < |fks| ==> ParentKey(fks[j]) in v2
  {
  }

  /** `GenerateTableContent(tableName, ...)` from state `st`: the reference ends up visited,
      and the call throws exactly when the reference is new and has no `.`, in which case
      nothing but `visited` changed. */
  function WalkTable(db: Database, target: string, tableName: string, st: Export): (r: Walk)
    ensures st.visited <= r.state.visited && tableName in r.state.visited
    ensures r.threw <==> tableName !in st.visited && LookupTable(db, tableName).Threw?
    ensures r.threw ==> r.state == st.(visited := st.visited + {tableName}) && r.emitted == []
    decreases |ParentKeys(db) - st.visited|, if tableName in ParentKeys(db) then 0 else 1, 0
  {
    if tableName in st.visited then Walk(st, [], false)
    else
      var st1 := st.(visited := st.visited + {tableName});
      match LookupTable(db, tableName)
      case Threw(_) => Walk(st1, [], true)
      case Done(None) => Walk(st1, [], false)
      case Done(Some(t)) =>
        var st2 := st1.(schemas := st1.schemas + {t.schema});
        VisitShrinks(ParentKeys(db), st.visited, tableName);
        var parents := WalkParents(db, target, t, 0, st2);
        if parents.threw then parents
        else Walk(parents.state.(written := parents.state.written + [TableFile(target, t)]),
                  parents.emitted + [tableName], false)
  }

  /** The `for` loop over the foreign keys of `t`, from key `i` on: it never throws and
      leaves every parent key visited. */
  function WalkParents(db: Database, target: string, t: SqlObject, i: nat, st: Export): (r: Walk)
    requires t in db.tables.Values && i <= |t.foreignKeys|
    ensures !r.threw
    ensures st.visited <= r.state.visited
    ensures forall j :: i <= j < |t.foreignKeys| ==> ParentKey(t.foreignKeys[j]) in r.state.visited
    decreases |ParentKeys(db) - st.visited|, 0, |t.foreignKeys| - i
  {
    if i == |t.foreignKeys| then Walk(st, [], false)
    else
      ParentKeyInside(db, t, i);
      ParentKeyLookup(db, t.foreignKeys[i]);
      var w := WalkTable(db, target, ParentKey(t.foreignKeys[i]), st);
      if w.threw then w
      else
        GrowShrinks(ParentKeys(db), st.visited, w.state.visited);
        var rest := WalkParents(db, target, t, i + 1, w.state);
        ParentsVisitedStep(t.foreignKeys, i, w.state.visited, rest.state.visited);
        Walk(rest.state, w.emitted + rest.emitted, rest.threw)
  }

  /** One unfolding of `WalkTable` on a new reference that names table `t`. */
  lemma WalkTableFound(db: Database, target: string, tableName: string, st: Export, t: SqlObject)
    requires tableName !in st.visited && LookupTable(db, tableName) == Done(Some(t))
    ensures t in db.tables.Values
    ensures var parents := WalkParents(db, target, t, 0,
                             st.(visited := st.visited + {tableName}, schemas := st.schemas + {t.schema}));
            WalkTable(db, target, tableName, st) ==
              Walk(parents.state.(written := parents.state.written + [TableFile(target, t)]),
                   parents.emitted + [tableName], false)
  {
  }

  /** The cases of `WalkTable` that do not recurse. */
  lemma WalkTableShallow(db: Database, target: string, tableName: string, st: Export)
    ensures tableName in st.visited ==> WalkTable(db, target, tableName, st) == Walk(st, [], false)
    ensures tableName !in st.visited && LookupTable(db, tableName) == Done(None) ==>
              WalkTable(db, target, tableName, st) == Walk(st.(visited := st.visited + {tableName}), [], false)
  {
  }

  /** One unfolding of `WalkParents` at key `i`. */
  lemma WalkParentsStep(db: Database, target: string, t: SqlObject, i: nat, st: Export)
    requires t in db.tables.Values && i < |t.foreignKeys|
    ensures var w := WalkTable(db, target, ParentKey(t.foreignKeys[i]), st);
            var rest := WalkParents(db, target, t, i + 1, w.state);
            !w.threw && WalkParents(db, target, t, i, st) == Walk(rest.state, w.emitted + rest.emitted, false)
  {
    ParentKeyLookup(db, t.foreignKeys[i]);
  }

  // ---------------------------------------------------------------------------
  // What a walk guarantees

  /** `after` only adds to `visited` and only appends to the log. */
  ghost predicate Grows(before: Export, after: Export) {
    && before.visited <= after.visited
    && |before.written| <= |after.written|
    && after.written[..|before.written|] == before.written
  }

  /** `log` holds the table files of `keys`, one each, in the same order. */
  ghost predicate TableFilesOf(db: Database, target: string, keys: seq<string>, log: seq<FileWrite>) {
    && |keys| == |log|
    && forall j :: 0 <= j < |keys| ==>
         Resolve(db, keys[j]).Some? && log[j] == TableFile(target, Resolve(db, keys[j]).value)
  }

  /** Reference definition: the table files of the references that name a table, in order. */
  ghost function TableFiles(db: Database, target: string, keys: seq<string>): seq<FileWrite> {
    if keys == [] then []
    else
      (match Resolve(db, keys[0])
       case None => []
       case Some(t) => [TableFile(target, t)]) + TableFiles(db, target, keys[1..])
  }

  lemma {:induction false} TableFilesOfList(db: Database, target: string, keys: seq<string>, log: seq<FileWrite>)
    requires TableFilesOf(db, target, keys, log)
    ensures log == TableFiles(db, target, keys)
  {
    if keys != [] {
      TableFilesOfList(db, target, keys[1..], log[1..]);
      assert log == [log[0]] + log[1..];
    }
  }

  ghost function SchemasOf(db: Database, keys: seq<string>): set<string> {
    set k | k in keys && Resolve(db, k).Some? :: Resolve(db, k).value.schema
  }

  /** The walk appended exactly the table files of the references it emitted, and added
      exactly their schemas. */
  ghost predicate Logs(db: Database, target: string, st: Export, r: Walk) {
    && Grows(st, r.state)
    && TableFilesOf(db, target, r.emitted, r.state.written[|st.written|..])
    && r.state.schemas == st.schemas + SchemasOf(db, r.emitted)
  }

  /** Each emitted reference is emitted once and was newly visited. */
  ghost predicate EmitsNew(visited: set<string>, r: Walk) {
    && Distinct(r.emitted)
    && forall k :: k in r.emitted ==> k in r.state.visited && k !in visited
  }

  /** Every newly visited reference that names a table was emitted. */
  ghost predicate EmitsAll(db: Database, visited: set<string>, r: Walk) {
    forall k :: k in r.state.visited && k !in visited && Resolve(db, k).Some? ==> k in r.emitted
  }

  /** What every walk from `st` guarantees: it appends exactly the table files of the
      references it emitted and adds exactly their schemas; it emits each reference at most
      once and only references it newly visited; and it emits every newly visited
      reference that names a table. */
  ghost predicate WalkInvariant(db: Database, target: string, st: Export, r: Walk) {
    Logs(db, target, st, r) && EmitsNew(st.visited, r) && EmitsAll(db, st.visited, r)
  }

  lemma GrowsCompose(a: Export, b: Export, c: Export)
    requires Grows(a, b) && Grows(b, c)
    ensures Grows(a, c)
    ensures c.written[|a.written|..] == b.written[|a.written|..] + c.written[|b.written|..]
  {
    assert c.written[..|a.written|] == c.written[..|b.written|][..|a.written|];
    assert c.written == b.written + c.written[|b.written|..];
  }

  lemma TableFilesAppend(db: Database, target: string, k1: seq<string>, l1: seq<FileWrite>, k2: seq<string>, l2: seq<FileWrite>)
    requires TableFilesOf(db, target, k1, l1) && TableFilesOf(db, target, k2, l2)
    ensures TableFilesOf(db, target, k1 + k2, l1 + l2)
  {
    var keys, log := k1 + k2, l1 + l2;
    forall j | 0 <= j < |keys|
      ensures Resolve(db, keys[j]).Some? && log[j] == TableFile(target, Resolve(db, keys[j]).value)
    {
      if j < |k1| {
        assert keys[j] == k1[j] && log[j] == l1[j];
      } else {
        assert keys[j] == k2[j - |k1|] && log[j] == l2[j - |k1|];
      }
    }
  }

  lemma SchemasOfAppend(db: Database, a: seq<string>, b: seq<string>)
    ensures SchemasOf(db, a + b) == SchemasOf(db, a) + SchemasOf(db, b)
  {
    assert forall k :: k in a + b <==> k in a || k in b;
  }

  lemma LogsCompose(db: Database, target: string, st: Export, w: Walk, rest: Walk)
    requires Logs(db, target, st, w) && Logs(db, target, w.state, rest)
    ensures Logs(db, target, st, Walk(rest.state, w.emitted + rest.emitted, rest.threw))
  {
    GrowsCompose(st, w.state, rest.state);
    TableFilesAppend(db, target, w.emitted, w.state.written[|st.written|..],
                     rest.emitted, rest.state.written[|w.state.written|..]);
    SchemasOfAppend(db, w.emitted, rest.emitted);
  }

  lemma DistinctSnoc<T>(s: seq<T>, x: T)
    requires Distinct(s) && x !in s
    ensures Distinct(s + [x])
  {
    var e := s + [x];
    forall i, j | 0 <= i < j < |e| ensures e[i] != e[j] {
      assert e[i] == s[i];
      if j < |s| {
        assert e[j] == s[j];
      }
    }
  }

  lemma EmitsCompose(db: Database, v0: set<string>, w: Walk, rest: Walk)
    requires EmitsNew(v0, w) && EmitsNew(w.state.visited, rest)
    requires EmitsAll(db, v0, w) && EmitsAll(db, w.state.visited, rest)
    requires v0 <= w.state.visited <= rest.state.visited
    ensures EmitsNew(v0, Walk(rest.state, w.emitted + rest.emitted, rest.threw))
    ensures EmitsAll(db, v0, Walk(rest.state, w.emitted + rest.emitted, rest.threw))
  {
    var e := w.emitted + rest.emitted;
    forall i, j | 0 <= i < j < |e| ensures e[i] != e[j] {
      if j < |w.emitted| {
        assert e[i] == w.emitted[i] && e[j] == w.emitted[j];
      } else if i >= |w.emitted| {
        assert e[i] == rest.emitted[i - |w.emitted|] && e[j] == rest.emitted[j - |w.emitted|];
      } else {
        assert e[i] == w.emitted[i] && e[i] in w.emitted;
        assert e[j] == rest.emitted[j - |w.emitted|] && e[j] in rest.emitted;
      }
    }
  }

  /** The found case for the log: the parents' walk, then the table's own file. */
  lemma FoundTableLogs(db: Database, target: string, tableName: string, t: SqlObject, st: Export, parents: Walk)
    requires Resolve(db, tableName) == Some(t)
    requires Logs(db, target, st.(visited := st.visited + {tableName}, schemas := st.schemas + {t.schema}), parents)
    ensures Logs(db, target, st,
              Walk(parents.state.(written := parents.state.written + [TableFile(target, t)]), parents.emitted + [tableName], false))
  {
    var st2 := st.(visited := st.visited + {tableName}, schemas := st.schemas + {t.schema});
    var after := parents.state.(written := parents.state.written + [TableFile(target, t)]);
    GrowsCompose(st2, parents.state, after);
    TableFilesAppend(db, target, parents.emitted, parents.state.written[|st.written|..], [tableName], [TableFile(target, t)]);
    SchemasOfAppend(db, parents.emitted, [tableName]);
    assert SchemasOf(db, [tableName]) == {t.schema};
  }

  /** The found case for the emitted references. */
  lemma FoundTableEmits(db: Database, target: string, tableName: string, t: SqlObject, st: Export, parents: Walk)
    requires tableName !in st.visited && st.visited + {tableName} <= parents.state.visited
    requires EmitsNew(st.visited + {tableName}, parents) && EmitsAll(db, st.visited + {tableName}, parents)
    ensures var r := Walk(parents.state.(written := parents.state.written + [TableFile(target, t)]), parents.emitted + [tableName], false);
            EmitsNew(st.visited, r) && EmitsAll(db, st.visited, r)
  {
    DistinctSnoc(parents.emitted, tableName);
  }

  /** Every walk from one reference appends exactly the table files of what it emitted. */
  lemma {:induction false} WalkTableLogs(db: Database, target: string, tableName: string, st: Export)
    ensures Logs(db, target, st, WalkTable(db, target, tableName, st))
    decreases |ParentKeys(db) - st.visited|, if tableName in ParentKeys(db) then 0 else 1, 0
  {
    assert SchemasOf(db, []) == {};
    if tableName !in st.visited {
      match LookupTable(db, tableName)
      case Threw(_) =>
      case Done(None) =>
      case Done(Some(t)) =>
        var st2 := st.(visited := st.visited + {tableName}, schemas := st.schemas + {t.schema});
        WalkTableFound(db, target, tableName, st, t);
        VisitShrinks(ParentKeys(db), st.visited, tableName);
        WalkParentsLogs(db, target, t, 0, st2);
        FoundTableLogs(db, target, tableName, t, st, WalkParents(db, target, t, 0, st2));
    }
  }

  lemma {:induction false} WalkParentsLogs(db: Database, target: string, t: SqlObject, i: nat, st: Export)
    requires t in db.tables.Values && i <= |t.foreignKeys|
    ensures Logs(db, target, st, WalkParents(db, target, t, i, st))
    decreases |ParentKeys(db) - st.visited|, 0, |t.foreignKeys| - i
  {
    if i == |t.foreignKeys| {
      assert SchemasOf(db, []) == {};
    } else {
      ParentKeyInside(db, t, i);
      WalkParentsStep(db, target, t, i, st);
      var w := WalkTable(db, target, ParentKey(t.foreignKeys[i]), st);
      WalkTableLogs(db, target, ParentKey(t.foreignKeys[i]), st);
      GrowShrinks(ParentKeys(db), st.visited, w.state.visited);
      WalkParentsLogs(db, target, t, i + 1, w.state);
      LogsCompose(db, target, st, w, WalkParents(db, target, t, i + 1, w.state));
    }
  }

  /** Every walk from one reference emits each newly visited table once, and nothing else. */
  lemma {:induction false} WalkTableEmits(db: Database, target: string, tableName: string, st: Export)
    ensures EmitsNew(st.visited, WalkTable(db, target, tableName, st))
    ensures EmitsAll(db, st.visited, WalkTable(db, target, tableName, st))
    decreases |ParentKeys(db) - st.visited|, if tableName in ParentKeys(db) then 0 else 1, 0
  {
    if tableName !in st.visited {
      match LookupTable(db, tableName)
      case Threw(_) =>
      case Done(None) =>
        assert Resolve(db, tableName).None?;
      case Done(Some(t)) =>
        var st2 := st.(visited := st.visited + {tableName}, schemas := st.schemas + {t.schema});
        WalkTableFound(db, target, tableName, st, t);
        VisitShrinks(ParentKeys(db), st.visited, tableName);
        WalkParentsEmits(db, target, t, 0, st2);
        FoundTableEmits(db, target, tableName, t, st, WalkParents(db, target, t, 0, st2));
    }
  }

  lemma {:induction false} WalkParentsEmits(db: Database, target: string, t: SqlObject, i: nat, st: Export)
    requires t in db.tables.Values && i <= |t.foreignKeys|
    ensures EmitsNew(st.visited, WalkParents(db, target, t, i, st))
    ensures EmitsAll(db, st.visited, WalkParents(db, target, t, i, st))
    decreases |ParentKeys(db) - st.visited|, 0, |t.foreignKeys| - i
  {
    if i < |t.foreignKeys| {
      ParentKeyInside(db, t, i);
      WalkParentsStep(db, target, t, i, st);
      var w := WalkTable(db, target, ParentKey(t.foreignKeys[i]), st);
      WalkTableEmits(db, target, ParentKey(t.foreignKeys[i]), st);
      GrowShrinks(ParentKeys(db), st.visited, w.state.visited);
      WalkParentsEmits(db, target, t, i + 1, w.state);
      EmitsCompose(db, st.visited, w, WalkParents(db, target, t, i + 1, w.state));
    }
  }

  /** The walk invariant holds for every walk from one reference. */
  lemma WalkTableInvariant(db: Database, target: string, tableName: string, st: Export)
    ensures WalkInvariant(db, target, st, WalkTable(db, target, tableName, st))
  {
    WalkTableLogs(db, target, tableName, st);
    WalkTableEmits(db, target, tableName, st);
  }

  lemma WalkParentsInvariant(db: Database, target: string, t: SqlObject, st: Export)
    requires t in db.tables.Values
    ensures WalkInvariant(db, target, st, WalkParents(db, target, t, 0, st))
  {
    WalkParentsLogs(db, target, t, 0, st);
    WalkParentsEmits(db, target, t, 0, st);
  }

  /** Parents first: when a new reference names a table, its file is the walk's last write,
      and every parent reachable through one of its foreign keys that was neither visited
      before nor the table itself has had its file written earlier in the same walk. */
  lemma ParentsWrittenFirst(db: Database, target: string, tableName: string, st: Export, t: SqlObject, fk: ForeignKey)
    requires tableName !in st.visited && LookupTable(db, tableName) == Done(Some(t))
    requires fk in t.foreignKeys
    requires ParentKey(fk) !in st.visited && ParentKey(fk) != tableName
    requires Resolve(db, ParentKey(fk)).Some?
    ensures var r := WalkTable(db, target, tableName, st);
      && !r.threw
      && |r.state.written| > |st.written|
      && r.state.written[|r.state.written| - 1] == TableFile(target, t)
      && TableFile(target, Resolve(db, ParentKey(fk)).value) in r.state.written[|st.written|..|r.state.written| - 1]
  {
    var r := WalkTable(db, target, tableName, st);
    var st2 := st.(visited := st.visited + {tableName}, schemas := st.schemas + {t.schema});
    WalkTableFound(db, target, tableName, st, t);
    var parents := WalkParents(db, target, t, 0, st2);
    WalkParentsInvariant(db, target, t, st2);
    var j :| 0 <= j < |t.foreignKeys| && t.foreignKeys[j] == fk;
    var key := ParentKey(fk);
    assert key in parents.emitted;
    var p :| 0 <= p < |parents.emitted| && parents.emitted[p] == key;
    var n0 := |st.written|;
    assert r.state.written == parents.state.written + [TableFile(target, t)];
    assert parents.state.written[n0..][p] == TableFile(target, Resolve(db, key).value);
    assert r.state.written[n0..|r.state.written| - 1] == parents.state.written[n0..];
  }

  // ---------------------------------------------------------------------------
  // Consequences for concrete catalogs

  /** Deduplication is on the raw reference: a table listed once as `dbo.X` and once as
      `[dbo].[X]` is scripted twice. */
  lemma RawReferencesNotMerged(db: Database, target: string, k1: string, k2: string, t: SqlObject, st: Export)
    requires k1 != k2 && k1 !in st.visited && k2 !in st.visited
    requires LookupTable(db, k1) == Done(Some(t)) && LookupTable(db, k2) == Done(Some(t))
    requires t.foreignKeys == []
    ensures WalkSeeds(db, target, [k1, k2], 0, st).state.written == st.written + [TableFile(target, t), TableFile(target, t)]
  {
    var seeds := [k1, k2];
    WalkTableFound(db, target, k1, st, t);
    var st1 := st.(visited := st.visited + {k1}, schemas := st.schemas + {t.schema});
    assert WalkParents(db, target, t, 0, st1) == Walk(st1, [], false);
    var w := WalkTable(db, target, k1, st);
    assert w.state.written == st.written + [TableFile(target, t)];
    WalkTableFound(db, target, k2, w.state, t);
    var st2 := w.state.(visited := w.state.visited + {k2}, schemas := w.state.schemas + {t.schema});
    assert WalkParents(db, target, t, 0, st2) == Walk(st2, [], false);
    var w2 := WalkTable(db, target, k2, w.state);
    assert WalkSeeds(db, target, seeds, 1, w.state).state == w2.state;
  }

  /** Two tables whose foreign keys reference each other: the walk from the first stops at
      the cycle, writing the second table's file and then the first's. */
  lemma CycleWrittenOnce(db: Database, target: string, a: SqlObject, b: SqlObject, st: Export)
    requires a.foreignKeys == [ForeignKey(b.schema, b.name)] && b.foreignKeys == [ForeignKey(a.schema, a.name)]
    requires LookupTable(db, ParentKey(ForeignKey(a.schema, a.name))) == Done(Some(a))
    requires LookupTable(db, ParentKey(ForeignKey(b.schema, b.name))) == Done(Some(b))
    requires ParentKey(ForeignKey(a.schema, a.name)) != ParentKey(ForeignKey(b.schema, b.name))
    requires ParentKey(ForeignKey(a.schema, a.name)) !in st.visited && ParentKey(ForeignKey(b.schema, b.name)) !in st.visited
    ensures var r := WalkTable(db, target, ParentKey(ForeignKey(a.schema, a.name)), st);
      && r.emitted == [ParentKey(ForeignKey(b.schema, b.name)), ParentKey(ForeignKey(a.schema, a.name))]
      && r.state.written == st.written + [TableFile(target, b), TableFile(target, a)]
  {
    var ka, kb := ParentKey(ForeignKey(a.schema, a.name)), ParentKey(ForeignKey(b.schema, b.name));
    WalkTableFound(db, target, ka, st, a);
    var st2 := st.(visited := st.visited + {ka}, schemas := st.schemas + {a.schema});
    WalkParentsStep(db, target, a, 0, st2);
    WalkTableFound(db, target, kb, st2, b);
    var st3 := st2.(visited := st2.visited + {kb}, schemas := st2.schemas + {b.schema});
    WalkParentsStep(db, target, b, 0, st3);
    WalkTableShallow(db, target, ka, st3);
  }

  // ---------------------------------------------------------------------------
  // Which references a walk visits

  /** Every key in `ParentKeys` has a `.`, so looking it up never throws. */
  lemma ParentKeysDone(db: Database, key: string)
    requires key in ParentKeys(db)
    ensures LookupTable(db, key).Done?
  {
    var t, fk :| t in db.tables.Values && fk in t.foreignKeys && key == ParentKey(fk);
    ParentKeyLookup(db, fk);
  }

  /** A walk visits nothing but its own reference and parent keys. */
  lemma {:induction false} WalkTableVisits(db: Database, target: string, tableName: string, st: Export)
    ensures WalkTable(db, target, tableName, st).state.visited <= st.visited + {tableName} + ParentKeys(db)
    decreases |ParentKeys(db) - st.visited|, if tableName in ParentKeys(db) then 0 else 1, 0
  {
    if tableName !in st.visited {
      match LookupTable(db, tableName)
      case Threw(_) =>
      case Done(None) =>
      case Done(Some(t)) =>
        var st2 := st.(visited := st.visited + {tableName}, schemas := st.schemas + {t.schema});
        WalkTableFound(db, target, tableName, st, t);
        VisitShrinks(ParentKeys(db), st.visited, tableName);
        WalkParentsVisits(db, target, t, 0, st2);
    }
  }

  lemma {:induction false} WalkParentsVisits(db: Database, target: string, t: SqlObject, i: nat, st: Export)
    requires t in db.tables.Values && i <= |t.foreignKeys|
    ensures WalkParents(db, target, t, i, st).state.visited <= st.visited + ParentKeys(db)
    decreases |ParentKeys(db) - st.visited|, 0, |t.foreignKeys| - i
  {
    if i < |t.foreignKeys| {
      ParentKeyInside(db, t, i);
      WalkParentsStep(db, target, t, i, st);
      var w := WalkTable(db, target, ParentKey(t.foreignKeys[i]), st);
      WalkTableVisits(db, target, ParentKey(t.foreignKeys[i]), st);
      GrowShrinks(ParentKeys(db), st.visited, w.state.visited);
      WalkParentsVisits(db, target, t, i + 1, w.state);
    }
  }

  // ---------------------------------------------------------------------------
  // The database loop (`GenerateSqlFiles`)

  /** `foreach (var table in d.Tables) GenerateTableContent(...)`, from seed `i` on. */
  function WalkSeeds(db: Database, target: string, seeds: seq<string>, i: nat, st: Export): (r: Walk)
    requires i <= |seeds|
    ensures st.visited <= r.state.visited
    ensures !r.threw ==> forall j :: i <= j < |seeds| ==> seeds[j] in r.state.visited
    decreases |seeds| - i
  {
    if i == |seeds| then Walk(st, [], false)
    else
      var w := WalkTable(db, target, seeds[i], st);
      if w.threw then w
      else
        var rest := WalkSeeds(db, target, seeds, i + 1, w.state);
        Walk(rest.state, w.emitted + rest.emitted, rest.threw)
  }

  lemma InvariantCompose(db: Database, target: string, st: Export, w: Walk, rest: Walk)
    requires WalkInvariant(db, target, st, w) && WalkInvariant(db, target, w.state, rest)
    ensures WalkInvariant(db, target, st, Walk(rest.state, w.emitted + rest.emitted, rest.threw))
  {
    LogsCompose(db, target, st, w, rest);
    EmitsCompose(db, st.visited, w, rest);
  }

  /** The table loop of one database: the walk invariant holds even when a reference
      throws, and when none throws every listed reference ends up visited. */
  lemma {:induction false} WalkSeedsInvariant(db: Database, target: string, seeds: seq<string>, i: nat, st: Export)
    requires i <= |seeds|
    ensures var r := WalkSeeds(db, target, seeds, i, st);
      && WalkInvariant(db, target, st, r)
      && (!r.threw ==> forall j :: i <= j < |seeds| ==> seeds[j] in r.state.visited)
    decreases |seeds| - i
  {
    if i == |seeds| {
      assert SchemasOf(db, []) == {};
    } else {
      var w := WalkTable(db, target, seeds[i], st);
      WalkTableInvariant(db, target, seeds[i], st);
      if !w.threw {
        var rest := WalkSeeds(db, target, seeds, i + 1, w.state);
        WalkSeedsInvariant(db, target, seeds, i + 1, w.state);
        InvariantCompose(db, target, st, w, rest);
      }
    }
  }

  /** The table loop visits nothing but the listed references and parent keys. */
  lemma {:induction false} WalkSeedsVisits(db: Database, target: string, seeds: seq<string>, i: nat, st: Export)
    requires i <= |seeds|
    ensures forall k :: k in WalkSeeds(db, target, seeds, i, st).state.visited ==>
              k in st.visited || k in seeds[i..] || k in ParentKeys(db)
    decreases |seeds| - i
  {
    if i < |seeds| {
      var w := WalkTable(db, target, seeds[i], st);
      WalkTableVisits(db, target, seeds[i], st);
      assert seeds[i] in seeds[i..];
      if !w.threw {
        WalkSeedsVisits(db, target, seeds, i + 1, w.state);
        assert forall k :: k in seeds[i + 1..] ==> k in seeds[i..];
      }
    }
  }

  /** The table loop throws exactly when some listed reference that was not visited
      beforehand has no `.`. */
  lemma {:induction false} WalkSeedsThrows(db: Database, target: string, seeds: seq<string>, i: nat, st: Export)
    requires i <= |seeds|
    ensures WalkSeeds(db, target, seeds, i, st).threw <==>
              exists j :: i <= j < |seeds| && seeds[j] !in st.visited && LookupTable(db, seeds[j]).Threw?
    decreases |seeds| - i
  {
    if i < |seeds| {
      var w := WalkTable(db, target, seeds[i], st);
      if !w.threw {
        WalkSeedsThrows(db, target, seeds, i + 1, w.state);
        WalkTableVisits(db, target, seeds[i], st);
        if exists j :: i <= j < |seeds| && seeds[j] !in st.visited && LookupTable(db, seeds[j]).Threw? {
          var j :| i <= j < |seeds| && seeds[j] !in st.visited && LookupTable(db, seeds[j]).Threw?;
          if seeds[j] in ParentKeys(db) {
            ParentKeysDone(db, seeds[j]);
          }
          assert i + 1 <= j && seeds[j] !in w.state.visited;
        }
      }
    }
  }

  /** The stored procedure `database.StoredProcedures[split[1].StripBracket(), split[0].StripBracket()]`. */
  function LookupProcedure(db: Database, name: string): Outcome<Option<SqlObject>> {
    Lookup(db.storedProcedures, name)
  }

  function ResolveProcedure(db: Database, name: string): Option<SqlObject> {
    match LookupProcedure(db, name)
    case Done(p) => p
    case Threw(_) => None
  }

  /** `GenerateStoredProcedures`: a missing procedure changes nothing; a found one adds
      its schema and writes its file. */
  function GenerateProcedure(db: Database, target: string, name: string, st: Export): (r: Step)
    ensures r.state.visited == st.visited
    ensures r.threw <==> '.' !in name
    ensures r.threw ==> r.state == st
    ensures Grows(st, r.state) && |r.state.written| <= |st.written| + 1
  {
    match LookupProcedure(db, name)
    case Threw(_) => Step(st, true)
    case Done(None) => Step(st, false)
    case Done(Some(p)) =>
      Step(st.(schemas := st.schemas + {p.schema}, written := st.written + [ProcedureFile(target, p)]), false)
  }

  /** The procedure loop, from name `i` on. */
  function GenerateProcedures(db: Database, target: string, names: seq<string>, i: nat, st: Export): (r: Step)
    requires i <= |names|
    ensures r.state.visited == st.visited
    ensures |r.state.written| <= |st.written| + |names| - i
    decreases |names| - i
  {
    if i == |names| then Step(st, false)
    else
      var s := GenerateProcedure(db, target, names[i], st);
      if s.threw then s else GenerateProcedures(db, target, names, i + 1, s.state)
  }

  /** Reference definition: the files of the listed procedures that exist, in list order. */
  ghost function ProcedureFiles(db: Database, target: string, names: seq<string>): seq<FileWrite> {
    if names == [] then []
    else
      (match ResolveProcedure(db, names[0])
       case None => []
       case Some(p) => [ProcedureFile(target, p)]) + ProcedureFiles(db, target, names[1..])
  }

  ghost function ProcedureSchemas(db: Database, names: seq<string>): set<string> {
    set n | n in names && ResolveProcedure(db, n).Some? :: ResolveProcedure(db, n).value.schema
  }

  /** The procedure loop throws exactly when a listed name has no `.`, and never visits. */
  lemma {:induction false} GenerateProceduresThrows(db: Database, target: string, names: seq<string>, i: nat, st: Export)
    requires i <= |names|
    ensures GenerateProcedures(db, target, names, i, st).state.visited == st.visited
    ensures GenerateProcedures(db, target, names, i, st).threw <==>
              exists j :: i <= j < |names| && LookupProcedure(db, names[j]).Threw?
    decreases |names| - i
  {
    if i < |names| {
      var s := GenerateProcedure(db, target, names[i], st);
      if !s.threw {
        GenerateProceduresThrows(db, target, names, i + 1, s.state);
      }
    }
  }

  /** Without an exception, the procedure loop appends the files of the existing procedures
      in list order and adds their schemas. */
  lemma GenerateProceduresFiles(db: Database, target: string, names: seq<string>, i: nat, st: Export)
    requires i <= |names|
    requires !GenerateProcedures(db, target, names, i, st).threw
    ensures var r := GenerateProcedures(db, target, names, i, st);
      && r.state.written == st.written + ProcedureFiles(db, target, names[i..])
      && r.state.schemas == st.schemas + ProcedureSchemas(db, names[i..])
  {
    GenerateProceduresWritten(db, target, names, i, st);
    GenerateProceduresSchemas(db, target, names, i, st);
  }

  lemma {:induction false} GenerateProceduresWritten(db: Database, target: string, names: seq<string>, i: nat, st: Export)
    requires i <= |names|
    requires !GenerateProcedures(db, target, names, i, st).threw
    ensures GenerateProcedures(db, target, names, i, st).state.written == st.written + ProcedureFiles(db, target, names[i..])
    decreases |names| - i
  {
    if i == |names| {
      assert names[i..] == [];
    } else {
      var s := GenerateProcedure(db, target, names[i], st);
      GenerateProcedureFound(db, target, names[i], st);
      GenerateProceduresWritten(db, target, names, i + 1, s.state);
      var rest := names[i..];
      assert rest[0] == names[i] && rest[1..] == names[i + 1..];
    }
  }

  lemma {:induction false} GenerateProceduresSchemas(db: Database, target: string, names: seq<string>, i: nat, st: Export)
    requires i <= |names|
    requires !GenerateProcedures(db, target, names, i, st).threw
    ensures GenerateProcedures(db, target, names, i, st).state.schemas == st.schemas + ProcedureSchemas(db, names[i..])
    decreases |names| - i
  {
    if i == |names| {
      assert names[i..] == [];
    } else {
      var s := GenerateProcedure(db, target, names[i], st);
      GenerateProcedureFound(db, target, names[i], st);
      GenerateProceduresSchemas(db, target, names, i + 1, s.state);
      var rest := names[i..];
      assert rest[0] == names[i] && rest[1..] == names[i + 1..];
      ProcedureSchemasCons(db, rest);
    }
  }

  /** One procedure that does not throw: its file and schema, if it exists. */
  lemma GenerateProcedureFound(db: Database, target: string, name: string, st: Export)
    requires !GenerateProcedure(db, target, name, st).threw
    ensures var s := GenerateProcedure(db, target, name, st);
      && s.state.visited == st.visited
      && s.state.written == st.written +
           (match ResolveProcedure(db, name) case None => [] case Some(p) => [ProcedureFile(target, p)])
      && s.state.schemas == st.schemas +
           (match ResolveProcedure(db, name) case None => {} case Some(p) => {p.schema})
  {
  }

  lemma ProcedureSchemasCons(db: Database, names: seq<string>)
    requires names != []
    ensures ProcedureSchemas(db, names) ==
              (match ResolveProcedure(db, names[0]) case None => {} case Some(p) => {p.schema})
              + ProcedureSchemas(db, names[1..])
  {
    assert forall n :: n in names <==> n == names[0] || n in names[1..];
  }

  /** `$"{targetPath}/{d.GeneratedName}"`: the folder override when it is set, else the name. */
  function DatabaseFolder(targetPath: string, d: LegacyConfig.Database): (r: string)
    ensures !IsNullOrEmpty(d.folderName) ==> r == targetPath + "/" + d.folderName.value
    ensures IsNullOrEmpty(d.folderName) ==> r == targetPath + "/" + Interp(d.name)
  {
    targetPath + "/" + Interp(LegacyConfig.GeneratedName(d))
  }

  /** The directories `CreateDatabaseFolder` creates. It picks the folder name inline, and
      the choice agrees with `GeneratedName`: the three directories sit in `DatabaseFolder`. */
  function CreateDatabaseFolder(targetPath: string, d: LegacyConfig.Database): (dirs: seq<string>)
    ensures dirs == [DatabaseFolder(targetPath, d) + "/Tables", DatabaseFolder(targetPath, d) + "/StoredProcedures",
                     DatabaseFolder(targetPath, d) + "/Schemas"]
  {
    var databaseName := if IsNullOrEmpty(d.folderName) then d.name else d.folderName;
    var databasePath := targetPath + "/" + Interp(databaseName);
    [databasePath + "/Tables", databasePath + "/StoredProcedures", databasePath + "/Schemas"]
  }

  /** The table, procedure and schema files of a database land in the three directories
      `CreateDatabaseFolder` created, although the two compute the folder name separately. */
  lemma FilesInCreatedFolders(targetPath: string, d: LegacyConfig.Database, t: SqlObject, schema: string)
    ensures var dirs := CreateDatabaseFolder(targetPath, d);
            var folder := DatabaseFolder(targetPath, d);
            && InDirectory(TableFile(folder, t).path, dirs[0])
            && InDirectory(ProcedureFile(folder, t).path, dirs[1])
            && InDirectory(SchemaFile(folder, schema).path, dirs[2])
  {
    var folder := DatabaseFolder(targetPath, d);
    assert folder + "/Tables/" + t.schema + "." + t.name + ".sql" == (folder + "/Tables") + "/" + (t.schema + "." + t.name + ".sql");
    InDirectoryAppend(folder + "/Tables", t.schema + "." + t.name + ".sql");
    assert folder + "/StoredProcedures/" + t.schema + "." + t.name + ".sql" == (folder + "/StoredProcedures") + "/" + (t.schema + "." + t.name + ".sql");
    InDirectoryAppend(folder + "/StoredProcedures", t.schema + "." + t.name + ".sql");
    assert folder + "/Schemas/" + schema + ".sql" == (folder + "/Schemas") + "/" + (schema + ".sql");
    InDirectoryAppend(folder + "/Schemas", schema + ".sql");
  }

  /** One iteration of the database loop; `order` is the enumeration order of a HashSet. */
  function ExportDatabase(server: Server, targetPath: string, d: LegacyConfig.Database, st: Export,
                          order: set<string> -> seq<string>): (r: Step)
    ensures st.visited <= r.state.visited
    ensures FindDatabase(server, d.name).None? ==> !r.threw && r.state.written == st.written
  {
    var st0 := st.(schemas := {});
    match FindDatabase(server, d.name)
    case None => Step(st0, false)
    case Some(db) =>
      var folder := DatabaseFolder(targetPath, d);
      var tables := WalkSeeds(db, folder, d.tables, 0, st0);
      if tables.threw then Step(tables.state, true)
      else
        var procs := GenerateProcedures(db, folder, d.storedProcedures, 0, tables.state);
        if procs.threw then procs
        else Step(procs.state.(written := procs.state.written + SchemaFiles(folder, order(procs.state.schemas))), false)
  }

  /** A database the server does not have is skipped: nothing is written. */
  lemma AbsentDatabaseSkipped(server: Server, targetPath: string, d: LegacyConfig.Database, st: Export,
                              order: set<string> -> seq<string>)
    requires FindDatabase(server, d.name).None?
    ensures ExportDatabase(server, targetPath, d, st, order) == Step(st.(schemas := {}), false)
  {
  }

  /** A database that exports without an exception: the table files come first, one per
      newly visited listed or parent table and none for a reference visited before (in this
      or an earlier database); then the files of the listed procedures that exist; then one
      file per schema of this database's tables and procedures, holding the bare name. */
  lemma ExportDatabaseFiles(server: Server, targetPath: string, d: LegacyConfig.Database, st: Export,
                            order: set<string> -> seq<string>, db: Database)
    requires FindDatabase(server, d.name) == Some(db)
    requires !ExportDatabase(server, targetPath, d, st, order).threw
    ensures var folder := DatabaseFolder(targetPath, d);
      var tables := WalkSeeds(db, folder, d.tables, 0, st.(schemas := {}));
      var r := ExportDatabase(server, targetPath, d, st, order);
      var schemas := SchemasOf(db, tables.emitted) + ProcedureSchemas(db, d.storedProcedures);
      && !tables.threw
      && r.state.visited == tables.state.visited
      && (forall k :: k in tables.emitted ==> k !in st.visited)
      && r.state.written == st.written + TableFiles(db, folder, tables.emitted)
                            + ProcedureFiles(db, folder, d.storedProcedures) + SchemaFiles(folder, order(schemas))
      && r.state.schemas == schemas
  {
    var folder := DatabaseFolder(targetPath, d);
    var st0 := st.(schemas := {});
    var tables := WalkSeeds(db, folder, d.tables, 0, st0);
    WalkSeedsInvariant(db, folder, d.tables, 0, st0);
    var tw := tables.state.written[|st.written|..];
    TableFilesOfList(db, folder, tables.emitted, tw);
    assert tables.state.written == st.written + tw;
    var procs := GenerateProcedures(db, folder, d.storedProcedures, 0, tables.state);
    GenerateProceduresThrows(db, folder, d.storedProcedures, 0, tables.state);
    GenerateProceduresFiles(db, folder, d.storedProcedures, 0, tables.state);
    assert d.storedProcedures[0..] == d.storedProcedures;
    ExportDatabaseFound(server, targetPath, d, st, order, db);
    var pf := ProcedureFiles(db, folder, d.storedProcedures);
    var schemas := SchemasOf(db, tables.emitted) + ProcedureSchemas(db, d.storedProcedures);
    assert procs.state.written == st.written + tw + pf;
    assert procs.state.schemas == schemas;
  }

  /** One unfolding of `ExportDatabase` on a database the server has. */
  lemma ExportDatabaseFound(server: Server, targetPath: string, d: LegacyConfig.Database, st: Export,
                            order: set<string> -> seq<string>, db: Database)
    requires FindDatabase(server, d.name) == Some(db)
    ensures var folder := DatabaseFolder(targetPath, d);
      var tables := WalkSeeds(db, folder, d.tables, 0, st.(schemas := {}));
      var procs := GenerateProcedures(db, folder, d.storedProcedures, 0, tables.state);
      ExportDatabase(server, targetPath, d, st, order) ==
        if tables.threw then Step(tables.state, true)
        else if procs.threw then procs
        else Step(procs.state.(written := procs.state.written + SchemaFiles(folder, order(procs.state.schemas))), false)
  {
  }

  /** The schema files of one database: one per schema, each holding the bare schema name. */
  lemma SchemaFilesOnePerSchema(folder: string, order: seq<string>, schemas: set<string>)
    requires IsListing(order, schemas)
    ensures |SchemaFiles(folder, order)| == |schemas|
    ensures forall s :: s in schemas <==> SchemaFile(folder, s) in SchemaFiles(folder, order)
    ensures forall f :: f in SchemaFiles(folder, order) ==> |f.lines| == 1 && f.path == folder + "/Schemas/" + f.lines[0] + ".sql"
  {
    var files := SchemaFiles(folder, order);
    ListingLength(order, schemas);
    forall s ensures s in schemas <==> SchemaFile(folder, s) in files {
      if SchemaFile(folder, s) in files {
        var j :| 0 <= j < |files| && files[j] == SchemaFile(folder, s);
        assert order[j] in order;
      }
      if s in schemas {
        var j :| 0 <= j < |order| && order[j] == s;
        assert files[j] == SchemaFile(folder, s);
      }
    }
  }

  /** The database loop, from entry `i` on. */
  function ExportAll(server: Server, targetPath: string, dbs: seq<LegacyConfig.Database>, i: nat, st: Export,
                     order: set<string> -> seq<string>): (r: Step)
    requires i <= |dbs|
    ensures st.visited <= r.state.visited
    decreases |dbs| - i
  {
    if i == |dbs| then Step(st, false)
    else
      var s := ExportDatabase(server, targetPath, dbs[i], st, order);
      if s.threw then s else ExportAll(server, targetPath, dbs, i + 1, s.state, order)
  }

  /** The whole run: nothing happens without a configuration; otherwise the databases are
      exported in order with one `visited` set shared by all of them. */
  function RunExport(config: Option<LegacyConfig.SqlGenConfig>, currentDirectory: string, server: Server,
                  log: seq<FileWrite>, order: set<string> -> seq<string>): (r: Step)
    ensures config.None? ==> !r.threw && r.state.written == log
  {
    match config
    case None => Step(Export({}, {}, log), false)
    case Some(c) =>
      ExportAll(server, currentDirectory + "/" + Interp(c.targetPath), c.databases, 0, Export({}, {}, log), order)
  }

  lemma {:induction false} ProceduresGrow(db: Database, target: string, names: seq<string>, i: nat, st: Export)
    requires i <= |names|
    ensures Grows(st, GenerateProcedures(db, target, names, i, st).state)
    decreases |names| - i
  {
    if i < |names| {
      var s := GenerateProcedure(db, target, names[i], st);
      if !s.threw {
        ProceduresGrow(db, target, names, i + 1, s.state);
        GrowsCompose(st, s.state, GenerateProcedures(db, target, names, i + 1, s.state).state);
      }
    }
  }

  /** One database only adds to `visited` and only appends to the log, whatever it throws. */
  lemma ExportDatabaseGrows(server: Server, targetPath: string, d: LegacyConfig.Database, st: Export,
                            order: set<string> -> seq<string>)
    ensures Grows(st, ExportDatabase(server, targetPath, d, st, order).state)
  {
    var st0 := st.(schemas := {});
    match FindDatabase(server, d.name)
    case None =>
    case Some(db) =>
      var folder := DatabaseFolder(targetPath, d);
      WalkSeedsInvariant(db, folder, d.tables, 0, st0);
      var tables := WalkSeeds(db, folder, d.tables, 0, st0);
      if !tables.threw {
        ProceduresGrow(db, folder, d.storedProcedures, 0, tables.state);
        var procs := GenerateProcedures(db, folder, d.storedProcedures, 0, tables.state);
        GrowsCompose(st0, tables.state, procs.state);
        if !procs.threw {
          var s := ExportDatabase(server, targetPath, d, st, order);
          assert s.state.written[..|procs.state.written|] == procs.state.written;
          GrowsCompose(st0, procs.state, s.state);
        }
      }
  }

  /** The whole database loop only adds to `visited` and only appends to the log. */
  lemma {:induction false} ExportAllGrows(server: Server, targetPath: string, dbs: seq<LegacyConfig.Database>, i: nat,
                                          st: Export, order: set<string> -> seq<string>)
    requires i <= |dbs|
    ensures Grows(st, ExportAll(server, targetPath, dbs, i, st, order).state)
    decreases |dbs| - i
  {
    if i < |dbs| {
      var s := ExportDatabase(server, targetPath, dbs[i], st, order);
      ExportDatabaseGrows(server, targetPath, dbs[i], st, order);
      if !s.threw {
        ExportAllGrows(server, targetPath, dbs, i + 1, s.state, order);
        GrowsCompose(st, s.state, ExportAll(server, targetPath, dbs, i + 1, s.state, order).state);
      }
    }
  }

  class ExportRun {
    var visited: set<string>
    var schemas: set<string>
    var written: seq<FileWrite>

    function State(): Export
      reads this
    {
      Export(visited, schemas, written)
    }

    constructor (log: seq<FileWrite>)
      ensures State() == Export({}, {}, log)
    {
      visited, schemas, written := {}, {}, log;
    }

    /** `GenerateTableContent`; returns true when an exception escaped. */
    method GenerateTableContent(tableName: string, db: Database, target: string) returns (threw: bool)
      modifies this
      ensures State() == WalkTable(db, target, tableName, old(State())).state
      ensures threw == WalkTable(db, target, tableName, old(State())).threw
      decreases |ParentKeys(db) - visited|, if tableName in ParentKeys(db) then 0 else 1, 0
    {
      WalkTableShallow(db, target, tableName, State());
      if tableName in visited {
        return false;
      }
      VisitShrinks(ParentKeys(db), visited, tableName);
      visited := visited + {tableName};
      var table := LookupTable(db, tableName);
      if table.Threw? {
        return true;
      }
      if table.value.None? {
        return false;
      }
      WalkTableFound(db, target, tableName, old(State()), table.value.value);
      ScriptTable(table.value.value, db, target);
      threw := false;
    }

    /** The rest of `GenerateTableContent` once the table is found: record its schema, walk
        its foreign keys (a parent key always has a `.`, so no call here throws), then
        write its file. */
    method ScriptTable(t: SqlObject, db: Database, target: string)
      requires t in db.tables.Values
      modifies this
      ensures var parents := WalkParents(db, target, t, 0, old(State()).(schemas := old(schemas) + {t.schema}));
              State() == parents.state.(written := parents.state.written + [TableFile(target, t)])
      decreases |ParentKeys(db) - visited|, 0, 1
    {
      schemas := schemas + {t.schema};
      ghost var goal := WalkParents(db, target, t, 0, State());
      var i := 0;
      while i < |t.foreignKeys|
        invariant 0 <= i <= |t.foreignKeys|
        invariant old(visited) <= visited
        invariant WalkParents(db, target, t, i, State()).state == goal.state
      {
        GrowShrinks(ParentKeys(db), old(visited), visited);
        ParentKeyInside(db, t, i);
        WalkParentsStep(db, target, t, i, State());
        var threw := GenerateTableContent(ParentKey(t.foreignKeys[i]), db, target);
        assert !threw;
        i := i + 1;
      }
      written := written + [TableFile(target, t)];
    }

    /** `foreach (var table in d.Tables) GenerateTableContent(...)`. */
    method ScriptTables(seeds: seq<string>, db: Database, target: string) returns (threw: bool)
      modifies this
      ensures State() == WalkSeeds(db, target, seeds, 0, old(State())).state
      ensures threw == WalkSeeds(db, target, seeds, 0, old(State())).threw
    {
      ghost var goal := WalkSeeds(db, target, seeds, 0, State());
      var i := 0;
      while i < |seeds|
        invariant 0 <= i <= |seeds|
        invariant WalkSeeds(db, target, seeds, i, State()).state == goal.state
        invariant WalkSeeds(db, target, seeds, i, State()).threw == goal.threw
      {
        threw := GenerateTableContent(seeds[i], db, target);
        if threw {
          return;
        }
        i := i + 1;
      }
      threw := false;
    }

    /** `GenerateStoredProcedures`; returns true when an exception escaped. */
    method GenerateStoredProcedures(storedProcedureName: string, db: Database, target: string) returns (threw: bool)
      modifies this
      ensures State() == GenerateProcedure(db, target, storedProcedureName, old(State())).state
      ensures threw == GenerateProcedure(db, target, storedProcedureName, old(State())).threw
    {
      var procedure := LookupProcedure(db, storedProcedureName);
      if procedure.Threw? {
        return true;
      }
      if procedure.value.None? {
        return false;
      }
      var p := procedure.value.value;
      schemas := schemas + {p.schema};
      written := written + [ProcedureFile(target, p)];
      threw := false;
    }

    /** `foreach (var sp in d.StoredProcedures) GenerateStoredProcedures(...)`. */
    method ScriptStoredProcedures(names: seq<string>, db: Database, target: string) returns (threw: bool)
      modifies this
      ensures State() == GenerateProcedures(db, target, names, 0, old(State())).state
      ensures threw == GenerateProcedures(db, target, names, 0, old(State())).threw
    {
      ghost var goal := GenerateProcedures(db, target, names, 0, State());
      var i := 0;
      while i < |names|
        invariant 0 <= i <= |names|
        invariant GenerateProcedures(db, target, names, i, State()) == goal
      {
        threw := GenerateStoredProcedures(names[i], db, target);
        if threw {
          return;
        }
        i := i + 1;
      }
      threw := false;
    }

    /** `GenerateSchema`: writes a file holding the bare schema name. */
    method GenerateSchema(schemaName: string, target: string)
      modifies this
      ensures State() == old(State()).(written := old(written) + [SchemaFile(target, schemaName)])
    {
      written := written + [SchemaFile(target, schemaName)];
    }

    /** `foreach (var schema in schemas) GenerateSchema(...)`, in the order the set enumerates. */
    method ScriptSchemas(target: string, order: set<string> -> seq<string>)
      modifies this
      ensures State() == old(State()).(written := old(written) + SchemaFiles(target, order(old(schemas))))
    {
      var list := order(schemas);
      var i := 0;
      while i < |list|
        invariant 0 <= i <= |list|
        invariant visited == old(visited) && schemas == old(schemas)
        invariant written == old(written) + SchemaFiles(target, list[..i])
      {
        SchemaFilesSnoc(target, list, i);
        GenerateSchema(list[i], target);
        i := i + 1;
      }
      assert list[..i] == list;
    }

    /** The body of the database loop for one configured database. */
    method GenerateDatabase(d: LegacyConfig.Database, server: Server, targetPath: string,
                            order: set<string> -> seq<string>) returns (threw: bool)
      modifies this
      ensures Step(State(), threw) == ExportDatabase(server, targetPath, d, old(State()), order)
    {
      schemas := {};
      var database := FindDatabase(server, d.name);
      if database.None? {
        return false;
      }
      var db := database.value;
      var folder := DatabaseFolder(targetPath, d);
      threw := ScriptTables(d.tables, db, folder);
      if threw {
        return;
      }
      threw := ScriptStoredProcedures(d.storedProcedures, db, folder);
      if threw {
        return;
      }
      ScriptSchemas(folder, order);
    }

    /** `GenerateSqlFiles` once the configuration is read (`None` when it is invalid): one
        `visited` set for the whole run, a fresh `schemas` set per database. */
    method GenerateSqlFiles(config: Option<LegacyConfig.SqlGenConfig>, currentDirectory: string, server: Server,
                            order: set<string> -> seq<string>) returns (threw: bool)
      modifies this
      ensures Step(State(), threw) == RunExport(config, currentDirectory, server, old(written), order)
    {
      visited, schemas := {}, {};
      if config.None? {
        return false;
      }
      var c := config.value;
      var targetPath := currentDirectory + "/" + Interp(c.targetPath);
      ghost var goal := ExportAll(server, targetPath, c.databases, 0, State(), order);
      var k := 0;
      while k < |c.databases|
        invariant 0 <= k <= |c.databases|
        invariant ExportAll(server, targetPath, c.databases, k, State(), order) == goal
      {
        threw := GenerateDatabase(c.databases[k], server, targetPath, order);
        if threw {
          return;
        }
        k := k + 1;
      }
      threw := false;
    }
  }
}
