/** The server catalog (SQL Server Management Objects) as plain values: a server maps
    database names to databases, a database maps `(name, schema)` to its tables,
    stored procedures and views, and every object knows its URN, its foreign keys
    and the script lines the renderer produces for it. File output is a log. */
module Catalog {
  import opened DotNet

  /** An SMO `Urn`: a node with a type, its attributes (`Name`, `Schema`, ...) and a
      parent; `NoUrn` is the null reference above the root. */
  datatype Urn = NoUrn | Urn(kind: string, attributes: map<string, string>, parent: Urn)

  /** `urn.GetAttribute(key)`: null when the node has no such attribute. */
  function GetAttribute(urn: Urn, key: string): (r: Option<string>)
    requires urn.Urn?
    ensures r.Some? <==> key in urn.attributes
  {
    if key in urn.attributes then Some(urn.attributes[key]) else None
  }

  /** A foreign key, seen from the referencing (child) table. */
  datatype ForeignKey = ForeignKey(referencedTableSchema: string, referencedTable: string)

  /** A table, stored procedure or view; `foreignKeys` is empty for the last two.
      `script` is what `Script(options)` renders under the options the caller fixes. */
  datatype SqlObject = SqlObject(
    schema: string,
    name: string,
    urn: Urn,
    foreignKeys: seq<ForeignKey>,
    script: seq<string>)

  /** The indexer key of SMO collections: `Tables[name, schema]`. */
  type ObjectKey = (string, string)

  datatype Database = Database(
    name: string,
    tables: map<ObjectKey, SqlObject>,
    storedProcedures: map<ObjectKey, SqlObject>,
    views: map<ObjectKey, SqlObject>)

  datatype Server = Server(databases: map<string, Database>)

  /** `collection[name, schema]`: null when the catalog has no such object. */
  function Find(objects: map<ObjectKey, SqlObject>, name: string, schema: string): (r: Option<SqlObject>)
    ensures r.Some? <==> (name, schema) in objects
    ensures r.Some? ==> r.value in objects.Values
  {
    if (name, schema) in objects then Some(objects[(name, schema)]) else None
  }

  /** `server.Databases[name]`; a null name finds nothing. */
  function FindDatabase(server: Server, name: Option<string>): (r: Option<Database>)
    ensures r.Some? <==> name.Some? && name.value in server.databases
  {
    if name.Some? && name.value in server.databases then Some(server.databases[name.value]) else None
  }

  /** One file created (or overwritten) with the given lines. */
  datatype FileWrite = FileWrite(path: string, lines: seq<string>)

  /** `objects[split[1].StripBracket(), split[0].StripBracket()]` for `split` the `.`-pieces
      of a `schema.name` reference: it throws (`split[1]` out of range) exactly when the
      reference has no `.`, and what it finds belongs to `objects`. */
  function Lookup(objects: map<ObjectKey, SqlObject>, reference: string): (r: Outcome<Option<SqlObject>>)
    ensures r.Threw? <==> '.' !in reference
    ensures r.Threw? ==> r.exception == IndexOutOfRange
    ensures r.Done? && r.value.Some? ==> r.value.value in objects.Values
  {
    CountPositive(reference, '.');
    SplitLength(reference, '.');
    var split := Split(reference, '.');
    if |split| < 2 then Threw(IndexOutOfRange)
    else Done(Find(objects, StripBracket(split[1]), StripBracket(split[0])))
  }

  /** `schema.name` and `[schema].[name]` look up the same object, the one keyed
      `(name, schema)`, for names free of dots and brackets. */
  lemma LookupIgnoresBrackets(objects: map<ObjectKey, SqlObject>, schema: string, name: string)
    requires '.' !in schema && '[' !in schema && ']' !in schema
    requires '.' !in name && '[' !in name && ']' !in name
    ensures Lookup(objects, schema + "." + name) == Done(Find(objects, name, schema))
    ensures Lookup(objects, "[" + schema + "].[" + name + "]") == Done(Find(objects, name, schema))
  {
    SplitOfSepFree(name, '.');
    SplitPrefix(schema, name, '.');
    StripBracketUnchanged(schema);
    StripBracketUnchanged(name);
    var bs, bn := "[" + schema + "]", "[" + name + "]";
    assert "[" + schema + "].[" + name + "]" == bs + ['.'] + bn;
    assert '.' !in bs && '.' !in bn;
    SplitOfSepFree(bn, '.');
    SplitPrefix(bs, bn, '.');
    StripBracketWrapped(schema);
    StripBracketWrapped(name);
  }
}
