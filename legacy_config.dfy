/** The configuration read by the original top-level exporter (src/SqlGenConfig.cs):
    one entry per database with its tables and stored procedures, no views. */
module LegacyConfig {
  import opened DotNet

  /** `SqlGenConfig.Database`. The selections are bracketed `schema.name` strings. */
  datatype Database = Database(
    name: Option<string>,
    tables: seq<string>,
    storedProcedures: seq<string>,
    folderName: Option<string>)

  /** The root `SqlGenConfig`; connection settings are carried but not interpreted. */
  datatype SqlGenConfig = SqlGenConfig(
    server: Option<string>,
    username: Option<string>,
    password: Option<string>,
    targetPath: Option<string>,
    databases: seq<Database>)

  /** `new SqlGenConfig()`: no databases; every other property null. */
  function NewSqlGenConfig(): (c: SqlGenConfig)
    ensures c.databases == []
    ensures c.server.None? && c.username.None? && c.password.None? && c.targetPath.None?
  {
    SqlGenConfig(None, None, None, None, [])
  }

  /** `new Database()`: empty selections, null name and folder. */
  function NewDatabase(): (d: Database)
    ensures d.tables == [] && d.storedProcedures == []
    ensures d.name.None? && d.folderName.None?
  {
    Database(None, [], [], None)
  }

  /** `Database.GeneratedName`: the folder override unless it is null or empty, else the name. */
  function GeneratedName(d: Database): (r: Option<string>)
    ensures !IsNullOrEmpty(d.folderName) ==> r == d.folderName
    ensures IsNullOrEmpty(d.folderName) ==> r == d.name
  {
    if IsNullOrEmpty(d.folderName) then d.name else d.folderName
  }

  /** The generated folder name is blank only when both the override and the name are. */
  lemma GeneratedNameBlank(d: Database)
    ensures IsNullOrEmpty(GeneratedName(d)) <==> IsNullOrEmpty(d.folderName) && IsNullOrEmpty(d.name)
  {
  }
}
