/** The configuration read by `GeneratorService` (src/Siganberg.SqlGen/SqlGenConfig.cs):
    the same as `LegacyConfig` plus a list of views per database. */
module SqlGenConfig {
  import opened DotNet

  /** `SqlGenConfig.Database`. The selections are bracketed `schema.name` strings. */
  datatype Database = Database(
    name: Option<string>,
    tables: seq<string>,
    storedProcedures: seq<string>,
    folderName: Option<string>,
    views: seq<string>)

  /** The root `SqlGenConfig`; connection settings are carried but not interpreted. */
  datatype Config = Config(
    server: Option<string>,
    username: Option<string>,
    password: Option<string>,
    targetPath: Option<string>,
    databases: seq<Database>)

  /** `new SqlGenConfig()`: no databases; every other property null. */
  function NewConfig(): (c: Config)
    ensures c.databases == []
    ensures c.server.None? && c.username.None? && c.password.None? && c.targetPath.None?
  {
    Config(None, None, None, None, [])
  }

  /** `new Database()`: empty tables, stored procedures and views; null name and folder. */
  function NewDatabase(): (d: Database)
    ensures d.tables == [] && d.storedProcedures == [] && d.views == []
    ensures d.name.None? && d.folderName.None?
  {
    Database(None, [], [], None, [])
  }

  /** `Database.GeneratedName`: the folder override unless it is null or empty, else the name. */
  function GeneratedName(d: Database): (r: Option<string>)
    ensures !IsNullOrEmpty(d.folderName) ==> r == d.folderName
    ensures IsNullOrEmpty(d.folderName) ==> r == d.name
  {
    if IsNullOrEmpty(d.folderName) then d.name else d.folderName
  }
}
