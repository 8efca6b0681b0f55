/** `EasyDB`: the server object that owns the connection and the list of
    tables exposed to the API. */
module Registry {
  import opened Wrappers
  import opened Strings
  import opened Json
  import opened Identifier
  import opened Sql
  import opened Query
  import opened Storage

  /** The database file for a database name. */
  function DbPath(name: string): (path: string)
    ensures |path| == |name| + 3 && path[..|name|] == name && path[|name|..] == ".db"
  {
    name + ".db"
  }

  /** The statement `create_table` runs for a table name and its column
      definitions. */
  function CreateStatement(table: string, columns: string): Prepared
  {
    Prepared(CreateTableSql(table, columns), [])
  }

  class EasyDb {
    const dbName: string
    const conn: Connection
    /** The tables whose routes the server mounts, in creation order. */
    var exposedTables: seq<string>

    /** Only names that pass the allow-list are ever exposed. */
    predicate Valid()
      reads this
    {
      AllValid(exposedTables)
    }

    constructor (name: string, conn: Connection)
      ensures dbName == name && this.conn == conn && exposedTables == [] && Valid()
    {
      dbName := name;
      this.conn := conn;
      exposedTables := [];
    }

    /** `EasyDB::init`: opens `<name>.db` and starts with no tables. */
    static method Init(name: string, engine: Engine) returns (r: Result<EasyDb, string>)
      ensures r.Failure? <==> engine.open(DbPath(name)).Some?
      ensures r.Failure? ==> r.error == engine.open(DbPath(name)).value
      ensures r.Success? ==> fresh(r.value) && fresh(r.value.conn) && r.value.Valid() &&
                             r.value.dbName == name && r.value.exposedTables == [] &&
                             r.value.conn.path == DbPath(name) && r.value.conn.engine == engine &&
                             r.value.conn.log == []
    {
      var connection := Connection.Open(DbPath(name), engine);
      if connection.Failure? {
        return Failure(connection.error);
      }
      var db := new EasyDb(name, connection.value);
      r := Success(db);
    }

    /** `EasyDB::create_table`: a name that fails the allow-list is refused
        before anything is sent to the engine; otherwise the `CREATE TABLE`
        statement is run and, when the engine accepts it, the name is
        appended to the exposed tables (again, if it is there already). */
    method CreateTable(tableName: string, columns: string) returns (r: Outcome<string>)
      requires Valid()
      modifies this, conn
      ensures Valid()
      ensures !IsValidIdentifier(tableName) ==>
                r == Fail("Invalid table name: " + tableName) &&
                exposedTables == old(exposedTables) && conn.log == old(conn.log)
      ensures IsValidIdentifier(tableName) ==>
                conn.log == old(conn.log) + [Run(CreateStatement(tableName, columns))]
      ensures IsValidIdentifier(tableName) ==>
                var reply := conn.engine.exec(old(conn.log), CreateStatement(tableName, columns));
                (reply.Affected? ==> r == Pass && exposedTables == old(exposedTables) + [tableName]) &&
                (reply.ExecFailed? ==> r == Fail(reply.message) && exposedTables == old(exposedTables))
    {
      if !IsValidIdentifier(tableName) {
        return Fail("Invalid table name: " + tableName);
      }
      var sql := "CREATE TABLE IF NOT EXISTS " + tableName + " (" + columns + ")";
      var reply := conn.Execute(Prepared(sql, []));
      if reply.ExecFailed? {
        return Fail(reply.message);
      }
      exposedTables := exposedTables + [tableName];
      r := Pass;
    }
  }

  // ---------------------------------------------------------------------
  // What the registry guarantees to the handlers

  /** A table the server exposes passed the allow-list when it was added. */
  lemma ExposedTableValid(db: EasyDb, t: string)
    requires db.Valid() && t in db.exposedTables
    ensures IsValidIdentifier(t)
  {
  }

  /** The `SELECT` an accepted GET builds on an exposed table reads back as
      a query of that table, with one `?` per value and inert text. */
  lemma ExposedGetSafe(db: EasyDb, t: string, params: QueryParams)
    requires db.Valid() && t in db.exposedTables && GetQuery(t, params).Success?
    ensures var p := GetQuery(t, params).value;
            Parse(p.sql).Some? && Parse(p.sql).value.Select? && Parse(p.sql).value.table == t &&
            Count(p.sql, '?') == |p.params| && Inert(p.sql)
  {
    ExposedTableValid(db, t);
    GetStatement(t, params);
  }

  /** The same for the `INSERT` of an accepted POST. */
  lemma ExposedPostSafe(db: EasyDb, t: string, payload: Json)
    requires db.Valid() && t in db.exposedTables && PostQuery(t, payload).Success?
    ensures var p := PostQuery(t, payload).value;
            Parse(p.sql) == Some(Insert(t, Keys(payload.fields))) &&
            Count(p.sql, '?') == |p.params| && Inert(p.sql)
  {
    ExposedTableValid(db, t);
    PostStatement(t, payload.fields);
  }

  /** The same for the `UPDATE` of an accepted PUT. */
  lemma ExposedPutSafe(db: EasyDb, t: string, id: Int32, payload: Json)
    requires db.Valid() && t in db.exposedTables && PutQuery(t, id, payload).Success?
    ensures var p := PutQuery(t, id, payload).value;
            Parse(p.sql) == Some(Update(t, Keys(payload.fields))) &&
            Count(p.sql, '?') == |p.params| && Inert(p.sql)
  {
    ExposedTableValid(db, t);
    PutStatement(t, id, payload.fields);
  }

  /** The same for the `DELETE` of any id. */
  lemma ExposedDeleteSafe(db: EasyDb, t: string, id: Int32)
    requires db.Valid() && t in db.exposedTables
    ensures var p := DeleteQuery(t, id);
            Parse(p.sql) == Some(Delete(t)) && Count(p.sql, '?') == |p.params| && Inert(p.sql)
  {
    ExposedTableValid(db, t);
    DeleteStatement(t, id);
  }
}
