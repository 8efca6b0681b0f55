/** The SQLite connection as the rest of the program sees it. The engine's
    answers are not modelled: they are given by an `Engine`, a set of
    functions of the statements run so far and the statement at hand,
    so every property below holds whatever the engine does. */
module Storage {
  import opened Wrappers
  import opened Row
  import opened Query

  /** The answer to `execute`: the number of rows changed, or the engine's
      error text (`e.to_string()`). */
  datatype ExecReply = Affected(rows: nat) | ExecFailed(message: string)

  /** The column names of a row and its cells, one per name. */
  type RowData = r: (seq<string>, seq<Cell>) | |r.0| == |r.1| witness ([], [])

  /** The answer to `prepare` and `query_map`: an error, or the rows as the
      engine steps through them, each read or failed (`None`). */
  datatype QueryReply = Rows(steps: seq<Option<RowData>>) | QueryFailed(message: string)

  /** One use of the connection. */
  datatype Call = Run(run: Prepared) | Read(read: Prepared)

  datatype Engine = Engine(
    open: string -> Option<string>,
    exec: (seq<Call>, Prepared) -> ExecReply,
    query: (seq<Call>, Prepared) -> QueryReply)

  class Connection {
    /** The database file, `<name>.db`. */
    const path: string
    const engine: Engine
    /** Every statement sent to the engine, in order. */
    var log: seq<Call>

    constructor (path: string, engine: Engine)
      ensures this.path == path && this.engine == engine && log == []
    {
      this.path := path;
      this.engine := engine;
      log := [];
    }

    /** `Connection::open`: fails with the engine's message when the file
        cannot be opened. */
    static method Open(path: string, engine: Engine) returns (r: Result<Connection, string>)
      ensures r.Failure? <==> engine.open(path).Some?
      ensures r.Failure? ==> r.error == engine.open(path).value
      ensures r.Success? ==> fresh(r.value) && r.value.path == path && r.value.engine == engine && r.value.log == []
    {
      var failure := engine.open(path);
      if failure.Some? {
        return Failure(failure.value);
      }
      var c := new Connection(path, engine);
      r := Success(c);
    }

    /** `conn.execute(sql, params)` */
    method Execute(p: Prepared) returns (r: ExecReply)
      modifies this
      ensures r == engine.exec(old(log), p)
      ensures log == old(log) + [Run(p)]
    {
      r := engine.exec(log, p);
      log := log + [Run(p)];
    }

    /** `conn.prepare(sql)` followed by `query_map(params, ...)` */
    method QueryRows(p: Prepared) returns (r: QueryReply)
      modifies this
      ensures r == engine.query(old(log), p)
      ensures log == old(log) + [Read(p)]
    {
      r := engine.query(log, p);
      log := log + [Read(p)];
    }
  }
}
