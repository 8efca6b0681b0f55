/** The four request handlers: check the request, build the statement,
    send it to the engine and map the engine's answer to a status code and
    a JSON body. */
module Handlers {
  import opened Wrappers
  import opened Strings
  import opened Identifier
  import opened Json
  import opened Sql
  import opened Query
  import opened Row
  import opened Storage

  datatype Status = Ok | Created | BadRequest | NotFound | InternalServerError

  function Code(s: Status): int
  {
    match s
    case Ok => 200
    case Created => 201
    case BadRequest => 400
    case NotFound => 404
    case InternalServerError => 500
  }

  datatype Response = Response(status: Status, body: Json)

  /** `{"error": message}` */
  function ErrorBody(message: string): Json
  {
    Object([("error", Str(message))])
  }

  /** `{"status": "success", "message": message}` */
  function SuccessBody(message: string): Json
  {
    Object([("status", Str("success")), ("message", Str(message))])
  }

  /** Every response is an error object exactly when its code is 4xx or 5xx;
      a 2xx response is a success object or, for GET, an array of rows. */
  predicate Coherent(r: Response)
  {
    (Code(r.status) >= 400 <==> r.body.Object? && Get(r.body.fields, "error").Some?) &&
    (Code(r.status) >= 400 ==> r.body.Object? && Get(r.body.fields, "error").value.Str?) &&
    (Code(r.status) < 400 ==> r.body.Array? || (r.body.Object? && Get(r.body.fields, "status") == Some(Str("success"))))
  }

  /** A request refused before the engine is reached. */
  function Refused(r: Rejection): (resp: Response)
    ensures Code(resp.status) == 400 && Coherent(resp)
    ensures resp.body == ErrorBody(r.message)
  {
    Response(BadRequest, ErrorBody(r.message))
  }

  /** The answer to an UPDATE or DELETE: no row changed is 404, any other
      count 200, an engine error 500 with the engine's message. */
  function WriteOutcome(reply: ExecReply, done: string): (resp: Response)
    ensures Coherent(resp)
    ensures Code(resp.status) == 404 <==> reply == Affected(0)
    ensures Code(resp.status) == 200 <==> reply.Affected? && reply.rows > 0
    ensures Code(resp.status) == 500 <==> reply.ExecFailed?
    ensures reply.ExecFailed? ==> resp.body == ErrorBody(reply.message)
    ensures reply == Affected(0) ==> resp.body == ErrorBody("Record not found")
    ensures Code(resp.status) == 200 ==> resp.body == SuccessBody(done)
  {
    match reply
    case Affected(n) =>
      if n == 0 then Response(NotFound, ErrorBody("Record not found"))
      else Response(Ok, SuccessBody(done))
    case ExecFailed(message) => Response(InternalServerError, ErrorBody(message))
  }

  /** The answer to an INSERT: 201 whatever the count, 500 on an engine
      error. */
  function InsertOutcome(reply: ExecReply): (resp: Response)
    ensures Coherent(resp)
    ensures Code(resp.status) == 201 <==> reply.Affected?
    ensures Code(resp.status) == 500 <==> reply.ExecFailed?
    ensures reply.Affected? ==> resp.body == SuccessBody("Record created")
    ensures reply.ExecFailed? ==> resp.body == ErrorBody(reply.message)
  {
    match reply
    case Affected(_) => Response(Created, SuccessBody("Record created"))
    case ExecFailed(message) => Response(InternalServerError, ErrorBody(message))
  }

  /** `mapped.filter_map(|r| r.ok())`: the rows read, converted, with the
      failed ones left out. */
  function Collected(steps: seq<Option<RowData>>, decode: seq<byte> -> Option<string>): seq<Json>
  {
    if |steps| == 0 then []
    else
      var n := |steps| - 1;
      Collected(steps[..n], decode) +
      (if steps[n].Some? then [Object(RowFields(steps[n].value.0, steps[n].value.1, decode))] else [])
  }

  /** The number of rows `Collected` keeps. */
  function ReadCount(steps: seq<Option<RowData>>): nat
  {
    if |steps| == 0 then 0 else ReadCount(steps[..|steps| - 1]) + (if steps[|steps| - 1].Some? then 1 else 0)
  }

  /** The answer to a SELECT: 200 with the rows, or 500 with the engine's
      message. */
  function ListOutcome(reply: QueryReply, decode: seq<byte> -> Option<string>): (resp: Response)
    ensures Coherent(resp)
    ensures Code(resp.status) == 200 <==> reply.Rows?
    ensures Code(resp.status) == 500 <==> reply.QueryFailed?
    ensures reply.QueryFailed? ==> resp.body == ErrorBody(reply.message)
    ensures reply.Rows? ==> resp.body == Array(Collected(reply.steps, decode))
  {
    match reply
    case Rows(steps) => Response(Ok, Array(Collected(steps, decode)))
    case QueryFailed(message) => Response(InternalServerError, ErrorBody(message))
  }

  /** One row object per row read, and none for a row whose read failed:
      every row is in the answer exactly when no read failed. */
  lemma {:induction false} CollectedCount(steps: seq<Option<RowData>>, decode: seq<byte> -> Option<string>)
    ensures |Collected(steps, decode)| == ReadCount(steps) <= |steps|
    ensures ReadCount(steps) == |steps| <==> forall i :: 0 <= i < |steps| ==> steps[i].Some?
    decreases |steps|
  {
    if |steps| > 0 {
      var n := |steps| - 1;
      CollectedCount(steps[..n], decode);
      if ReadCount(steps) == |steps| {
        forall i | 0 <= i < |steps| ensures steps[i].Some? {
          if i < n {
            assert steps[..n][i] == steps[i];
          }
        }
      }
      if forall i :: 0 <= i < |steps| ==> steps[i].Some? {
        assert forall i :: 0 <= i < n ==> steps[..n][i].Some?;
      }
    }
  }

  /** Every object in the answer is the conversion of a row that was read. */
  lemma {:induction false} CollectedFrom(steps: seq<Option<RowData>>, decode: seq<byte> -> Option<string>, k: nat)
    requires k < |Collected(steps, decode)|
    ensures exists i :: 0 <= i < |steps| && steps[i].Some? &&
                        Collected(steps, decode)[k] == Object(RowFields(steps[i].value.0, steps[i].value.1, decode))
    decreases |steps|
  {
    var n := |steps| - 1;
    var prefix := Collected(steps[..n], decode);
    if k < |prefix| {
      CollectedFrom(steps[..n], decode, k);
      var i :| 0 <= i < |steps[..n]| && steps[..n][i].Some? &&
               prefix[k] == Object(RowFields(steps[..n][i].value.0, steps[..n][i].value.1, decode));
      assert steps[..n][i] == steps[i];
      assert Collected(steps, decode)[k] == prefix[k];
    } else {
      assert Collected(steps, decode)[k] == Object(RowFields(steps[n].value.0, steps[n].value.1, decode));
    }
  }

  /** Every row that was read is in the answer, after exactly the rows
      read before it: nothing is dropped, repeated or reordered. */
  lemma {:induction false} CollectedAt(steps: seq<Option<RowData>>, decode: seq<byte> -> Option<string>, i: nat)
    requires i < |steps| && steps[i].Some?
    ensures ReadCount(steps[..i]) < |Collected(steps, decode)|
    ensures Collected(steps, decode)[ReadCount(steps[..i])] ==
            Object(RowFields(steps[i].value.0, steps[i].value.1, decode))
    decreases |steps|
  {
    var n := |steps| - 1;
    var prefix := Collected(steps[..n], decode);
    CollectedCount(steps[..i], decode);
    if i < n {
      assert steps[..n][i] == steps[i] && steps[..n][..i] == steps[..i];
      CollectedAt(steps[..n], decode, i);
      assert Collected(steps, decode)[ReadCount(steps[..i])] == prefix[ReadCount(steps[..i])];
    } else {
      assert steps[..i] == steps[..n];
      CollectedCount(steps[..n], decode);
    }
  }

  // ---------------------------------------------------------------------
  // The handlers

  /** `handle_get` */
  method HandleGet(conn: Connection, table: string, params: QueryParams, decode: seq<byte> -> Option<string>)
    returns (resp: Response)
    modifies conn
    ensures GetQuery(table, params).Failure? ==>
              resp == Refused(GetQuery(table, params).error) && conn.log == old(conn.log)
    ensures GetQuery(table, params).Success? ==>
              var p := GetQuery(table, params).value;
              conn.log == old(conn.log) + [Read(p)] &&
              resp == ListOutcome(conn.engine.query(old(conn.log), p), decode)
  {
    var built := BuildGet(table, params);
    if built.Failure? {
      return Refused(built.error);
    }
    var reply := conn.QueryRows(built.value);
    if reply.QueryFailed? {
      return Response(InternalServerError, ErrorBody(reply.message));
    }
    var steps := reply.steps;
    var results: seq<Json> := [];
    for i := 0 to |steps|
      invariant results == Collected(steps[..i], decode)
      invariant conn.log == old(conn.log) + [Read(built.value)]
    {
      assert steps[..i + 1][..i] == steps[..i];
      if steps[i].Some? {
        var row := steps[i].value;
        var value := RowToJson(row.0, row.1, decode);
        results := results + [value];
      }
    }
    assert steps[..|steps|] == steps;
    resp := Response(Ok, Array(results));
  }

  /** `handle_post` */
  method HandlePost(conn: Connection, table: string, payload: Json) returns (resp: Response)
    modifies conn
    ensures PostQuery(table, payload).Failure? ==>
              resp == Refused(PostQuery(table, payload).error) && conn.log == old(conn.log)
    ensures PostQuery(table, payload).Success? ==>
              var p := PostQuery(table, payload).value;
              conn.log == old(conn.log) + [Run(p)] &&
              resp == InsertOutcome(conn.engine.exec(old(conn.log), p))
  {
    var built := BuildPost(table, payload);
    if built.Failure? {
      return Refused(built.error);
    }
    var reply := conn.Execute(built.value);
    resp := InsertOutcome(reply);
  }

  /** `handle_put` */
  method HandlePut(conn: Connection, table: string, id: Int32, payload: Json) returns (resp: Response)
    modifies conn
    ensures PutQuery(table, id, payload).Failure? ==>
              resp == Refused(PutQuery(table, id, payload).error) && conn.log == old(conn.log)
    ensures PutQuery(table, id, payload).Success? ==>
              var p := PutQuery(table, id, payload).value;
              conn.log == old(conn.log) + [Run(p)] &&
              resp == WriteOutcome(conn.engine.exec(old(conn.log), p), "Record updated")
  {
    var built := BuildPut(table, id, payload);
    if built.Failure? {
      return Refused(built.error);
    }
    var reply := conn.Execute(built.value);
    resp := WriteOutcome(reply, "Record updated");
  }

  /** `handle_delete` */
  method HandleDelete(conn: Connection, table: string, id: Int32) returns (resp: Response)
    modifies conn
    ensures conn.log == old(conn.log) + [Run(DeleteQuery(table, id))]
    ensures resp == WriteOutcome(conn.engine.exec(old(conn.log), DeleteQuery(table, id)), "Record deleted")
  {
    var reply := conn.Execute(DeleteQuery(table, id));
    resp := WriteOutcome(reply, "Record deleted");
  }
}
