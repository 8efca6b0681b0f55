/** The part of each request handler that runs before the storage engine
    is reached: it turns the request's table, query parameters or JSON
    body into SQL text and the values bound to its `?` marks, or rejects
    the request with a client error. */
module Query {
  import opened Wrappers
  import opened Strings
  import opened Identifier
  import opened Json
  import opened Sql

  /** The path id of PUT and DELETE, an `i32`. */
  type Int32 = x: int | -0x8000_0000 <= x < 0x8000_0000

  /** A value bound to a `?` mark: text, or an integer (the DELETE id). */
  datatype Param = TextParam(text: string) | IntParam(value: int)

  /** SQL text together with the values for its marks, in order. */
  datatype Prepared = Prepared(sql: string, params: seq<Param>)

  /** A request refused before any SQL is built; the server answers it
      with 400 and `{"error": message}`. */
  datatype Rejection = Rejection(message: string)

  /** The decoded query string, in the iteration order of its map. */
  type QueryParams = seq<(string, string)>

  // ---------------------------------------------------------------------
  // Value coercion

  /** `v.as_str().unwrap_or(&v.to_string())`: a JSON string is bound as its
      contents, any other value as its JSON text. */
  function BindValue(v: Json): Param
  {
    if v.Str? then TextParam(v.s) else TextParam(ToText(v))
  }

  function BindAll(vs: seq<Json>): (ps: seq<Param>)
    ensures |ps| == |vs| && forall i :: 0 <= i < |vs| ==> ps[i] == BindValue(vs[i])
  {
    seq(|vs|, i requires 0 <= i < |vs| => BindValue(vs[i]))
  }

  /** Every bound value is text, so a string and a non-string value with
      the same JSON text reach the engine as the same parameter. */
  lemma BindingIsText(v: Json)
    ensures BindValue(v).TextParam?
    ensures v.Str? ==> BindValue(v).text == v.s
    ensures !v.Str? ==> BindValue(v).text == ToText(v)
    ensures BindValue(Str("20")) == BindValue(Num(Int(20)))
    ensures BindValue(Str("null")) == BindValue(Null)
    ensures BindValue(Str("true")) == BindValue(Bool(true))
  {
    assert ToText(Num(Int(20))) == "20" by {
      assert NatToString(20) == NatToString(2) + [DigitChar(0)];
    }
  }

  // ---------------------------------------------------------------------
  // GET

  /** `k.starts_with('_')`: a reserved key, never a filter. */
  predicate Reserved(key: string)
  {
    |key| > 0 && key[0] == '_'
  }

  /** The pairs that become filters: those whose key is not reserved, in
      the order given. */
  function Filters(params: QueryParams): QueryParams
  {
    if |params| == 0 then []
    else (if Reserved(params[0].0) then [] else [params[0]]) + Filters(params[1..])
  }

  function TextParams(pairs: QueryParams): (ps: seq<Param>)
    ensures |ps| == |pairs| && forall i :: 0 <= i < |pairs| ==> ps[i] == TextParam(pairs[i].1)
  {
    seq(|pairs|, i requires 0 <= i < |pairs| => TextParam(pairs[i].1))
  }

  /** `params.get(key)`. */
  function Lookup(params: QueryParams, key: string): (r: Option<string>)
    ensures r.None? <==> forall i :: 0 <= i < |params| ==> params[i].0 != key
    ensures r.Some? ==> exists i :: 0 <= i < |params| && params[i] == (key, r.value)
  {
    if |params| == 0 then None
    else if params[0].0 == key then Some(params[0].1)
    else Lookup(params[1..], key)
  }

  /** The upper-case form of one character, as `to_uppercase` gives it for
      ASCII letters, U+017F (long s) and U+0131 (dotless i); every other
      character is kept. */
  function UpperChar(c: char): string
  {
    if 'a' <= c <= 'z' then [(c as int - 32) as char]
    else if c == '\U{017F}' then "S"
    else if c == '\U{0131}' then "I"
    else [c]
  }

  function ToUpper(s: string): string
  {
    if |s| == 0 then "" else UpperChar(s[0]) + ToUpper(s[1..])
  }

  /** `_order` upper-cased and collapsed: `DESC` when it upper-cases to
      exactly `DESC`, otherwise (absent included) `ASC`. */
  function SortDirection(order: Option<string>): (d: Direction)
    ensures d == Desc <==> order.Some? && ToUpper(order.value) == "DESC"
  {
    var o := if order.Some? then ToUpper(order.value) else "ASC";
    if o == "DESC" then Desc else Asc
  }

  /** What `handle_get` builds: `SELECT * FROM t`, a `WHERE` clause with one
      `k = ?` per filter, and `ORDER BY` only when `_sort` is given. */
  function GetQuery(table: string, params: QueryParams): Result<Prepared, Rejection>
  {
    var filters := Filters(params);
    var columns := Keys(filters);
    if !AllValid(columns) then Failure(Rejection("Invalid column name"))
    else
      match SortOrder(params)
      case Failure(e) => Failure(e)
      case Success(order) => Success(Prepared(Sql.Render(Select(table, columns, order)), TextParams(filters)))
  }

  /** The sort order a GET asks for: none without `_sort`, a refusal for a
      `_sort` column that fails the allow-list. */
  function SortOrder(params: QueryParams): Result<Option<(string, Direction)>, Rejection>
  {
    match Lookup(params, "_sort")
    case None => Success(None)
    case Some(column) =>
      if !IsValidIdentifier(column) then Failure(Rejection("Invalid sort column"))
      else Success(Some((column, SortDirection(Lookup(params, "_order")))))
  }

  lemma {:induction false} FiltersAppend(a: QueryParams, b: QueryParams)
    ensures Filters(a + b) == Filters(a) + Filters(b)
  {
    if |a| == 0 {
      assert a + b == b;
    } else {
      assert (a + b)[1..] == a[1..] + b;
      FiltersAppend(a[1..], b);
    }
  }

  /** The filters are exactly the pairs with a key that is not reserved. */
  lemma {:induction false} FiltersExact(params: QueryParams, p: (string, string))
    ensures p in Filters(params) <==> p in params && !Reserved(p.0)
  {
    if |params| > 0 {
      FiltersExact(params[1..], p);
      assert params == [params[0]] + params[1..];
    }
  }

  /** One more pair read: it is kept exactly when its key is not reserved. */
  lemma FiltersStep(params: QueryParams, i: nat)
    requires i < |params|
    ensures Filters(params[..i + 1]) == Filters(params[..i]) + (if Reserved(params[i].0) then [] else [params[i]])
  {
    assert params[..i + 1] == params[..i] + [params[i]];
    FiltersAppend(params[..i], [params[i]]);
  }

  /** A filter key read at position `i` that fails the allow-list makes the
      whole request fail it. */
  lemma InvalidFilterRejected(params: QueryParams, i: nat)
    requires i < |params| && !Reserved(params[i].0) && !IsValidIdentifier(params[i].0)
    ensures !AllValid(Keys(Filters(params)))
  {
    var fs := Filters(params);
    FiltersExact(params, params[i]);
    var j :| 0 <= j < |fs| && fs[j] == params[i];
    assert Keys(fs)[j] == params[i].0;
  }

  lemma ConditionsSnoc(columns: seq<string>, k: string)
    ensures Conditions(columns + [k]) == Conditions(columns) + [k + " = ?"]
  {
  }

  /** `for (k, v) in &params`: one `k = ?` condition and one bound value
      per unreserved key, in order, or a refusal at the first unreserved
      key that fails the allow-list. */
  method CollectFilters(params: QueryParams) returns (r: Result<(seq<string>, seq<Param>), Rejection>)
    ensures AllValid(Keys(Filters(params))) ==>
              r == Success((Conditions(Keys(Filters(params))), TextParams(Filters(params))))
    ensures !AllValid(Keys(Filters(params))) ==> r == Failure(Rejection("Invalid column name"))
  {
    var filters: seq<string> := [];
    var sqlParams: seq<Param> := [];
    ghost var kept: QueryParams := [];
    for i := 0 to |params|
      invariant kept == Filters(params[..i])
      invariant filters == Conditions(Keys(kept))
      invariant sqlParams == TextParams(kept)
      invariant AllValid(Keys(kept))
    {
      var (k, v) := params[i];
      FiltersStep(params, i);
      if !Reserved(k) {
        if !IsValidIdentifier(k) {
          InvalidFilterRejected(params, i);
          return Failure(Rejection("Invalid column name"));
        }
        ConditionsSnoc(Keys(kept), k);
        assert Keys(kept + [(k, v)]) == Keys(kept) + [k];
        filters := filters + [k + " = ?"];
        sqlParams := sqlParams + [TextParam(v)];
        kept := kept + [(k, v)];
      }
    }
    assert params[..|params|] == params;
    r := Success((filters, sqlParams));
  }

  /** `handle_get` up to the engine: the filters, then the `WHERE` and
      `ORDER BY` clauses pushed onto `sql`. */
  method BuildGet(table: string, params: QueryParams) returns (r: Result<Prepared, Rejection>)
    ensures r == GetQuery(table, params)
  {
    var sql := "SELECT * FROM " + table;
    var collected := CollectFilters(params);
    if collected.Failure? {
      return Failure(collected.error);
    }
    var (filters, sqlParams) := collected.value;
    ghost var columns := Keys(Filters(params));
    if |filters| > 0 {
      sql := sql + (" WHERE " + Join(filters, " AND "));
    }
    assert sql == "SELECT * FROM " + table + WhereClause(columns);
    var sort := Lookup(params, "_sort");
    if sort.Some? {
      var column := sort.value;
      if !IsValidIdentifier(column) {
        return Failure(Rejection("Invalid sort column"));
      }
      var requested := Lookup(params, "_order");
      var order := if requested.Some? then ToUpper(requested.value) else "ASC";
      var safeOrder := if order == "DESC" then "DESC" else "ASC";
      ghost var base := sql;
      sql := sql + (" ORDER BY " + column + " " + safeOrder);
      assert sql == base + OrderClause(Some((column, SortDirection(requested))));
      assert SortOrder(params) == Success(Some((column, SortDirection(requested))));
    } else {
      assert sql == Sql.Render(Select(table, columns, None));
    }
    r := Success(Prepared(sql, sqlParams));
  }

  // ---------------------------------------------------------------------
  // POST

  /** The first name that fails the allow-list, if any. */
  function FirstInvalid(names: seq<string>): (r: Option<string>)
    ensures r.None? <==> AllValid(names)
    ensures r.Some? ==> exists i :: 0 <= i < |names| && names[i] == r.value && !IsValidIdentifier(r.value) &&
                                    AllValid(names[..i])
  {
    if |names| == 0 then None
    else if !IsValidIdentifier(names[0]) then (assert AllValid(names[..0]); Some(names[0]))
    else
      var r := FirstInvalid(names[1..]);
      if r.Some? then
        (ghost var i :| 0 <= i < |names[1..]| && names[1..][i] == r.value && !IsValidIdentifier(r.value) &&
                        AllValid(names[1..][..i]);
         assert names[..i + 1] == [names[0]] + names[1..][..i];
         r)
      else r
  }

  /** What `handle_post` builds: `INSERT INTO t (k1, ...) VALUES (?, ...)`
      with the values in key order. */
  function PostQuery(table: string, payload: Json): Result<Prepared, Rejection>
  {
    match payload
    case Object(fields) =>
      if |fields| == 0 then Failure(Rejection("Empty JSON body"))
      else
        (match FirstInvalid(Keys(fields))
         case Some(key) => Failure(Rejection("Invalid column: " + key))
         case None => Success(Prepared(Sql.Render(Insert(table, Keys(fields))), BindAll(Values(fields)))))
    case _ => Failure(Rejection("Invalid JSON format"))
  }

  /** The first key that fails, found where it stands: every earlier key
      passes. */
  lemma {:induction false} FirstInvalidAt(names: seq<string>, i: nat)
    requires i < |names| && AllValid(names[..i]) && !IsValidIdentifier(names[i])
    ensures FirstInvalid(names) == Some(names[i])
  {
    if i > 0 {
      assert names[..i][0] == names[0];
      assert names[1..][..i - 1] == names[..i][1..];
      assert names[1..][i - 1] == names[i];
      FirstInvalidAt(names[1..], i - 1);
    }
  }

  /** `handle_post` up to the engine: the shape checks, the key loop with
      its early return at the first failing key, and the `INSERT` text with
      one `?` per key. */
  method BuildPost(table: string, payload: Json) returns (r: Result<Prepared, Rejection>)
    ensures r == PostQuery(table, payload)
  {
    if !payload.Object? {
      return Failure(Rejection("Invalid JSON format"));
    }
    var fields := payload.fields;
    if |fields| == 0 {
      return Failure(Rejection("Empty JSON body"));
    }
    var keys := Keys(fields);
    for i := 0 to |keys|
      invariant AllValid(keys[..i])
    {
      if !IsValidIdentifier(keys[i]) {
        FirstInvalidAt(keys, i);
        return Failure(Rejection("Invalid column: " + keys[i]));
      }
      assert keys[..i + 1] == keys[..i] + [keys[i]];
    }
    assert keys[..|keys|] == keys;
    var placeholders := Marks(|keys|);
    var sql := "INSERT INTO " + table + " (" + Join(keys, ", ") + ") VALUES (" + Join(placeholders, ", ") + ")";
    var vals := BindAll(Values(fields));
    r := Success(Prepared(sql, vals));
  }

  // ---------------------------------------------------------------------
  // PUT

  /** What `handle_put` builds: `UPDATE t SET k1 = ?, ... WHERE id = ?` with
      the values in key order and then the id as text. An empty object is
      not refused. */
  function PutQuery(table: string, id: Int32, payload: Json): Result<Prepared, Rejection>
  {
    match payload
    case Object(fields) =>
      if !AllValid(Keys(fields)) then Failure(Rejection("Invalid column name"))
      else
        Success(Prepared(Sql.Render(Update(table, Keys(fields))),
                         BindAll(Values(fields)) + [TextParam(IntToString(id))]))
    case _ => Failure(Rejection("Invalid JSON format"))
  }

  /** The key check of `handle_put` with its early return, the `SET` list,
      and the id pushed onto the values. */
  method BuildPut(table: string, id: Int32, payload: Json) returns (r: Result<Prepared, Rejection>)
    ensures r == PutQuery(table, id, payload)
  {
    if !payload.Object? {
      return Failure(Rejection("Invalid JSON format"));
    }
    var keys := Keys(payload.fields);
    for i := 0 to |keys|
      invariant AllValid(keys[..i])
    {
      if !IsValidIdentifier(keys[i]) {
        return Failure(Rejection("Invalid column name"));
      }
      assert keys[..i + 1] == keys[..i] + [keys[i]];
    }
    assert keys[..|keys|] == keys;
    var updates := Conditions(keys);
    var sql := "UPDATE " + table + " SET " + Join(updates, ", ") + " WHERE id = ?";
    var params := BindAll(Values(payload.fields));
    params := params + [TextParam(IntToString(id))];
    r := Success(Prepared(sql, params));
  }

  // ---------------------------------------------------------------------
  // DELETE

  /** What `handle_delete` builds: `DELETE FROM t WHERE id = ?` with the id
      bound as an integer. */
  function DeleteQuery(table: string, id: Int32): Prepared
  {
    Prepared(Sql.Render(Delete(table)), [IntParam(id)])
  }

  // ---------------------------------------------------------------------
  // Properties of GET

  /** The filter keys pass the allow-list exactly when every key that is not
      reserved does. */
  lemma FilterKeysValid(params: QueryParams)
    ensures AllValid(Keys(Filters(params))) <==>
            forall j :: 0 <= j < |params| && !Reserved(params[j].0) ==> IsValidIdentifier(params[j].0)
  {
    var fs := Filters(params);
    if AllValid(Keys(fs)) {
      forall j | 0 <= j < |params| && !Reserved(params[j].0) ensures IsValidIdentifier(params[j].0) {
        FiltersExact(params, params[j]);
        var i :| 0 <= i < |fs| && fs[i] == params[j];
        assert Keys(fs)[i] == params[j].0;
      }
    } else {
      var i :| 0 <= i < |fs| && !IsValidIdentifier(Keys(fs)[i]);
      FiltersExact(params, fs[i]);
      assert fs[i] in params;
    }
  }

  /** A GET is refused for its filter keys exactly when an unreserved key
      fails the allow-list. */
  lemma GetFilterRejection(table: string, params: QueryParams)
    ensures GetQuery(table, params) == Failure(Rejection("Invalid column name")) <==>
            exists j :: 0 <= j < |params| && !Reserved(params[j].0) && !IsValidIdentifier(params[j].0)
  {
    FilterKeysValid(params);
    SortRejection(params);
  }

  /** A GET is refused for its sort column exactly when every filter key
      passes and `_sort` names a column that fails the allow-list. */
  lemma GetSortRejection(table: string, params: QueryParams)
    ensures GetQuery(table, params) == Failure(Rejection("Invalid sort column")) <==>
            (forall j :: 0 <= j < |params| && !Reserved(params[j].0) ==> IsValidIdentifier(params[j].0)) &&
            Lookup(params, "_sort").Some? && !IsValidIdentifier(Lookup(params, "_sort").value)
  {
    FilterKeysValid(params);
    SortRejection(params);
  }

  /** A GET is refused with one of those two messages and no other. */
  lemma GetRejectionMessages(table: string, params: QueryParams)
    ensures GetQuery(table, params).Failure? ==>
            GetQuery(table, params).error.message in {"Invalid column name", "Invalid sort column"}
  {
    SortRejection(params);
  }

  /** The sort order is refused exactly for a `_sort` column that fails
      the allow-list. */
  lemma SortRejection(params: QueryParams)
    ensures SortOrder(params).Failure? <==>
            Lookup(params, "_sort").Some? && !IsValidIdentifier(Lookup(params, "_sort").value)
    ensures SortOrder(params).Failure? ==> SortOrder(params).error == Rejection("Invalid sort column")
  {
  }

  /** An accepted GET reads back as a `SELECT` of the named table whose
      conditions are on the unreserved keys, in order, and that is sorted
      only when `_sort` is given; it holds one `?` per value and nothing
      that could break out of the statement. */
  lemma GetStatement(table: string, params: QueryParams)
    requires IsValidIdentifier(table) && GetQuery(table, params).Success?
    ensures var p := GetQuery(table, params).value;
            Parse(p.sql).Some? &&
            var s := Parse(p.sql).value;
            s == Select(table, Keys(Filters(params)), s.order) &&
            Count(p.sql, '?') == |p.params| && Inert(p.sql) &&
            (s.order.None? <==> Lookup(params, "_sort").None?) &&
            (s.order.Some? ==> s.order.value == (Lookup(params, "_sort").value, SortDirection(Lookup(params, "_order"))))
  {
    var p := GetQuery(table, params).value;
    var order := if Lookup(params, "_sort").None? then None
                 else Some((Lookup(params, "_sort").value, SortDirection(Lookup(params, "_order"))));
    var s := Select(table, Keys(Filters(params)), order);
    assert p.sql == Sql.Render(s);
    ParseRender(s);
    PlaceholderCount(s);
    RenderInert(s);
  }

  /** An accepted GET has a `WHERE` clause right after the table name
      exactly when at least one key is a filter. */
  lemma GetWhere(table: string, params: QueryParams)
    requires GetQuery(table, params).Success?
    ensures var sql := GetQuery(table, params).value.sql;
            var head := "SELECT * FROM " + table;
            head <= sql && (" WHERE " <= sql[|head|..] <==> |Filters(params)| > 0)
  {
    var sql := GetQuery(table, params).value.sql;
    var head := "SELECT * FROM " + table;
    var columns := Keys(Filters(params));
    var order := SortOrder(params).value;
    var where := WhereClause(columns);
    assert sql == head + where + OrderClause(order);
    Assoc(head, where, OrderClause(order));
    assert sql[|head|..] == where + OrderClause(order);
    if |columns| > 0 {
      assert " WHERE " <= where;
    } else {
      OrderClauseStart(order);
    }
  }

  /** The conditions of an accepted GET are exactly the pairs with an
      unreserved key, each bound to its own value. */
  lemma GetBindings(table: string, params: QueryParams)
    requires GetQuery(table, params).Success?
    ensures var p := GetQuery(table, params).value;
            var columns := Keys(Filters(params));
            |p.params| == |columns| &&
            (forall i :: 0 <= i < |columns| ==>
               !Reserved(columns[i]) && p.params[i].TextParam? && (columns[i], p.params[i].text) in params) &&
            (forall j :: 0 <= j < |params| && !Reserved(params[j].0) ==>
               exists i :: 0 <= i < |columns| && columns[i] == params[j].0 && p.params[i] == TextParam(params[j].1))
  {
    var p := GetQuery(table, params).value;
    var fs := Filters(params);
    forall i | 0 <= i < |fs| ensures !Reserved(fs[i].0) && fs[i] in params {
      FiltersExact(params, fs[i]);
    }
    forall j | 0 <= j < |params| && !Reserved(params[j].0)
      ensures exists i :: 0 <= i < |fs| && Keys(fs)[i] == params[j].0 && p.params[i] == TextParam(params[j].1)
    {
      FiltersExact(params, params[j]);
      var i :| 0 <= i < |fs| && fs[i] == params[j];
      assert Keys(fs)[i] == params[j].0;
    }
  }

  lemma {:induction false} LookupAppend(a: QueryParams, b: QueryParams, key: string)
    ensures Lookup(a + b, key) == if Lookup(a, key).Some? then Lookup(a, key) else Lookup(b, key)
  {
    if |a| == 0 {
      assert a + b == b;
    } else {
      assert (a + b)[1..] == a[1..] + b;
      LookupAppend(a[1..], b, key);
    }
  }

  /** A pair whose key is reserved is no filter, wherever it stands. */
  lemma FiltersSkip(a: QueryParams, x: (string, string), b: QueryParams)
    requires Reserved(x.0)
    ensures Filters(a + [x] + b) == Filters(a + b)
  {
    FiltersAppend(a + [x], b);
    FiltersAppend(a, [x]);
    FiltersAppend(a, b);
    assert Filters([x]) == [];
    assert Filters(a) + [] == Filters(a);
  }

  /** A pair with another key does not change what `get` finds. */
  lemma LookupSkip(a: QueryParams, x: (string, string), b: QueryParams, key: string)
    requires x.0 != key
    ensures Lookup(a + [x] + b, key) == Lookup(a + b, key)
  {
    LookupAppend(a + [x], b, key);
    LookupAppend(a, [x], key);
    LookupAppend(a, b, key);
    assert Lookup([x], key) == None;
  }

  /** A reserved key other than `_sort` and `_order` is silently ignored:
      adding one anywhere changes nothing in what a GET builds. */
  lemma ReservedIgnored(table: string, a: QueryParams, b: QueryParams, key: string, value: string)
    requires Reserved(key) && key != "_sort" && key != "_order"
    ensures GetQuery(table, a + [(key, value)] + b) == GetQuery(table, a + b)
  {
    FiltersSkip(a, (key, value), b);
    LookupSkip(a, (key, value), b, "_sort");
    LookupSkip(a, (key, value), b, "_order");
    assert SortOrder(a + [(key, value)] + b) == SortOrder(a + b);
  }

  /** `_order` has no effect unless `_sort` is given, wherever it stands. */
  lemma OrderIgnoredWithoutSort(table: string, a: QueryParams, b: QueryParams, order: string)
    requires Lookup(a + b, "_sort").None?
    ensures GetQuery(table, a + [("_order", order)] + b) == GetQuery(table, a + b)
  {
    FiltersSkip(a, ("_order", order), b);
    LookupSkip(a, ("_order", order), b, "_sort");
    assert SortOrder(a + [("_order", order)] + b) == SortOrder(a + b);
  }

  /** The direction is chosen case-insensitively, long s included. */
  lemma SortDescExamples()
    ensures SortDirection(Some("desc")) == Desc
    ensures SortDirection(Some("DeSc")) == Desc
    ensures SortDirection(Some("de\U{017F}c")) == Desc
  {
    assert ToUpper("desc") == "DESC" by {
      assert ToUpper("c") == "C";
      assert ToUpper("sc") == "SC";
      assert ToUpper("esc") == "ESC";
    }
    assert ToUpper("DeSc") == "DESC" by {
      assert ToUpper("c") == "C";
      assert ToUpper("Sc") == "SC";
      assert ToUpper("eSc") == "ESC";
    }
    assert ToUpper("de\U{017F}c") == "DESC" by {
      assert ToUpper("c") == "C";
      assert ToUpper("\U{017F}c") == "SC";
      assert ToUpper("e\U{017F}c") == "ESC";
    }
  }

  /** Anything that does not upper-case to `DESC`, and no `_order` at all,
      sorts ascending. */
  lemma SortAscExamples()
    ensures SortDirection(Some("asc")) == Asc
    ensures SortDirection(Some("descending")) == Asc
    ensures SortDirection(None) == Asc
  {
    assert ToUpper("asc")[0] == 'A';
    assert |ToUpper("descending")| == 10 by {
      UpperLength("descending");
    }
  }

  /** Letters and the two special code points each become one character. */
  lemma {:induction false} UpperLength(s: string)
    requires forall k :: 0 <= k < |s| ==> 'a' <= s[k] <= 'z'
    ensures |ToUpper(s)| == |s|
  {
    if |s| > 0 {
      UpperLength(s[1..]);
    }
  }

  // ---------------------------------------------------------------------
  // Properties of POST

  /** The refusals of a POST, in the order the handler checks them. */
  lemma PostRejections(table: string, payload: Json)
    ensures !payload.Object? ==> PostQuery(table, payload) == Failure(Rejection("Invalid JSON format"))
    ensures payload == Object([]) ==> PostQuery(table, payload) == Failure(Rejection("Empty JSON body"))
    ensures payload.Object? && |payload.fields| > 0 && !AllValid(Keys(payload.fields)) ==>
            exists i :: 0 <= i < |payload.fields| && !IsValidIdentifier(payload.fields[i].0) &&
                        AllValid(Keys(payload.fields)[..i]) &&
                        PostQuery(table, payload) == Failure(Rejection("Invalid column: " + payload.fields[i].0))
    ensures PostQuery(table, payload).Success? <==>
            payload.Object? && |payload.fields| > 0 && AllValid(Keys(payload.fields))
  {
    if payload.Object? && |payload.fields| > 0 && !AllValid(Keys(payload.fields)) {
      var keys := Keys(payload.fields);
      var i :| 0 <= i < |keys| && keys[i] == FirstInvalid(keys).value && !IsValidIdentifier(keys[i]) &&
               AllValid(keys[..i]);
      assert keys[i] == payload.fields[i].0;
    }
  }

  /** An accepted POST reads back as an `INSERT` of the object's keys into
      the named table, with one `?` per key, bound to that key's value. */
  lemma PostStatement(table: string, fields: seq<(string, Json)>)
    requires IsValidIdentifier(table) && PostQuery(table, Object(fields)).Success?
    ensures var p := PostQuery(table, Object(fields)).value;
            Parse(p.sql) == Some(Insert(table, Keys(fields))) &&
            Count(p.sql, '?') == |p.params| == |fields| &&
            Inert(p.sql) &&
            forall i :: 0 <= i < |fields| ==> p.params[i] == BindValue(fields[i].1)
  {
    var s := Insert(table, Keys(fields));
    ParseRender(s);
    PlaceholderCount(s);
    RenderInert(s);
  }

  // ---------------------------------------------------------------------
  // Properties of PUT

  lemma PutRejections(table: string, id: Int32, payload: Json)
    ensures !payload.Object? ==> PutQuery(table, id, payload) == Failure(Rejection("Invalid JSON format"))
    ensures PutQuery(table, id, payload) == Failure(Rejection("Invalid column name")) <==>
            payload.Object? && exists i :: 0 <= i < |payload.fields| && !IsValidIdentifier(payload.fields[i].0)
    ensures PutQuery(table, id, payload).Success? <==> payload.Object? && AllValid(Keys(payload.fields))
  {
    if payload.Object? && !AllValid(Keys(payload.fields)) {
      var i :| 0 <= i < |payload.fields| && !IsValidIdentifier(Keys(payload.fields)[i]);
    }
  }

  /** An accepted PUT reads back as an `UPDATE` of the object's keys in the
      named table; it binds one value per key, in order, and then the id as
      text, one more value than `SET` assignments. */
  lemma PutStatement(table: string, id: Int32, fields: seq<(string, Json)>)
    requires IsValidIdentifier(table) && PutQuery(table, id, Object(fields)).Success?
    ensures var p := PutQuery(table, id, Object(fields)).value;
            Parse(p.sql) == Some(Update(table, Keys(fields))) &&
            Count(p.sql, '?') == |p.params| == |fields| + 1 &&
            Inert(p.sql) &&
            (forall i :: 0 <= i < |fields| ==> p.params[i] == BindValue(fields[i].1)) &&
            p.params[|fields|].TextParam? &&
            IsIntLiteral(p.params[|fields|].text) && IntValue(p.params[|fields|].text) == id
  {
    var s := Update(table, Keys(fields));
    ParseRender(s);
    PlaceholderCount(s);
    RenderInert(s);
    IntToStringRoundTrip(id);
  }

  /** An empty object is accepted, and the statement has an empty `SET`
      list, which the engine refuses when it prepares it. */
  lemma EmptyPut(table: string, id: Int32)
    ensures PutQuery(table, id, Object([])) ==
            Success(Prepared("UPDATE " + table + " SET  WHERE id = ?", [TextParam(IntToString(id))]))
  {
    assert Keys<Json>([]) == [];
    assert Conditions([]) == [];
    assert BindAll(Values([])) == [];
    var head := "UPDATE " + table;
    assert Sql.Render(Update(table, [])) == head + " SET " + "" + " WHERE id = ?";
    assert head + " SET " + "" == head + " SET ";
    assert head + " SET " + " WHERE id = ?" == head + (" SET " + " WHERE id = ?");
    assert " SET " + " WHERE id = ?" == " SET  WHERE id = ?";
    assert AllValid(Keys<Json>([]));
    assert BindAll(Values([])) + [TextParam(IntToString(id))] == [TextParam(IntToString(id))];
  }

  // ---------------------------------------------------------------------
  // Properties of DELETE

  /** A DELETE reads back as a `DELETE` of the named table with its one mark
      bound to the id as an integer. */
  lemma DeleteStatement(table: string, id: Int32)
    requires IsValidIdentifier(table)
    ensures var p := DeleteQuery(table, id);
            Parse(p.sql) == Some(Delete(table)) && Count(p.sql, '?') == |p.params| == 1 &&
            Inert(p.sql) && p.params[0] == IntParam(id)
  {
    var s := Delete(table);
    ParseRender(s);
    PlaceholderCount(s);
    RenderInert(s);
  }
}
