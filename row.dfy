/** `row_to_json`: one result row of a `SELECT`, its column names and the
    values SQLite stored in them, turned into a JSON object. */
module Row {
  import opened Wrappers
  import opened Strings
  import opened Json

  type byte = x: int | 0 <= x < 256

  /** SQLite's 64-bit integer storage class. */
  type Int64 = x: int | -0x8000_0000_0000_0000 <= x < 0x8000_0000_0000_0000

  /** A double read from the row: a finite one, given by the decimal text
      serde_json prints for it, or an infinity or NaN. */
  datatype Real = Finite(text: string) | NonFinite

  /** The value of one column of a row, by SQLite storage class. */
  datatype Cell =
    | NullCell
    | IntegerCell(n: Int64)
    | RealCell(r: Real)
    | TextCell(text: seq<byte>)
    | BlobCell(blob: seq<byte>)

  /** `format!("{:?}", b)` for a byte slice: `[1, 2, 3]`. */
  function BlobDebug(blob: seq<byte>): string
  {
    "[" + Join(seq(|blob|, i requires 0 <= i < |blob| => NatToString(blob[i])), ", ") + "]"
  }

  /** The JSON value of one cell. `decode` stands for `std::str::from_utf8`
      (`None` for bytes that are not UTF-8); text that does not decode
      becomes the empty string, and a double that is not finite becomes
      `null`, as `Value::from` on an `f64` gives it. */
  function CellToJson(cell: Cell, decode: seq<byte> -> Option<string>): Json
  {
    match cell
    case NullCell => Null
    case IntegerCell(n) => Num(Int(n))
    case RealCell(r) => if r.Finite? then Num(Float(r.text)) else Null
    case TextCell(t) => Str(if decode(t).Some? then decode(t).value else "")
    case BlobCell(b) => Str(BlobDebug(b))
  }

  /** `Map::insert`: the value of an existing key is replaced where it
      stands, a new key is added at the end. */
  function InsertField(fields: seq<(string, Json)>, key: string, value: Json): seq<(string, Json)>
  {
    if |fields| == 0 then [(key, value)]
    else if fields[0].0 == key then [(key, value)] + fields[1..]
    else [fields[0]] + InsertField(fields[1..], key, value)
  }

  /** After an insert the key holds the new value and every other key
      holds what it held before. */
  lemma {:induction false} InsertGet(fields: seq<(string, Json)>, key: string, value: Json, k: string)
    ensures Get(InsertField(fields, key, value), k) == if k == key then Some(value) else Get(fields, k)
  {
    if |fields| > 0 && fields[0].0 != key {
      InsertGet(fields[1..], key, value, k);
    }
  }

  /** An insert keeps the keys and their order, and adds a new key last. */
  lemma InsertKeys(fields: seq<(string, Json)>, key: string, value: Json)
    ensures Keys(InsertField(fields, key, value)) ==
            if key in Keys(fields) then Keys(fields) else Keys(fields) + [key]
  {
    if key in Keys(fields) {
      InsertPresent(fields, key, value);
    } else {
      InsertNew(fields, key, value);
      SnocFields(fields, (key, value));
    }
  }

  lemma {:induction false} InsertPresent(fields: seq<(string, Json)>, key: string, value: Json)
    requires key in Keys(fields)
    ensures Keys(InsertField(fields, key, value)) == Keys(fields)
  {
    KeysCons(fields[0], fields[1..]);
    assert fields == [fields[0]] + fields[1..];
    if fields[0].0 == key {
      KeysCons((key, value), fields[1..]);
    } else {
      var rest := InsertField(fields[1..], key, value);
      assert key in Keys(fields[1..]);
      InsertPresent(fields[1..], key, value);
      KeysCons(fields[0], rest);
    }
  }

  lemma KeysCons(first: (string, Json), rest: seq<(string, Json)>)
    ensures Keys([first] + rest) == [first.0] + Keys(rest)
  {
  }

  lemma {:induction false} InsertNew(fields: seq<(string, Json)>, key: string, value: Json)
    requires key !in Keys(fields)
    ensures InsertField(fields, key, value) == fields + [(key, value)]
  {
    if |fields| > 0 {
      assert fields[0].0 == Keys(fields)[0];
      assert Keys(fields[1..]) == Keys(fields)[1..];
      InsertNew(fields[1..], key, value);
      assert [fields[0]] + (fields[1..] + [(key, value)]) == fields + [(key, value)];
    }
  }

  /** The fields of the object for a row: one `insert` per column, in
      column order. */
  function RowFields(names: seq<string>, cells: seq<Cell>, decode: seq<byte> -> Option<string>): seq<(string, Json)>
    requires |names| == |cells|
    decreases |names|
  {
    if |names| == 0 then []
    else
      var n := |names| - 1;
      InsertField(RowFields(names[..n], cells[..n], decode), names[n], CellToJson(cells[n], decode))
  }

  /** `for (i, name) in column_names.iter().enumerate()`, converting
      `row.get_ref(i)` and inserting it under `name`. */
  method RowToJson(names: seq<string>, cells: seq<Cell>, decode: seq<byte> -> Option<string>) returns (v: Json)
    requires |names| == |cells|
    ensures v == Object(RowFields(names, cells, decode))
  {
    var fields: seq<(string, Json)> := [];
    for i := 0 to |names|
      invariant fields == RowFields(names[..i], cells[..i], decode)
    {
      var value := CellToJson(cells[i], decode);
      assert names[..i + 1][..i] == names[..i] && cells[..i + 1][..i] == cells[..i];
      fields := InsertField(fields, names[i], value);
    }
    assert names[..|names|] == names && cells[..|cells|] == cells;
    v := Object(fields);
  }

  // ---------------------------------------------------------------------
  // Properties

  /** The object has one key per distinct column name and no other. */
  lemma {:induction false} RowKeys(names: seq<string>, cells: seq<Cell>, decode: seq<byte> -> Option<string>)
    requires |names| == |cells|
    ensures DistinctKeys(RowFields(names, cells, decode))
    ensures forall k :: k in Keys(RowFields(names, cells, decode)) <==> k in names
    decreases |names|
  {
    if |names| > 0 {
      var n := |names| - 1;
      var prefix := RowFields(names[..n], cells[..n], decode);
      assert RowFields(names, cells, decode) == InsertField(prefix, names[n], CellToJson(cells[n], decode));
      RowKeys(names[..n], cells[..n], decode);
      InsertDistinct(prefix, names[n], CellToJson(cells[n], decode), names[..n]);
      assert names == names[..n] + [names[n]];
    }
  }

  /** An insert keeps the keys distinct and adds its key to them. */
  lemma InsertDistinct(fields: seq<(string, Json)>, key: string, value: Json, before: seq<string>)
    requires DistinctKeys(fields)
    requires forall k :: k in Keys(fields) <==> k in before
    ensures DistinctKeys(InsertField(fields, key, value))
    ensures forall k :: k in Keys(InsertField(fields, key, value)) <==> k in before + [key]
  {
    var r := InsertField(fields, key, value);
    InsertKeys(fields, key, value);
    DistinctAfterInsert(fields, Keys(r), key);
  }

  lemma DistinctAfterInsert(prefix: seq<(string, Json)>, ks: seq<string>, key: string)
    requires DistinctKeys(prefix)
    requires ks == if key in Keys(prefix) then Keys(prefix) else Keys(prefix) + [key]
    ensures forall i, j :: 0 <= i < j < |ks| ==> ks[i] != ks[j]
  {
  }

  /** A column holds the value of the last column with the same name: when
      a name repeats, the later value replaces the earlier one. */
  lemma {:induction false} RowLookup(names: seq<string>, cells: seq<Cell>, decode: seq<byte> -> Option<string>, i: nat)
    requires |names| == |cells| && i < |names|
    requires forall j :: i < j < |names| ==> names[j] != names[i]
    ensures Get(RowFields(names, cells, decode), names[i]) == Some(CellToJson(cells[i], decode))
    decreases |names|
  {
    var n := |names| - 1;
    var prefix := RowFields(names[..n], cells[..n], decode);
    assert RowFields(names, cells, decode) == InsertField(prefix, names[n], CellToJson(cells[n], decode));
    InsertGet(prefix, names[n], CellToJson(cells[n], decode), names[i]);
    if i < n {
      assert names[..n][i] == names[i] && cells[..n][i] == cells[i];
      assert forall j :: i < j < n ==> names[..n][j] != names[..n][i];
      RowLookup(names[..n], cells[..n], decode, i);
    }
  }

  /** With distinct column names the object lists the columns in order,
      each with the JSON value of its cell. */
  lemma {:induction false} RowDistinct(names: seq<string>, cells: seq<Cell>, decode: seq<byte> -> Option<string>)
    requires |names| == |cells|
    requires forall i, j :: 0 <= i < j < |names| ==> names[i] != names[j]
    ensures Keys(RowFields(names, cells, decode)) == names
    ensures forall i :: 0 <= i < |cells| ==> Values(RowFields(names, cells, decode))[i] == CellToJson(cells[i], decode)
    decreases |names|
  {
    if |names| > 0 {
      var n := |names| - 1;
      var prefix := RowFields(names[..n], cells[..n], decode);
      assert forall i, j :: 0 <= i < j < n ==> names[..n][i] != names[..n][j];
      RowDistinct(names[..n], cells[..n], decode);
      var fields := RowFieldsSnoc(names, cells, decode);
      ValuesSnoc(Values(fields), Values(prefix), cells, decode);
    }
  }

  lemma ValuesSnoc(vs: seq<Json>, before: seq<Json>, cells: seq<Cell>, decode: seq<byte> -> Option<string>)
    requires |cells| > 0 && |before| == |cells| - 1
    requires forall i :: 0 <= i < |before| ==> before[i] == CellToJson(cells[..|cells| - 1][i], decode)
    requires vs == before + [CellToJson(cells[|cells| - 1], decode)]
    ensures forall i :: 0 <= i < |cells| ==> vs[i] == CellToJson(cells[i], decode)
  {
    forall i | 0 <= i < |cells| - 1
      ensures vs[i] == CellToJson(cells[i], decode)
    {
      assert cells[..|cells| - 1][i] == cells[i];
    }
  }

  /** With a last column name that is new, the last column is appended. */
  lemma RowFieldsSnoc(names: seq<string>, cells: seq<Cell>, decode: seq<byte> -> Option<string>)
      returns (fields: seq<(string, Json)>)
    requires |names| == |cells| > 0
    requires Keys(RowFields(names[..|names| - 1], cells[..|names| - 1], decode)) == names[..|names| - 1]
    requires names[|names| - 1] !in names[..|names| - 1]
    ensures fields == RowFields(names, cells, decode)
    ensures Keys(fields) == names
    ensures Values(fields) == Values(RowFields(names[..|names| - 1], cells[..|names| - 1], decode)) + [CellToJson(cells[|names| - 1], decode)]
    ensures fields == RowFields(names[..|names| - 1], cells[..|names| - 1], decode) + [(names[|names| - 1], CellToJson(cells[|names| - 1], decode))]
  {
    var n := |names| - 1;
    var prefix := RowFields(names[..n], cells[..n], decode);
    var last := (names[n], CellToJson(cells[n], decode));
    fields := RowFields(names, cells, decode);
    assert fields == InsertField(prefix, names[n], last.1);
    InsertNew(prefix, names[n], last.1);
    SnocFields(prefix, last);
    assert names == names[..n] + [names[n]];
  }

  lemma SnocFields(fields: seq<(string, Json)>, last: (string, Json))
    ensures Keys(fields + [last]) == Keys(fields) + [last.0]
    ensures Values(fields + [last]) == Values(fields) + [last.1]
  {
  }

  /** `null` comes from a NULL cell or a double that is not finite, and
      from nothing else. */
  lemma NullCells(cell: Cell, decode: seq<byte> -> Option<string>)
    ensures CellToJson(cell, decode) == Null <==> cell.NullCell? || (cell.RealCell? && cell.r.NonFinite?)
  {
  }

  /** Text that is not UTF-8 is read as the empty string, indistinguishable
      from an empty text cell, and a blob is read as the text of its byte
      list, indistinguishable from a text cell with that text. */
  lemma Conflations(bad: seq<byte>, decode: seq<byte> -> Option<string>)
    requires decode(bad).None? && decode([]) == Some("")
    ensures CellToJson(TextCell(bad), decode) == CellToJson(TextCell([]), decode) == Str("")
    ensures CellToJson(BlobCell([]), decode) == Str("[]")
    ensures CellToJson(BlobCell([1, 2]), decode) == Str("[1, 2]")
  {
    var blob: seq<byte> := [1, 2];
    assert seq(|blob|, i requires 0 <= i < |blob| => NatToString(blob[i])) == ["1", "2"];
    assert Join(["1", "2"], ", ") == "1, 2";
  }
}
