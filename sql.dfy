/** The four statement shapes the handlers build, their SQL text, and a
    reader for that text that takes every allow-listed word in a name
    position as a name. The round trip `Parse(Render(s)) == Some(s)` for
    every well-formed statement says that, read this way, the text decodes
    back to exactly the table, columns and sort order that were meant.
    SQLite reads some allow-listed words differently (a numeral after
    `ORDER BY` is a column position, `NULL` is a literal, `AND` and `WHERE`
    are keywords); what holds whatever SQLite makes of the names is that
    they add no quote, separator or comment (`RenderInert`). */
module Sql {
  import opened Wrappers
  import opened Strings
  import opened Identifier

  datatype Direction = Asc | Desc

  function Keyword(d: Direction): string
  {
    match d
    case Asc => "ASC"
    case Desc => "DESC"
  }

  datatype Statement =
      /** `SELECT * FROM t [WHERE c1 = ? AND ...] [ORDER BY c ASC|DESC]` */
    | Select(table: string, filters: seq<string>, order: Option<(string, Direction)>)
      /** `INSERT INTO t (c1, ...) VALUES (?, ...)` */
    | Insert(table: string, columns: seq<string>)
      /** `UPDATE t SET c1 = ?, ... WHERE id = ?` */
    | Update(table: string, columns: seq<string>)
      /** `DELETE FROM t WHERE id = ?` */
    | Delete(table: string)

  /** `format!("{} = ?", k)` */
  function Condition(column: string): string
  {
    column + " = ?"
  }

  function Conditions(columns: seq<string>): (cs: seq<string>)
    ensures |cs| == |columns|
    ensures forall i :: 0 <= i < |columns| ==> cs[i] == Condition(columns[i])
  {
    seq(|columns|, i requires 0 <= i < |columns| => Condition(columns[i]))
  }

  /** One `?` per column. */
  function Marks(n: nat): (ms: seq<string>)
    ensures |ms| == n && forall i :: 0 <= i < n ==> ms[i] == "?"
  {
    seq(n, _ => "?")
  }

  function WhereClause(filters: seq<string>): string
  {
    if |filters| == 0 then "" else " WHERE " + Join(Conditions(filters), " AND ")
  }

  function OrderClause(order: Option<(string, Direction)>): string
  {
    match order
    case None => ""
    case Some((column, d)) => " ORDER BY " + column + " " + Keyword(d)
  }

  /** The SQL text of a statement. */
  function Render(s: Statement): string
  {
    match s
    case Select(t, filters, order) => "SELECT * FROM " + t + WhereClause(filters) + OrderClause(order)
    case Insert(t, columns) =>
      "INSERT INTO " + t + " (" + Join(columns, ", ") + ") VALUES (" + Join(Marks(|columns|), ", ") + ")"
    case Update(t, columns) => "UPDATE " + t + " SET " + Join(Conditions(columns), ", ") + " WHERE id = ?"
    case Delete(t) => "DELETE FROM " + t + " WHERE id = ?"
  }

  /** The number of values a statement needs bound: one per `?`. */
  function Arity(s: Statement): nat
  {
    match s
    case Select(_, filters, _) => |filters|
    case Insert(_, columns) => |columns|
    case Update(_, columns) => |columns| + 1
    case Delete(_) => 1
  }

  /** Every identifier in the statement passes the allow-list. */
  predicate SafeNames(s: Statement)
  {
    IsValidIdentifier(s.table) &&
    match s
    case Select(_, filters, order) => AllValid(filters) && (order.Some? ==> IsValidIdentifier(order.value.0))
    case Insert(_, columns) => AllValid(columns)
    case Update(_, columns) => AllValid(columns)
    case Delete(_) => true
  }

  /** A statement the handlers can build: safe names and, for an insert, at
      least one column. */
  predicate WellFormed(s: Statement)
  {
    SafeNames(s) && (s.Insert? ==> |s.columns| > 0)
  }

  /** `CREATE TABLE IF NOT EXISTS t (columns)`: the column definitions are
      the program's own text and are not checked. */
  function CreateTableSql(table: string, columns: string): string
  {
    "CREATE TABLE IF NOT EXISTS " + table + " (" + columns + ")"
  }

  // ---------------------------------------------------------------------
  // Reading statements back

  /** The longest prefix of allow-listed characters, and what follows it. */
  function TakeIdent(s: string): (r: (string, string))
    ensures r.0 + r.1 == s && IsValidIdentifier(r.0)
    ensures |r.1| == 0 || !IsIdentChar(r.1[0])
  {
    if |s| == 0 || !IsIdentChar(s[0]) then ("", s)
    else
      var (a, b) := TakeIdent(s[1..]);
      assert [s[0]] + a + b == s;
      ([s[0]] + a, b)
  }

  /** A list `c1 = ?<sep>c2 = ?...` and the text after it. */
  function ParseConditions(s: string, sep: string): Option<(seq<string>, string)>
    decreases |s|
  {
    var (c, rest) := TakeIdent(s);
    if !(" = ?" <= rest) then None
    else
      var after := rest[4..];
      if sep <= after then
        match ParseConditions(after[|sep|..], sep)
        case None => None
        case Some((cs, tail)) => Some(([c] + cs, tail))
      else Some(([c], after))
  }

  /** A list of identifiers `c1<sep>c2...` and the text after it. */
  function ParseIdents(s: string, sep: string): Option<(seq<string>, string)>
    requires |sep| > 0
    decreases |s|
  {
    var (c, rest) := TakeIdent(s);
    if sep <= rest then
      match ParseIdents(rest[|sep|..], sep)
      case None => None
      case Some((cs, tail)) => Some(([c] + cs, tail))
    else Some(([c], rest))
  }

  /** A list `?, ?, ...`: how many marks it has, and the text after it. */
  function ParseMarks(s: string): Option<(nat, string)>
    decreases |s|
  {
    if "?, " <= s then
      match ParseMarks(s[3..])
      case None => None
      case Some((n, tail)) => Some((n + 1, tail))
    else if "?" <= s then Some((1, s[1..]))
    else None
  }

  function ParseOrder(s: string): Option<Option<(string, Direction)>>
  {
    if |s| == 0 then Some(None)
    else if " ORDER BY " <= s then
      var (c, rest) := TakeIdent(s[10..]);
      if rest == " ASC" then Some(Some((c, Asc)))
      else if rest == " DESC" then Some(Some((c, Desc)))
      else None
    else None
  }

  /** What follows `SELECT * FROM `. */
  function ParseSelect(s: string): Option<Statement>
  {
    var (t, rest) := TakeIdent(s);
    var w := if " WHERE " <= rest then ParseConditions(rest[7..], " AND ") else Some(([], rest));
    match w
    case None => None
    case Some((filters, rest2)) =>
      match ParseOrder(rest2)
      case None => None
      case Some(order) => Some(Select(t, filters, order))
  }

  /** What follows `INSERT INTO `. */
  function ParseInsert(s: string): Option<Statement>
  {
    var (t, rest) := TakeIdent(s);
    if !(" (" <= rest) then None
    else
      match ParseIdents(rest[2..], ", ")
      case None => None
      case Some((columns, rest2)) =>
        if !(") VALUES (" <= rest2) then None
        else
          match ParseMarks(rest2[10..])
          case None => None
          case Some((n, rest3)) =>
            if rest3 == ")" && n == |columns| then Some(Insert(t, columns)) else None
  }

  /** What follows `UPDATE `. */
  function ParseUpdate(s: string): Option<Statement>
  {
    var (t, rest) := TakeIdent(s);
    if !(" SET " <= rest) then None
    else
      var body := rest[5..];
      if body == " WHERE id = ?" then Some(Update(t, []))
      else
        match ParseConditions(body, ", ")
        case None => None
        case Some((columns, tail)) => if tail == " WHERE id = ?" then Some(Update(t, columns)) else None
  }

  /** What follows `DELETE FROM `. */
  function ParseDelete(s: string): Option<Statement>
  {
    var (t, rest) := TakeIdent(s);
    if rest == " WHERE id = ?" then Some(Delete(t)) else None
  }

  /** The statement a SQL text spells, if it has one of the four shapes. */
  function Parse(sql: string): Option<Statement>
  {
    if "SELECT * FROM " <= sql then ParseSelect(sql[14..])
    else if "INSERT INTO " <= sql then ParseInsert(sql[12..])
    else if "UPDATE " <= sql then ParseUpdate(sql[7..])
    else if "DELETE FROM " <= sql then ParseDelete(sql[12..])
    else None
  }

  // ---------------------------------------------------------------------
  // The round trip

  lemma Prefix(p: string, s: string)
    ensures p <= p + s && (p + s)[|p|..] == s
  {
    assert (p + s)[..|p|] == p;
  }

  lemma Prefix3(p: string, a: string, b: string, c: string)
    ensures p <= p + a + b + c && (p + a + b + c)[|p|..] == a + b + c
  {
    assert p + a + b + c == p + (a + b + c);
    Prefix(p, a + b + c);
  }

  lemma NotPrefix(p: string, s: string)
    requires |p| > 0 && |s| > 0 && p[0] != s[0]
    ensures !(p <= s)
  {
  }

  lemma ConsPrefix(c: char, p: string, s: string)
    ensures ([c] + p <= [c] + s) <==> p <= s
  {
    if p <= s { assert ([c] + s)[..|p| + 1] == [c] + s[..|p|]; }
    if [c] + p <= [c] + s { assert ([c] + s)[..|p| + 1][1..] == s[..|p|]; }
  }

  lemma {:induction false} TakeIdentOf(id: string, rest: string)
    requires IsValidIdentifier(id) && (|rest| == 0 || !IsIdentChar(rest[0]))
    ensures TakeIdent(id + rest) == (id, rest)
  {
    if |id| == 0 {
      assert id + rest == rest;
    } else {
      assert (id + rest)[1..] == id[1..] + rest;
      TakeIdentOf(id[1..], rest);
      assert [id[0]] + id[1..] == id;
    }
  }

  /** The last condition of a list. */
  lemma ConditionLast(c: string, sep: string, tail: string)
    requires IsValidIdentifier(c) && !(sep <= tail)
    ensures ParseConditions(c + (" = ?" + tail), sep) == Some(([c], tail))
  {
    TakeIdentOf(c, " = ?" + tail);
    Prefix(" = ?", tail);
  }

  /** A condition followed by a separator and more conditions. */
  lemma ConditionNext(c: string, sep: string, more: string, cs: seq<string>, tail: string)
    requires IsValidIdentifier(c) && ParseConditions(more, sep) == Some((cs, tail))
    ensures ParseConditions(c + (" = ?" + (sep + more)), sep) == Some(([c] + cs, tail))
  {
    TakeIdentOf(c, " = ?" + (sep + more));
    Prefix(" = ?", sep + more);
    Prefix(sep, more);
  }

  /** Reading a rendered condition list gives back its columns. */
  lemma {:induction false} ParseConditionsOf(columns: seq<string>, sep: string, tail: string)
    requires |columns| > 0 && AllValid(columns)
    requires !(sep <= tail)
    ensures ParseConditions(Join(Conditions(columns), sep) + tail, sep) == Some((columns, tail))
  {
    var c := columns[0];
    if |columns| == 1 {
      ConditionsSplit(columns, sep, tail);
      ConditionLast(c, sep, tail);
      assert columns == [c];
    } else {
      var more := Join(Conditions(columns[1..]), sep) + tail;
      ConditionsSplit(columns, sep, tail);
      ParseConditionsOf(columns[1..], sep, tail);
      ConditionNext(c, sep, more, columns[1..], tail);
      assert [c] + columns[1..] == columns;
    }
  }

  /** A rendered condition list: its first condition, then the rest. */
  lemma ConditionsSplit(columns: seq<string>, sep: string, tail: string)
    requires |columns| > 0
    ensures |columns| == 1 ==> Join(Conditions(columns), sep) + tail == columns[0] + (" = ?" + tail)
    ensures |columns| > 1 ==>
              Join(Conditions(columns), sep) + tail ==
              columns[0] + (" = ?" + (sep + (Join(Conditions(columns[1..]), sep) + tail)))
  {
    var c := columns[0];
    if |columns| == 1 {
      assert Join(Conditions(columns), sep) == c + " = ?";
      Assoc(c, " = ?", tail);
    } else {
      var joined := Join(Conditions(columns[1..]), sep);
      var more := joined + tail;
      assert Conditions(columns)[1..] == Conditions(columns[1..]);
      assert Join(Conditions(columns), sep) == c + " = ?" + sep + joined;
      Assoc(c + " = ?" + sep, joined, tail);
      Assoc(c + " = ?", sep, more);
      Assoc(c, " = ?", sep + more);
    }
  }

  /** Reading a rendered identifier list gives back its identifiers. */
  lemma {:induction false} ParseIdentsOf(names: seq<string>, sep: string, tail: string)
    requires |names| > 0 && AllValid(names)
    requires |sep| > 0 && !IsIdentChar(sep[0])
    requires (|tail| == 0 || !IsIdentChar(tail[0])) && !(sep <= tail)
    ensures ParseIdents(Join(names, sep) + tail, sep) == Some((names, tail))
  {
    var c := names[0];
    if |names| == 1 {
      TakeIdentOf(c, tail);
      assert names == [c];
    } else {
      var joined := Join(names[1..], sep);
      var more := joined + tail;
      assert Join(names, sep) == c + sep + joined;
      Assoc(c + sep, joined, tail);
      Assoc(c, sep, more);
      assert Join(names, sep) + tail == c + (sep + more);
      TakeIdentOf(c, sep + more);
      Prefix(sep, more);
      ParseIdentsOf(names[1..], sep, tail);
      assert [c] + names[1..] == names;
    }
  }

  /** Reading `n` rendered marks gives back `n`. */
  lemma {:induction false} ParseMarksOf(n: nat, tail: string)
    requires n > 0 && !(", " <= tail)
    ensures ParseMarks(Join(Marks(n), ", ") + tail) == Some((n, tail))
  {
    if n == 1 {
      assert Join(Marks(1), ", ") + tail == "?" + tail;
      ConsPrefix('?', ", ", tail);
      assert "?, " == ['?'] + ", " && "?" + tail == ['?'] + tail;
      Prefix("?", tail);
    } else {
      assert Marks(n)[1..] == Marks(n - 1);
      var more := Join(Marks(n - 1), ", ") + tail;
      assert Join(Marks(n), ", ") + tail == "?, " + more;
      Prefix("?, ", more);
      ParseMarksOf(n - 1, tail);
    }
  }

  lemma ParseOrderOf(order: Option<(string, Direction)>)
    requires order.Some? ==> IsValidIdentifier(order.value.0)
    ensures ParseOrder(OrderClause(order)) == Some(order)
  {
    if order.Some? {
      OrderOf(order.value.0, order.value.1);
    }
  }

  lemma OrderOf(c: string, d: Direction)
    requires IsValidIdentifier(c)
    ensures ParseOrder(OrderClause(Some((c, d)))) == Some(Some((c, d)))
  {
    var k := " " + Keyword(d);
    Assoc(" ORDER BY " + c, " ", Keyword(d));
    Assoc(" ORDER BY ", c, k);
    assert OrderClause(Some((c, d))) == " ORDER BY " + (c + k);
    if d == Asc {
      assert k == " ASC";
      OrderStep(c, " ASC");
    } else {
      assert k == " DESC";
      assert |" DESC"| != |" ASC"|;
      OrderStep(c, " DESC");
    }
  }

  /** `ORDER BY`, a column, and what follows it. */
  lemma OrderStep(c: string, k: string)
    requires IsValidIdentifier(c) && |k| > 0 && k[0] == ' '
    ensures ParseOrder(" ORDER BY " + (c + k)) ==
            if k == " ASC" then Some(Some((c, Asc))) else if k == " DESC" then Some(Some((c, Desc))) else None
  {
    Prefix(" ORDER BY ", c + k);
    TakeIdentOf(c, k);
  }

  /** A sort clause never starts like a `WHERE` clause or another condition. */
  lemma OrderClauseStart(order: Option<(string, Direction)>)
    ensures !(" WHERE " <= OrderClause(order)) && !(" AND " <= OrderClause(order))
  {
    var o := OrderClause(order);
    if |o| > 0 {
      assert o[1] == 'O';
      ConsPrefix(' ', "WHERE ", o[1..]);
      NotPrefix("WHERE ", o[1..]);
      ConsPrefix(' ', "AND ", o[1..]);
      NotPrefix("AND ", o[1..]);
      assert " WHERE " == [' '] + "WHERE " && " AND " == [' '] + "AND " && o == [' '] + o[1..];
    }
  }

  /** The text after `SELECT * FROM ` for a statement without filters. */
  lemma SelectRoundTripUnfiltered(t: string, order: Option<(string, Direction)>)
    requires SafeNames(Select(t, [], order))
    ensures ParseSelect(t + OrderClause(order)) == Some(Select(t, [], order))
  {
    ParseOrderOf(order);
    TakeIdentOf(t, OrderClause(order));
    OrderClauseStart(order);
  }

  /** The text after `SELECT * FROM ` for a statement with filters. */
  lemma SelectRoundTripFiltered(t: string, filters: seq<string>, order: Option<(string, Direction)>)
    requires |filters| > 0 && SafeNames(Select(t, filters, order))
    ensures ParseSelect(t + (" WHERE " + (Join(Conditions(filters), " AND ") + OrderClause(order))))
         == Some(Select(t, filters, order))
  {
    var o := OrderClause(order);
    var conds := Join(Conditions(filters), " AND ");
    var rest := " WHERE " + (conds + o);
    ParseOrderOf(order);
    TakeIdentOf(t, rest);
    Prefix(" WHERE ", conds + o);
    assert " WHERE " <= rest && rest[7..] == conds + o;
    OrderClauseStart(order);
    ParseConditionsOf(filters, " AND ", o);
  }

  lemma SelectRoundTrip(t: string, filters: seq<string>, order: Option<(string, Direction)>)
    requires SafeNames(Select(t, filters, order))
    ensures ParseSelect(t + WhereClause(filters) + OrderClause(order)) == Some(Select(t, filters, order))
  {
    var o := OrderClause(order);
    if |filters| == 0 {
      assert t + WhereClause(filters) + o == t + o;
      SelectRoundTripUnfiltered(t, order);
    } else {
      var conds := Join(Conditions(filters), " AND ");
      assert t + WhereClause(filters) + o == t + (" WHERE " + (conds + o));
      SelectRoundTripFiltered(t, filters, order);
    }
  }

  /** The column list of an insert, then its marks. */
  lemma InsertListsOf(columns: seq<string>)
    requires |columns| > 0 && AllValid(columns)
    ensures ParseIdents(Join(columns, ", ") + (") VALUES (" + Join(Marks(|columns|), ", ") + ")"), ", ")
         == Some((columns, ") VALUES (" + Join(Marks(|columns|), ", ") + ")"))
    ensures ParseMarks((") VALUES (" + Join(Marks(|columns|), ", ") + ")")[10..]) == Some((|columns|, ")"))
  {
    var marks := Join(Marks(|columns|), ", ");
    var tail := ") VALUES (" + marks + ")";
    NotPrefix(", ", tail);
    ParseIdentsOf(columns, ", ", tail);
    MarksTail(marks);
    NotPrefix(", ", ")");
    ParseMarksOf(|columns|, ")");
  }

  lemma MarksTail(marks: string)
    ensures (") VALUES (" + marks + ")")[10..] == marks + ")"
  {
    Assoc(") VALUES (", marks, ")");
    Prefix(") VALUES (", marks + ")");
  }

  lemma InsertRoundTrip(t: string, columns: seq<string>)
    requires WellFormed(Insert(t, columns))
    ensures ParseInsert(t + " (" + Join(columns, ", ") + ") VALUES (" + Join(Marks(|columns|), ", ") + ")")
         == Some(Insert(t, columns))
  {
    var cols := Join(columns, ", ");
    var marks := Join(Marks(|columns|), ", ");
    var tail := ") VALUES (" + marks + ")";
    var rest := " (" + (cols + tail);
    var head := t + " (";
    Assoc(head + cols + ") VALUES (", marks, ")");
    Assoc(head + cols, ") VALUES (", marks + ")");
    Assoc(") VALUES (", marks, ")");
    Assoc(head, cols, tail);
    Assoc(t, " (", cols + tail);
    assert t + " (" + cols + ") VALUES (" + marks + ")" == t + rest;
    TakeIdentOf(t, rest);
    Prefix(" (", cols + tail);
    assert rest[2..] == cols + tail;
    InsertListsOf(columns);
    Prefix(") VALUES (", marks + ")");
    assert ") VALUES (" <= tail;
  }

  lemma UpdateRoundTrip(t: string, columns: seq<string>)
    requires SafeNames(Update(t, columns))
    ensures ParseUpdate(t + " SET " + Join(Conditions(columns), ", ") + " WHERE id = ?") == Some(Update(t, columns))
  {
    var sets := Join(Conditions(columns), ", ");
    var tail := " WHERE id = ?";
    assert t + " SET " + sets + tail == t + (" SET " + (sets + tail));
    TakeIdentOf(t, " SET " + (sets + tail));
    Prefix(" SET ", sets + tail);
    if |columns| > 0 {
      assert |sets| >= 4 by {
        if |columns| > 1 {
          assert sets == Condition(columns[0]) + ", " + Join(Conditions(columns)[1..], ", ");
        }
      }
      NotPrefix(", ", tail);
      ParseConditionsOf(columns, ", ", tail);
    }
  }

  lemma DeleteRoundTrip(t: string)
    requires IsValidIdentifier(t)
    ensures ParseDelete(t + " WHERE id = ?") == Some(Delete(t))
  {
    TakeIdentOf(t, " WHERE id = ?");
  }

  lemma ParseRenderSelect(t: string, filters: seq<string>, order: Option<(string, Direction)>)
    requires SafeNames(Select(t, filters, order))
    ensures Parse(Render(Select(t, filters, order))) == Some(Select(t, filters, order))
  {
    Prefix3("SELECT * FROM ", t, WhereClause(filters), OrderClause(order));
    SelectRoundTrip(t, filters, order);
  }

  lemma ParseRenderInsert(s: Statement)
    requires s.Insert? && WellFormed(s)
    ensures Parse(Render(s)) == Some(s)
  {
    var rest := s.table + " (" + Join(s.columns, ", ") + ") VALUES (" + Join(Marks(|s.columns|), ", ") + ")";
    assert Render(s) == "INSERT INTO " + rest;
    Prefix("INSERT INTO ", rest);
    NotPrefix("SELECT * FROM ", Render(s));
    InsertRoundTrip(s.table, s.columns);
  }

  lemma ParseRenderUpdate(s: Statement)
    requires s.Update? && WellFormed(s)
    ensures Parse(Render(s)) == Some(s)
  {
    var rest := s.table + " SET " + Join(Conditions(s.columns), ", ") + " WHERE id = ?";
    assert Render(s) == "UPDATE " + rest;
    Prefix("UPDATE ", rest);
    NotPrefix("SELECT * FROM ", Render(s));
    NotPrefix("INSERT INTO ", Render(s));
    UpdateRoundTrip(s.table, s.columns);
  }

  lemma ParseRenderDelete(s: Statement)
    requires s.Delete? && WellFormed(s)
    ensures Parse(Render(s)) == Some(s)
  {
    var rest := s.table + " WHERE id = ?";
    assert Render(s) == "DELETE FROM " + rest;
    Prefix("DELETE FROM ", rest);
    NotPrefix("SELECT * FROM ", Render(s));
    NotPrefix("INSERT INTO ", Render(s));
    NotPrefix("UPDATE ", Render(s));
    DeleteRoundTrip(s.table);
  }

  /** The SQL text of a statement the handlers can build determines that
      statement. */
  lemma ParseRender(s: Statement)
    requires WellFormed(s)
    ensures Parse(Render(s)) == Some(s)
  {
    match s
    case Select(t, filters, order) => ParseRenderSelect(t, filters, order);
    case Insert(_, _) => ParseRenderInsert(s);
    case Update(_, _) => ParseRenderUpdate(s);
    case Delete(_) => ParseRenderDelete(s);
  }

  /** Two statements the handlers can build never share their SQL text. */
  lemma RenderInjective(s: Statement, s': Statement)
    requires WellFormed(s) && WellFormed(s')
    ensures Render(s) == Render(s') <==> s == s'
  {
    ParseRender(s);
    ParseRender(s');
  }

  // ---------------------------------------------------------------------
  // Placeholders and punctuation

  /** A character that no fixed part of a statement holds, except `?`:
      neither an identifier character nor one of ` *=(),`. */
  predicate Foreign(c: char)
  {
    !IsIdentChar(c) && c != ' ' && c != '*' && c != '=' && c != '(' && c != ')' && c != ','
  }

  /** One for the placeholder mark, zero for every other character. */
  function Mark(c: char): nat
  {
    if c == '?' then 1 else 0
  }

  /** A fixed part of the template without a mark holds no foreign
      character. */
  lemma NoForeign(text: string, c: char)
    requires Foreign(c) && c !in text
    ensures Count(text, c) == 0
  {
    CountZero(text, c);
  }

  lemma MarkCount(c: char)
    ensures Count("?", c) == Mark(c)
  {
  }

  /** A fixed part of the template that ends in the mark holds a foreign
      character only as that mark. */
  lemma MarkedTemplateCount(text: string, c: char)
    requires Foreign(c) && text in {" = ?", " WHERE id = ?"}
    ensures Count(text, c) == Mark(c)
  {
    var head := text[..|text| - 1];
    assert text == head + "?";
    assert head == " = " || head == " WHERE id = ";
    NoForeign(head, c);
    CountAppend(head, "?", c);
  }

  lemma CountCat3(a: string, b: string, d: string, c: char)
    ensures Count(a + b + d, c) == Count(a, c) + Count(b, c) + Count(d, c)
  {
    CountAppend(a, b, c);
    CountAppend(a + b, d, c);
  }

  lemma CountCat4(a: string, b: string, d: string, e: string, c: char)
    ensures Count(a + b + d + e, c) == Count(a, c) + Count(b, c) + Count(d, c) + Count(e, c)
  {
    CountCat3(a, b, d, c);
    CountAppend(a + b + d, e, c);
  }

  lemma JoinIdentsCount(columns: seq<string>, c: char)
    requires AllValid(columns) && Foreign(c)
    ensures Count(Join(columns, ", "), c) == 0
  {
    NoForeign(", ", c);
    forall i | 0 <= i < |columns| ensures Count(columns[i], c) == 0 {
      ValidHasNoOther(columns[i], c);
    }
    CountJoin(columns, ", ", c, 0);
  }

  lemma JoinConditionsCount(columns: seq<string>, sep: string, c: char)
    requires AllValid(columns) && Foreign(c) && sep in {" AND ", ", "}
    ensures Count(Join(Conditions(columns), sep), c) == |columns| * Mark(c)
  {
    NoForeign(sep, c);
    MarkedTemplateCount(" = ?", c);
    forall i | 0 <= i < |columns| ensures Count(Conditions(columns)[i], c) == Mark(c) {
      ValidHasNoOther(columns[i], c);
      CountAppend(columns[i], " = ?", c);
    }
    CountJoin(Conditions(columns), sep, c, Mark(c));
  }

  lemma JoinMarksCount(n: nat, c: char)
    requires Foreign(c)
    ensures Count(Join(Marks(n), ", "), c) == n * Mark(c)
  {
    NoForeign(", ", c);
    MarkCount(c);
    CountJoin(Marks(n), ", ", c, Mark(c));
  }

  lemma SelectOccurrences(t: string, filters: seq<string>, order: Option<(string, Direction)>, c: char)
    requires SafeNames(Select(t, filters, order)) && Foreign(c)
    ensures Count(Render(Select(t, filters, order)), c) == |filters| * Mark(c)
  {
    ValidHasNoOther(t, c);
    NoForeign("SELECT * FROM ", c);
    CountCat3("SELECT * FROM " + t, WhereClause(filters), OrderClause(order), c);
    CountAppend("SELECT * FROM ", t, c);
    if |filters| > 0 {
      NoForeign(" WHERE ", c);
      JoinConditionsCount(filters, " AND ", c);
      CountAppend(" WHERE ", Join(Conditions(filters), " AND "), c);
    }
    if order.Some? {
      ValidHasNoOther(order.value.0, c);
      NoForeign(" ORDER BY ", c);
      NoForeign(" ", c);
      NoForeign(Keyword(order.value.1), c);
      CountCat4(" ORDER BY ", order.value.0, " ", Keyword(order.value.1), c);
    }
  }

  lemma InsertOccurrences(t: string, columns: seq<string>, c: char)
    requires SafeNames(Insert(t, columns)) && Foreign(c)
    ensures Count(Render(Insert(t, columns)), c) == |columns| * Mark(c)
  {
    var cols := Join(columns, ", ");
    var marks := Join(Marks(|columns|), ", ");
    ValidHasNoOther(t, c);
    JoinIdentsCount(columns, c);
    JoinMarksCount(|columns|, c);
    NoForeign("INSERT INTO ", c);
    NoForeign(" (", c);
    NoForeign(") VALUES (", c);
    NoForeign(")", c);
    CountCat4("INSERT INTO " + t, " (", cols, ") VALUES (", c);
    CountAppend("INSERT INTO ", t, c);
    CountCat3("INSERT INTO " + t + " (" + cols + ") VALUES (", marks, ")", c);
  }

  lemma UpdateOccurrences(t: string, columns: seq<string>, c: char)
    requires SafeNames(Update(t, columns)) && Foreign(c)
    ensures Count(Render(Update(t, columns)), c) == (|columns| + 1) * Mark(c)
  {
    var sets := Join(Conditions(columns), ", ");
    var head := "UPDATE " + t + " SET " + sets;
    assert Render(Update(t, columns)) == head + " WHERE id = ?";
    assert Count(head, c) == |columns| * Mark(c) by {
      ValidHasNoOther(t, c);
      JoinConditionsCount(columns, ", ", c);
      NoForeign("UPDATE ", c);
      NoForeign(" SET ", c);
      CountCat4("UPDATE ", t, " SET ", sets, c);
    }
    MarkedTemplateCount(" WHERE id = ?", c);
    CountAppend(head, " WHERE id = ?", c);
  }

  lemma DeleteOccurrences(t: string, c: char)
    requires IsValidIdentifier(t) && Foreign(c)
    ensures Count(Render(Delete(t)), c) == Mark(c)
  {
    ValidHasNoOther(t, c);
    NoForeign("DELETE FROM ", c);
    MarkedTemplateCount(" WHERE id = ?", c);
    CountCat3("DELETE FROM ", t, " WHERE id = ?", c);
  }

  /** Outside the fixed text of the template, a statement whose identifiers
      pass the allow-list holds no character but identifier characters and
      its `?` marks, and it has exactly one mark per value it needs bound. */
  lemma Occurrences(s: Statement, c: char)
    requires SafeNames(s) && Foreign(c)
    ensures Count(Render(s), c) == Arity(s) * Mark(c)
  {
    match s
    case Select(t, filters, order) => SelectOccurrences(t, filters, order, c);
    case Insert(t, columns) => InsertOccurrences(t, columns, c);
    case Update(t, columns) => UpdateOccurrences(t, columns, c);
    case Delete(t) => DeleteOccurrences(t, c);
  }

  lemma PlaceholderCount(s: Statement)
    requires SafeNames(s)
    ensures Count(Render(s), '?') == Arity(s)
  {
    Occurrences(s, '?');
  }

  /** No quote, statement separator or comment introducer can appear in the
      text of a statement whose identifiers pass the allow-list, so none can
      open a string literal, start a second statement or comment out the
      rest. */
  lemma NoQuotesOrSeparators(s: Statement, c: char)
    requires SafeNames(s) && c in {';', '\'', '"', '-', '/'}
    ensures c !in Render(s)
  {
    assert Foreign(c) && c != '?';
    Absent(s, c);
  }

  lemma Absent(s: Statement, c: char)
    requires SafeNames(s) && Foreign(c) && c != '?'
    ensures c !in Render(s)
  {
    Occurrences(s, c);
    CountZero(Render(s), c);
  }

  /** Text that cannot end a string literal, start a second statement or
      start a comment. */
  predicate Inert(sql: string)
  {
    ';' !in sql && '\'' !in sql && '"' !in sql && '-' !in sql && '/' !in sql
  }

  lemma RenderInert(s: Statement)
    requires SafeNames(s)
    ensures Inert(Render(s))
  {
    NoQuotesOrSeparators(s, ';');
    NoQuotesOrSeparators(s, '\'');
    NoQuotesOrSeparators(s, '"');
    NoQuotesOrSeparators(s, '-');
    NoQuotesOrSeparators(s, '/');
  }
}
