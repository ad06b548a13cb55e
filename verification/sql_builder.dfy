/** The statement text and parameter lists the data-access layer sends to
    SQLite. Table and column names are spliced into the text; values travel
    only as parameters. Executing a statement is outside the model: `getAll`
    receives the rows the database returned. */
module SqlBuilder {
  import opened JsValues

  /** A statement ready for `executeSql`: its text and its parameters. */
  datatype Statement = Statement(sql: string, params: seq<JsValue>)

  /** An object's own enumerable properties, in `Object.keys` order. */
  type Fields = seq<(string, JsValue)>

  function Keys(fields: Fields): (r: seq<string>)
    ensures |r| == |fields| && forall i :: 0 <= i < |r| ==> r[i] == fields[i].0
  {
    seq(|fields|, i requires 0 <= i < |fields| => fields[i].0)
  }

  function Values(fields: Fields): (r: seq<JsValue>)
    ensures |r| == |fields| && forall i :: 0 <= i < |r| ==> r[i] == fields[i].1
  {
    seq(|fields|, i requires 0 <= i < |fields| => fields[i].1)
  }

  /** `Array.prototype.join(sep)`. */
  function Join(parts: seq<string>, sep: string): string
    decreases |parts|
  {
    if |parts| == 0 then ""
    else if |parts| == 1 then parts[0]
    else Join(parts[..|parts| - 1], sep) + sep + parts[|parts| - 1]
  }

  /** The number of occurrences of `c` in `s`. */
  function Count(s: string, c: char): nat
    decreases |s|
  {
    if |s| == 0 then 0 else (if s[0] == c then 1 else 0) + Count(s[1..], c)
  }

  lemma {:induction false} CountAppend(a: string, b: string, c: char)
    ensures Count(a + b, c) == Count(a, c) + Count(b, c)
    decreases |a|
  {
    if |a| == 0 {
      assert a + b == b;
    } else {
      assert (a + b)[1..] == a[1..] + b;
      CountAppend(a[1..], b, c);
    }
  }

  lemma CountAppend3(a: string, b: string, c: string, ch: char)
    ensures Count(a + b + c, ch) == Count(a, ch) + Count(b, ch) + Count(c, ch)
  {
    CountAppend(a, b, ch);
    CountAppend(a + b, c, ch);
  }

  /** A string without `c` contributes no occurrence of it. */
  lemma {:induction false} NoMarks(s: string, c: char)
    requires c !in s
    ensures Count(s, c) == 0
    decreases |s|
  {
    if |s| > 0 {
      assert s[0] in s;
      assert forall x :: x in s[1..] ==> x in s;
      NoMarks(s[1..], c);
    }
  }

  /** The shapes of the three statements with text: fixed words without `c`
      around the spliced names and lists, ending in a single placeholder for
      `update` and `remove`. */
  lemma InsertShape(a: string, t: string, b: string, cols: string, d: string, marks: string, e: string, c: char)
    requires c !in a && c !in b && c !in d && c !in e
    ensures Count(a + t + b + cols + d + marks + e, c) == Count(t, c) + Count(cols, c) + Count(marks, c)
  {
    NoMarks(a, c);
    NoMarks(b, c);
    NoMarks(d, c);
    NoMarks(e, c);
    CountAppend3(a, t, b, c);
    CountAppend3(a + t + b, cols, d, c);
    CountAppend3(a + t + b + cols + d, marks, e, c);
  }

  lemma UpdateShape(a: string, t: string, b: string, assigns: string, d: string, c: char)
    requires c !in a && c !in b && c !in d
    ensures Count(a + t + b + assigns + d + [c], c) == Count(t, c) + Count(assigns, c) + 1
  {
    NoMarks(a, c);
    NoMarks(b, c);
    NoMarks(d, c);
    CountAppend3(a, t, b, c);
    CountAppend3(a + t + b, assigns, d, c);
    CountAppend(a + t + b + assigns + d, [c], c);
    assert [c][1..] == [];
  }

  lemma SelectShape(a: string, t: string, c: char)
    requires c !in a
    ensures Count(a + t, c) == Count(t, c)
    ensures (a + t)[|a|..] == t
  {
    NoMarks(a, c);
    CountAppend(a, t, c);
  }

  lemma RemoveShape(a: string, t: string, d: string, c: char)
    requires c !in a && c !in d
    ensures Count(a + t + d + [c], c) == Count(t, c) + 1
  {
    NoMarks(a, c);
    NoMarks(d, c);
    CountAppend3(a, t, d, c);
    CountAppend(a + t + d, [c], c);
    assert [c][1..] == [];
  }

  /** The occurrences of `c` over a list of strings. */
  function CountAll(parts: seq<string>, c: char): nat
    decreases |parts|
  {
    if |parts| == 0 then 0 else CountAll(parts[..|parts| - 1], c) + Count(parts[|parts| - 1], c)
  }

  /** Joining with a separator free of `c` adds no occurrence of it. */
  lemma {:induction false} CountJoin(parts: seq<string>, sep: string, c: char)
    requires c !in sep
    ensures Count(Join(parts, sep), c) == CountAll(parts, c)
    decreases |parts|
  {
    if |parts| == 1 {
      assert parts[..0] == [];
    } else if |parts| > 1 {
      var init := parts[..|parts| - 1];
      CountJoin(init, sep, c);
      NoMarks(sep, c);
      CountAppend3(Join(init, sep), sep, parts[|parts| - 1], c);
    }
  }

  /** `keys.map(() => '?')`. */
  function Placeholders(n: nat): (r: seq<string>)
    ensures |r| == n && forall i :: 0 <= i < n ==> r[i] == "?"
  {
    seq(n, _ => "?")
  }

  lemma {:induction false} CountAllPlaceholders(n: nat)
    ensures CountAll(Placeholders(n), '?') == n
    decreases n
  {
    if n > 0 {
      assert Placeholders(n)[..n - 1] == Placeholders(n - 1);
      CountAllPlaceholders(n - 1);
    }
  }

  /** `keys.map((key) => `${key} = ?`)`. */
  function Assignments(keys: seq<string>): (r: seq<string>)
    ensures |r| == |keys| && forall i :: 0 <= i < |r| ==> r[i] == keys[i] + " = ?"
  {
    seq(|keys|, i requires 0 <= i < |keys| => keys[i] + " = ?")
  }

  /** One assignment carries its key's marks and its own placeholder. */
  lemma AssignmentMarks(key: string)
    ensures Count(key + " = ?", '?') == Count(key, '?') + 1
  {
    assert key + " = ?" == key + " = " + ['?'];
    NoMarks(" = ", '?');
    CountAppend3(key, " = ", ['?'], '?');
    assert ['?'][1..] == [];
  }

  lemma {:induction false} CountAllAssignments(keys: seq<string>)
    ensures CountAll(Assignments(keys), '?') == CountAll(keys, '?') + |keys|
    decreases |keys|
  {
    if |keys| > 0 {
      assert Assignments(keys)[..|keys| - 1] == Assignments(keys[..|keys| - 1]);
      CountAllAssignments(keys[..|keys| - 1]);
      AssignmentMarks(keys[|keys| - 1]);
    }
  }

  /** The '?' characters of a statement's own text: those a table or column
      name brings in, plus its placeholders. */
  function NameMarks(table: string, fields: Fields): nat {
    Count(table, '?') + CountAll(Keys(fields), '?')
  }

  /** The loop of `getAll`: `rows.item(i)` for i from 0 up to the row count. */
  method CopyRows<T>(rows: seq<T>) returns (items: seq<T>)
    ensures |items| == |rows| && forall i :: 0 <= i < |items| ==> items[i] == rows[i]
  {
    items := [];
    var i := 0;
    while i < |rows|
      invariant 0 <= i <= |rows|
      invariant |items| == i && forall k :: 0 <= k < i ==> items[k] == rows[k]
    {
      items := items + [rows[i]];
      i := i + 1;
    }
  }

  /** The text of `getAll`'s query. */
  function SelectSql(table: string): (r: string)
    ensures Count(r, '?') == Count(table, '?')
    ensures |r| >= |table| && r[|r| - |table|..] == table
  {
    SelectShape("SELECT * FROM ", table, '?');
    "SELECT * FROM " + table
  }

  /** `getAll(table)`: the query, and the rows it returned in index order. */
  method GetAll<T>(table: string, rows: seq<T>) returns (stmt: Statement, items: seq<T>)
    ensures stmt.params == [] && Count(stmt.sql, '?') == Count(table, '?')
    ensures |stmt.sql| >= |table| && stmt.sql[|stmt.sql| - |table|..] == table
    ensures |items| == |rows| && forall i :: 0 <= i < |items| ==> items[i] == rows[i]
  {
    stmt := Statement(SelectSql(table), []);
    items := CopyRows(rows);
  }

  /** The text of `insert`: the column list and one placeholder per key. */
  function InsertSql(table: string, keys: seq<string>): (r: string)
    ensures Count(r, '?') == Count(table, '?') + CountAll(keys, '?') + |keys|
  {
    var cols := Join(keys, ", ");
    var marks := Join(Placeholders(|keys|), ", ");
    CountJoin(keys, ", ", '?');
    CountJoin(Placeholders(|keys|), ", ", '?');
    CountAllPlaceholders(|keys|);
    InsertShape("INSERT INTO ", table, " (", cols, ") VALUES (", marks, ")", '?');
    "INSERT INTO " + table + " (" + cols + ") VALUES (" + marks + ")"
  }

  /** `insert(table, fields)`: the values in key order. */
  function Insert(table: string, fields: Fields): (r: Statement)
    ensures r.params == Values(fields)
    ensures Count(r.sql, '?') == NameMarks(table, fields) + |fields|
  {
    Statement(InsertSql(table, Keys(fields)), Values(fields))
  }

  /** The text of `update`: one `key = ?` per key, then the id condition. */
  function UpdateSql(table: string, keys: seq<string>): (r: string)
    ensures Count(r, '?') == Count(table, '?') + CountAll(keys, '?') + |keys| + 1
  {
    var assigns := Join(Assignments(keys), ", ");
    CountJoin(Assignments(keys), ", ", '?');
    CountAllAssignments(keys);
    UpdateShape("UPDATE ", table, " SET ", assigns, " WHERE id = ", '?');
    "UPDATE " + table + " SET " + assigns + " WHERE id = " + "?"
  }

  /** `update(table, fields, id)`: the id is the last parameter. */
  function Update(table: string, fields: Fields, id: JsValue): (r: Statement)
    ensures |r.params| == |fields| + 1
    ensures r.params[..|fields|] == Values(fields) && r.params[|fields|] == id
    ensures Count(r.sql, '?') == NameMarks(table, fields) + |fields| + 1
  {
    Statement(UpdateSql(table, Keys(fields)), Values(fields) + [id])
  }

  /** The text of `remove`. */
  function RemoveSql(table: string): (r: string)
    ensures Count(r, '?') == Count(table, '?') + 1
  {
    RemoveShape("DELETE FROM ", table, " WHERE id = ", '?');
    "DELETE FROM " + table + " WHERE id = " + "?"
  }

  /** `remove(table, id)`. */
  function Remove(table: string, id: JsValue): (r: Statement)
    ensures r.params == [id]
    ensures Count(r.sql, '?') == Count(table, '?') + 1
  {
    Statement(RemoveSql(table), [id])
  }

  /** Names free of '?' make every statement bind exactly its parameters. */
  lemma PlaceholdersMatchParams(table: string, fields: Fields, id: JsValue)
    requires '?' !in table
    requires forall i :: 0 <= i < |fields| ==> '?' !in fields[i].0
    ensures Count(Insert(table, fields).sql, '?') == |Insert(table, fields).params|
    ensures Count(Update(table, fields, id).sql, '?') == |Update(table, fields, id).params|
    ensures Count(Remove(table, id).sql, '?') == |Remove(table, id).params|
  {
    NoMarks(table, '?');
    NoMarksInKeys(Keys(fields));
  }

  lemma {:induction false} NoMarksInKeys(keys: seq<string>)
    requires forall i :: 0 <= i < |keys| ==> '?' !in keys[i]
    ensures CountAll(keys, '?') == 0
    decreases |keys|
  {
    if |keys| > 0 {
      NoMarksInKeys(keys[..|keys| - 1]);
      NoMarks(keys[|keys| - 1], '?');
    }
  }

  /** The statement text depends on the table and the keys only: values
      never reach it. */
  lemma TextIgnoresValues(table: string, a: Fields, b: Fields, x: JsValue, y: JsValue)
    requires Keys(a) == Keys(b)
    ensures Insert(table, a).sql == Insert(table, b).sql
    ensures Update(table, a, x).sql == Update(table, b, y).sql
    ensures Remove(table, x).sql == Remove(table, y).sql
  {
  }
}

/** The typed twin of the data-access layer: the same statements, with the
    row id a number. */
module TypedDatabase {
  import opened JsValues
  import SqlBuilder

  /** `update(table, fields, id: number)`. */
  function Update(table: string, fields: SqlBuilder.Fields, id: int): (r: SqlBuilder.Statement)
    ensures |r.params| == |fields| + 1 && r.params[|fields|] == Num(id)
    ensures r.params[..|fields|] == SqlBuilder.Values(fields)
    ensures forall x :: r.sql == SqlBuilder.Update(table, fields, x).sql
  {
    SqlBuilder.Update(table, fields, Num(id))
  }

  /** `remove(table, id: number)`. */
  function Remove(table: string, id: int): (r: SqlBuilder.Statement)
    ensures r.params == [Num(id)]
    ensures forall x :: r.sql == SqlBuilder.Remove(table, x).sql
  {
    SqlBuilder.Remove(table, Num(id))
  }
}
