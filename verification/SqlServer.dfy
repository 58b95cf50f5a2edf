/**
 * What a database does with a parsed statement, and what that means for the
 * finite map from id to row that a repository stands for.
 */
module SqlServer {
  import opened SqlText

  datatype Value = Null | Datum(text: string)

  type Row = map<string, Value>

  /** A table whose id column is its primary key. */
  datatype Table = Table(name: string, columns: set<string>, key: string, rows: seq<Row>)

  /** The primary key of a row. */
  function Id(key: string, row: Row): Value {
    if key in row then row[key] else Null
  }

  /** Rows have every column, and a key that is not NULL and not taken. */
  predicate Keyed(t: Table) {
    && t.key in t.columns
    && (forall i :: 0 <= i < |t.rows| ==> t.rows[i].Keys == t.columns && Id(t.key, t.rows[i]) != Null)
    && (forall i, j :: 0 <= i < j < |t.rows| ==> Id(t.key, t.rows[i]) != Id(t.key, t.rows[j]))
  }

  /** `col = v` in a WHERE clause; NULL equals nothing. */
  predicate Matches(row: Row, col: string, v: Value) {
    v != Null && col in row && row[col] == v
  }

  function Where(rows: seq<Row>, col: string, v: Value): seq<Row> {
    if rows == [] then []
    else if Matches(rows[0], col, v) then [rows[0]] + Where(rows[1..], col, v)
    else Where(rows[1..], col, v)
  }

  function Without(rows: seq<Row>, col: string, v: Value): seq<Row> {
    if rows == [] then []
    else if Matches(rows[0], col, v) then Without(rows[1..], col, v)
    else [rows[0]] + Without(rows[1..], col, v)
  }

  /** Every matching row takes the changes, in place. */
  function SetWhere(rows: seq<Row>, col: string, v: Value, changes: Row): seq<Row> {
    seq(|rows|, i requires 0 <= i < |rows| => if Matches(rows[i], col, v) then rows[i] + changes else rows[i])
  }

  /** Each placeholder stands for one of the values. */
  predicate InRange(sets: seq<(string, nat)>, values: seq<Value>) {
    forall i :: 0 <= i < |sets| ==> 1 <= sets[i].1 <= |values|
  }

  predicate Distinct(names: seq<string>) {
    forall i, j :: 0 <= i < j < |names| ==> names[i] != names[j]
  }

  /** The columns with the values that their placeholders stand for. */
  function Bind(sets: seq<(string, nat)>, values: seq<Value>): Row
    requires InRange(sets, values)
  {
    if sets == [] then map[]
    else
      var last := sets[|sets| - 1];
      Bind(sets[..|sets| - 1], values)[last.0 := values[last.1 - 1]]
  }

  function Zip(cols: seq<string>, holes: seq<nat>): seq<(string, nat)>
    requires |cols| == |holes|
  {
    seq(|cols|, i requires 0 <= i < |cols| => (cols[i], holes[i]))
  }

  predicate Settable(t: Table, sets: seq<(string, nat)>, values: seq<Value>) {
    InRange(sets, values) && Distinct(Names(sets)) && forall i :: 0 <= i < |sets| ==> sets[i].0 in t.columns
  }

  /** Refused leaves the table alone. */
  datatype Outcome = Refused | Ran(table: Table, rows: seq<Row>, count: nat)

  /**
   * A relational server. defaults are what it puts in the columns that an
   * INSERT does not mention.
   */
  function Exec(t: Table, s: Statement, values: seq<Value>, defaults: Row): Outcome
    requires Keyed(t) && defaults.Keys == t.columns
  {
    if s.table != t.name then Refused
    else match s
      case Insert(_, cols, holes, returning) =>
        if |cols| != |holes| || |values| != |holes| || !Settable(t, Zip(cols, holes), values) then Refused
        else
          var row := defaults + Bind(Zip(cols, holes), values);
          if Id(t.key, row) == Null || Where(t.rows, t.key, Id(t.key, row)) != [] then Refused
          else Ran(t.(rows := t.rows + [row]), if returning then [row] else [], 1)
      case Update(_, sets, id, idHole, returning) =>
        if |values| != |sets| + 1 || !Settable(t, sets, values) || !(1 <= idHole <= |values|) then Refused
        else
          var v := values[idHole - 1];
          var after := t.(rows := SetWhere(t.rows, id, v, Bind(sets, values)));
          if id !in t.columns || id in Names(sets) || !Keyed(after) then Refused
          else Ran(after, if returning then Where(after.rows, id, v) else [], |Where(t.rows, id, v)|)
      case Select(_, id, idHole) =>
        if id !in t.columns || |values| != 1 || idHole != 1 then Refused
        else Ran(t, Where(t.rows, id, values[0]), |Where(t.rows, id, values[0])|)
      case Delete(_, id, idHole) =>
        if id !in t.columns || |values| != 1 || idHole != 1 then Refused
        else Ran(t.(rows := Without(t.rows, id, values[0])), [], |Where(t.rows, id, values[0])|)
  }

  // ---- the finite map ----

  /** The rows by their key. */
  function View(t: Table): map<Value, Row>
    requires Keyed(t)
  {
    map r | r in t.rows :: Id(t.key, r) := r
  }

  /** The rows of t, and only they, are the entries of m. */
  ghost predicate Holds(t: Table, m: map<Value, Row>) {
    && (forall i: nat :: i < |t.rows| ==> Id(t.key, t.rows[i]) in m && m[Id(t.key, t.rows[i])] == t.rows[i])
    && (forall v :: v in m ==> exists i: nat :: i < |t.rows| && Id(t.key, t.rows[i]) == v)
  }

  lemma ViewHolds(t: Table)
    requires Keyed(t)
    ensures Holds(t, View(t))
  {
    forall v | v in View(t) ensures exists i: nat :: i < |t.rows| && Id(t.key, t.rows[i]) == v {
      var r := View(t)[v];
      var i: nat :| i < |t.rows| && t.rows[i] == r;
    }
    forall i: nat | i < |t.rows| ensures Id(t.key, t.rows[i]) in View(t) && View(t)[Id(t.key, t.rows[i])] == t.rows[i] {
      assert t.rows[i] in t.rows;
    }
  }

  lemma HoldsView(t: Table, m: map<Value, Row>)
    requires Keyed(t) && Holds(t, m)
    ensures View(t) == m
  {
    hide View, Keyed, Id;
    ViewHolds(t);
    forall v ensures v in View(t) <==> v in m {
    }
    forall v | v in m ensures View(t)[v] == m[v] {
      var i: nat :| i < |t.rows| && Id(t.key, t.rows[i]) == v;
    }
  }

  lemma {:induction false} WhereOne(rows: seq<Row>, col: string, v: Value, i: nat)
    requires i < |rows| && Matches(rows[i], col, v)
    requires forall j: nat :: j < |rows| && j != i ==> !Matches(rows[j], col, v)
    ensures Where(rows, col, v) == [rows[i]]
    ensures Without(rows, col, v) == rows[..i] + rows[i + 1..]
  {
    if i == 0 {
      WhereNone(rows[1..], col, v);
      assert rows[..0] + rows[1..] == rows[1..];
    } else {
      WhereOne(rows[1..], col, v, i - 1);
      assert rows[..i] + rows[i + 1..] == [rows[0]] + (rows[1..][..i - 1] + rows[1..][i..]);
    }
  }

  lemma {:induction false} WhereNone(rows: seq<Row>, col: string, v: Value)
    requires forall j: nat :: j < |rows| ==> !Matches(rows[j], col, v)
    ensures Where(rows, col, v) == [] && Without(rows, col, v) == rows
  {
    if rows != [] {
      WhereNone(rows[1..], col, v);
      assert rows == [rows[0]] + rows[1..];
    }
  }

  /** Where the row with this key is. */
  lemma Find(t: Table, v: Value) returns (i: nat)
    requires Keyed(t) && v in View(t)
    ensures i < |t.rows| && t.rows[i] == View(t)[v] && Id(t.key, t.rows[i]) == v && Matches(t.rows[i], t.key, v)
    ensures forall j: nat :: j < |t.rows| && j != i ==> !Matches(t.rows[j], t.key, v)
  {
    hide View;
    ViewHolds(t);
    i :| i < |t.rows| && Id(t.key, t.rows[i]) == v;
  }

  lemma Absent(t: Table, v: Value)
    requires Keyed(t) && v !in View(t)
    ensures forall j: nat :: j < |t.rows| ==> !Matches(t.rows[j], t.key, v)
  {
    hide View;
    ViewHolds(t);
  }

  /** `SELECT ... WHERE key = v` is a look-up in the map. */
  lemma SelectMeaning(t: Table, v: Value)
    requires Keyed(t)
    ensures Where(t.rows, t.key, v) == if v in View(t) then [View(t)[v]] else []
  {
    hide View, Keyed, Matches;
    if v in View(t) {
      var i := Find(t, v);
      WhereOne(t.rows, t.key, v, i);
    } else {
      Absent(t, v);
      WhereNone(t.rows, t.key, v);
    }
  }

  /** Appending a row with a free key adds one entry to the map. */
  lemma InsertMeaning(t: Table, row: Row)
    requires Keyed(t) && row.Keys == t.columns && Id(t.key, row) != Null && Id(t.key, row) !in View(t)
    ensures Keyed(t.(rows := t.rows + [row]))
    ensures View(t.(rows := t.rows + [row])) == View(t)[Id(t.key, row) := row]
  {
    hide View;
    var after := t.(rows := t.rows + [row]);
    ViewHolds(t);
    InsertHolds(t, View(t), row);
    HoldsView(after, View(t)[Id(t.key, row) := row]);
  }

  lemma InsertHolds(t: Table, m: map<Value, Row>, row: Row)
    requires Holds(t, m) && Id(t.key, row) !in m
    ensures Holds(t.(rows := t.rows + [row]), m[Id(t.key, row) := row])
  {
    var after := t.(rows := t.rows + [row]);
    hide Id;
    assert after.rows[|t.rows|] == row;
    forall v | v in m ensures exists i: nat :: i < |after.rows| && Id(t.key, after.rows[i]) == v {
      var i: nat :| i < |t.rows| && Id(t.key, t.rows[i]) == v;
      assert after.rows[i] == t.rows[i];
    }
  }

  /** Setting columns other than the key changes one entry of the map, or none. */
  lemma UpdateMeaning(t: Table, v: Value, changes: Row)
    requires Keyed(t) && changes.Keys <= t.columns && t.key !in changes
    ensures Keyed(t.(rows := SetWhere(t.rows, t.key, v, changes)))
    ensures View(t.(rows := SetWhere(t.rows, t.key, v, changes)))
         == if v in View(t) then View(t)[v := View(t)[v] + changes] else View(t)
  {
    hide View;
    var after := t.(rows := SetWhere(t.rows, t.key, v, changes));
    if v in View(t) {
      var i := Find(t, v);
      assert after.rows == t.rows[i := t.rows[i] + changes];
      ReplaceMeaning(t, i, t.rows[i] + changes);
    } else {
      Absent(t, v);
      assert after.rows == t.rows;
    }
  }

  lemma ReplaceMeaning(t: Table, i: nat, row: Row)
    requires Keyed(t) && i < |t.rows| && row.Keys == t.columns && Id(t.key, row) == Id(t.key, t.rows[i])
    ensures Keyed(t.(rows := t.rows[i := row]))
    ensures View(t.(rows := t.rows[i := row])) == View(t)[Id(t.key, row) := row]
  {
    hide View;
    ViewHolds(t);
    ReplaceHolds(t, View(t), i, row);
    HoldsView(t.(rows := t.rows[i := row]), View(t)[Id(t.key, row) := row]);
  }

  lemma OtherKey(t: Table, i: nat, j: nat)
    requires Keyed(t) && i < |t.rows| && j < |t.rows| && i != j
    ensures Id(t.key, t.rows[i]) != Id(t.key, t.rows[j])
  {
  }

  lemma ReplaceHolds(t: Table, m: map<Value, Row>, i: nat, row: Row)
    requires Keyed(t) && Holds(t, m) && i < |t.rows| && Id(t.key, row) == Id(t.key, t.rows[i])
    ensures Holds(t.(rows := t.rows[i := row]), m[Id(t.key, row) := row])
  {
    var rows := t.rows[i := row];
    hide Id, Keyed;
    forall j: nat | j < |rows|
      ensures Id(t.key, rows[j]) in m && (if j == i then row else m[Id(t.key, rows[j])]) == rows[j]
      ensures j != i ==> Id(t.key, rows[j]) != Id(t.key, row)
    {
      if j != i {
        OtherKey(t, i, j);
      }
    }
    forall v | v in m ensures exists j: nat :: j < |rows| && Id(t.key, rows[j]) == v {
      var j: nat :| j < |t.rows| && Id(t.key, t.rows[j]) == v;
      assert Id(t.key, rows[j]) == v;
    }
  }

  /** Deleting by key removes that entry of the map and nothing else. */
  lemma DeleteMeaning(t: Table, v: Value)
    requires Keyed(t)
    ensures Keyed(t.(rows := Without(t.rows, t.key, v)))
    ensures View(t.(rows := Without(t.rows, t.key, v))) == View(t) - {v}
  {
    hide View, Keyed, Matches, Id;
    if v in View(t) {
      var i := Find(t, v);
      WhereOne(t.rows, t.key, v, i);
      RemoveMeaning(t, i);
    } else {
      Absent(t, v);
      WhereNone(t.rows, t.key, v);
      assert t.(rows := Without(t.rows, t.key, v)) == t;
      assert View(t) - {v} == View(t);
    }
  }

  lemma RemoveMeaning(t: Table, i: nat)
    requires Keyed(t) && i < |t.rows|
    ensures Keyed(t.(rows := t.rows[..i] + t.rows[i + 1..]))
    ensures View(t.(rows := t.rows[..i] + t.rows[i + 1..])) == View(t) - {Id(t.key, t.rows[i])}
  {
    hide View, Id;
    var after := t.(rows := t.rows[..i] + t.rows[i + 1..]);
    RemoveKeyed(t, i);
    ViewHolds(t);
    RemoveHolds(t, View(t), i);
    HoldsView(after, View(t) - {Id(t.key, t.rows[i])});
  }

  lemma RemoveKeyed(t: Table, i: nat)
    requires Keyed(t) && i < |t.rows|
    ensures Keyed(t.(rows := t.rows[..i] + t.rows[i + 1..]))
  {
    var after := t.(rows := t.rows[..i] + t.rows[i + 1..]);
    hide Id;
    assert forall j :: 0 <= j < |after.rows| ==> after.rows[j] == t.rows[if j < i then j else j + 1];
  }

  lemma RemoveHolds(t: Table, m: map<Value, Row>, i: nat)
    requires Keyed(t) && Holds(t, m) && i < |t.rows|
    ensures Holds(t.(rows := t.rows[..i] + t.rows[i + 1..]), m - {Id(t.key, t.rows[i])})
  {
    var rows := t.rows[..i] + t.rows[i + 1..];
    hide Id;
    forall j: nat | j < |rows|
      ensures Id(t.key, rows[j]) in m && m[Id(t.key, rows[j])] == rows[j] && Id(t.key, rows[j]) != Id(t.key, t.rows[i])
    {
      assert rows[j] == t.rows[if j < i then j else j + 1];
    }
    forall w | w in m && w != Id(t.key, t.rows[i]) ensures exists j: nat :: j < |rows| && Id(t.key, rows[j]) == w {
      StillThere(t, m, i, w);
    }
  }

  lemma StillThere(t: Table, m: map<Value, Row>, i: nat, w: Value)
    requires Holds(t, m) && i < |t.rows| && w in m && w != Id(t.key, t.rows[i])
    ensures var rows := t.rows[..i] + t.rows[i + 1..];
      exists j: nat :: j < |rows| && Id(t.key, rows[j]) == w
  {
    hide Id;
    var k: nat :| k < |t.rows| && Id(t.key, t.rows[k]) == w;
    var j := if k < i then k else k - 1;
    assert (t.rows[..i] + t.rows[i + 1..])[j] == t.rows[k];
  }

  // ---- whatever the statement ----

  /** The table is still the same table, with the same columns and key, and keyed. */
  predicate Kept(before: Table, after: Table) {
    after.name == before.name && after.columns == before.columns && after.key == before.key && Keyed(after)
  }

  lemma {:induction false} WithoutKeyed(t: Table, col: string, v: Value)
    requires Keyed(t)
    ensures Keyed(t.(rows := Without(t.rows, col, v)))
    ensures forall r :: r in Without(t.rows, col, v) ==> r in t.rows
    decreases |t.rows|
  {
    if t.rows != [] {
      var tail := t.(rows := t.rows[1..]);
      WithoutKeyed(tail, col, v);
      var rest := Without(t.rows[1..], col, v);
      assert t.rows == [t.rows[0]] + t.rows[1..];
      hide Id;
      forall j | 0 <= j < |rest| ensures Id(t.key, rest[j]) != Id(t.key, t.rows[0]) {
        assert rest[j] in t.rows[1..];
      }
    }
  }

  lemma {:induction false} BindColumns(sets: seq<(string, nat)>, values: seq<Value>)
    requires InRange(sets, values)
    ensures forall c :: c in Bind(sets, values) ==> exists i :: 0 <= i < |sets| && sets[i].0 == c
  {
    if sets != [] {
      var init := sets[..|sets| - 1];
      BindColumns(init, values);
      forall c | c in Bind(sets, values) ensures exists i :: 0 <= i < |sets| && sets[i].0 == c {
        if c == sets[|sets| - 1].0 {
          assert sets[|sets| - 1].0 == c;
        } else {
          assert c in Bind(init, values);
          var i :| 0 <= i < |init| && init[i].0 == c;
          assert sets[i].0 == c;
        }
      }
    }
  }

  /** No statement, whatever it is, breaks the primary key. */
  lemma ExecKeeps(t: Table, s: Statement, values: seq<Value>, defaults: Row)
    requires Keyed(t) && defaults.Keys == t.columns
    ensures var o := Exec(t, s, values, defaults); o.Ran? ==> Kept(t, o.table)
  {
    hide Keyed, View, Bind, SetWhere;
    var o := Exec(t, s, values, defaults);
    if o.Ran? {
      match s
      case Insert(_, cols, holes, _) =>
        var row := defaults + Bind(Zip(cols, holes), values);
        BindColumns(Zip(cols, holes), values);
        assert row.Keys == t.columns;
        SelectMeaning(t, Id(t.key, row));
        InsertMeaning(t, row);
      case Update(_, _, _, _, _) => assert Kept(t, o.table);
      case Select(_, _, _) => assert Kept(t, o.table);
      case Delete(_, id, _) => WithoutKeyed(t, id, values[0]);
    }
  }
}
