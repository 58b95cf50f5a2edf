/**
 * The dicts that repositories are given, and what the server makes of the
 * texts and values built from them.
 */
module SqlStatements {
  import opened SqlText
  import opened SqlServer

  /** A dict: its items in order, no key twice. */
  type Dict = seq<(string, Value)>

  predicate IsDict(e: Dict) {
    Distinct(Keys(e))
  }

  function Keys(e: Dict): seq<string> {
    seq(|e|, i requires 0 <= i < |e| => e[i].0)
  }

  function Vals(e: Dict): seq<Value> {
    seq(|e|, i requires 0 <= i < |e| => e[i].1)
  }

  /** What a dict says, without the order. */
  function AsMap(e: Dict): Row {
    if e == [] then map[] else AsMap(e[..|e| - 1])[e[|e| - 1].0 := e[|e| - 1].1]
  }

  /** `row_dict.get(col)`. */
  function Item(e: Dict, col: string): Value {
    if e == [] then Null
    else if e[|e| - 1].0 == col then e[|e| - 1].1
    else Item(e[..|e| - 1], col)
  }

  /** `{k: v for k, v in row_dict.items() if k != id_column}`. */
  function Changes(e: Dict, id: string): Dict {
    if e == [] then []
    else Changes(e[..|e| - 1], id) + (if e[|e| - 1].0 != id then [e[|e| - 1]] else [])
  }

  lemma {:induction false} ItemMeaning(e: Dict, col: string)
    ensures Item(e, col) == if col in AsMap(e) then AsMap(e)[col] else Null
  {
    if e != [] {
      ItemMeaning(e[..|e| - 1], col);
    }
  }

  lemma {:induction false} ChangesNamed(e: Dict, id: string)
    requires AllNames(Keys(e))
    ensures AllNames(Keys(Changes(e, id)))
  {
    if e != [] {
      var init, last := e[..|e| - 1], e[|e| - 1];
      KeysLast(e);
      assert last.0 == Keys(e)[|init|];
      assert forall i :: 0 <= i < |init| ==> Keys(init)[i] == Keys(e)[i];
      ChangesNamed(init, id);
      var c := Changes(e, id);
      if last.0 != id {
        KeysLast(c);
        assert c[..|c| - 1] == Changes(init, id);
      } else {
        assert c == Changes(init, id);
      }
    }
  }

  lemma KeysLast(e: Dict)
    requires e != []
    ensures Keys(e) == Keys(e[..|e| - 1]) + [e[|e| - 1].0]
    ensures IsDict(e) ==> IsDict(e[..|e| - 1]) && e[|e| - 1].0 !in Keys(e[..|e| - 1])
  {
    var init := e[..|e| - 1];
    assert forall i :: 0 <= i < |init| ==> Keys(init)[i] == Keys(e)[i];
    assert Keys(e)[|init|] == e[|e| - 1].0;
  }

  lemma {:induction false} AsMapKeys(e: Dict)
    ensures forall c :: c in AsMap(e) <==> c in Keys(e)
  {
    if e != [] {
      hide Keys;
      KeysLast(e);
      AsMapKeys(e[..|e| - 1]);
    } else {
      assert Keys(e) == [];
    }
  }

  lemma ChangesMeaning(e: Dict, id: string)
    requires IsDict(e)
    ensures AsMap(Changes(e, id)) == AsMap(e) - {id}
    ensures IsDict(Changes(e, id))
    ensures forall c :: c in Keys(Changes(e, id)) ==> c in Keys(e) && c != id
  {
    ChangesMap(e, id);
    ChangesKeys(e, id);
  }

  lemma {:induction false} ChangesMap(e: Dict, id: string)
    ensures AsMap(Changes(e, id)) == AsMap(e) - {id}
  {
    if e != [] {
      var init, last := e[..|e| - 1], e[|e| - 1];
      ChangesMap(init, id);
      if last.0 != id {
        AsMapSnoc(Changes(init, id), last);
      } else {
        assert Changes(e, id) == Changes(init, id);
      }
    }
  }

  lemma AsMapSnoc(e: Dict, last: (string, Value))
    ensures AsMap(e + [last]) == AsMap(e)[last.0 := last.1]
  {
    assert (e + [last])[..|e|] == e;
  }

  lemma {:induction false} ChangesKeys(e: Dict, id: string)
    requires IsDict(e)
    ensures IsDict(Changes(e, id))
    ensures forall c :: c in Keys(Changes(e, id)) ==> c in Keys(e) && c != id
  {
    if e == [] {
      assert Keys(Changes(e, id)) == [];
    } else {
      var init, last := e[..|e| - 1], e[|e| - 1];
      KeysLast(e);
      ChangesKeys(init, id);
      var c := Changes(e, id);
      if last.0 != id {
        assert c[..|c| - 1] == Changes(init, id);
        KeysLast(c);
        hide Keys;
        assert IsDict(c);
      } else {
        assert c == Changes(init, id);
      }
    }
  }

  /** Numbering the columns 1, ..., n and sending the values in order binds each column to its own value. */
  lemma {:induction false} BindMeaning(e: Dict, extra: seq<Value>)
    ensures InRange(Sets(Keys(e), 0), Vals(e) + extra)
    ensures Bind(Sets(Keys(e), 0), Vals(e) + extra) == AsMap(e)
  {
    if e != [] {
      var init, last := e[..|e| - 1], e[|e| - 1];
      BindMeaning(init, [last.1] + extra);
      assert Sets(Keys(e), 0)[..|e| - 1] == Sets(Keys(init), 0);
      assert Vals(e) + extra == Vals(init) + ([last.1] + extra);
      assert Sets(Keys(e), 0)[|e| - 1] == (last.0, |e|);
      assert (Vals(e) + extra)[|e| - 1] == last.1;
    }
  }

  // ---- Oracle's rows ----

  /** A row as the cursor hands it over: values in the order of the description. */
  function Fetched(row: Row, description: seq<string>): seq<Value>
    requires forall c :: c in description ==> c in row
  {
    seq(|description|, i requires 0 <= i < |description| => row[description[i]])
  }

  /** `zip(columns, row)` */
  function Paired(description: seq<string>, values: seq<Value>): Dict
    requires |description| == |values|
  {
    seq(|description|, i requires 0 <= i < |description| => (description[i], values[i]))
  }

  /** `_cursor_row_to_dict`: `dict(zip(columns, row))`. */
  function CursorRowToDict(description: seq<string>, values: seq<Value>): Row
    requires |description| == |values|
  {
    AsMap(Paired(description, values))
  }

  /** Whatever the order of its columns, a fetched row becomes the stored row again. */
  lemma {:induction false} CursorRowMeaning(row: Row, description: seq<string>)
    requires forall c :: c in description ==> c in row
    ensures CursorRowToDict(description, Fetched(row, description)) == map c | c in row && c in description :: row[c]
  {
    if description != [] {
      var n := |description| - 1;
      var init, last := description[..n], description[n];
      CursorRowMeaning(row, init);
      var items := Paired(description, Fetched(row, description));
      assert items[..n] == Paired(init, Fetched(row, init));
      assert items[n] == (last, row[last]);
      assert forall c :: c in description <==> c in init || c == last;
    }
  }

  // ---- texts and values at the server ----

  /** What a server answers to a text with its values. */
  function Served(d: Dialect, t: Table, text: string, values: seq<Value>, defaults: Row): Outcome
    requires Keyed(t) && defaults.Keys == t.columns
  {
    match Parse(d, text)
    case None => Refused
    case Some(s) => Exec(t, s, values, defaults)
  }

  /** Whatever the text means, the table stays keyed. */
  lemma ServedKeeps(d: Dialect, t: Table, text: string, values: seq<Value>, defaults: Row)
    requires Keyed(t) && defaults.Keys == t.columns
    ensures var o := Served(d, t, text, values, defaults); o.Ran? ==> Kept(t, o.table)
  {
    hide Parse, Exec, Keyed;
    if Parse(d, text).Some? {
      ExecKeeps(t, Parse(d, text).value, values, defaults);
    }
  }

  /** A row without values. */
  function Nulls(t: Table): Row {
    map c | c in t.columns :: Null
  }

  /** The row that an INSERT of e stores. */
  function Stored(e: Dict, defaults: Row): Row {
    defaults + AsMap(e)
  }

  /** The server takes e: only known columns, and a key that is not NULL and not taken. */
  predicate Insertable(d: Dialect, t: Table, e: Dict, defaults: Row)
    requires Keyed(t)
  {
    && (e != [] || d == MySql)
    && AsMap(e).Keys <= t.columns
    && Id(t.key, Stored(e, defaults)) != Null
    && Id(t.key, Stored(e, defaults)) !in View(t)
  }

  /** The table stands for the map m, and is otherwise the same table. */
  predicate Became(before: Table, after: Table, m: map<Value, Row>) {
    Kept(before, after) && View(after) == m
  }

  lemma NamesOfSets(e: Dict)
    ensures Names(Sets(Keys(e), 0)) == Keys(e)
    ensures Zip(Keys(e), Numerals(0, |e|)) == Sets(Keys(e), 0)
  {
  }

  lemma SettableMeaning(t: Table, e: Dict, extra: seq<Value>)
    requires IsDict(e)
    ensures Settable(t, Sets(Keys(e), 0), Vals(e) + extra) <==> AsMap(e).Keys <= t.columns
  {
    BindMeaning(e, extra);
    NamesOfSets(e);
    AsMapKeys(e);
    var sets := Sets(Keys(e), 0);
    assert forall i :: 0 <= i < |sets| ==> sets[i].0 == Keys(e)[i];
    if AsMap(e).Keys <= t.columns {
      forall i | 0 <= i < |sets| ensures sets[i].0 in t.columns {
        assert Keys(e)[i] in AsMap(e);
      }
    }
    if Settable(t, sets, Vals(e) + extra) {
      forall c | c in AsMap(e) ensures c in t.columns {
        var i :| 0 <= i < |e| && Keys(e)[i] == c;
        assert sets[i].0 == c;
      }
    }
  }

  /** The INSERT text with the values of e adds e to the map, under its key, or is refused. */
  lemma InsertServed(d: Dialect, t: Table, e: Dict, defaults: Row)
    requires Keyed(t) && defaults.Keys == t.columns && IsDict(e)
    requires IsTable(t.name) && AllNames(Keys(e))
    ensures var o := Served(d, t, InsertText(d, t.name, Keys(e)), Vals(e), defaults);
      && (o.Ran? <==> Insertable(d, t, e, defaults))
      && (o.Ran? ==>
        var row := Stored(e, defaults);
        && Became(t, o.table, View(t)[Id(t.key, row) := row])
        && o.rows == (if d == Postgres then [row] else []) && o.count == 1)
  {
    hide Parse, InsertText, Settable, Bind, View, Keyed, Id;
    InsertRoundTrip(d, t.name, Keys(e));
    assert Vals(e) + [] == Vals(e);
    BindMeaning(e, []);
    NamesOfSets(e);
    SettableMeaning(t, e, []);
    if e == [] && d != MySql {
    } else if AsMap(e).Keys <= t.columns {
      var row := Stored(e, defaults);
      SelectMeaning(t, Id(t.key, row));
      if Id(t.key, row) != Null && Id(t.key, row) !in View(t) {
        InsertMeaning(t, row);
      }
    }
  }

  /** NULL is nobody's key. */
  lemma NullIsNoKey(t: Table)
    requires Keyed(t)
    ensures Null !in View(t)
  {
  }

  /** What an UPDATE of the row at v makes of the map. */
  function Merged(m: map<Value, Row>, v: Value, changes: Row): map<Value, Row> {
    if v in m then m[v := m[v] + changes] else m
  }

  /**
   * The UPDATE text with the values of c and then v merges c into the row at
   * v, if there is one, and leaves its other columns and all other rows alone.
   */
  lemma UpdateServed(d: Dialect, t: Table, c: Dict, v: Value, defaults: Row)
    requires Keyed(t) && defaults.Keys == t.columns && IsDict(c) && c != []
    requires IsTable(t.name) && IsName(t.key) && AllNames(Keys(c)) && t.key !in Keys(c)
    ensures var o := Served(d, t, UpdateText(d, t.name, Keys(c), t.key), Vals(c) + [v], defaults);
      && (o.Ran? <==> AsMap(c).Keys <= t.columns)
      && (o.Ran? ==>
        && Became(t, o.table, Merged(View(t), v, AsMap(c)))
        && o.count == (if v in View(t) then 1 else 0)
        && o.rows == (if d == Postgres && v in View(t) then [View(t)[v] + AsMap(c)] else []))
  {
    hide Parse, UpdateText, Settable, Bind, View, Keyed, SetWhere;
    UpdateRoundTrip(d, t.name, Keys(c), t.key);
    BindMeaning(c, [v]);
    NamesOfSets(c);
    SettableMeaning(t, c, [v]);
    AsMapKeys(c);
    assert (Vals(c) + [v])[|c|] == v;
    if AsMap(c).Keys <= t.columns {
      assert t.key in t.columns by { KeyIsColumn(t); }
      UpdateMeaning(t, v, AsMap(c));
      SelectMeaning(t, v);
      SelectMeaning(t.(rows := SetWhere(t.rows, t.key, v, AsMap(c))), v);
    }
  }

  lemma KeyIsColumn(t: Table)
    requires Keyed(t)
    ensures t.key in t.columns
  {
  }

  /** The texts of `get` and `delete` look up and remove the entry at v. */
  lemma LookupServed(d: Dialect, t: Table, v: Value, defaults: Row)
    requires Keyed(t) && defaults.Keys == t.columns && IsTable(t.name) && IsName(t.key)
    ensures var o := Served(d, t, SelectText(d, t.name, t.key), [v], defaults);
      o.Ran? && o.table == t && o.rows == if v in View(t) then [View(t)[v]] else []
    ensures var o := Served(d, t, DeleteText(d, t.name, t.key), [v], defaults);
      && o.Ran? && Became(t, o.table, View(t) - {v})
      && o.count == (if v in View(t) then 1 else 0)
  {
    hide Parse, SelectText, DeleteText, View, Keyed;
    SelectRoundTrip(d, t.name, t.key);
    KeyIsColumn(t);
    SelectMeaning(t, v);
    DeleteMeaning(t, v);
  }

  // ---- what is read afterwards ----

  /** Each item of a dict is what the dict says about its key. */
  lemma {:induction false} DictReads(e: Dict, i: nat)
    requires IsDict(e) && i < |e|
    ensures e[i].0 in AsMap(e) && AsMap(e)[e[i].0] == e[i].1
  {
    var n := |e| - 1;
    KeysLast(e);
    if i < n {
      DictReads(e[..n], i);
      assert e[i].0 == Keys(e[..n])[i];
    }
  }

  /** The rows that the text of `get` finds. */
  function Reads(d: Dialect, t: Table, v: Value): seq<Row>
    requires Keyed(t)
  {
    match Served(d, t, SelectText(d, t.name, t.key), [v], Nulls(t))
    case Refused => []
    case Ran(_, rows, _) => rows
  }

  lemma ReadsMeaning(d: Dialect, t: Table, v: Value)
    requires Keyed(t) && IsTable(t.name) && IsName(t.key)
    ensures Reads(d, t, v) == if v in View(t) then [View(t)[v]] else []
    ensures v in View(t) ==> View(t)[v].Keys == t.columns
  {
    hide Served, SelectText;
    LookupServed(d, t, v, Nulls(t));
  }

  /** The only columns are those of the table. */
  predicate KnownColumns(t: Table, e: Dict) {
    forall i :: 0 <= i < |e| ==> e[i].0 in t.columns
  }

  lemma KnownIsSubset(t: Table, e: Dict)
    ensures KnownColumns(t, e) <==> AsMap(e).Keys <= t.columns
  {
    AsMapKeys(e);
    assert forall i :: 0 <= i < |e| ==> Keys(e)[i] == e[i].0;
    if AsMap(e).Keys <= t.columns {
      forall i | 0 <= i < |e| ensures e[i].0 in t.columns {
        assert Keys(e)[i] in AsMap(e);
      }
    }
  }

  /** The id that a dict brings, or that the server puts in. */
  function IdFor(t: Table, e: Dict, defaults: Row): Value {
    if t.key in Keys(e) then Item(e, t.key) else Id(t.key, defaults)
  }

  lemma IdStored(t: Table, e: Dict, defaults: Row)
    ensures IdFor(t, e, defaults) == Id(t.key, Stored(e, defaults))
  {
    AsMapKeys(e);
    ItemMeaning(e, t.key);
  }

  /**
   * An INSERT is refused exactly for an unknown column, an id that is NULL or
   * that `get` finds, or, but for MySQL, an empty dict. After it `get` of the id
   * finds one row: each item of the dict is in it, every other column has its
   * default. What `get` finds for any other id is as before.
   */
  lemma InsertThenSelect(d: Dialect, t: Table, e: Dict, defaults: Row, w: Value, i: nat, c: string)
    requires Keyed(t) && defaults.Keys == t.columns && IsDict(e)
    requires IsTable(t.name) && IsName(t.key) && AllNames(Keys(e))
    ensures var o := Served(d, t, InsertText(d, t.name, Keys(e)), Vals(e), defaults);
      var v := IdFor(t, e, defaults);
      && (o.Refused? <==> !KnownColumns(t, e) || v == Null || Reads(d, t, v) != [] || (e == [] && d != MySql))
      && (o.Ran? ==>
        && Kept(t, o.table) && |Reads(d, o.table, v)| == 1
        && (w != v ==> Reads(d, o.table, w) == Reads(d, t, w))
        && var row := Reads(d, o.table, v)[0];
        && row.Keys == t.columns && (i < |e| ==> e[i].0 in row && row[e[i].0] == e[i].1)
        && (c in t.columns && c !in Keys(e) ==> row[c] == defaults[c]))
  {
    hide Served, InsertText, Keyed, View, Reads, Id;
    var v := IdFor(t, e, defaults);
    var o := Served(d, t, InsertText(d, t.name, Keys(e)), Vals(e), defaults);
    InsertServed(d, t, e, defaults);
    IdStored(t, e, defaults);
    KnownIsSubset(t, e);
    ReadsMeaning(d, t, v);
    ReadsMeaning(d, t, w);
    if o.Ran? {
      ReadsMeaning(d, o.table, v);
      ReadsMeaning(d, o.table, w);
      AsMapKeys(e);
      if i < |e| { DictReads(e, i); }
    }
  }

  /**
   * An UPDATE is refused exactly for an unknown column. After it `get` of the
   * id finds one row if it found one before: each item of the dict is in it,
   * every other column is as it was. What `get` finds for any other id is as
   * before, and so is everything when there was no such row.
   */
  lemma UpdateThenSelect(d: Dialect, t: Table, e: Dict, v: Value, defaults: Row, w: Value, i: nat, c: string)
    requires Keyed(t) && defaults.Keys == t.columns && IsDict(e) && e != []
    requires IsTable(t.name) && IsName(t.key) && AllNames(Keys(e)) && t.key !in Keys(e)
    ensures var o := Served(d, t, UpdateText(d, t.name, Keys(e), t.key), Vals(e) + [v], defaults);
      && (o.Refused? <==> !KnownColumns(t, e))
      && (o.Ran? ==>
        && Kept(t, o.table) && |Reads(d, o.table, v)| == |Reads(d, t, v)| == o.count <= 1
        && (w != v ==> Reads(d, o.table, w) == Reads(d, t, w))
        && (o.count == 1 ==>
          var was, row := Reads(d, t, v)[0], Reads(d, o.table, v)[0];
          && row.Keys == was.Keys == t.columns && (i < |e| ==> e[i].0 in row && row[e[i].0] == e[i].1)
          && (c in t.columns && c !in Keys(e) ==> row[c] == was[c])))
  {
    hide Served, UpdateText, Keyed, View, Reads;
    var o := Served(d, t, UpdateText(d, t.name, Keys(e), t.key), Vals(e) + [v], defaults);
    UpdateServed(d, t, e, v, defaults);
    KnownIsSubset(t, e);
    ReadsMeaning(d, t, v);
    ReadsMeaning(d, t, w);
    if o.Ran? {
      ReadsMeaning(d, o.table, v);
      ReadsMeaning(d, o.table, w);
      AsMapKeys(e);
      if i < |e| { DictReads(e, i); }
    }
  }

  /** After a DELETE `get` finds nothing for that id, and for any other what it found before. */
  lemma DeleteThenSelect(d: Dialect, t: Table, v: Value, defaults: Row, w: Value)
    requires Keyed(t) && defaults.Keys == t.columns && IsTable(t.name) && IsName(t.key)
    ensures var o := Served(d, t, DeleteText(d, t.name, t.key), [v], defaults);
      && o.Ran? && Kept(t, o.table) && o.count == |Reads(d, t, v)| <= 1
      && Reads(d, o.table, w) == if w == v then [] else Reads(d, t, w)
  {
    hide Served, DeleteText, Keyed, View, Reads;
    var o := Served(d, t, DeleteText(d, t.name, t.key), [v], defaults);
    LookupServed(d, t, v, defaults);
    ReadsMeaning(d, t, v);
    ReadsMeaning(d, t, w);
    ReadsMeaning(d, o.table, w);
  }
}

/** The Postgres, Oracle and MySQL repositories against a relational server. */
module SqlRepositoryModel {
  import opened SqlText
  import opened SqlServer
  import opened SqlStatements

  /** What a call gives back: AdapterQueryError, None, or an entity. */
  datatype Reply = QueryError | NoRow | Entity(row: Row)

  class SqlRepository {
    const dialect: Dialect
    const name: string
    const idColumn: string
    var table: Table

    ghost predicate Valid()
      reads this
    {
      && dialect != Cassandra && IsTable(name) && IsName(idColumn)
      && table.name == name && table.key == idColumn && Keyed(table)
    }

    constructor (dialect: Dialect, table: Table)
      requires dialect != Cassandra && IsTable(table.name) && IsName(table.key) && Keyed(table)
      ensures Valid() && this.table == table && this.dialect == dialect
    {
      this.dialect, this.name, this.idColumn, this.table := dialect, table.name, table.key, table;
    }

    /** One statement at the server. */
    method Execute(text: string, values: seq<Value>, defaults: Row) returns (o: Outcome)
      requires Valid() && defaults.Keys == table.columns
      modifies this`table
      ensures o == Served(dialect, old(table), text, values, defaults)
      ensures table == if o.Ran? then o.table else old(table)
      ensures Valid() && Kept(old(table), table)
    {
      hide Served, Keyed;
      ServedKeeps(dialect, table, text, values, defaults);
      o := Served(dialect, table, text, values, defaults);
      if o.Ran? {
        table := o.table;
      }
    }

    method Get(id: Value) returns (r: Reply)
      requires Valid()
      modifies this`table
      ensures table == old(table)
      ensures r == if id in View(table) then Entity(View(table)[id]) else NoRow
    {
      hide SelectText, Served, Keyed, View;
      LookupServed(dialect, table, id, Nulls(table));
      var o := Execute(SelectText(dialect, name, idColumn), [id], Nulls(table));
      r := if o.Refused? then QueryError else if o.rows == [] then NoRow else Entity(o.rows[0]);
    }

    /** True exactly when there was such a row; every other row stays. */
    method Delete(id: Value) returns (deleted: bool)
      requires Valid()
      modifies this`table
      ensures Valid() && Became(old(table), table, View(old(table)) - {id})
      ensures deleted == (id in View(old(table)))
    {
      hide DeleteText, Served, Keyed, View;
      LookupServed(dialect, table, id, Nulls(table));
      var o := Execute(DeleteText(dialect, name, idColumn), [id], Nulls(table));
      deleted := o.Ran? && o.count == 1;
    }

    /**
     * Postgres asks the INSERT itself for the stored row. Oracle and MySQL
     * read it again by id; MySQL takes the driver's lastrowid when the entity
     * has none, and Oracle hands the submitted dict back when it finds no row.
     * Keys that are no names make another text; then only the table's key is
     * sure to survive.
     */
    method Create(entity: Dict, defaults: Row, lastrowid: Value) returns (r: Reply)
      requires Valid() && defaults.Keys == table.columns && IsDict(entity)
      modifies this`table
      ensures Valid() && Kept(old(table), table)
      ensures AllNames(Keys(entity)) && !Insertable(dialect, old(table), entity, defaults) ==>
        r == QueryError && table == old(table)
      ensures AllNames(Keys(entity)) && Insertable(dialect, old(table), entity, defaults) ==>
        var stored := Stored(entity, defaults);
        Became(old(table), table, View(old(table))[Id(idColumn, stored) := stored])
      ensures AllNames(Keys(entity)) && Insertable(dialect, old(table), entity, defaults) ==>
        var stored := Stored(entity, defaults);
        r == if idColumn in AsMap(entity) || dialect == Postgres then Entity(stored)
             else if dialect == Oracle then Entity(AsMap(entity))
             else if lastrowid in View(table) then Entity(View(table)[lastrowid]) else NoRow
    {
      hide InsertText, SelectText, Served, Keyed, View, IsTable;
      if AllNames(Keys(entity)) {
        InsertServed(dialect, table, entity, defaults);
      }
      ItemMeaning(entity, idColumn);
      var o := Execute(InsertText(dialect, name, Keys(entity)), Vals(entity), defaults);
      if o.Refused? {
        r := QueryError;
      } else if dialect == Postgres {
        r := if o.rows == [] then NoRow else Entity(o.rows[0]);
      } else {
        var id := if dialect == MySql && idColumn !in Keys(entity) then lastrowid else Item(entity, idColumn);
        AsMapKeys(entity);
        LookupServed(dialect, table, id, defaults);
        var again := Execute(SelectText(dialect, name, idColumn), [id], defaults);
        NullIsNoKey(table);
        r := if again.Refused? then QueryError
             else if again.rows != [] then Entity(again.rows[0])
             else if dialect == Oracle then Entity(AsMap(entity)) else NoRow;
      }
    }

    /**
     * The columns other than the id merge into the row with that id. A dict
     * without other columns is refused before any statement is sent. MySQL
     * counts either the rows it matched or only those it changed, depending on
     * the connection.
     */
    method Update(entity: Dict, countsMatched: bool) returns (r: Reply)
      requires Valid() && IsDict(entity)
      modifies this`table
      ensures Valid() && Kept(old(table), table)
      ensures AllNames(Keys(entity)) ==>
        var changes, id := AsMap(entity) - {idColumn}, Item(entity, idColumn);
        if changes == map[] || !(changes.Keys <= old(table).columns) then r == QueryError && table == old(table)
        else
          && Became(old(table), table, Merged(View(old(table)), id, changes))
          && r == if id !in View(table) || (dialect == MySql && !countsMatched && View(table) == View(old(table)))
                  then NoRow else Entity(View(table)[id])
    {
      hide UpdateText, SelectText, Served, Keyed, View, IsTable;
      var changes, id := Changes(entity, idColumn), Item(entity, idColumn);
      ChangesMeaning(entity, idColumn);
      if changes == [] {
        return QueryError;
      }
      AsMapKeys(changes);
      assert Keys(changes)[0] in Keys(changes);
      if AllNames(Keys(entity)) {
        ChangesNamed(entity, idColumn);
        UpdateServed(dialect, table, changes, id, Nulls(table));
      }
      var before := table;
      var o := Execute(UpdateText(dialect, name, Keys(changes), idColumn), Vals(changes) + [id], Nulls(table));
      if o.Refused? {
        r := QueryError;
      } else if dialect == Postgres {
        r := if o.rows == [] then NoRow else Entity(o.rows[0]);
      } else {
        var touched := if dialect == MySql && !countsMatched && View(before) == View(table) then 0 else o.count;
        if touched == 0 {
          r := NoRow;
        } else {
          LookupServed(dialect, table, id, Nulls(table));
          var again := Execute(SelectText(dialect, name, idColumn), [id], Nulls(table));
          r := if again.Refused? then QueryError else if again.rows == [] then NoRow else Entity(again.rows[0]);
        }
      }
    }
  }
}

/** The Cassandra repository: the same texts at a server whose writes are upserts. */
module CassandraRepositoryModel {
  import opened SqlText
  import opened SqlServer
  import opened SqlStatements
  import opened SqlRepositoryModel

  /** Writes row at key v, over the row there if there is one. */
  function Upserted(t: Table, v: Value, row: Row): Table {
    if Where(t.rows, t.key, v) != [] then t.(rows := SetWhere(t.rows, t.key, v, row))
    else t.(rows := t.rows + [Nulls(t)[t.key := v] + row])
  }

  function CqlExec(t: Table, s: Statement, values: seq<Value>): Outcome {
    if s.table != t.name then Refused
    else match s
      case Insert(_, cols, holes, returning) =>
        if returning || |cols| != |holes| || |values| != |holes| || !Settable(t, Zip(cols, holes), values) then Refused
        else
          var row := Bind(Zip(cols, holes), values);
          if Id(t.key, row) == Null then Refused else Ran(Upserted(t, Id(t.key, row), row - {t.key}), [], 0)
      case Update(_, sets, id, idHole, returning) =>
        if returning || |values| != |sets| + 1 || !Settable(t, sets, values) || !(1 <= idHole <= |values|) then Refused
        else if id != t.key || t.key in Names(sets) || values[idHole - 1] == Null then Refused
        else Ran(Upserted(t, values[idHole - 1], Bind(sets, values)), [], 0)
      case Select(_, id, idHole) =>
        if id != t.key || |values| != 1 || idHole != 1 || values[0] == Null then Refused
        else Ran(t, Where(t.rows, id, values[0]), 0)
      case Delete(_, id, idHole) =>
        if id != t.key || |values| != 1 || idHole != 1 || values[0] == Null then Refused
        else Ran(t.(rows := Without(t.rows, id, values[0])), [], 0)
  }

  function CqlServed(t: Table, text: string, values: seq<Value>): Outcome {
    match Parse(Cassandra, text)
    case None => Refused
    case Some(s) => CqlExec(t, s, values)
  }

  /** The map after writing row at v. */
  function Written(t: Table, v: Value, row: Row): map<Value, Row>
    requires Keyed(t)
  {
    View(t)[v := (if v in View(t) then View(t)[v] else Nulls(t)[t.key := v]) + row]
  }

  lemma UpsertMeaning(t: Table, v: Value, row: Row)
    requires Keyed(t) && v != Null && row.Keys <= t.columns && t.key !in row
    ensures Became(t, Upserted(t, v, row), Written(t, v, row))
  {
    hide View, Keyed, SetWhere;
    KeyIsColumn(t);
    SelectMeaning(t, v);
    if v in View(t) {
      UpdateMeaning(t, v, row);
    } else {
      InsertMeaning(t, Nulls(t)[t.key := v] + row);
    }
  }

  /** An INSERT that names its key always succeeds: it creates the row or writes over it. */
  lemma InsertUpserts(t: Table, e: Dict)
    requires Keyed(t) && IsDict(e) && IsTable(t.name) && AllNames(Keys(e))
    ensures var o := CqlServed(t, InsertText(Cassandra, t.name, Keys(e)), Vals(e));
      var id := Item(e, t.key);
      && (o.Ran? <==> AsMap(e).Keys <= t.columns && id != Null)
      && (o.Ran? ==> Became(t, o.table, Written(t, id, AsMap(e) - {t.key})))
  {
    hide Parse, InsertText, Settable, Bind, View, Keyed, Upserted;
    InsertRoundTrip(Cassandra, t.name, Keys(e));
    assert Vals(e) + [] == Vals(e);
    BindMeaning(e, []);
    NamesOfSets(e);
    SettableMeaning(t, e, []);
    ItemMeaning(e, t.key);
    if e != [] && AsMap(e).Keys <= t.columns && Item(e, t.key) != Null {
      UpsertMeaning(t, Item(e, t.key), AsMap(e) - {t.key});
    }
  }

  lemma UpdateUpserts(t: Table, c: Dict, v: Value)
    requires Keyed(t) && IsDict(c) && c != []
    requires IsTable(t.name) && IsName(t.key) && AllNames(Keys(c)) && t.key !in Keys(c)
    ensures var o := CqlServed(t, UpdateText(Cassandra, t.name, Keys(c), t.key), Vals(c) + [v]);
      && (o.Ran? <==> AsMap(c).Keys <= t.columns && v != Null)
      && (o.Ran? ==> Became(t, o.table, Written(t, v, AsMap(c))))
  {
    hide Parse, UpdateText, Settable, Bind, View, Keyed, Upserted;
    UpdateRoundTrip(Cassandra, t.name, Keys(c), t.key);
    BindMeaning(c, [v]);
    NamesOfSets(c);
    SettableMeaning(t, c, [v]);
    AsMapKeys(c);
    assert (Vals(c) + [v])[|c|] == v;
    if AsMap(c).Keys <= t.columns && v != Null {
      UpsertMeaning(t, v, AsMap(c));
    }
  }

  lemma LookupCql(t: Table, v: Value)
    requires Keyed(t) && IsTable(t.name) && IsName(t.key)
    ensures CqlServed(t, SelectText(Cassandra, t.name, t.key), [v])
         == if v == Null then Refused else Ran(t, if v in View(t) then [View(t)[v]] else [], 0)
    ensures var o := CqlServed(t, DeleteText(Cassandra, t.name, t.key), [v]);
      (o.Ran? <==> v != Null) && (o.Ran? ==> Became(t, o.table, View(t) - {v}))
  {
    hide Parse, SelectText, DeleteText, View, Keyed;
    SelectRoundTrip(Cassandra, t.name, t.key);
    SelectMeaning(t, v);
    DeleteMeaning(t, v);
  }

  /** Whatever the text means, the table stays keyed. */
  lemma CqlKeeps(t: Table, text: string, values: seq<Value>)
    requires Keyed(t)
    ensures var o := CqlServed(t, text, values); o.Ran? ==> Kept(t, o.table)
  {
    hide Parse, Keyed, View, Bind, Upserted;
    var o := CqlServed(t, text, values);
    if o.Ran? {
      match Parse(Cassandra, text).value
      case Insert(_, cols, holes, _) =>
        var row := Bind(Zip(cols, holes), values);
        BindColumns(Zip(cols, holes), values);
        UpsertMeaning(t, Id(t.key, row), row - {t.key});
      case Update(_, sets, _, idHole, _) =>
        BindColumns(sets, values);
        NotBound(t.key, sets, values);
        UpsertMeaning(t, values[idHole - 1], Bind(sets, values));
      case Select(_, _, _) => assert Kept(t, o.table);
      case Delete(_, id, _) => DeleteMeaning(t, values[0]);
    }
  }

  lemma NotBound(c: string, sets: seq<(string, nat)>, values: seq<Value>)
    requires InRange(sets, values) && c !in Names(sets)
    ensures c !in Bind(sets, values)
  {
    BindColumns(sets, values);
    assert forall i :: 0 <= i < |sets| ==> Names(sets)[i] == sets[i].0;
  }

  /** The rows that the text of `get` finds at Cassandra. */
  function CqlReads(t: Table, v: Value): seq<Row> {
    match CqlServed(t, SelectText(Cassandra, t.name, t.key), [v])
    case Refused => []
    case Ran(_, rows, _) => rows
  }

  lemma CqlReadsMeaning(t: Table, v: Value)
    requires Keyed(t) && IsTable(t.name) && IsName(t.key)
    ensures CqlReads(t, v) == if v in View(t) then [View(t)[v]] else []
    ensures v in View(t) ==> v != Null && View(t)[v].Keys == t.columns && View(t)[v][t.key] == v
  {
    hide CqlServed, SelectText;
    LookupCql(t, v);
    NullIsNoKey(t);
  }

  /** At Cassandra `get` of v finds one row afterwards: what e says is in it, and
      the other columns are as they were, NULL in a new row. */
  ghost predicate Merges(t: Table, after: Table, v: Value, e: Dict, w: Value, i: nat, c: string) {
    && |CqlReads(after, v)| == 1 && |CqlReads(t, v)| <= 1
    && (w != v ==> CqlReads(after, w) == CqlReads(t, w))
    && var row := CqlReads(after, v)[0];
    && row.Keys == t.columns && t.key in row && row[t.key] == v
    && (i < |e| ==> e[i].0 in row && row[e[i].0] == e[i].1)
    && (c in t.columns && c !in Keys(e) && c != t.key ==>
          if CqlReads(t, v) == [] then row[c] == Null
          else c in CqlReads(t, v)[0] && row[c] == CqlReads(t, v)[0][c])
  }

  lemma WrittenMerges(t: Table, after: Table, v: Value, e: Dict, w: Value, i: nat, c: string)
    requires Keyed(t) && IsTable(t.name) && IsName(t.key) && IsDict(e) && AsMap(e).Keys <= t.columns
    requires t.key in AsMap(e) ==> AsMap(e)[t.key] == v
    requires Became(t, after, Written(t, v, AsMap(e) - {t.key}))
    ensures Merges(t, after, v, e, w, i, c)
  {
    hide CqlReads, View, Keyed;
    CqlReadsMeaning(t, v);
    CqlReadsMeaning(t, w);
    CqlReadsMeaning(after, v);
    CqlReadsMeaning(after, w);
    AsMapKeys(e);
    KeyIsColumn(t);
    if i < |e| { DictReads(e, i); }
  }

  /** An INSERT at Cassandra is refused exactly for an unknown column or an id
      that is missing or NULL, and merges into whatever `get` of the id finds. */
  lemma InsertThenRead(t: Table, e: Dict, w: Value, i: nat, c: string)
    requires Keyed(t) && IsDict(e) && IsTable(t.name) && IsName(t.key) && AllNames(Keys(e))
    ensures var o := CqlServed(t, InsertText(Cassandra, t.name, Keys(e)), Vals(e));
      var v := Item(e, t.key);
      && (o.Refused? <==> !KnownColumns(t, e) || v == Null)
      && (o.Ran? ==> Kept(t, o.table) && Merges(t, o.table, v, e, w, i, c))
  {
    hide CqlServed, InsertText, Keyed, View, CqlReads, Merges;
    var o := CqlServed(t, InsertText(Cassandra, t.name, Keys(e)), Vals(e));
    InsertUpserts(t, e);
    KnownIsSubset(t, e);
    ItemMeaning(e, t.key);
    if o.Ran? {
      WrittenMerges(t, o.table, Item(e, t.key), e, w, i, c);
    }
  }

  /** So does an UPDATE, whether or not there is a row with that id. */
  lemma UpdateThenRead(t: Table, e: Dict, v: Value, w: Value, i: nat, c: string)
    requires Keyed(t) && IsDict(e) && e != []
    requires IsTable(t.name) && IsName(t.key) && AllNames(Keys(e)) && t.key !in Keys(e)
    ensures var o := CqlServed(t, UpdateText(Cassandra, t.name, Keys(e), t.key), Vals(e) + [v]);
      && (o.Refused? <==> !KnownColumns(t, e) || v == Null)
      && (o.Ran? ==> Kept(t, o.table) && Merges(t, o.table, v, e, w, i, c))
  {
    hide CqlServed, UpdateText, Keyed, View, CqlReads, Merges;
    var o := CqlServed(t, UpdateText(Cassandra, t.name, Keys(e), t.key), Vals(e) + [v]);
    UpdateUpserts(t, e, v);
    KnownIsSubset(t, e);
    AsMapKeys(e);
    if o.Ran? {
      assert AsMap(e) - {t.key} == AsMap(e);
      WrittenMerges(t, o.table, v, e, w, i, c);
    }
  }

  /** After a DELETE at Cassandra `get` finds nothing for that id, and for any other what it found before. */
  lemma DeleteThenRead(t: Table, v: Value, w: Value)
    requires Keyed(t) && IsTable(t.name) && IsName(t.key)
    ensures var o := CqlServed(t, DeleteText(Cassandra, t.name, t.key), [v]);
      && (o.Refused? <==> v == Null)
      && (o.Ran? ==> Kept(t, o.table) && CqlReads(o.table, w) == if w == v then [] else CqlReads(t, w))
  {
    hide CqlServed, DeleteText, Keyed, View, CqlReads;
    var o := CqlServed(t, DeleteText(Cassandra, t.name, t.key), [v]);
    LookupCql(t, v);
    CqlReadsMeaning(t, w);
    if o.Ran? {
      CqlReadsMeaning(o.table, w);
    }
  }

  class CassandraRepository {
    const name: string
    const idColumn: string
    var table: Table

    ghost predicate Valid()
      reads this
    {
      IsTable(name) && IsName(idColumn) && table.name == name && table.key == idColumn && Keyed(table)
    }

    constructor (table: Table)
      requires IsTable(table.name) && IsName(table.key) && Keyed(table)
      ensures Valid() && this.table == table
    {
      this.name, this.idColumn, this.table := table.name, table.key, table;
    }

    method Execute(text: string, values: seq<Value>) returns (o: Outcome)
      requires Valid()
      modifies this`table
      ensures o == CqlServed(old(table), text, values)
      ensures table == if o.Ran? then o.table else old(table)
      ensures Valid() && Kept(old(table), table)
    {
      hide CqlServed, Keyed;
      CqlKeeps(table, text, values);
      o := CqlServed(table, text, values);
      if o.Ran? {
        table := o.table;
      }
    }

    method Get(id: Value) returns (r: Reply)
      requires Valid()
      modifies this`table
      ensures table == old(table)
      ensures r == if id == Null then QueryError else if id in View(table) then Entity(View(table)[id]) else NoRow
    {
      hide SelectText, CqlServed, Keyed, View;
      LookupCql(table, id);
      var o := Execute(SelectText(Cassandra, name, idColumn), [id]);
      r := if o.Refused? then QueryError else if o.rows == [] then NoRow else Entity(o.rows[0]);
    }

    /** Creating over an existing id is no error: it merges. */
    method Create(entity: Dict) returns (r: Reply)
      requires Valid() && IsDict(entity)
      modifies this`table
      ensures Valid() && Kept(old(table), table)
      ensures AllNames(Keys(entity)) ==>
        var id := Item(entity, idColumn);
        if id != Null && AsMap(entity).Keys <= old(table).columns then
          && r == Entity(AsMap(entity))
          && Became(old(table), table, Written(old(table), id, AsMap(entity) - {idColumn}))
        else r == QueryError && table == old(table)
    {
      hide InsertText, CqlServed, Keyed, View, IsTable;
      if AllNames(Keys(entity)) {
        InsertUpserts(table, entity);
      }
      var o := Execute(InsertText(Cassandra, name, Keys(entity)), Vals(entity));
      r := if o.Refused? then QueryError else Entity(AsMap(entity));
    }

    /**
     * An existence check, an await in which other clients may turn the table
     * into meanwhile, and an upsert. The reply is decided by the check, the
     * write by what the upsert finds: a row deleted in between comes back.
     */
    method Update(entity: Dict, meanwhile: Table) returns (r: Reply)
      requires Valid() && Kept(table, meanwhile) && IsDict(entity)
      modifies this`table
      ensures Valid() && Kept(old(table), table)
      ensures AllNames(Keys(entity)) ==>
        var id, changes := Item(entity, idColumn), AsMap(entity) - {idColumn};
        if id == Null then r == QueryError && table == old(table)
        else if id !in View(old(table)) then r == NoRow && table == old(table)
        else if changes == map[] || !(changes.Keys <= meanwhile.columns) then r == QueryError && table == meanwhile
        else r == Entity(AsMap(entity)) && Became(meanwhile, table, Written(meanwhile, id, changes))
    {
      hide UpdateText, CqlServed, Keyed, View, IsTable;
      var id := Item(entity, idColumn);
      var existing := Get(id);
      if !existing.Entity? {
        return existing;
      }
      table := meanwhile;
      var changes := Changes(entity, idColumn);
      ChangesMeaning(entity, idColumn);
      if changes == [] {
        return QueryError;
      }
      AsMapKeys(changes);
      assert Keys(changes)[0] in Keys(changes);
      if AllNames(Keys(entity)) {
        ChangesNamed(entity, idColumn);
        UpdateUpserts(table, changes, id);
      }
      var o := Execute(UpdateText(Cassandra, name, Keys(changes), idColumn), Vals(changes) + [id]);
      r := if o.Refused? then QueryError else Entity(AsMap(entity));
    }

    /** True exactly when the check found the row, whoever deleted it in the end. */
    method Delete(id: Value, meanwhile: Table) returns (r: Reply, deleted: bool)
      requires Valid() && Kept(table, meanwhile)
      modifies this`table
      ensures Valid()
      ensures
        if id == Null then r == QueryError && !deleted && table == old(table)
        else if id !in View(old(table)) then r == NoRow && !deleted && table == old(table)
        else r.Entity? && deleted && Became(meanwhile, table, View(meanwhile) - {id})
    {
      hide SelectText, DeleteText, CqlServed, Keyed, View;
      r := Get(id);
      deleted := false;
      if r.Entity? {
        table := meanwhile;
        LookupCql(table, id);
        var o := Execute(DeleteText(Cassandra, name, idColumn), [id]);
        deleted := o.Ran?;
      }
    }
  }
}
