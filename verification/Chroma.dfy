/**
 * The Chroma repository: the server speaks in parallel columns, the
 * repository in rows.
 */
module ChromaColumns {
  import opened Text

  type Vec = seq<real>
  type Meta = map<string, string>

  datatype Row = Row(id: string, vector: Option<Vec>, metadata: Meta, document: Option<string>)

  /** `collection.get()`: columns that were not asked for are None. */
  datatype Columns = Columns(
    ids: Option<seq<string>>,
    embeddings: Option<seq<Vec>>,
    metadatas: Option<seq<Option<Meta>>>,
    documents: Option<seq<Option<string>>>
  )

  /** `collection.query()`: for each query embedding, its columns. */
  datatype Nested = Nested(
    ids: Option<seq<seq<string>>>,
    embeddings: Option<seq<seq<Vec>>>,
    metadatas: Option<seq<seq<Option<Meta>>>>,
    documents: Option<seq<seq<Option<string>>>>
  )

  /** `result.get("ids") or []` */
  function Ids(c: Columns): seq<string> {
    if c.ids.Some? then c.ids.value else []
  }

  /** Every column that is there has an entry for every id; otherwise indexing raises. */
  predicate LongEnough(c: Columns) {
    && (c.embeddings.Some? ==> |c.embeddings.value| >= |Ids(c)|)
    && (c.metadatas.Some? ==> |c.metadatas.value| >= |Ids(c)|)
    && (c.documents.Some? ==> |c.documents.value| >= |Ids(c)|)
  }

  /** All columns have the length of the ids, as the server promises. */
  predicate Parallel(c: Columns) {
    && (c.embeddings.Some? ==> |c.embeddings.value| == |Ids(c)|)
    && (c.metadatas.Some? ==> |c.metadatas.value| == |Ids(c)|)
    && (c.documents.Some? ==> |c.documents.value| == |Ids(c)|)
  }

  /** Every outer list that is there has a first inner list; the ids may also be an empty outer list. */
  predicate Answered(q: Nested) {
    && (q.embeddings.Some? ==> q.embeddings.value != [])
    && (q.metadatas.Some? ==> q.metadatas.value != [])
    && (q.documents.Some? ==> q.documents.value != [])
  }

  /** The columns for the first query embedding. */
  function First(q: Nested): Columns
    requires Answered(q)
  {
    Columns(
      if q.ids.Some? && q.ids.value != [] then Some(q.ids.value[0]) else None,
      if q.embeddings.Some? then Some(q.embeddings.value[0]) else None,
      if q.metadatas.Some? then Some(q.metadatas.value[0]) else None,
      if q.documents.Some? then Some(q.documents.value[0]) else None
    )
  }

  // ---- rows to columns: what a server does that stores rows ----

  /** Which columns are asked for. */
  datatype Include = Include(embeddings: bool, metadatas: bool, documents: bool)

  /** Empty metadata is kept as no metadata. */
  function Kept(m: Meta): Option<Meta> {
    if m == map[] then None else Some(m)
  }

  function VecOf(r: Row): Vec {
    if r.vector.Some? then r.vector.value else []
  }

  function ToColumns(rows: seq<Row>, inc: Include): (c: Columns)
    ensures Parallel(c)
  {
    Columns(
      Some(seq(|rows|, i requires 0 <= i < |rows| => rows[i].id)),
      if inc.embeddings then Some(seq(|rows|, i requires 0 <= i < |rows| => VecOf(rows[i]))) else None,
      if inc.metadatas then Some(seq(|rows|, i requires 0 <= i < |rows| => Kept(rows[i].metadata))) else None,
      if inc.documents then Some(seq(|rows|, i requires 0 <= i < |rows| => rows[i].document)) else None
    )
  }

  /** The columns asked for say everything about r. */
  predicate Covered(r: Row, inc: Include) {
    && (r.vector.Some? == inc.embeddings)
    && (r.metadata == map[] || inc.metadatas)
    && (r.document.None? || inc.documents)
  }

  // ---- columns to rows ----

  /** Row i of the transposition. */
  function RowAt(c: Columns, i: nat): Row
    requires LongEnough(c) && i < |Ids(c)|
  {
    Row(
      Ids(c)[i],
      if c.embeddings.Some? then Some(c.embeddings.value[i]) else None,
      if c.metadatas.Some? && c.metadatas.value[i].Some? then c.metadatas.value[i].value else map[],
      if c.documents.Some? then c.documents.value[i] else None
    )
  }

  function ToRows(c: Columns): (rows: seq<Row>)
    requires LongEnough(c)
    ensures |rows| == |Ids(c)|
  {
    seq(|Ids(c)|, i requires 0 <= i < |Ids(c)| => RowAt(c, i))
  }

  /** One more row. */
  lemma ToRowsStep(c: Columns, i: nat)
    requires LongEnough(c) && i < |Ids(c)|
    ensures ToRows(c)[..i + 1] == ToRows(c)[..i] + [RowAt(c, i)]
  {
    assert ToRows(c)[i] == RowAt(c, i);
  }

  /** Rows to columns and back is the identity exactly when the columns asked for cover the rows. */
  lemma RowsRoundTrip(rows: seq<Row>, inc: Include)
    ensures ToRows(ToColumns(rows, inc)) == rows <==> forall i :: 0 <= i < |rows| ==> Covered(rows[i], inc)
  {
    var c := ToColumns(rows, inc);
    forall i: nat | i < |rows| ensures RowAt(c, i) == rows[i] <==> Covered(rows[i], inc) {
      RowRoundTrip(rows, inc, i);
    }
    if ToRows(c) == rows {
      forall i: nat | i < |rows| ensures Covered(rows[i], inc) {
        assert ToRows(c)[i] == RowAt(c, i);
      }
    }
  }

  lemma RowRoundTrip(rows: seq<Row>, inc: Include, i: nat)
    requires i < |rows|
    ensures RowAt(ToColumns(rows, inc), i) == rows[i] <==> Covered(rows[i], inc)
  {
    var r := rows[i];
    assert RowAt(ToColumns(rows, inc), i)
        == Row(r.id, if inc.embeddings then Some(VecOf(r)) else None,
               if inc.metadatas then r.metadata else map[], if inc.documents then r.document else None);
  }

  /** The columns cut to the length of the ids. */
  function Cut(c: Columns): Columns
    requires LongEnough(c)
  {
    var n := |Ids(c)|;
    Columns(
      c.ids,
      if c.embeddings.Some? then Some(c.embeddings.value[..n]) else None,
      if c.metadatas.Some? then Some(c.metadatas.value[..n]) else None,
      if c.documents.Some? then Some(c.documents.value[..n]) else None
    )
  }

  /** What a column has beyond the ids is ignored, and without ids there are no rows. */
  lemma ExtraIsIgnored(c: Columns)
    requires LongEnough(c)
    ensures Parallel(Cut(c)) && ToRows(Cut(c)) == ToRows(c)
    ensures c.ids.None? ==> ToRows(c) == []
  {
    forall i: nat | i < |Ids(c)| ensures RowAt(Cut(c), i) == RowAt(c, i) {}
  }

  /** An answer to several query embeddings, the first of which is answered by c. */
  function Ahead(c: Columns, more: Nested): Nested {
    Nested(
      if c.ids.Some? then Some([c.ids.value] + (if more.ids.Some? then more.ids.value else [])) else None,
      if c.embeddings.Some?
      then Some([c.embeddings.value] + (if more.embeddings.Some? then more.embeddings.value else [])) else None,
      if c.metadatas.Some?
      then Some([c.metadatas.value] + (if more.metadatas.Some? then more.metadatas.value else [])) else None,
      if c.documents.Some?
      then Some([c.documents.value] + (if more.documents.Some? then more.documents.value else [])) else None
    )
  }

  /** The query form reads the first answer, whatever others follow it: from
      rows to columns to a query's answer and back is again the identity.  An
      answer without ids, or with an empty outer list of them, has no rows. */
  lemma QueryRoundTrip(rows: seq<Row>, inc: Include, more: Nested, q: Nested)
    requires forall i :: 0 <= i < |rows| ==> Covered(rows[i], inc)
    ensures var asked := Ahead(ToColumns(rows, inc), more);
      Answered(asked) && LongEnough(First(asked)) && ToRows(First(asked)) == rows
    ensures (q.ids.None? || q.ids == Some([])) && Answered(q) ==>
      LongEnough(First(q)) && ToRows(First(q)) == []
  {
    var c := ToColumns(rows, inc);
    assert First(Ahead(c, more)) == c;
    RowsRoundTrip(rows, inc);
  }

  /** What the columns ask for. */
  function Asked(c: Columns): Include {
    Include(c.embeddings.Some?, c.metadatas.Some?, c.documents.Some?)
  }

  /** Columns to rows and back gives the same columns, with empty metadata as no metadata. */
  lemma ColumnsRoundTrip(c: Columns)
    requires Parallel(c) && c.ids.Some?
    requires c.metadatas.Some? ==>
      forall i :: 0 <= i < |c.metadatas.value| ==> c.metadatas.value[i] != Some(map[])
    ensures ToColumns(ToRows(c), Asked(c)) == c
  {
    var back := ToColumns(ToRows(c), Asked(c));
    assert back.ids.value == c.ids.value;
    assert c.embeddings.Some? ==> back.embeddings.value == c.embeddings.value;
    assert c.metadatas.Some? ==> back.metadatas.value == c.metadatas.value;
    assert c.documents.Some? ==> back.documents.value == c.documents.value;
  }
}

/** The repository class on a collection kept by the server. */
module ChromaRepositoryModel {
  import opened Text
  import opened Slicing
  import opened ChromaColumns

  /** An entity as the caller gives it; metadata and document may be missing. */
  datatype Entity = Entity(id: string, vector: Option<Vec>, metadata: Option<Meta>, document: Option<string>)

  datatype Reply = QueryError | NoRow | Found(row: Row)

  /** What the server keeps for one id. */
  datatype Entry = Entry(id: string, vector: Vec, metadata: Option<Meta>, document: Option<string>)

  const ALL := Include(true, true, true)

  /** Ids are unique and no metadata is empty. */
  predicate WellKept(entries: seq<Entry>) {
    && (forall i, j :: 0 <= i < j < |entries| ==> entries[i].id != entries[j].id)
    && (forall i :: 0 <= i < |entries| ==> entries[i].metadata != Some(map[]))
  }

  /** The row that an entry is read back as. */
  function RowOf(e: Entry): Row {
    Row(e.id, Some(e.vector), if e.metadata.Some? then e.metadata.value else map[], e.document)
  }

  function RowsOf(entries: seq<Entry>): seq<Row> {
    seq(|entries|, i requires 0 <= i < |entries| => RowOf(entries[i]))
  }

  function ById(entries: seq<Entry>, id: string): seq<Entry> {
    if entries == [] then []
    else (if entries[0].id == id then [entries[0]] else []) + ById(entries[1..], id)
  }

  lemma {:induction false} ByIdMeaning(entries: seq<Entry>, id: string)
    requires WellKept(entries)
    ensures forall i :: 0 <= i < |entries| && entries[i].id == id ==> ById(entries, id) == [entries[i]]
    ensures (forall i :: 0 <= i < |entries| ==> entries[i].id != id) ==> ById(entries, id) == []
  {
    if entries != [] {
      ByIdMeaning(entries[1..], id);
      assert forall i :: 0 < i < |entries| ==> entries[i] == entries[1..][i - 1];
    }
  }

  class ChromaRepository {
    var entries: seq<Entry>

    constructor ()
      ensures entries == []
    {
      entries := [];
    }

    /** `_get_result_to_rows`; None stands for IndexError, when a column is too short. */
    method GetResultToRows(c: Columns) returns (r: Option<seq<Row>>)
      ensures r == if LongEnough(c) then Some(ToRows(c)) else None
    {
      hide ToRows;
      var ids := Ids(c);
      var rows: seq<Row> := [];
      for i := 0 to |ids|
        invariant c.embeddings.Some? ==> i <= |c.embeddings.value|
        invariant c.metadatas.Some? ==> i <= |c.metadatas.value|
        invariant c.documents.Some? ==> i <= |c.documents.value|
        invariant LongEnough(c) ==> rows == ToRows(c)[..i]
      {
        if c.embeddings.Some? && i >= |c.embeddings.value| { return None; }
        if c.metadatas.Some? && i >= |c.metadatas.value| { return None; }
        if c.documents.Some? && i >= |c.documents.value| { return None; }
        if LongEnough(c) {
          ToRowsStep(c, i);
        }
        rows := rows + [Row(
          ids[i],
          if c.embeddings.Some? then Some(c.embeddings.value[i]) else None,
          if c.metadatas.Some? && c.metadatas.value[i].Some? then c.metadatas.value[i].value else map[],
          if c.documents.Some? then c.documents.value[i] else None
        )];
      }
      assert LongEnough(c);
      assert ToRows(c)[..|ids|] == ToRows(c);
      r := Some(rows);
    }

    /**
     * `_query_result_to_rows`: the get form on the first inner lists. None
     * stands for IndexError: an empty outer list, or a column too short.
     */
    method QueryResultToRows(q: Nested) returns (r: Option<seq<Row>>)
      ensures r == if Answered(q) && LongEnough(First(q)) then Some(ToRows(First(q))) else None
    {
      hide ToRows;
      var outer := if q.ids.Some? && q.ids.value != [] then q.ids.value else [[]];
      var ids := outer[0];
      if q.embeddings == Some([]) || q.metadatas == Some([]) || q.documents == Some([]) {
        return None;
      }
      var embeddings := if q.embeddings.Some? then Some(q.embeddings.value[0]) else None;
      var metadatas := if q.metadatas.Some? then Some(q.metadatas.value[0]) else None;
      var documents := if q.documents.Some? then Some(q.documents.value[0]) else None;
      var rows: seq<Row> := [];
      for i := 0 to |ids|
        invariant embeddings.Some? ==> i <= |embeddings.value|
        invariant metadatas.Some? ==> i <= |metadatas.value|
        invariant documents.Some? ==> i <= |documents.value|
        invariant LongEnough(First(q)) ==> rows == ToRows(First(q))[..i]
      {
        if embeddings.Some? && i >= |embeddings.value| { return None; }
        if metadatas.Some? && i >= |metadatas.value| { return None; }
        if documents.Some? && i >= |documents.value| { return None; }
        if LongEnough(First(q)) {
          ToRowsStep(First(q), i);
        }
        rows := rows + [Row(
          ids[i],
          if embeddings.Some? then Some(embeddings.value[i]) else None,
          if metadatas.Some? && metadatas.value[i].Some? then metadatas.value[i].value else map[],
          if documents.Some? then documents.value[i] else None
        )];
      }
      assert LongEnough(First(q));
      assert ToRows(First(q))[..|ids|] == ToRows(First(q));
      r := Some(rows);
    }

    /** `collection.add`: refused when the vector is missing or the id is taken. */
    method Add(id: string, vector: Option<Vec>, metadata: Option<Meta>, document: Option<string>) returns (ok: bool)
      requires WellKept(entries) && metadata != Some(map[])
      modifies this
      ensures WellKept(entries)
      ensures ok <==> vector.Some? && ById(old(entries), id) == []
      ensures entries == old(entries) + (if ok then [Entry(id, vector.value, metadata, document)] else [])
    {
      ByIdMeaning(entries, id);
      ok := vector.Some? && ById(entries, id) == [];
      if ok {
        entries := entries + [Entry(id, vector.value, metadata, document)];
      }
    }

    /** Empty metadata goes to the server as none; a taken id is an error and nothing is written over. */
    method Create(entity: Entity) returns (created: bool)
      requires WellKept(entries)
      modifies this
      ensures WellKept(entries)
      ensures created <==> entity.vector.Some? && ById(old(entries), entity.id) == []
      ensures !created ==> entries == old(entries)
      ensures created ==> RowsOf(entries) == RowsOf(old(entries)) + [
        Row(entity.id, entity.vector, if entity.metadata.Some? then entity.metadata.value else map[], entity.document)]
    {
      var metadata := if entity.metadata == Some(map[]) then None else entity.metadata;
      created := Add(entity.id, entity.vector, metadata, entity.document);
    }

    method Get(id: string) returns (r: Reply)
      requires WellKept(entries)
      ensures forall i :: 0 <= i < |entries| && entries[i].id == id ==> r == Found(RowOf(entries[i]))
      ensures (forall i :: 0 <= i < |entries| ==> entries[i].id != id) ==> r == NoRow
    {
      ByIdMeaning(entries, id);
      var result := ToColumns(RowsOf(ById(entries, id)), ALL);
      RowsRoundTrip(RowsOf(ById(entries, id)), ALL);
      var rows := GetResultToRows(result);
      r := if rows.None? then QueryError else if rows.value == [] then NoRow else Found(rows.value[0]);
    }

    /** The server cuts the page; every row of it comes back whole, in the server's order. */
    method List(limit: int, offset: int) returns (rows: seq<Row>, total: nat)
      ensures rows == RowsOf(Slice(entries, offset, offset + limit)) && total == |entries|
    {
      var page := Slice(entries, offset, offset + limit);
      var result := ToColumns(RowsOf(page), ALL);
      RowsRoundTrip(RowsOf(page), ALL);
      var transposed := GetResultToRows(result);
      rows, total := transposed.value, |entries|;
    }

    /** Creating and then getting gives the entity back, missing metadata as {}. */
    method CreateThenGet(entity: Entity) returns (r: Reply)
      requires WellKept(entries)
      modifies this
      ensures WellKept(entries)
      ensures entity.vector.Some? && ById(old(entries), entity.id) == [] ==>
        r == Found(Row(entity.id, entity.vector,
                       if entity.metadata.Some? then entity.metadata.value else map[], entity.document))
    {
      var created := Create(entity);
      r := Get(entity.id);
      if created {
        var last := |entries| - 1;
        assert RowsOf(entries)[last] == RowOf(entries[last]);
        assert RowsOf(entries)[last].id == entity.id;
      }
    }
  }
}
