/**
 * The MongoDB repository's ids: callers speak of strings under `id`, the
 * collection is keyed by `_id`, which is an ObjectId whenever the string looks
 * like one.
 */
module MongoIds {
  import opened Text

  /** The values a document may hold; hex is the 24 digits that `str` prints. */
  datatype Value = Null | Str(text: string) | Num(n: nat) | Oid(hex: string)

  type Doc = map<string, Value>

  predicate IsHexDigit(c: char) {
    IsDigit(c) || 'a' <= c <= 'f' || 'A' <= c <= 'F'
  }

  /** What the ObjectId constructor accepts. */
  predicate Hex24(s: string) {
    |s| == 24 && forall i :: 0 <= i < 24 ==> IsHexDigit(s[i])
  }

  function LowerChar(c: char): char {
    if 'A' <= c <= 'F' then 'a' + (c - 'A') else c
  }

  function Lower(s: string): (t: string)
    ensures |t| == |s|
  {
    seq(|s|, i requires 0 <= i < |s| => LowerChar(s[i]))
  }

  /** `_normalise_id`. */
  function NormaliseId(s: string): Value {
    if Hex24(s) then Oid(Lower(s)) else Str(s)
  }

  /** `str(v)`. */
  function StrOf(v: Value): string {
    match v
    case Null => "None"
    case Str(s) => s
    case Num(n) => Decimal(n)
    case Oid(h) => h
  }

  /** Lower-casing twice is lower-casing once, and keeps hex digits. */
  lemma LowerAgain(s: string)
    requires Hex24(s)
    ensures Hex24(Lower(s)) && Lower(Lower(s)) == Lower(s)
  {
    forall i | 0 <= i < 24 ensures IsHexDigit(Lower(s)[i]) && LowerChar(Lower(s)[i]) == Lower(s)[i] {
      assert IsHexDigit(s[i]);
    }
  }

  /** The string form of a normalised id stands for the same id. */
  lemma NormaliseAgain(s: string)
    ensures NormaliseId(StrOf(NormaliseId(s))) == NormaliseId(s)
  {
    if Hex24(s) {
      LowerAgain(s);
    }
  }

  /** Two ids meet exactly when they are equal or the same 24 hex digits up to case. */
  lemma NormaliseMeets(a: string, b: string)
    ensures NormaliseId(a) == NormaliseId(b) <==> a == b || (Hex24(a) && Hex24(b) && Lower(a) == Lower(b))
  {
  }

  // ---- documents ----

  /** `_serialise_doc`: `_id` as a string, mirrored under `id` unless the document has one. */
  function Serialised(doc: Doc): Doc {
    if "_id" !in doc then doc
    else
      var result := doc["_id" := Str(StrOf(doc["_id"]))];
      if "id" in result then result else result["id" := result["_id"]]
  }

  /** What `create` makes of a dict before it is inserted. */
  function Prepared(entity: Doc): Doc {
    if "id" in entity && "_id" !in entity
    then (entity - {"id"})["_id" := NormaliseId(StrOf(entity["id"]))]
    else entity
  }

  /** `not v`. */
  predicate Falsy(v: Value) {
    v == Null || v == Str("") || v == Num(0)
  }

  /** `doc.pop("_id", None) or doc.pop("id", None)`: the id, and what is left of the dict. */
  function PopId(entity: Doc): (Value, Doc) {
    if "_id" in entity && !Falsy(entity["_id"]) then (entity["_id"], entity - {"_id"})
    else if "id" in entity then (entity["id"], entity - {"_id", "id"})
    else (Null, entity - {"_id"})
  }
}

/** The collection, and the contract of the repository on it. */
module MongoStore {
  import opened MongoIds

  /** The documents by `_id`. */
  type Store = map<Value, Doc>

  predicate Consistent(store: Store) {
    forall id :: id in store ==> "_id" in store[id] && store[id]["_id"] == id
  }

  datatype Reply = QueryError | NoDocument | Entity(doc: Doc)

  function Got(store: Store, id: string): Reply {
    if NormaliseId(id) in store then Entity(Serialised(store[NormaliseId(id)])) else NoDocument
  }

  /** The document that `insert_one` stores; generated is the `_id` for a document without one. */
  function Inserted(doc: Doc, generated: Value): Doc {
    if "_id" in doc then doc else doc["_id" := generated]
  }

  function AfterCreate(store: Store, entity: Doc, generated: Value): Store {
    var doc := Inserted(Prepared(entity), generated);
    if doc["_id"] in store then store else store[doc["_id"] := doc]
  }

  function Created(store: Store, entity: Doc, generated: Value): Reply {
    var doc := Inserted(Prepared(entity), generated);
    if doc["_id"] in store then QueryError else Entity(Serialised(doc))
  }

  function AfterUpdate(store: Store, entity: Doc): Store {
    var (entityId, rest) := PopId(entity);
    var id := NormaliseId(StrOf(entityId));
    if entityId == Null || id !in store then store else store[id := store[id] + rest]
  }

  function Updated(store: Store, entity: Doc): Reply {
    var (entityId, rest) := PopId(entity);
    var id := NormaliseId(StrOf(entityId));
    if entityId == Null then QueryError
    else if id !in store then NoDocument
    else Entity(Serialised(store[id] + rest))
  }

  /**
   * A dict that carries `id` and no `_id`: once created it is found by the id
   * it came with and by the `_id` and `id` it was given back with, its other
   * fields are untouched, and no other document is.
   */
  lemma CreateThenGet(store: Store, entity: Doc, generated: Value)
    requires "id" in entity && "_id" !in entity && Consistent(store)
    ensures Consistent(AfterCreate(store, entity, generated))
    ensures var asked := StrOf(entity["id"]); var after := AfterCreate(store, entity, generated);
      var r := Created(store, entity, generated);
      && (r == QueryError <==> Got(store, asked).Entity?)
      && (r == QueryError ==> after == store)
      && (r != QueryError ==>
        && r.Entity? && r.doc - {"id", "_id"} == entity - {"id"}
        && "_id" in r.doc && r.doc["_id"].Str? && "id" in r.doc && r.doc["id"] == r.doc["_id"]
        && Got(after, asked) == r && Got(after, r.doc["_id"].text) == r)
    ensures forall other: string :: NormaliseId(other) != NormaliseId(StrOf(entity["id"])) ==>
      Got(AfterCreate(store, entity, generated), other) == Got(store, other)
  {
    var asked := StrOf(entity["id"]);
    NormaliseAgain(asked);
    var doc := Prepared(entity);
    assert Inserted(doc, generated) == doc && doc["_id"] == NormaliseId(asked);
    assert Serialised(doc) - {"id", "_id"} == entity - {"id"};
  }

  /**
   * A dict that brings its own `_id` is stored under it as it is, but asked for
   * under the normalised string.  So it is found again exactly when the two
   * agree: not when `_id` is a number, nor when it is a string of 24 hex digits
   * (unless a document that looks the same was there).
   */
  lemma CreateWithOwnId(store: Store, entity: Doc, generated: Value)
    requires "_id" in entity && Consistent(store)
    ensures var asked := StrOf(entity["_id"]); var after := AfterCreate(store, entity, generated);
      var r := Created(store, entity, generated);
      && Consistent(after) && (r == QueryError <==> entity["_id"] in store) && (r == QueryError ==> after == store)
      && (r != QueryError ==>
        && r.Entity? && r.doc["_id"] == Str(asked) && r.doc - {"id", "_id"} == entity - {"id", "_id"}
        && r.doc["id"] == (if "id" in entity then entity["id"] else Str(asked))
        && (Got(after, asked) == r <==> NormaliseId(asked) == entity["_id"] || Got(store, asked) == r))
    ensures forall other: string :: NormaliseId(other) != entity["_id"] ==>
      Got(AfterCreate(store, entity, generated), other) == Got(store, other)
  {
    assert Serialised(entity) - {"id", "_id"} == entity - {"id", "_id"};
  }

  /** A dict without any id is stored under the generated ObjectId, and found by its digits. */
  lemma CreateWithoutId(store: Store, entity: Doc, digits: string)
    requires "id" !in entity && "_id" !in entity && Consistent(store)
    requires Hex24(digits) && Lower(digits) == digits && Oid(digits) !in store
    ensures var after := AfterCreate(store, entity, Oid(digits));
      var r := Created(store, entity, Oid(digits));
      && Consistent(after) && r == Entity(entity["_id" := Str(digits)]["id" := Str(digits)])
      && Got(after, digits) == r && after == store[Oid(digits) := entity["_id" := Oid(digits)]]
  {
    assert Serialised(entity["_id" := Oid(digits)]) == entity["_id" := Str(digits)]["id" := Str(digits)];
  }

  /** The id an update goes by: a truthy `_id`, or else the `id`. */
  predicate GoesBy(entity: Doc, id: string) {
    if "_id" in entity && !Falsy(entity["_id"]) then id == StrOf(entity["_id"])
    else "id" in entity && entity["id"] != Null && id == StrOf(entity["id"])
  }

  /** What an update sets: every field but the ids, and the `id` of an entity that went by `_id`. */
  lemma PoppedWrites(entity: Doc, id: string)
    requires GoesBy(entity, id)
    ensures var (entityId, rest) := PopId(entity);
      && entityId != Null && StrOf(entityId) == id && "_id" !in rest
      && ("id" in rest <==> "id" in entity && "_id" in entity && !Falsy(entity["_id"]))
      && (forall f :: f in rest ==> f in entity && rest[f] == entity[f])
      && rest.Keys + {"_id", "id"} == entity.Keys + {"_id", "id"}
  {
  }

  /** What is told about a document with some fields set. */
  lemma MergedServed(doc: Doc, rest: Doc)
    requires "_id" in doc && "_id" !in rest
    ensures var told := Serialised(doc + rest); var was := Serialised(doc);
      && told.Keys == was.Keys + rest.Keys && "_id" in was && "id" in was && told["_id"] == was["_id"]
      && forall f :: f in told && f != "_id" ==> told[f] == if f in rest then rest[f] else was[f]
  {
  }

  /**
   * An update whose document is there answers with what the next `get` of that
   * id answers: every field of the entity other than its ids has the entity's
   * value, every field it does not mention is as it was, and there are no
   * others.  `_id` stays; `id` is written only when the entity went by `_id`.
   * No `get` of another id changes.
   */
  lemma UpdateWrites(store: Store, entity: Doc, id: string)
    requires Consistent(store) && GoesBy(entity, id) && Got(store, id).Entity?
    ensures var after := AfterUpdate(store, entity); var r := Updated(store, entity); var was := Got(store, id).doc;
      && r.Entity? && r == Got(after, id) && Consistent(after) && after.Keys == store.Keys
      && (forall f :: f in entity && f != "_id" && f != "id" ==> f in r.doc && r.doc[f] == entity[f])
      && (forall f :: f in was && f !in entity ==> f in r.doc && r.doc[f] == was[f])
      && r.doc.Keys == was.Keys + entity.Keys + {"_id", "id"} && r.doc["_id"] == was["_id"]
      && r.doc["id"] == (if "id" in entity && "_id" in entity && !Falsy(entity["_id"]) then entity["id"] else was["id"])
    ensures forall other: string :: NormaliseId(other) != NormaliseId(id) ==>
      Got(AfterUpdate(store, entity), other) == Got(store, other)
  {
    hide Serialised, Falsy;
    var key := NormaliseId(id);
    var (entityId, rest) := PopId(entity);
    PoppedWrites(entity, id);
    MergedServed(store[key], rest);
    hide PopId;
    assert AfterUpdate(store, entity) == store[key := store[key] + rest];
  }

  /** An entity that goes by no id is refused, one whose document is missing is
      answered with None, and neither changes the collection. */
  lemma UpdateRefused(store: Store, entity: Doc, id: string)
    ensures Updated(store, entity) == QueryError <==>
      && ("_id" !in entity || entity["_id"] == Null || entity["_id"] == Str("") || entity["_id"] == Num(0))
      && ("id" !in entity || entity["id"] == Null)
    ensures Updated(store, entity) == QueryError ==> !GoesBy(entity, id) && AfterUpdate(store, entity) == store
    ensures GoesBy(entity, id) ==> (Updated(store, entity) == NoDocument <==> Got(store, id) == NoDocument)
    ensures Updated(store, entity) == NoDocument ==> AfterUpdate(store, entity) == store
  {
  }

  /** What is told about a document whose own fields are set to what is told about it. */
  lemma ServedAgain(doc: Doc)
    requires "_id" in doc
    ensures Serialised(doc + (Serialised(doc) - {"_id"})) == Serialised(doc)
    ensures "id" !in doc ==> Serialised(doc + (Serialised(doc) - {"_id", "id"})) == Serialised(doc)
  {
    var told := Serialised(doc);
    assert doc + (told - {"_id"}) == told["_id" := doc["_id"]];
    if "id" !in doc {
      assert doc + (told - {"_id", "id"}) == doc;
    }
  }

  /** Where an update with what `get` says about doc goes, and what it sets there. */
  lemma ToldPops(doc: Doc)
    requires "_id" in doc
    ensures var told := Serialised(doc); var id := StrOf(doc["_id"]);
      PopId(told) == if id != "" then (Str(id), told - {"_id"})
                     else if "id" in doc then (doc["id"], doc - {"_id", "id"})
                     else (Str(""), doc - {"_id"})
  {
    var told := Serialised(doc);
    assert told - {"_id", "id"} == doc - {"_id", "id"};
    if "id" !in doc {
      assert doc - {"_id", "id"} == doc - {"_id"};
    }
  }

  lemma StrNotEmpty(id: string)
    ensures StrOf(NormaliseId(id)) == "" <==> id == ""
  {
  }

  /** Whatever the id, updating with what `get` returned changes no later `get` of that id. */
  lemma UpdateKeepsOwnGet(store: Store, id: string)
    requires Consistent(store) && Got(store, id).Entity?
    ensures var after := AfterUpdate(store, Got(store, id).doc);
      Consistent(after) && after.Keys == store.Keys && Got(after, id) == Got(store, id)
  {
    var doc := store[NormaliseId(id)];
    ToldPops(doc);
    ServedAgain(doc);
    StrNotEmpty(id);
    NormaliseAgain(id);
    var (entityId, rest) := PopId(Serialised(doc));
    if id == "" && "id" in doc && NormaliseId(StrOf(entityId)) == Str("") {
      assert doc + rest == doc;
    }
  }

  /** The document comes back from its own update exactly when the update is its own. */
  predicate OwnTarget(doc: Doc, id: string) {
    id != "" || "id" !in doc || (doc["id"] != Null && StrOf(doc["id"]) == "")
  }

  lemma UpdateGivesBackExactly(store: Store, id: string)
    requires Consistent(store) && Got(store, id).Entity?
    ensures Updated(store, Got(store, id).doc) == Got(store, id) <==> OwnTarget(store[NormaliseId(id)], id)
  {
    var doc := store[NormaliseId(id)];
    ToldPops(doc);
    ServedAgain(doc);
    StrNotEmpty(id);
    NormaliseAgain(id);
    if id == "" && "id" in doc && doc["id"] != Null {
      var other := NormaliseId(StrOf(doc["id"]));
      StrNotEmpty(StrOf(doc["id"]));
      if other == Str("") {
        assert doc + (doc - {"_id", "id"}) == doc;
      } else if other in store {
        assert Serialised(store[other] + (doc - {"_id", "id"}))["_id"] == Str(StrOf(other));
      }
    }
  }

  /** Nobody's document looks different after the update with what `get` said about doc. */
  predicate Harmless(store: Store, doc: Doc, id: string) {
    || id != "" || "id" !in doc || doc["id"] == Null
    || (var other := NormaliseId(StrOf(doc["id"]));
        other !in store || Serialised(store[other] + (doc - {"_id", "id"})) == Serialised(store[other]))
  }

  /**
   * Updating with what `get` returned changes no `get` of any id, exactly
   * unless the id is empty, the document has another `id`, and the document
   * with that id would look different with this one's fields set.
   */
  lemma UpdateWithWhatGetReturned(store: Store, id: string)
    requires Consistent(store) && Got(store, id).Entity?
    ensures Harmless(store, store[NormaliseId(id)], id) <==>
      forall other: string :: Got(AfterUpdate(store, Got(store, id).doc), other) == Got(store, other)
  {
    var key := NormaliseId(id);
    var doc := store[key];
    var told := Serialised(doc);
    var after := AfterUpdate(store, told);
    ToldPops(doc);
    ServedAgain(doc);
    StrNotEmpty(id);
    NormaliseAgain(id);
    if id == "" && "id" in doc && doc["id"] != Null {
      var name := StrOf(doc["id"]);
      assert after == if NormaliseId(name) in store
        then store[NormaliseId(name) := store[NormaliseId(name)] + (doc - {"_id", "id"})] else store;
      assert Harmless(store, doc, id) <==> Got(after, name) == Got(store, name);
    } else {
      UpdateKeepsOwnGet(store, id);
      assert forall k :: k in store && k != key ==> k in after && after[k] == store[k];
    }
  }

  /** The condition is not idle: such an update can change somebody else's document. */
  lemma UpdateOfEmptyIdHitsAnother() returns (store: Store, id: string)
    ensures Consistent(store) && Got(store, "").Entity?
    ensures Got(AfterUpdate(store, Got(store, "").doc), id) != Got(store, id)
  {
    var mine: Doc := map["_id" := Str(""), "id" := Str("x"), "a" := Num(1)];
    var other: Doc := map["_id" := Str("x")];
    store := map[Str("") := mine, Str("x") := other];
    assert "a" in Serialised(other + (mine - {"_id", "id"}));
    assert "a" !in Serialised(other);
    assert !Harmless(store, mine, "");
    UpdateWithWhatGetReturned(store, "");
    id :| Got(AfterUpdate(store, Got(store, "").doc), id) != Got(store, id);
  }
}

/** The repository class; the dicts are objects, so that aliasing shows. */
module MongoRepositoryModel {
  import opened MongoIds
  import opened MongoStore

  class PyDict {
    var items: Doc

    constructor (items: Doc)
      ensures this.items == items
    {
      this.items := items;
    }

    /** `dict(self)` */
    method Copy() returns (copy: PyDict)
      ensures fresh(copy) && copy.items == items
    {
      copy := new PyDict(items);
    }

    /** `self.pop(key, None)` */
    method Pop(key: string) returns (v: Value)
      modifies this
      ensures v == if key in old(items) then old(items)[key] else Null
      ensures items == old(items) - {key}
    {
      v := if key in items then items[key] else Null;
      items := items - {key};
    }
  }

  class MongoRepository {
    var store: Store

    constructor ()
      ensures store == map[]
    {
      store := map[];
    }

    /** `_serialise_doc`, on a copy of the raw document. */
    method SerialiseDoc(doc: PyDict) returns (result: PyDict)
      ensures fresh(result) && result.items == Serialised(doc.items)
    {
      result := doc.Copy();
      if "_id" in result.items {
        result.items := result.items["_id" := Str(StrOf(result.items["_id"]))];
        if "id" !in result.items {
          result.items := result.items["id" := result.items["_id"]];
        }
      }
    }

    /** The driver adds a generated `_id` to the very dict it is given. */
    method InsertOne(doc: PyDict, generated: Value) returns (duplicate: bool, insertedId: Value)
      modifies this, doc
      ensures doc.items == Inserted(old(doc.items), generated) && insertedId == doc.items["_id"]
      ensures duplicate <==> insertedId in old(store)
      ensures store == if duplicate then old(store) else old(store)[insertedId := doc.items]
    {
      if "_id" !in doc.items {
        doc.items := doc.items["_id" := generated];
      }
      insertedId := doc.items["_id"];
      duplicate := insertedId in store;
      if !duplicate {
        store := store[insertedId := doc.items];
      }
    }

    method FindOne(id: Value) returns (doc: PyDict?)
      ensures doc == null <==> id !in store
      ensures doc != null ==> fresh(doc) && doc.items == store[id]
    {
      if id in store {
        doc := new PyDict(store[id]);
      } else {
        doc := null;
      }
    }

    method Get(entityId: string) returns (r: Reply)
      ensures r == Got(store, entityId)
    {
      var doc := FindOne(NormaliseId(entityId));
      if doc == null {
        return NoDocument;
      }
      var result := SerialiseDoc(doc);
      r := Entity(result.items);
    }

    /** The caller's dict is not in the frame: it is never modified. */
    method Create(entity: PyDict, generated: Value) returns (r: Reply)
      modifies this
      ensures store == AfterCreate(old(store), entity.items, generated)
      ensures r == Created(old(store), entity.items, generated)
      ensures entity.items == old(entity.items)
    {
      var doc := entity.Copy();
      if "id" in doc.items && "_id" !in doc.items {
        var id := doc.Pop("id");
        doc.items := doc.items["_id" := NormaliseId(StrOf(id))];
      }
      var duplicate, insertedId := InsertOne(doc, generated);
      if duplicate {
        return QueryError;
      }
      var inserted := FindOne(insertedId);
      var result := SerialiseDoc(inserted);
      r := Entity(result.items);
    }

    method Update(entity: PyDict) returns (r: Reply)
      modifies this
      ensures store == AfterUpdate(old(store), entity.items)
      ensures r == Updated(old(store), entity.items)
      ensures entity.items == old(entity.items)
    {
      var doc := entity.Copy();
      var entityId := doc.Pop("_id");
      if Falsy(entityId) {
        entityId := doc.Pop("id");
      }
      assert (entityId, doc.items) == PopId(entity.items) by {
        assert entity.items - {"_id"} - {"id"} == entity.items - {"_id", "id"};
        assert "id" !in entity.items ==> entity.items - {"_id", "id"} == entity.items - {"_id"};
      }
      if entityId == Null {
        return QueryError;
      }
      var id := NormaliseId(StrOf(entityId));
      if id !in store {
        return NoDocument;
      }
      store := store[id := store[id] + doc.items];
      var found := FindOne(id);
      var result := SerialiseDoc(found);
      r := Entity(result.items);
    }

    method Delete(entityId: string) returns (deleted: bool)
      modifies this
      ensures deleted == Got(old(store), entityId).Entity?
      ensures store == old(store) - {NormaliseId(entityId)}
    {
      deleted := NormaliseId(entityId) in store;
      store := store - {NormaliseId(entityId)};
    }
  }
}
