/** Python's slices, and pages cut with them. */
module Slicing {

  /** Python's `s[lo:hi]`, negative bounds counting from the end. */
  function Slice<T>(s: seq<T>, lo: int, hi: int): seq<T> {
    var a := Clamp(lo, |s|);
    var b := Clamp(hi, |s|);
    if a <= b then s[a..b] else []
  }

  function Clamp(i: int, n: nat): (k: nat)
    ensures k <= n
  {
    if i < 0 then (if i + n < 0 then 0 else i + n) else if i > n then n else i
  }

  /** Within the length it is the stretch between the bounds; a bound past an
      end is that end, and a negative one counts from the right. */
  lemma SliceMeaning<T>(s: seq<T>, lo: int, hi: int)
    ensures 0 <= lo <= hi <= |s| ==> Slice(s, lo, hi) == s[lo..hi]
    ensures 0 <= hi <= lo ==> Slice(s, lo, hi) == []
    ensures hi > |s| ==> Slice(s, lo, hi) == Slice(s, lo, |s|)
    ensures lo >= |s| ==> Slice(s, lo, hi) == []
    ensures lo < 0 ==> Slice(s, lo, hi) == Slice(s, if -|s| <= lo then |s| + lo else 0, hi)
    ensures hi < 0 ==> Slice(s, lo, hi) == Slice(s, lo, if -|s| <= hi then |s| + hi else 0)
  {
  }

  /** `list(limit, 0)`, `list(limit, limit)`, ..., one after the other. */
  function Pages<T>(s: seq<T>, limit: nat, count: nat): seq<T> {
    if count == 0 then []
    else Pages(s, limit, count - 1) + Slice(s, (count - 1) * limit, (count - 1) * limit + limit)
  }

  /** The first pages are the first items, each once and in order. */
  lemma {:induction false} PagesAreAPrefix<T>(s: seq<T>, limit: nat, count: nat)
    ensures Pages(s, limit, count) == s[..Clamp(count * limit, |s|)]
  {
    hide Slice;
    if count > 0 {
      var from := (count - 1) * limit;
      assert count * limit == from + limit;
      PagesAreAPrefix(s, limit, count - 1);
      NextPage(s, from, limit);
    }
  }

  lemma NextPage<T>(s: seq<T>, from: nat, limit: nat)
    ensures s[..Clamp(from, |s|)] + Slice(s, from, from + limit) == s[..Clamp(from + limit, |s|)]
  {
  }

  /** Enough pages of a positive size are everything. */
  lemma PagesAreEverything<T>(s: seq<T>, limit: nat, count: nat)
    requires limit > 0 && count * limit >= |s|
    ensures Pages(s, limit, count) == s
  {
    PagesAreAPrefix(s, limit, count);
  }
}

/**
 * `list` of the DynamoDB and Cassandra repositories: reading until enough
 * items are at hand, then slicing.
 */
module Paging {
  import opened Slicing

  function Flat<T>(pages: seq<seq<T>>): seq<T> {
    if pages == [] then [] else Flat(pages[..|pages| - 1]) + pages[|pages| - 1]
  }

  /** The number of pages read before there are enough items, or all of them. */
  function PagesRead<T>(pages: seq<seq<T>>, needed: int, k: nat): (n: nat)
    requires k < |pages|
    ensures k < n <= |pages|
    ensures n == |pages| || |Flat(pages[..n])| >= needed
    ensures forall j :: k < j < n ==> |Flat(pages[..j])| < needed
    decreases |pages| - k
  {
    if k + 1 == |pages| || |Flat(pages[..k + 1])| >= needed then k + 1 else PagesRead(pages, needed, k + 1)
  }

  lemma NothingFlat<T>()
    ensures Flat<T>([]) == []
  {
  }

  lemma FlatStep<T>(pages: seq<seq<T>>, k: nat)
    requires k < |pages|
    ensures Flat(pages[..k + 1]) == Flat(pages[..k]) + pages[k]
  {
    assert pages[..k + 1][..k] == pages[..k];
  }

  lemma PagesReadStep<T>(pages: seq<seq<T>>, needed: int, k: nat)
    requires k < |pages|
    ensures PagesRead(pages, needed, k)
         == if k + 1 == |pages| || |Flat(pages[..k + 1])| >= needed then k + 1 else PagesRead(pages, needed, k + 1)
  {
  }

  /** What the early-stopping loop has at hand when it stops. */
  function AtHand<T>(pages: seq<seq<T>>, needed: int): seq<T>
    requires pages != []
  {
    Flat(pages[..PagesRead(pages, needed, 0)])
  }

  lemma {:induction false} FlatPrefix<T>(pages: seq<seq<T>>, k: nat)
    requires k <= |pages|
    ensures Flat(pages[..k]) <= Flat(pages)
    decreases |pages|
  {
    if k == |pages| {
      assert pages[..k] == pages;
    } else {
      var init := pages[..|pages| - 1];
      FlatPrefix(init, k);
      assert init[..k] == pages[..k];
    }
  }

  /** A slice that ends within a prefix is the prefix's own slice. */
  lemma SliceOfPrefix<T>(s: seq<T>, n: nat, lo: int, hi: int)
    requires n <= |s| && (n == |s| || hi <= n) && 0 <= lo && 0 <= hi
    ensures Slice(s[..n], lo, hi) == Slice(s, lo, hi)
  {
  }

  /** For every way of splitting the table into pages, stopping early loses nothing of the page. */
  lemma EarlyStopIsExact<T>(pages: seq<seq<T>>, limit: int, offset: int)
    requires pages != [] && 0 <= offset && 0 <= offset + limit
    ensures Slice(AtHand(pages, offset + limit), offset, offset + limit) == Slice(Flat(pages), offset, offset + limit)
  {
    hide PagesRead, Flat, Slice;
    var n := PagesRead(pages, offset + limit, 0);
    var all, k := Flat(pages), |AtHand(pages, offset + limit)|;
    FlatPrefix(pages, n);
    assert n == |pages| ==> pages[..n] == pages;
    assert all[..k] == AtHand(pages, offset + limit);
    SliceOfPrefix(all, k, offset, offset + limit);
  }

  /** The arguments for which no split of no table shows that the loop stopped early. */
  predicate Tolerated(limit: int, offset: int) {
    || (0 <= offset && 0 <= offset + limit)
    || (offset < 0 && (limit <= 0 || offset + limit == 0))
  }

  /** Early stopping is a slice of the whole table exactly for the tolerated arguments. */
  lemma EarlyStopExactly(limit: int, offset: int)
    ensures Tolerated(limit, offset) <==>
      forall pages: seq<seq<nat>> | pages != [] ::
        Slice(AtHand(pages, offset + limit), offset, offset + limit) == Slice(Flat(pages), offset, offset + limit)
  {
    if Tolerated(limit, offset) {
      forall pages: seq<seq<nat>> | pages != []
        ensures Slice(AtHand(pages, offset + limit), offset, offset + limit)
             == Slice(Flat(pages), offset, offset + limit)
      {
        if 0 <= offset {
          EarlyStopIsExact(pages, limit, offset);
        }
      }
    } else {
      var pages := EarlyStopWitness(limit, offset);
      assert pages != [];
    }
  }

  /** Negative arguments: a table whose split shows through. */
  lemma EarlyStopWitness(limit: int, offset: int) returns (pages: seq<seq<nat>>)
    requires !Tolerated(limit, offset)
    ensures pages != []
    ensures Slice(AtHand(pages, offset + limit), offset, offset + limit) != Slice(Flat(pages), offset, offset + limit)
  {
    var hi := offset + limit;
    var first: seq<nat> := if hi <= 0 then [] else seq(hi, i => 0);
    var second: seq<nat> := seq(if 0 <= offset then offset - hi + 1 else -offset, i => 0);
    pages := [first, second];
    assert pages[..1] == [first] && Flat([first]) == Flat([]) + first;
    assert PagesRead(pages, hi, 0) == 1;
    assert pages[..|pages| - 1] == [first];
    assert Flat(pages) == first + second;
    assert Flat([first]) == first;
  }
}

/** The DynamoDB repository, on a table that is scanned page by page. */
module DynamoRepositoryModel {
  import opened Text
  import opened Slicing
  import opened Paging

  /** id is the value of the id column, if the row has one. */
  datatype Item = Item(id: Option<string>, body: nat)

  datatype Reply = QueryError | NoItem | Entity(item: Item)

  /** A scan answers with one page and the key to go on from, unless it was the last. */
  function Scan(pages: seq<seq<Item>>, start: Option<nat>): (r: (seq<Item>, Option<nat>))
    requires pages != [] && (start.Some? ==> start.value < |pages|)
    ensures r.1.Some? ==> r.1.value < |pages|
  {
    var i := if start.Some? then start.value else 0;
    (pages[i], if i + 1 < |pages| then Some(i + 1) else None)
  }

  /** The scan sees every item of the table once. */
  predicate Enumerates(pages: seq<seq<Item>>, items: map<string, Item>) {
    && pages != []
    && |Flat(pages)| == |items|
    && (forall i, j :: 0 <= i < j < |Flat(pages)| ==> Flat(pages)[i].id != Flat(pages)[j].id)
    && forall i :: 0 <= i < |Flat(pages)| ==>
         && Flat(pages)[i].id.Some? && Flat(pages)[i].id.value in items
         && items[Flat(pages)[i].id.value] == Flat(pages)[i]
  }

  lemma EnumeratedSize(pages: seq<seq<Item>>, items: map<string, Item>)
    requires Enumerates(pages, items)
    ensures pages != [] && |Flat(pages)| == |items|
  {
  }

  class DynamoRepository {
    var items: map<string, Item>

    constructor ()
      ensures items == map[]
    {
      items := map[];
    }

    method Get(id: string) returns (r: Reply)
      ensures r == if id in items then Entity(items[id]) else NoItem
    {
      r := if id in items then Entity(items[id]) else NoItem;
    }

    /** `put_item`; the condition asks for an item with that key. */
    method PutItem(item: Item, mustExist: bool) returns (ok: bool, conditionFailed: bool)
      modifies this
      ensures ok <==> item.id.Some? && (mustExist ==> item.id.value in old(items))
      ensures conditionFailed <==> item.id.Some? && mustExist && item.id.value !in old(items)
      ensures items == if ok then old(items)[item.id.value := item] else old(items)
    {
      conditionFailed := item.id.Some? && mustExist && item.id.value !in items;
      ok := item.id.Some? && !conditionFailed;
      if ok {
        items := items[item.id.value := item];
      }
    }

    /** An unconditional put: a taken id is written over, not refused. */
    method Create(entity: Item) returns (r: Reply)
      modifies this
      ensures r == if entity.id.Some? then Entity(entity) else QueryError
      ensures items == if entity.id.Some? then old(items)[entity.id.value := entity] else old(items)
    {
      var ok, _ := PutItem(entity, false);
      r := if ok then Entity(entity) else QueryError;
    }

    /** A conditional put: it never adds an id, and replaces the whole item. */
    method Update(entity: Item) returns (r: Reply)
      modifies this
      ensures items.Keys == old(items).Keys
      ensures entity.id.None? ==> r == QueryError && items == old(items)
      ensures entity.id.Some? && entity.id.value !in old(items) ==> r == NoItem && items == old(items)
      ensures entity.id.Some? && entity.id.value in old(items) ==>
        r == Entity(entity) && items == old(items)[entity.id.value := entity]
    {
      var ok, conditionFailed := PutItem(entity, true);
      r := if ok then Entity(entity) else if conditionFailed then NoItem else QueryError;
    }

    method Delete(id: string) returns (deleted: bool)
      modifies this
      ensures deleted <==> id in old(items)
      ensures items == old(items) - {id}
    {
      deleted := id in items;
      items := items - {id};
    }

    /** The first loop: pages until there are enough items. */
    method ScanItems(pages: seq<seq<Item>>, needed: int) returns (found: seq<Item>, pagesRead: nat)
      requires pages != []
      ensures pagesRead == PagesRead(pages, needed, 0) && found == AtHand(pages, needed)
    {
      hide Flat, PagesRead;
      found := [];
      pagesRead := 0;
      var start: Option<nat> := None;
      NothingFlat<Item>();
      assert pages[..0] == [];
      while true
        invariant pagesRead < |pages| && found == Flat(pages[..pagesRead])
        invariant start == if pagesRead == 0 then None else Some(pagesRead)
        invariant PagesRead(pages, needed, 0) == PagesRead(pages, needed, pagesRead)
        decreases |pages| - pagesRead
      {
        var response := Scan(pages, start);
        FlatStep(pages, pagesRead);
        PagesReadStep(pages, needed, pagesRead);
        found := found + response.0;
        pagesRead := pagesRead + 1;
        var lastKey := response.1;
        if lastKey.None? || |found| >= needed {
          break;
        }
        start := lastKey;
      }
    }

    /** The second loop: all pages, counted. */
    method CountItems(pages: seq<seq<Item>>) returns (count: nat)
      requires pages != []
      ensures count == |Flat(pages)|
    {
      hide Flat;
      count := 0;
      var counted: nat := 0;
      var start: Option<nat> := None;
      NothingFlat<Item>();
      assert pages[..0] == [];
      while true
        invariant counted < |pages| && count == |Flat(pages[..counted])|
        invariant start == if counted == 0 then None else Some(counted)
        decreases |pages| - counted
      {
        var response := Scan(pages, start);
        FlatStep(pages, counted);
        count := count + |response.0|;
        counted := counted + 1;
        if response.1.None? {
          break;
        }
        start := response.1;
      }
      assert pages[..counted] == pages;
    }

    /**
     * pages and countPages are how the server splits the two scans; any split
     * will do, with empty pages anywhere. The item loop reads no page more than
     * it needs, the count loop reads them all.
     */
    method List(limit: int, offset: int, pages: seq<seq<Item>>, countPages: seq<seq<Item>>)
      returns (entities: seq<Item>, count: nat, pagesRead: nat)
      requires Enumerates(pages, items) && Enumerates(countPages, items)
      ensures count == |items|
      ensures pagesRead == PagesRead(pages, offset + limit, 0)
      ensures entities == Slice(AtHand(pages, offset + limit), offset, offset + limit)
      ensures 0 <= offset && 0 <= offset + limit ==> entities == Slice(Flat(pages), offset, offset + limit)
    {
      hide Enumerates, Slice, Flat, AtHand, PagesRead;
      EnumeratedSize(pages, items);
      EnumeratedSize(countPages, items);
      var found;
      found, pagesRead := ScanItems(pages, offset + limit);
      count := CountItems(countPages);
      entities := Slice(found, offset, offset + limit);
      if 0 <= offset && 0 <= offset + limit {
        EarlyStopIsExact(pages, limit, offset);
      }
    }
  }
}

/** The Cassandra repository's list: fetch the first limit + offset rows, then slice. */
module CassandraListing {
  import opened Text
  import opened Slicing
  import opened Paging

  /** `SELECT * FROM table LIMIT n`: the server wants n above zero. */
  function First<T>(rows: seq<T>, n: int): Option<seq<T>> {
    if n <= 0 then None else Some(rows[..Clamp(n, |rows|)])
  }

  /** rows is the table in the server's order. None stands for AdapterQueryError. */
  method List<T>(rows: seq<T>, limit: int, offset: int) returns (r: Option<(seq<T>, nat)>)
    ensures r.None? <==> limit + offset <= 0
    ensures r.Some? && 0 <= offset ==> r.value == (Slice(rows, offset, offset + limit), |rows|)
    ensures r.Some? ==> r.value.0 == Slice(rows[..Clamp(offset + limit, |rows|)], offset, offset + limit)
  {
    var allRows := First(rows, limit + offset);
    if allRows.None? {
      return None;
    }
    var count := |rows|;
    r := Some((Slice(allRows.value, offset, offset + limit), count));
    if 0 <= offset {
      SliceOfPrefix(rows, Clamp(offset + limit, |rows|), offset, offset + limit);
    }
  }

  predicate FetchAgrees<T(==)>(rows: seq<T>, limit: int, offset: int)
    requires limit + offset > 0
  {
    Slice(First(rows, limit + offset).value, offset, offset + limit) == Slice(rows, offset, offset + limit)
  }

  /** Fetching first and slicing then is a slice of the table exactly for offsets from zero. */
  lemma FetchExactly(limit: int, offset: int)
    requires limit + offset > 0
    ensures 0 <= offset <==> forall rows: seq<nat> :: FetchAgrees(rows, limit, offset)
  {
    if 0 <= offset {
      forall rows: seq<nat> ensures FetchAgrees(rows, limit, offset) {
        SliceOfPrefix(rows, Clamp(offset + limit, |rows|), offset, offset + limit);
      }
    } else {
      var rows := FetchWitness(limit, offset);
    }
  }

  lemma FetchWitness(limit: int, offset: int) returns (rows: seq<nat>)
    requires limit + offset > 0 && offset < 0
    ensures !FetchAgrees(rows, limit, offset)
  {
    var hi := offset + limit;
    rows := seq(hi - offset, i => 0);
    var fetched := First(rows, hi).value;
    assert |fetched| == hi;
    assert |Slice(fetched, offset, hi)| > 0;
    assert |Slice(rows, offset, hi)| == 0;
  }
}
