/**
 * The Redis repository: entities under prefixed keys of a shared keyspace.
 *
 * RedisProtocol is the keyspace that any number of repositories and clients
 * work on, one atomic command at a time, with timeouts and expiring keys.
 * RedisOrder is the sorting and slicing of `list`. RedisRepositoryModel is the
 * repository itself.
 */
module RedisProtocol {

  /** id is `str(data.get("id", ""))`; body is the rest of the stored JSON. */
  datatype Entity = Entity(id: string, body: nat)

  type Keyspace = map<string, Entity>

  function MakeKey(prefix: string, id: string): string {
    prefix + ":" + id
  }

  datatype Call =
    | Get(prefix: string, id: string)
    | Create(prefix: string, entity: Entity)
    | Update(prefix: string, entity: Entity)
    | Delete(prefix: string, id: string)

  /**
   * What becomes of the command: its reply arrives in time, the timeout fires
   * after the server carried it out, or the server never sees it.
   */
  datatype Fate = Answered | TimedOut | Lost

  datatype Event = Called(call: Call, fate: Fate) | Expired(key: string)

  datatype Reply = Found(entity: Entity) | Nothing | Rejected | Failed | Deleted(existed: bool)

  function KeyOf(c: Call): string {
    match c
    case Get(p, id) => MakeKey(p, id)
    case Create(p, e) => MakeKey(p, e.id)
    case Update(p, e) => MakeKey(p, e.id)
    case Delete(p, id) => MakeKey(p, id)
  }

  /** The keyspace after one event: GET, SET NX, SET XX, DEL, or a key running out of its TTL. */
  function Step(ks: Keyspace, ev: Event): Keyspace {
    match ev
    case Expired(key) => ks - {key}
    case Called(c, fate) =>
      if fate == Lost then ks
      else match c
        case Get(_, _) => ks
        case Create(_, e) => if e.id == "" || KeyOf(c) in ks then ks else ks[KeyOf(c) := e]
        case Update(_, e) => if KeyOf(c) in ks then ks[KeyOf(c) := e] else ks
        case Delete(_, _) => ks - {KeyOf(c)}
  }

  /** What the caller is told. */
  function Answer(ks: Keyspace, c: Call, fate: Fate): Reply {
    if c.Create? && c.entity.id == "" then Rejected
    else if fate != Answered then Failed
    else match c
      case Get(_, _) => if KeyOf(c) in ks then Found(ks[KeyOf(c)]) else Nothing
      case Create(_, e) => if KeyOf(c) in ks then Rejected else Found(e)
      case Update(_, e) => if KeyOf(c) in ks then Found(e) else Nothing
      case Delete(_, _) => Deleted(KeyOf(c) in ks)
  }

  function Run(evs: seq<Event>): Keyspace {
    if evs == [] then map[] else Step(Run(evs[..|evs| - 1]), evs[|evs| - 1])
  }

  // ---- prefixes that do not meddle ----

  /** Neither `prefix:` string is a prefix of the other. */
  predicate Unrelated(p: string, q: string) {
    !(p + ":" <= q + ":") && !(q + ":" <= p + ":")
  }

  lemma SharedKey(p: string, q: string, i: string, j: string)
    requires MakeKey(p, i) == MakeKey(q, j)
    ensures !Unrelated(p, q)
  {
    var pc, qc, key := p + ":", q + ":", MakeKey(p, i);
    assert key[..|pc|] == pc && key[..|qc|] == qc;
    if |pc| <= |qc| {
      assert qc[..|pc|] == key[..|qc|][..|pc|] == pc;
    } else {
      assert pc[..|qc|] == key[..|pc|][..|qc|] == qc;
    }
  }

  /** Two repositories share no key exactly when their prefixes are unrelated. */
  lemma NoSharedKeys(p: string, q: string)
    ensures Unrelated(p, q) <==> forall i, j :: MakeKey(p, i) != MakeKey(q, j)
  {
    var pc, qc := p + ":", q + ":";
    if Unrelated(p, q) {
      forall i, j ensures MakeKey(p, i) != MakeKey(q, j) {
        if MakeKey(p, i) == MakeKey(q, j) {
          SharedKey(p, q, i, j);
        }
      }
    } else if pc <= qc {
      assert MakeKey(p, qc[|pc|..]) == pc + qc[|pc|..] == qc == MakeKey(q, "");
    } else {
      assert MakeKey(q, pc[|qc|..]) == qc + pc[|qc|..] == pc == MakeKey(p, "");
    }
  }

  // ---- the finite map of one repository ----

  /** key belongs to prefix. */
  predicate Belongs(prefix: string, key: string) {
    prefix + ":" <= key
  }

  function IdOf(prefix: string, key: string): string
    requires Belongs(prefix, key)
  {
    key[|prefix| + 1..]
  }

  lemma KeyAndId(prefix: string)
    ensures forall key | Belongs(prefix, key) :: MakeKey(prefix, IdOf(prefix, key)) == key
    ensures forall id :: Belongs(prefix, MakeKey(prefix, id)) && IdOf(prefix, MakeKey(prefix, id)) == id
  {
  }

  /** What a repository with this prefix holds: its entities by id. */
  function View(ks: Keyspace, prefix: string): map<string, Entity> {
    KeyAndId(prefix);
    map key | key in ks && Belongs(prefix, key) :: IdOf(prefix, key) := ks[key]
  }

  /** An event as one repository sees it. */
  datatype Change = Local(call: Call, fate: Fate) | Dropped(id: string) | Elsewhere

  function Seen(ev: Event, prefix: string): Change {
    match ev
    case Expired(key) => if Belongs(prefix, key) then Dropped(IdOf(prefix, key)) else Elsewhere
    case Called(c, fate) => if c.prefix == prefix then Local(c, fate) else Elsewhere
  }

  /** The repository's contract: a finite map from id to entity. */
  function MapStep(m: map<string, Entity>, ch: Change): map<string, Entity> {
    match ch
    case Elsewhere => m
    case Dropped(id) => m - {id}
    case Local(c, fate) =>
      if fate == Lost then m
      else match c
        case Get(_, _) => m
        case Create(_, e) => if e.id == "" || e.id in m then m else m[e.id := e]
        case Update(_, e) => if e.id in m then m[e.id := e] else m
        case Delete(_, id) => m - {id}
  }

  function MapAnswer(m: map<string, Entity>, c: Call): Reply {
    match c
    case Get(_, id) => if id in m then Found(m[id]) else Nothing
    case Create(_, e) => if e.id == "" || e.id in m then Rejected else Found(e)
    case Update(_, e) => if e.id in m then Found(e) else Nothing
    case Delete(_, id) => Deleted(id in m)
  }

  function MapRun(evs: seq<Event>, prefix: string): map<string, Entity> {
    if evs == [] then map[]
    else MapStep(MapRun(evs[..|evs| - 1], prefix), Seen(evs[|evs| - 1], prefix))
  }

  lemma ViewLookup(ks: Keyspace, prefix: string, id: string)
    ensures id in View(ks, prefix) <==> MakeKey(prefix, id) in ks
    ensures id in View(ks, prefix) ==> View(ks, prefix)[id] == ks[MakeKey(prefix, id)]
  {
    KeyAndId(prefix);
    if MakeKey(prefix, id) in ks {
      assert Belongs(prefix, MakeKey(prefix, id));
    }
  }

  /** m says what ks holds under prefix. */
  predicate Shows(ks: Keyspace, prefix: string, m: map<string, Entity>, id: string) {
    (id in m <==> MakeKey(prefix, id) in ks) && (id in m ==> m[id] == ks[MakeKey(prefix, id)])
  }

  /** Other repositories are those whose prefix is the same or unrelated. */
  predicate Apart(ev: Event, prefix: string) {
    ev.Called? ==> ev.call.prefix == prefix || Unrelated(ev.call.prefix, prefix)
  }

  lemma SameView(ks: Keyspace, prefix: string, m: map<string, Entity>)
    requires forall id :: Shows(ks, prefix, m, id)
    ensures View(ks, prefix) == m
  {
    hide View;
    forall id ensures id in View(ks, prefix) <==> id in m {
      ViewLookup(ks, prefix, id);
      assert Shows(ks, prefix, m, id);
    }
    forall id | id in m ensures View(ks, prefix)[id] == m[id] {
      ViewLookup(ks, prefix, id);
      assert Shows(ks, prefix, m, id);
    }
  }

  function IdOfCall(c: Call): string {
    match c
    case Get(_, id) => id
    case Create(_, e) => e.id
    case Update(_, e) => e.id
    case Delete(_, id) => id
  }

  lemma OwnCallShows(ks: Keyspace, prefix: string, m: map<string, Entity>, c: Call, fate: Fate, id: string)
    requires c.prefix == prefix && Shows(ks, prefix, m, id) && Shows(ks, prefix, m, IdOfCall(c))
    ensures Shows(Step(ks, Called(c, fate)), prefix, MapStep(m, Local(c, fate)), id)
  {
    assert KeyOf(c) == MakeKey(prefix, IdOfCall(c));
    if KeyOf(c) == MakeKey(prefix, id) {
      assert IdOf(prefix, KeyOf(c)) == id == IdOfCall(c);
    }
  }

  lemma OtherEventShows(ks: Keyspace, prefix: string, m: map<string, Entity>, ev: Event, id: string)
    requires Apart(ev, prefix) && (ev.Called? ==> ev.call.prefix != prefix) && Shows(ks, prefix, m, id)
    ensures Shows(Step(ks, ev), prefix, MapStep(m, Seen(ev, prefix)), id)
  {
    if ev.Called? {
      var c := ev.call;
      NoSharedKeys(c.prefix, prefix);
      assert KeyOf(c) == MakeKey(c.prefix, IdOfCall(c)) != MakeKey(prefix, id);
    } else if Belongs(prefix, ev.key) {
      assert MakeKey(prefix, IdOf(prefix, ev.key)) == ev.key;
      assert IdOf(prefix, MakeKey(prefix, id)) == id;
    } else {
      assert Belongs(prefix, MakeKey(prefix, id));
    }
  }

  /** Every event moves the repository's map as the contract says. */
  lemma StepRefines(ks: Keyspace, ev: Event, prefix: string)
    requires Apart(ev, prefix)
    ensures View(Step(ks, ev), prefix) == MapStep(View(ks, prefix), Seen(ev, prefix))
    ensures ev.Called? && ev.call.prefix == prefix && ev.fate == Answered ==>
      Answer(ks, ev.call, ev.fate) == MapAnswer(View(ks, prefix), ev.call)
  {
    hide View, Step, MapStep;
    var m := View(ks, prefix);
    forall id ensures Shows(ks, prefix, m, id) {
      ViewLookup(ks, prefix, id);
    }
    forall id ensures Shows(Step(ks, ev), prefix, MapStep(m, Seen(ev, prefix)), id) {
      if ev.Called? && ev.call.prefix == prefix {
        OwnCallShows(ks, prefix, m, ev.call, ev.fate, id);
      } else {
        OtherEventShows(ks, prefix, m, ev, id);
      }
    }
    SameView(Step(ks, ev), prefix, MapStep(m, Seen(ev, prefix)));
    if ev.Called? && ev.call.prefix == prefix {
      assert Shows(ks, prefix, m, IdOfCall(ev.call));
    }
  }

  /**
   * Whatever callers of this and other repositories do, in any interleaving,
   * with any timeouts and expiries, a repository is a finite map from id to
   * entity that moves only by its own calls and its own keys' expiry.
   */
  lemma {:induction false} RunRefines(evs: seq<Event>, prefix: string)
    requires forall i :: 0 <= i < |evs| ==> Apart(evs[i], prefix)
    ensures View(Run(evs), prefix) == MapRun(evs, prefix)
  {
    if evs != [] {
      var init := evs[..|evs| - 1];
      RunRefines(init, prefix);
      StepRefines(Run(init), evs[|evs| - 1], prefix);
    }
  }

  // ---- what is there, said about the run alone ----

  /** This event would put key there if it were absent. */
  predicate Creates(ev: Event, key: string) {
    ev.Called? && ev.call.Create? && ev.fate != Lost && ev.call.entity.id != "" && KeyOf(ev.call) == key
  }

  /** After this event key is gone. */
  predicate Removes(ev: Event, key: string) {
    || ev == Expired(key)
    || (ev.Called? && ev.call.Delete? && ev.fate != Lost && KeyOf(ev.call) == key)
  }

  predicate CreatedAndKept(evs: seq<Event>, i: nat, key: string) {
    i < |evs| && Creates(evs[i], key) && forall j :: i < j < |evs| ==> !Removes(evs[j], key)
  }

  /** Creates add a key, removals take it away, and nothing else does either. */
  lemma StepExists(ks: Keyspace, ev: Event, key: string)
    ensures key in Step(ks, ev) <==> Creates(ev, key) || (key in ks && !Removes(ev, key))
  {
    hide MakeKey;
  }

  /**
   * A key exists exactly when some create reached the server and nothing
   * removed the key since: updates neither add nor revive it, and a create
   * whose caller saw a timeout counts.
   */
  lemma {:induction false} ExistsExactly(evs: seq<Event>, key: string)
    ensures key in Run(evs) <==> exists i: nat :: CreatedAndKept(evs, i, key)
  {
    if evs != [] {
      var n := |evs| - 1;
      var init, ev := evs[..n], evs[n];
      hide Step, Creates, Removes;
      StepExists(Run(init), ev, key);
      ExistsExactly(init, key);
      if exists i: nat :: CreatedAndKept(evs, i, key) {
        var i: nat :| CreatedAndKept(evs, i, key);
        if i < n {
          assert CreatedAndKept(init, i, key);
        }
      }
      if key in Run(evs) {
        if key in Run(init) {
          var i: nat :| CreatedAndKept(init, i, key);
          assert CreatedAndKept(evs, i, key);
        } else {
          assert CreatedAndKept(evs, n, key);
        }
      }
    }
  }

  /** A create that is told it succeeded found its key absent, and never writes over anything. */
  lemma CreateNeverOverwrites(evs: seq<Event>, c: Call, fate: Fate)
    requires c.Create?
    ensures KeyOf(c) in Run(evs) ==> Step(Run(evs), Called(c, fate)) == Run(evs)
    ensures Answer(Run(evs), c, fate).Found? ==>
      forall i: nat :: i < |evs| && Creates(evs[i], KeyOf(c)) ==> exists j :: i < j < |evs| && Removes(evs[j], KeyOf(c))
  {
    if Answer(Run(evs), c, fate).Found? {
      ExistsExactly(evs, KeyOf(c));
      forall i: nat | i < |evs| && Creates(evs[i], KeyOf(c))
        ensures exists j :: i < j < |evs| && Removes(evs[j], KeyOf(c))
      {
        assert !CreatedAndKept(evs, i, KeyOf(c));
      }
    }
  }

  /** An update that is told it succeeded follows a create with no removal in between. */
  lemma UpdateNeverRevives(evs: seq<Event>, c: Call, fate: Fate)
    requires c.Update?
    ensures Step(Run(evs), Called(c, fate)).Keys == Run(evs).Keys
    ensures Answer(Run(evs), c, fate).Found? ==> exists i: nat :: CreatedAndKept(evs, i, KeyOf(c))
  {
    ExistsExactly(evs, KeyOf(c));
  }

  /**
   * Create rejects an empty id, so an update without an id finds nothing,
   * exactly unless another repository, whose `prefix:` is a proper prefix of
   * this one's, created an entity whose key is just this one's `prefix:`.
   */
  lemma UpdateWithoutId(evs: seq<Event>, c: Call, fate: Fate)
    requires c.Update? && c.entity.id == ""
    ensures (exists i: nat :: CreatedAndKept(evs, i, KeyOf(c))) <==> KeyOf(c) in Run(evs)
    ensures forall i: nat :: CreatedAndKept(evs, i, KeyOf(c)) ==> evs[i].call.prefix + ":" < c.prefix + ":"
    ensures KeyOf(c) !in Run(evs) ==> Step(Run(evs), Called(c, fate)) == Run(evs)
    ensures fate == Answered ==> (Answer(Run(evs), c, fate) == Nothing <==> KeyOf(c) !in Run(evs))
  {
    ExistsExactly(evs, KeyOf(c));
    forall i: nat | CreatedAndKept(evs, i, KeyOf(c)) ensures evs[i].call.prefix + ":" < c.prefix + ":" {
      var q, id := evs[i].call.prefix + ":", evs[i].call.entity.id;
      assert q + id == c.prefix + ":" + "" == c.prefix + ":";
      assert |q| < |q + id| && (q + id)[..|q|] == q;
    }
  }

  /** Such a run exists: "a" creates an entity with id "b:", and an update of
      "a:b" without an id finds it. */
  lemma UpdateWithoutIdCanFind()
    ensures Answer(Run([Called(Create("a", Entity("b:", 0)), Answered)]), Update("a:b", Entity("", 1)), Answered)
         == Found(Entity("", 1))
  {
    var ev := Called(Create("a", Entity("b:", 0)), Answered);
    assert [ev][..0] == [];
    assert MakeKey("a", "b:") == MakeKey("a:b", "");
    assert Run([ev]) == Step(map[], ev);
  }

  // ---- what is stored, said about the run alone ----

  /** Event i wrote key: a create that found it absent, or an update that found it. */
  predicate Writes(evs: seq<Event>, i: nat, key: string) {
    && i < |evs| && evs[i].Called? && evs[i].fate != Lost && KeyOf(evs[i].call) == key
    && (if key in Run(evs[..i]) then evs[i].call.Update? else evs[i].call.Create? && evs[i].call.entity.id != "")
  }

  lemma WritesBefore(evs: seq<Event>, i: nat, key: string)
    requires evs != [] && i < |evs| - 1
    ensures Writes(evs, i, key) <==> Writes(evs[..|evs| - 1], i, key)
  {
    assert evs[..|evs| - 1][..i] == evs[..i];
  }

  /** One event writes the entity it carries, or leaves what a key holds. */
  lemma StepWrites(evs: seq<Event>, key: string)
    requires evs != [] && key in Run(evs)
    ensures var n := |evs| - 1;
      if Writes(evs, n, key) then Run(evs)[key] == evs[n].call.entity && !Removes(evs[n], key)
      else key in Run(evs[..n]) && Run(evs)[key] == Run(evs[..n])[key]
  {
    hide MakeKey;
  }

  /** In every run a key that is there holds the entity of the last event that wrote it. */
  lemma {:induction false} LastWriteWins(evs: seq<Event>, key: string)
    requires key in Run(evs)
    ensures exists i: nat :: Writes(evs, i, key) && Run(evs)[key] == evs[i].call.entity
                          && forall j: nat :: i < j ==> !Writes(evs, j, key)
  {
    hide Writes, Step, KeyOf;
    if evs != [] {
      var n := |evs| - 1;
      StepWrites(evs, key);
      NoWritesBeyond(evs, key);
      if !Writes(evs, n, key) {
        LastWriteWins(evs[..n], key);
        NoWritesBeyond(evs[..n], key);
        var i: nat :| Writes(evs[..n], i, key) && Run(evs[..n])[key] == evs[..n][i].call.entity
                   && forall j: nat :: i < j ==> !Writes(evs[..n], j, key);
        assert i < n;
        WritesBefore(evs, i, key);
        forall j: nat | i < j ensures !Writes(evs, j, key) {
          if j < n { WritesBefore(evs, j, key); }
        }
      }
    }
  }

  lemma NoWritesBeyond(evs: seq<Event>, key: string)
    ensures forall i: nat :: Writes(evs, i, key) ==>
      i < |evs| && evs[i].Called? && !evs[i].call.Get? && !evs[i].call.Delete?
  {
  }

  /** An entity in a reply is what the next get of that id answers, and a get
      answers with nothing after a delete; a delete and an update tell whether
      a get would have found something before, and a create that it would not. */
  lemma ReplyIsNextGet(ks: Keyspace, c: Call)
    ensures var r := Answer(ks, c, Answered);
      var before := Answer(ks, Get(c.prefix, IdOfCall(c)), Answered);
      var after := Answer(Step(ks, Called(c, Answered)), Get(c.prefix, IdOfCall(c)), Answered);
      match c
      case Get(_, _) => r == before == after && r == if KeyOf(c) in ks then Found(ks[KeyOf(c)]) else Nothing
      case Create(_, e) => (r == Found(e) <==> e.id != "" && before == Nothing) && (r == Found(e) ==> after == r)
                        && (r != Found(e) ==> r == Rejected && after == before)
      case Update(_, e) => (r == Found(e) <==> before.Found?) && (r == Found(e) ==> after == r)
                        && (r != Found(e) ==> r == Nothing && after == Nothing)
      case Delete(_, _) => r == Deleted(before.Found?) && after == Nothing
  {
  }

  /** A caller whose reply does not arrive in time is told so, whatever the
      server did; what it did is all or nothing, and a create without an id
      never gets that far. */
  lemma LateReplyFails(ks: Keyspace, c: Call)
    ensures c.Create? && c.entity.id == "" ==>
      forall fate :: Answer(ks, c, fate) == Rejected && Step(ks, Called(c, fate)) == ks
    ensures !c.Create? || c.entity.id != "" ==>
      && Answer(ks, c, TimedOut) == Answer(ks, c, Lost) == Failed && Answer(ks, c, Answered) != Failed
      && Step(ks, Called(c, Lost)) == ks && Step(ks, Called(c, TimedOut)) == Step(ks, Called(c, Answered))
  {
  }
}

/** Sorting and slicing, as `list` does them. */
module RedisOrder {

  /** `a <= b` on strings: by code point. */
  predicate Leq(a: string, b: string) {
    a == "" || (b != "" && (a[0] < b[0] || (a[0] == b[0] && Leq(a[1..], b[1..]))))
  }

  lemma {:induction false} LeqTotal(a: string, b: string)
    ensures Leq(a, b) || Leq(b, a)
    ensures Leq(a, b) && Leq(b, a) ==> a == b
  {
    if a != "" && b != "" && a[0] == b[0] {
      LeqTotal(a[1..], b[1..]);
      assert a == [a[0]] + a[1..] && b == [b[0]] + b[1..];
    }
  }

  lemma {:induction false} LeqTransitive(a: string, b: string, c: string)
    requires Leq(a, b) && Leq(b, c)
    ensures Leq(a, c)
  {
    if a != "" && a[0] == b[0] == c[0] {
      LeqTransitive(a[1..], b[1..], c[1..]);
    }
  }

  /** A common prefix does not matter to the order. */
  lemma {:induction false} LeqPrefix(p: string, a: string, b: string)
    ensures Leq(p + a, p + b) <==> Leq(a, b)
  {
    if p == "" {
      assert p + a == a && p + b == b;
    } else {
      LeqPrefix(p[1..], a, b);
      assert (p + a)[1..] == p[1..] + a && (p + b)[1..] == p[1..] + b;
    }
  }

  predicate Ascends(s: seq<string>) {
    forall i, j :: 0 <= i < j < |s| ==> Leq(s[i], s[j]) && s[i] != s[j]
  }

  /** Where x goes among ascending strings. */
  function Insert(s: seq<string>, x: string): seq<string> {
    if s == [] || Leq(x, s[0]) then [x] + s else [s[0]] + Insert(s[1..], x)
  }

  /** `s.sort()`. */
  function Sort(s: seq<string>): seq<string> {
    if s == [] then [] else Insert(Sort(s[..|s| - 1]), s[|s| - 1])
  }

  /** The elements of a sequence. */
  function Elements(s: seq<string>): set<string> {
    set x | x in s
  }

  predicate NoRepeats(s: seq<string>) {
    forall i, j :: 0 <= i < j < |s| ==> s[i] != s[j]
  }

  lemma {:induction false} InsertAscends(s: seq<string>, x: string)
    requires Ascends(s) && x !in s
    ensures Ascends(Insert(s, x)) && Elements(Insert(s, x)) == Elements(s) + {x}
  {
    if s != [] && !Leq(x, s[0]) {
      var rest := Insert(s[1..], x);
      InsertAscends(s[1..], x);
      LeqTotal(x, s[0]);
      assert s == [s[0]] + s[1..];
      forall y | y in rest ensures Leq(s[0], y) && s[0] != y {
        assert y in Elements(rest);
      }
    } else if s != [] {
      forall y | y in s ensures Leq(x, y) {
        var i :| 0 <= i < |s| && s[i] == y;
        if i > 0 {
          LeqTransitive(x, s[0], s[i]);
        }
      }
    }
  }

  lemma {:induction false} SortAscends(s: seq<string>)
    requires NoRepeats(s)
    ensures Ascends(Sort(s)) && Elements(Sort(s)) == Elements(s)
  {
    if s != [] {
      var init, last := s[..|s| - 1], s[|s| - 1];
      SortAscends(init);
      assert s == init + [last];
      assert last !in Elements(init);
      InsertAscends(Sort(init), last);
    }
  }

  /** There is only one way to put a set of strings in ascending order. */
  lemma {:induction false} OneOrder(a: seq<string>, b: seq<string>)
    requires Ascends(a) && Ascends(b) && Elements(a) == Elements(b)
    ensures a == b
  {
    assert b != [] ==> b[0] in Elements(b);
    if a != [] {
      assert a[0] in Elements(a) && a[0] in b;
      assert b[0] in Elements(b) && b[0] in a;
      LeqTotal(a[0], b[0]);
      assert a[0] == b[0];
      TailElements(a);
      TailElements(b);
      OneOrder(a[1..], b[1..]);
      assert a == [a[0]] + a[1..] && b == [b[0]] + b[1..];
    }
  }

  lemma TailElements(s: seq<string>)
    requires Ascends(s) && s != []
    ensures Elements(s[1..]) == Elements(s) - {s[0]}
  {
    assert s == [s[0]] + s[1..];
    assert s[0] !in s[1..];
  }

  lemma AscendingSize(s: seq<string>)
    requires Ascends(s)
    ensures |Elements(s)| == |s|
  {
    if s != [] {
      TailElements(s);
      AscendingSize(s[1..]);
    } else {
      assert Elements(s) == {};
    }
  }

  // ---- prefixed keys ----

  function Prefixed(p: string, ids: seq<string>): seq<string> {
    seq(|ids|, i requires 0 <= i < |ids| => p + ids[i])
  }

  /** Sorting prefixed keys is sorting ids. */
  lemma {:induction false} SortPrefixed(p: string, ids: seq<string>)
    ensures Sort(Prefixed(p, ids)) == Prefixed(p, Sort(ids))
  {
    if ids != [] {
      var init, last := ids[..|ids| - 1], ids[|ids| - 1];
      SortPrefixed(p, init);
      assert Prefixed(p, ids)[..|ids| - 1] == Prefixed(p, init);
      InsertPrefixed(p, Sort(init), last);
    }
  }

  lemma {:induction false} InsertPrefixed(p: string, s: seq<string>, x: string)
    ensures Insert(Prefixed(p, s), p + x) == Prefixed(p, Insert(s, x))
  {
    if s != [] {
      LeqPrefix(p, x, s[0]);
      if !Leq(x, s[0]) {
        InsertPrefixed(p, s[1..], x);
        assert Prefixed(p, s)[1..] == Prefixed(p, s[1..]);
      }
    }
  }

  // ---- the MATCH pattern ----

  /** Glob matching, without character classes. */
  predicate Glob(pattern: string, s: string)
    decreases |pattern| + |s|
  {
    if pattern == "" then s == ""
    else if pattern[0] == '*' then Glob(pattern[1..], s) || (s != "" && Glob(pattern, s[1..]))
    else if pattern[0] == '?' then s != "" && Glob(pattern[1..], s[1..])
    else if pattern[0] == '\\' && |pattern| > 1 then
      s != "" && s[0] == pattern[1] && Glob(pattern[2..], s[1..])
    else s != "" && s[0] == pattern[0] && Glob(pattern[1..], s[1..])
  }

  predicate Plain(s: string) {
    forall i :: 0 <= i < |s| ==> s[i] !in "*?[]\\"
  }

  lemma {:induction false} StarMatchesAll(s: string)
    ensures Glob("*", s)
  {
    if s != "" {
      StarMatchesAll(s[1..]);
    } else {
      assert "*"[1..] == "";
    }
  }

  /** The pattern of a plain prefix matches that prefix and nothing else. */
  lemma {:induction false} GlobIsPrefix(p: string, s: string)
    requires Plain(p)
    ensures Glob(p + "*", s) <==> p <= s
  {
    if p == "" {
      assert p + "*" == "*";
      StarMatchesAll(s);
    } else {
      assert (p + "*")[1..] == p[1..] + "*";
      assert (p + "*")[0] == p[0];
      if s != "" {
        GlobIsPrefix(p[1..], s[1..]);
        assert p <= s <==> p[0] == s[0] && p[1..] <= s[1..] by {
          assert p == [p[0]] + p[1..] && s == [s[0]] + s[1..];
        }
      }
    }
  }
}

/** What `list` answers, said about the finite map. */
module RedisListing {
  import opened RedisProtocol
  import opened RedisOrder
  import opened Slicing

  /** The ids in ascending order. */
  ghost function Ascending(ids: set<string>): (s: seq<string>)
    ensures Ascends(s) && Elements(s) == ids
  {
    if ids == {} then []
    else
      var x :| x in ids;
      assert x !in Elements(Ascending(ids - {x}));
      InsertAscends(Ascending(ids - {x}), x);
      Insert(Ascending(ids - {x}), x)
  }

  /** The entities under these ids; an id that is gone is skipped. */
  function Lookups(m: map<string, Entity>, ids: seq<string>): seq<Entity> {
    if ids == [] then []
    else Lookups(m, ids[..|ids| - 1]) + (if ids[|ids| - 1] in m then [m[ids[|ids| - 1]]] else [])
  }

  /** The ids of a page. */
  ghost function Page(m: map<string, Entity>, limit: int, offset: int): seq<string> {
    Slice(Ascending(m.Keys), offset, offset + limit)
  }

  /** `list(limit, offset)` of a repository that holds m and does not change meanwhile. */
  ghost function Listed(m: map<string, Entity>, limit: int, offset: int): seq<Entity> {
    Lookups(m, Page(m, limit, offset))
  }

  ghost function ListedPages(m: map<string, Entity>, limit: nat, count: nat): seq<Entity> {
    if count == 0 then [] else ListedPages(m, limit, count - 1) + Listed(m, limit, (count - 1) * limit)
  }

  lemma {:induction false} LookupsConcat(m: map<string, Entity>, a: seq<string>, b: seq<string>)
    ensures Lookups(m, a + b) == Lookups(m, a) + Lookups(m, b)
  {
    if b == [] {
      assert a + b == a;
    } else {
      LookupsConcat(m, a, b[..|b| - 1]);
      assert (a + b)[..|a + b| - 1] == a + b[..|b| - 1];
    }
  }

  lemma {:induction false} LookupsAll(m: map<string, Entity>, ids: seq<string>)
    requires forall id :: id in ids ==> id in m
    ensures |Lookups(m, ids)| == |ids|
    ensures forall i :: 0 <= i < |ids| ==> Lookups(m, ids)[i] == m[ids[i]]
  {
    if ids != [] {
      LookupsAll(m, ids[..|ids| - 1]);
    }
  }

  /** The places before n whose id is there. */
  function Held(m: map<string, Entity>, ids: seq<string>, n: nat): set<nat> {
    set j: nat | j < n && j < |ids| && ids[j] in m
  }

  lemma HeldNext(m: map<string, Entity>, ids: seq<string>, n: nat)
    requires n < |ids|
    ensures |Held(m, ids, n + 1)| == |Held(m, ids, n)| + (if ids[n] in m then 1 else 0)
  {
    assert Held(m, ids, n + 1) == Held(m, ids, n) + (if ids[n] in m then {n} else {});
  }

  lemma HeldInInit(m: map<string, Entity>, ids: seq<string>, i: nat)
    requires i < |ids|
    ensures Held(m, ids[..|ids| - 1], i) == Held(m, ids, i)
  {
  }

  /** The page has one entity for each id that is still there, in the order of
      the ids, and nothing for the others. */
  lemma {:induction false} LookupsSkipExactly(m: map<string, Entity>, ids: seq<string>)
    ensures |Lookups(m, ids)| == |Held(m, ids, |ids|)|
    ensures forall i: nat :: i < |ids| && ids[i] in m ==>
      |Held(m, ids, i)| < |Lookups(m, ids)| && Lookups(m, ids)[|Held(m, ids, i)|] == m[ids[i]]
  {
    if ids == [] {
      assert Held(m, ids, 0) == {};
    } else {
      var n := |ids| - 1;
      var found := Lookups(m, ids[..n]);
      LookupsSkipExactly(m, ids[..n]);
      HeldNext(m, ids, n);
      HeldInInit(m, ids, n);
      assert Lookups(m, ids) == found + (if ids[n] in m then [m[ids[n]]] else []);
      hide Held, Lookups;
      forall i: nat | i < |ids| && ids[i] in m
        ensures |Held(m, ids, i)| < |Lookups(m, ids)| && Lookups(m, ids)[|Held(m, ids, i)|] == m[ids[i]]
      {
        HeldInInit(m, ids, i);
        if i < n { assert ids[..n][i] == ids[i]; }
      }
    }
  }

  lemma NoLookups(m: map<string, Entity>)
    ensures Lookups(m, []) == []
  {
  }

  lemma {:induction false} ListedPagesMeaning(m: map<string, Entity>, limit: nat, count: nat)
    ensures ListedPages(m, limit, count) == Lookups(m, Pages(Ascending(m.Keys), limit, count))
  {
    hide Slice, Lookups, Ascending;
    var ids := Ascending(m.Keys);
    if count == 0 {
      NoLookups(m);
    } else {
      var from := (count - 1) * limit;
      ListedPagesMeaning(m, limit, count - 1);
      LookupsConcat(m, Pages(ids, limit, count - 1), Slice(ids, from, from + limit));
    }
  }

  /**
   * With a page size above zero, the pages one after the other are every
   * entity exactly once, in the order of the ids.
   */
  lemma PagesListEverything(m: map<string, Entity>, limit: nat, count: nat)
    requires limit > 0 && count * limit >= |m|
    ensures var ids := Ascending(m.Keys); var all := ListedPages(m, limit, count);
      |all| == |ids| == |m| && forall i :: 0 <= i < |ids| ==> all[i] == m[ids[i]]
  {
    var ids := Ascending(m.Keys);
    AscendingSize(ids);
    assert |m| == |m.Keys|;
    ListedPagesMeaning(m, limit, count);
    PagesAreEverything(ids, limit, count);
    assert forall id :: id in ids ==> id in Elements(ids);
    LookupsAll(m, ids);
  }
}

/** The repository class, on a keyspace that it shares with others. */
module RedisRepositoryModel {
  import opened RedisProtocol
  import opened RedisOrder
  import opened RedisListing
  import opened Slicing

  /** Prefixing keeps the order. */
  lemma PrefixedAscends(p: string, ids: seq<string>)
    requires Ascends(ids)
    ensures Ascends(Prefixed(p, ids))
  {
    var want := Prefixed(p, ids);
    forall i, j | 0 <= i < j < |want| ensures Leq(want[i], want[j]) && want[i] != want[j] {
      LeqPrefix(p, ids[i], ids[j]);
      assert want[i][|p|..] == ids[i] && want[j][|p|..] == ids[j];
    }
  }

  lemma PrefixedKeys(ks: Keyspace, prefix: string, ids: seq<string>)
    requires Elements(ids) == View(ks, prefix).Keys
    ensures Elements(Prefixed(prefix + ":", ids)) == set key | key in ks && Belongs(prefix, key)
  {
    var want := Prefixed(prefix + ":", ids);
    KeyAndId(prefix);
    hide View;
    forall key ensures key in want <==> key in ks && Belongs(prefix, key) {
      if key in want {
        var i :| 0 <= i < |want| && want[i] == key;
        assert ids[i] in Elements(ids);
        ViewLookup(ks, prefix, ids[i]);
        assert key == MakeKey(prefix, ids[i]);
      }
      if key in ks && Belongs(prefix, key) {
        var id := IdOf(prefix, key);
        ViewLookup(ks, prefix, id);
        assert id in Elements(ids);
        var i :| 0 <= i < |ids| && ids[i] == id;
        assert want[i] == key;
      }
    }
  }

  /** The sorted keys under a prefix are its ids in order, prefixed. */
  lemma KeysInOrder(ks: Keyspace, prefix: string, keys: seq<string>)
    requires NoRepeats(keys) && Elements(keys) == (set key | key in ks && Belongs(prefix, key))
    ensures Sort(keys) == Prefixed(prefix + ":", Ascending(View(ks, prefix).Keys))
    ensures |keys| == |View(ks, prefix)|
  {
    hide View;
    var ids := Ascending(View(ks, prefix).Keys);
    var want := Prefixed(prefix + ":", ids);
    SortAscends(keys);
    PrefixedAscends(prefix + ":", ids);
    PrefixedKeys(ks, prefix, ids);
    OneOrder(Sort(keys), want);
    AscendingSize(ids);
    SortSize(keys);
    assert |View(ks, prefix)| == |View(ks, prefix).Keys|;
  }

  lemma {:induction false} SortSize(s: seq<string>)
    ensures |Sort(s)| == |s|
  {
    if s != [] {
      SortSize(s[..|s| - 1]);
      InsertSize(Sort(s[..|s| - 1]), s[|s| - 1]);
    }
  }

  lemma {:induction false} InsertSize(s: seq<string>, x: string)
    ensures |Insert(s, x)| == |s| + 1
  {
    if s != [] && !Leq(x, s[0]) {
      InsertSize(s[1..], x);
    }
  }

  /** The server and its driver. */
  class Redis {
    var keys: Keyspace

    constructor ()
      ensures keys == map[]
    {
      keys := map[];
    }

    /** `GET`; the reply counts only when it arrives in time. */
    method Get(key: string, fate: Fate) returns (failed: bool, present: bool, value: Entity)
      ensures failed <==> fate != Answered
      ensures !failed ==> (present <==> key in keys) && (present ==> value == keys[key])
    {
      failed, present, value := fate != Answered, key in keys, Entity("", 0);
      if present {
        value := keys[key];
      }
    }

    /** `SET key value NX` or `XX`. */
    method Set(key: string, value: Entity, nx: bool, fate: Fate) returns (failed: bool, ok: bool)
      modifies this
      ensures failed <==> fate != Answered
      ensures ok <==> nx == (key !in old(keys))
      ensures keys == if ok && fate != Lost then old(keys)[key := value] else old(keys)
    {
      failed, ok := fate != Answered, nx == (key !in keys);
      if ok && fate != Lost {
        keys := keys[key := value];
      }
    }

    method Delete(key: string, fate: Fate) returns (failed: bool, deleted: nat)
      modifies this
      ensures failed <==> fate != Answered
      ensures deleted == if key in old(keys) then 1 else 0
      ensures keys == if fate != Lost then old(keys) - {key} else old(keys)
    {
      failed, deleted := fate != Answered, if key in keys then 1 else 0;
      if fate != Lost {
        keys := keys - {key};
      }
    }
  }

  class RedisRepository {
    const prefix: string
    const redis: Redis

    constructor (prefix: string, redis: Redis)
      ensures this.prefix == prefix && this.redis == redis
    {
      this.prefix, this.redis := prefix, redis;
    }

    method Get(id: string, fate: Fate) returns (r: Reply)
      ensures r == Answer(redis.keys, Call.Get(prefix, id), fate)
    {
      var failed, present, value := redis.Get(MakeKey(prefix, id), fate);
      r := if failed then Failed else if present then Found(value) else Nothing;
    }

    method Create(entity: Entity, fate: Fate) returns (r: Reply)
      modifies redis
      ensures redis.keys == Step(old(redis.keys), Called(Call.Create(prefix, entity), fate))
      ensures r == Answer(old(redis.keys), Call.Create(prefix, entity), fate)
    {
      if entity.id == "" {
        return Rejected;
      }
      var failed, setOk := redis.Set(MakeKey(prefix, entity.id), entity, true, fate);
      r := if failed then Failed else if !setOk then Rejected else Found(entity);
    }

    method Update(entity: Entity, fate: Fate) returns (r: Reply)
      modifies redis
      ensures redis.keys == Step(old(redis.keys), Called(Call.Update(prefix, entity), fate))
      ensures r == Answer(old(redis.keys), Call.Update(prefix, entity), fate)
    {
      var failed, setOk := redis.Set(MakeKey(prefix, entity.id), entity, false, fate);
      r := if failed then Failed else if !setOk then Nothing else Found(entity);
    }

    method Delete(id: string, fate: Fate) returns (r: Reply)
      modifies redis
      ensures redis.keys == Step(old(redis.keys), Called(Call.Delete(prefix, id), fate))
      ensures r == Answer(old(redis.keys), Call.Delete(prefix, id), fate)
    {
      var failed, deleted := redis.Delete(MakeKey(prefix, id), fate);
      r := if failed then Failed else Deleted(deleted > 0);
    }

    /**
     * scan is what SCAN yields, in any order. Between SCAN and MGET the
     * keyspace may become meanwhile. The total and the page's keys come from
     * the first, the entities from the second. When the prefix has no glob
     * characters and SCAN yields every matching key once, these are the
     * repository's own entities in the order of their ids.
     */
    method List(limit: int, offset: int, scan: seq<string>, meanwhile: Keyspace)
      returns (entities: seq<Entity>, total: nat)
      modifies redis
      ensures total == |scan|
      ensures entities == Lookups(meanwhile, Slice(Sort(scan), offset, offset + limit))
      ensures Plain(prefix) && Yields(old(redis.keys), prefix + ":*", scan) ==>
        && total == |View(old(redis.keys), prefix)|
        && entities == Lookups(View(meanwhile, prefix), Page(View(old(redis.keys), prefix), limit, offset))
      ensures redis.keys == old(redis.keys) || redis.keys == meanwhile
    {
      hide View, Page, Sort, Slice, Glob, Plain, Yields;
      var allKeys: seq<string> := [];
      for i := 0 to |scan|
        invariant allKeys == scan[..i]
      {
        allKeys := allKeys + [scan[i]];
      }
      assert scan[..|scan|] == scan;
      total := |allKeys|;
      allKeys := Sort(allKeys);
      var pageKeys := Slice(allKeys, offset, offset + limit);
      if Plain(prefix) && Yields(redis.keys, prefix + ":*", scan) {
        PageKeys(redis.keys, prefix, scan, limit, offset);
        LookupsPrefixed(meanwhile, prefix, Page(View(redis.keys, prefix), limit, offset));
      }
      if pageKeys == [] {
        return [], total;
      }
      redis.keys := meanwhile;
      entities := [];
      for i := 0 to |pageKeys|
        invariant redis.keys == meanwhile
        invariant entities == Lookups(meanwhile, pageKeys[..i])
      {
        assert pageKeys[..i + 1][..i] == pageKeys[..i];
        if pageKeys[i] in redis.keys {
          entities := entities + [redis.keys[pageKeys[i]]];
        }
      }
      assert pageKeys[..|pageKeys|] == pageKeys;
    }
  }

  /** A scan that yields every key that matches the pattern, and each once. */
  predicate Yields(ks: Keyspace, pattern: string, scan: seq<string>) {
    NoRepeats(scan) && Elements(scan) == set key | key in ks && Glob(pattern, key)
  }

  lemma SlicePrefixed(p: string, ids: seq<string>, lo: int, hi: int)
    ensures Slice(Prefixed(p, ids), lo, hi) == Prefixed(p, Slice(ids, lo, hi))
  {
  }

  lemma PageKeys(ks: Keyspace, prefix: string, scan: seq<string>, limit: int, offset: int)
    requires Plain(prefix) && Yields(ks, prefix + ":*", scan)
    ensures Slice(Sort(scan), offset, offset + limit) == Prefixed(prefix + ":", Page(View(ks, prefix), limit, offset))
    ensures |scan| == |View(ks, prefix)|
  {
    hide View, Glob, Plain, Sort, NoRepeats, Slice, Prefixed, Elements;
    MatchingKeys(ks, prefix);
    KeysInOrder(ks, prefix, scan);
    SlicePrefixed(prefix + ":", Ascending(View(ks, prefix).Keys), offset, offset + limit);
  }

  /** Looking prefixed keys up in the keyspace is looking ids up in the repository's map. */
  lemma {:induction false} LookupsPrefixed(ks: Keyspace, prefix: string, ids: seq<string>)
    ensures Lookups(ks, Prefixed(prefix + ":", ids)) == Lookups(View(ks, prefix), ids)
  {
    hide View;
    if ids != [] {
      var n := |ids| - 1;
      LookupsPrefixed(ks, prefix, ids[..n]);
      ViewLookup(ks, prefix, ids[n]);
      assert Prefixed(prefix + ":", ids)[..n] == Prefixed(prefix + ":", ids[..n]);
      assert Prefixed(prefix + ":", ids)[n] == MakeKey(prefix, ids[n]);
    }
  }

  /** The scanned keys are those that belong to the prefix. */
  lemma MatchingKeys(ks: Keyspace, prefix: string)
    requires Plain(prefix)
    ensures (set key | key in ks && Glob(prefix + ":*", key)) == (set key | key in ks && Belongs(prefix, key))
  {
    var p := prefix + ":";
    assert Plain(p);
    assert p + "*" == prefix + ":*";
    forall key | key in ks ensures Glob(prefix + ":*", key) <==> Belongs(prefix, key) {
      GlobIsPrefix(p, key);
    }
  }
}
