/** The shared client caches.

    `get` looks in a module-level dict, awaits the build of a client when the
    key is missing, and stores the client without looking again.  `close`
    either pops the entry and then awaits the client's close, or awaits the
    close and then pops.  A task is suspended at its await; an event is one
    segment of one task, so a run is any sequence of events.
 */
module ClientCache {
  import opened Sets

  datatype Order = PopThenClose | CloseThenPop

  /** A suspended task. */
  datatype Task<S> = Building(settings: S) | Closing(settings: S, client: nat)

  /** What one call of get returned, and whether the client was closed by then. */
  datatype Handout<S> = Handout(settings: S, client: nat, stale: bool)

  datatype State<S, !K> = State(
    cache: map<K, nat>,
    built: seq<S>,        // client c was built from built[c]
    closed: set<nat>,     // clients whose close has begun
    tasks: map<nat, Task<S>>,
    failed: set<nat>,     // clients whose close raised or was cancelled
    replaced: set<nat>,   // clients whose cache entry was overwritten
    dropped: set<nat>,    // clients whose cache entry was popped by another client's close
    abandoned: set<nat>,  // clients made by a get that then failed
    handed: seq<Handout<S>>)

  datatype Event<S> =
    | Get(task: nat, settings: S)
    | BuildReturns(task: nat)
    | BuildFails(task: nat, made: bool)   // made: the client was there before its get failed
    | Close(task: nat, settings: S)
    | CloseReturns(task: nat)
    | CloseFails(task: nat)

  function Init<S, K>(): State<S, K> {
    State(map[], [], {}, map[], {}, {}, {}, {}, [])
  }

  function Hand<S, K>(s: State<S, K>, settings: S, client: nat): State<S, K> {
    s.(handed := s.handed + [Handout(settings, client, client in s.closed)])
  }

  function Store<S, K>(s: State<S, K>, settings: S, k: K): State<S, K> {
    var c := |s.built|;
    Hand(s.(built := s.built + [settings], cache := s.cache[k := c],
            replaced := if k in s.cache then s.replaced + {s.cache[k]} else s.replaced), settings, c)
  }

  /** get raises: a client that it made already is neither stored nor closed. */
  function Abandon<S, K>(s: State<S, K>, settings: S, made: bool): State<S, K> {
    if made then s.(built := s.built + [settings], abandoned := s.abandoned + {|s.built|}) else s
  }

  /** close, after its await: the other order pops the key only now, whatever it holds. */
  function LatePop<S, K>(order: Order, s: State<S, K>, client: nat, k: K): State<S, K> {
    if order.PopThenClose? || k !in s.cache then s
    else s.(cache := s.cache - {k},
            dropped := if s.cache[k] != client then s.dropped + {s.cache[k]} else s.dropped)
  }

  function Step<S, K>(order: Order, keyOf: S -> K, s: State<S, K>, e: Event<S>): State<S, K> {
    match e
    case Get(t, settings) =>
      if t in s.tasks then s
      else if keyOf(settings) in s.cache then Hand(s, settings, s.cache[keyOf(settings)])
      else s.(tasks := s.tasks[t := Building(settings)])
    case BuildReturns(t) =>
      if t !in s.tasks || !s.tasks[t].Building? then s
      else Store(s, s.tasks[t].settings, keyOf(s.tasks[t].settings)).(tasks := s.tasks - {t})
    case BuildFails(t, made) =>
      if t !in s.tasks || !s.tasks[t].Building? then s
      else Abandon(s, s.tasks[t].settings, made).(tasks := s.tasks - {t})
    case Close(t, settings) =>
      var k := keyOf(settings);
      if t in s.tasks || k !in s.cache then s
      else s.(closed := s.closed + {s.cache[k]},
              tasks := s.tasks[t := Closing(settings, s.cache[k])],
              cache := if order.PopThenClose? then s.cache - {k} else s.cache)
    case CloseReturns(t) =>
      if t !in s.tasks || !s.tasks[t].Closing? then s
      else LatePop(order, s, s.tasks[t].client, keyOf(s.tasks[t].settings)).(tasks := s.tasks - {t})
    case CloseFails(t) =>
      if t !in s.tasks || !s.tasks[t].Closing? then s
      else s.(tasks := s.tasks - {t}, failed := s.failed + {s.tasks[t].client})
  }

  function Run<S, K>(order: Order, keyOf: S -> K, s: State<S, K>, events: seq<Event<S>>): State<S, K> {
    if events == [] then s
    else Step(order, keyOf, Run(order, keyOf, s, events[..|events| - 1]), events[|events| - 1])
  }

  lemma RunSplit<S, K>(order: Order, keyOf: S -> K, s: State<S, K>, before: seq<Event<S>>, e: Event<S>)
    ensures Run(order, keyOf, s, before + [e]) == Step(order, keyOf, Run(order, keyOf, s, before), e)
  {
    hide Step;
    assert (before + [e])[..|before|] == before;
  }

  function Cached<S, K>(s: State<S, K>): set<nat> {
    set k | k in s.cache :: s.cache[k]
  }

  // ------------------------------------------------------------------
  // What both orders keep
  // ------------------------------------------------------------------

  /** Every cache entry, suspended close and handout is a client built from
      settings with exactly the key in question. */
  ghost predicate Keyed<S, K>(keyOf: S -> K, s: State<S, K>) {
    && (forall k :: k in s.cache ==> s.cache[k] < |s.built| && keyOf(s.built[s.cache[k]]) == k)
    && (forall t :: t in s.tasks && s.tasks[t].Closing? ==>
          s.tasks[t].client < |s.built| && keyOf(s.built[s.tasks[t].client]) == keyOf(s.tasks[t].settings))
    && (forall c :: c in s.closed ==> c < |s.built|)
    && (forall c :: c in s.replaced ==> c < |s.built|)
    && (forall c :: c in s.dropped ==> c < |s.built|)
    && (forall c :: c in s.abandoned ==> c < |s.built|)
    && (forall i :: 0 <= i < |s.handed| ==>
          s.handed[i].client < |s.built| && keyOf(s.built[s.handed[i].client]) == keyOf(s.handed[i].settings))
  }

  lemma StepKeyed<S, K>(order: Order, keyOf: S -> K, s: State<S, K>, e: Event<S>)
    requires Keyed(keyOf, s)
    ensures Keyed(keyOf, Step(order, keyOf, s, e))
  {
  }

  lemma {:induction false} RunKeyed<S, K>(order: Order, keyOf: S -> K, events: seq<Event<S>>)
    ensures Keyed(keyOf, Run(order, keyOf, Init(), events))
  {
    if events != [] {
      hide Step;
      var n := |events| - 1;
      RunKeyed(order, keyOf, events[..n]);
      StepKeyed(order, keyOf, Run(order, keyOf, Init(), events[..n]), events[n]);
    }
  }

  // ------------------------------------------------------------------
  // Pop, then close
  // ------------------------------------------------------------------

  /** No closed client is cached or was handed out, and every client is in
      exactly one of three places: cached, closed, or overwritten in the cache. */
  ghost predicate Clean<S, K>(s: State<S, K>) {
    && Cached(s) !! s.closed !! s.replaced !! s.abandoned
    && Cached(s) + s.closed + s.replaced + s.abandoned == Upto(|s.built|)
    && (forall i :: 0 <= i < |s.handed| ==> !s.handed[i].stale)
  }

  lemma CachedAfterStore<S, K>(keyOf: S -> K, s: State<S, K>, settings: S)
    requires Keyed(keyOf, s)
    ensures var k := keyOf(settings);
            Cached(Store(s, settings, k)) == Cached(s) - (if k in s.cache then {s.cache[k]} else {}) + {|s.built|}
  {
    var k := keyOf(settings);
    var n := Store(s, settings, k);
    forall x | x in Cached(s) && (k in s.cache ==> x != s.cache[k]) ensures x in Cached(n) {
      var j :| j in s.cache && s.cache[j] == x;
      assert n.cache[j] == x;
    }
    assert n.cache[k] == |s.built|;
  }

  lemma CachedAfterPop<S, K>(keyOf: S -> K, s: State<S, K>, k: K, n: State<S, K>)
    requires Keyed(keyOf, s) && k in s.cache && n.cache == s.cache - {k}
    ensures Cached(n) == Cached(s) - {s.cache[k]}
  {
    forall x | x in Cached(s) - {s.cache[k]} ensures x in Cached(n) {
      var j :| j in s.cache && s.cache[j] == x;
      assert n.cache[j] == x;
    }
  }

  lemma StoreClean<S, K>(keyOf: S -> K, s: State<S, K>, settings: S)
    requires Clean(s) && Keyed(keyOf, s)
    ensures Clean(Store(s, settings, keyOf(settings)))
  {
    var k, c := keyOf(settings), |s.built|;
    var n := Store(s, settings, k);
    assert c !in Cached(s) + s.closed + s.replaced + s.abandoned;
    CachedAfterStore(keyOf, s, settings);
    assert k in s.cache ==> s.cache[k] in Cached(s);
    assert Upto(c + 1) == Upto(c) + {c};
    assert Cached(n) + n.closed + n.replaced + n.abandoned
        == Cached(s) + s.closed + s.replaced + s.abandoned + {c};
  }

  lemma PopClean<S, K>(keyOf: S -> K, s: State<S, K>, t: nat, settings: S)
    requires Clean(s) && Keyed(keyOf, s) && t !in s.tasks && keyOf(settings) in s.cache
    ensures Clean(Step(PopThenClose, keyOf, s, Close(t, settings)))
  {
    var k := keyOf(settings);
    var n := Step(PopThenClose, keyOf, s, Close(t, settings));
    CachedAfterPop(keyOf, s, k, n);
    assert s.cache[k] in Cached(s);
    assert Cached(n) + n.closed + n.replaced + n.abandoned == Cached(s) + s.closed + s.replaced + s.abandoned;
  }

  lemma NextClient<S, K>(s: State<S, K>)
    ensures Upto(|s.built| + 1) == Upto(|s.built|) + {|s.built|}
  {
  }

  lemma StepClean<S, K>(keyOf: S -> K, s: State<S, K>, e: Event<S>)
    requires Clean(s) && Keyed(keyOf, s)
    ensures Clean(Step(PopThenClose, keyOf, s, e))
  {
    var n := Step(PopThenClose, keyOf, s, e);
    match e
    case Get(t, settings) =>
      if t !in s.tasks && keyOf(settings) in s.cache { assert s.cache[keyOf(settings)] in Cached(s); }
      assert Cached(n) == Cached(s);
    case BuildReturns(t) =>
      if t in s.tasks && s.tasks[t].Building? {
        var stored := Store(s, s.tasks[t].settings, keyOf(s.tasks[t].settings));
        StoreClean(keyOf, s, s.tasks[t].settings);
        assert Cached(n) == Cached(stored);
      }
    case Close(t, settings) =>
      if t !in s.tasks && keyOf(settings) in s.cache { PopClean(keyOf, s, t, settings); }
    case BuildFails(t, made) =>
      assert Cached(n) == Cached(s);
      NextClient(s);
    case _ => assert Cached(n) == Cached(s);
  }

  lemma {:induction false} RunClean<S, K>(keyOf: S -> K, events: seq<Event<S>>)
    ensures Clean(Run(PopThenClose, keyOf, Init(), events))
  {
    if events == [] {
      assert Cached(Init<S, K>()) == {};
    } else {
      hide Step, Clean, Keyed;
      var n := |events| - 1;
      RunClean(keyOf, events[..n]);
      RunKeyed(PopThenClose, keyOf, events[..n]);
      StepClean(keyOf, Run(PopThenClose, keyOf, Init(), events[..n]), events[n]);
    }
  }

  /** In every interleaving of gets and closes, whatever fails: the cache holds
      no closed client, each entry was built from settings with exactly that
      key, and no get ever returned a closed client or one built for another
      key. */
  lemma PopThenCloseIsSafe<S, K>(keyOf: S -> K, events: seq<Event<S>>)
    ensures var s := Run(PopThenClose, keyOf, Init(), events);
            && (forall k :: k in s.cache ==>
                  s.cache[k] !in s.closed && s.cache[k] < |s.built| && keyOf(s.built[s.cache[k]]) == k)
            && (forall i :: 0 <= i < |s.handed| ==>
                  && !s.handed[i].stale && s.handed[i].client < |s.built|
                  && keyOf(s.built[s.handed[i].client]) == keyOf(s.handed[i].settings))
  {
    hide Step, Run;
    RunClean(keyOf, events);
    RunKeyed(PopThenClose, keyOf, events);
    var s := Run(PopThenClose, keyOf, Init(), events);
    forall k | k in s.cache ensures s.cache[k] !in s.closed {
      assert s.cache[k] in Cached(s);
    }
  }

  /** What this order does leak: a client that nobody has begun to close is
      uncached exactly when a second build for its key overwrote its entry, or
      the get that made it failed before storing it. */
  lemma LeaksExactly<S, K>(keyOf: S -> K, events: seq<Event<S>>, c: nat)
    ensures var s := Run(PopThenClose, keyOf, Init(), events);
            c < |s.built| && c !in s.closed && c !in Cached(s) <==> c in s.replaced + s.abandoned
  {
    hide Step, Run;
    RunClean(keyOf, events);
    var s := Run(PopThenClose, keyOf, Init(), events);
    assert c in Cached(s) + s.closed + s.replaced + s.abandoned <==> c in Upto(|s.built|);
  }

  /** One get is enough: the client is made and its first request fails. */
  lemma OneGetLeaks<S, K>(order: Order, keyOf: S -> K, settings: S)
    ensures exists events ::
              var s: State<S, K> := Run(order, keyOf, Init(), events);
              |s.built| == 1 && 0 !in s.closed && s.replaced == {} && s.cache == map[]
  {
    hide Run;
    var s0: State<S, K> := Init();
    RunNothing(order, keyOf, s0);
    RunSplit(order, keyOf, s0, [], Get(0, settings));
    RunSplit(order, keyOf, s0, [] + [Get(0, settings)], BuildFails(0, true));
    assert |Run(order, keyOf, s0, [] + [Get(0, settings)] + [BuildFails(0, true)]).built| == 1;
  }

  /** Such a run exists: two gets miss, and the second build overwrites the first. */
  lemma TwoGetsLeak<S, K>(keyOf: S -> K, settings: S)
    ensures exists events ::
              var s: State<S, K> := Run(PopThenClose, keyOf, Init(), events);
              |s.built| == 2 && 0 !in s.closed && 0 !in Cached(s)
  {
    hide Run;
    var s0: State<S, K> := Init();
    RunNothing(PopThenClose, keyOf, s0);
    RunSplit(PopThenClose, keyOf, s0, [], Get(0, settings));
    RunSplit(PopThenClose, keyOf, s0, [] + [Get(0, settings)], Get(1, settings));
    var es := [] + [Get(0, settings)] + [Get(1, settings)];
    RunSplit(PopThenClose, keyOf, s0, es, BuildReturns(0));
    RunSplit(PopThenClose, keyOf, s0, es + [BuildReturns(0)], BuildReturns(1));
    var s := Run(PopThenClose, keyOf, s0, es + [BuildReturns(0)] + [BuildReturns(1)]);
    assert s.cache == map[keyOf(settings) := 1];
    assert |s.built| == 2;
  }

  // ------------------------------------------------------------------
  // Close, then pop
  // ------------------------------------------------------------------

  predicate BeingClosed<S, K>(s: State<S, K>, c: nat) {
    exists t :: t in s.tasks && s.tasks[t].Closing? && s.tasks[t].client == c
  }

  /** A closed client stays cached only under a close that is still suspended
      or that failed. */
  ghost predicate StaleExplained<S, K>(s: State<S, K>) {
    && (forall k :: k in s.cache && s.cache[k] in s.closed ==> BeingClosed(s, s.cache[k]) || s.cache[k] in s.failed)
    && (forall t :: t in s.tasks && s.tasks[t].Closing? ==> s.tasks[t].client in s.closed)
    && (forall c :: c in s.failed ==> c in s.closed)
  }

  lemma StepStale<S, K>(keyOf: S -> K, s: State<S, K>, e: Event<S>)
    requires Keyed(keyOf, s) && StaleExplained(s)
    ensures StaleExplained(Step(CloseThenPop, keyOf, s, e))
  {
    var n := Step(CloseThenPop, keyOf, s, e);
    forall k | k in n.cache && n.cache[k] in n.closed
      ensures BeingClosed(n, n.cache[k]) || n.cache[k] in n.failed
    {
      var c := n.cache[k];
      if c in s.closed {
        assert k in s.cache && s.cache[k] == c;
        if BeingClosed(s, c) {
          var t :| t in s.tasks && s.tasks[t].Closing? && s.tasks[t].client == c;
          if t in n.tasks {
            assert n.tasks[t] == s.tasks[t];
          } else {
            assert keyOf(s.tasks[t].settings) == k;
          }
        }
      } else {
        assert e.Close? && n.tasks[e.task] == Closing(e.settings, c);
      }
    }
  }

  lemma {:induction false} RunStale<S, K>(keyOf: S -> K, events: seq<Event<S>>)
    ensures StaleExplained(Run(CloseThenPop, keyOf, Init(), events))
  {
    if events != [] {
      hide Step, StaleExplained, Keyed;
      var n := |events| - 1;
      RunStale(keyOf, events[..n]);
      RunKeyed(CloseThenPop, keyOf, events[..n]);
      StepStale(keyOf, Run(CloseThenPop, keyOf, Init(), events[..n]), events[n]);
    }
  }

  /** The exact condition under which the other order goes wrong: a cached
      client is closed if and only if a close of it is still suspended or
      failed.  A get that hits the cache then returns a closed client. */
  lemma CloseThenPopStaleExactly<S, K>(keyOf: S -> K, events: seq<Event<S>>, k: K)
    requires k in Run(CloseThenPop, keyOf, Init(), events).cache
    ensures var s := Run(CloseThenPop, keyOf, Init(), events);
            s.cache[k] in s.closed <==> BeingClosed(s, s.cache[k]) || s.cache[k] in s.failed
  {
    hide Step, Run;
    RunStale(keyOf, events);
  }

  /** The pop of close t takes c, which is open, out of the cache. */
  predicate DropsOpen<S, K>(keyOf: S -> K, s: State<S, K>, t: nat, c: nat) {
    c < |s.built| && c !in s.closed && c in Cached(s) && c !in Cached(Step(CloseThenPop, keyOf, s, CloseReturns(t)))
  }

  /** The key holds another client than the one being closed, and nobody has begun to close that one. */
  predicate HoldsAnother<S, K>(keyOf: S -> K, s: State<S, K>, t: nat)
    requires t in s.tasks && s.tasks[t].Closing?
  {
    var k := keyOf(s.tasks[t].settings);
    k in s.cache && s.cache[k] != s.tasks[t].client && !BeingClosed(s, s.cache[k]) && s.cache[k] !in s.failed
  }

  /** In every run and for every suspended close: its late pop drops an open
      client exactly when the key meanwhile holds another client that nobody
      has begun to close; and then it is that client. */
  lemma LatePopDropsExactly<S, K>(keyOf: S -> K, events: seq<Event<S>>, t: nat)
    requires var s := Run(CloseThenPop, keyOf, Init(), events); t in s.tasks && s.tasks[t].Closing?
    ensures var s := Run(CloseThenPop, keyOf, Init(), events);
            (exists c :: DropsOpen(keyOf, s, t, c)) <==> HoldsAnother(keyOf, s, t)
    ensures var s := Run(CloseThenPop, keyOf, Init(), events);
            forall c :: DropsOpen(keyOf, s, t, c) ==> c == s.cache[keyOf(s.tasks[t].settings)]
  {
    hide Run;
    RunStale(keyOf, events);
    RunKeyed(CloseThenPop, keyOf, events);
    var s := Run(CloseThenPop, keyOf, Init(), events);
    var n, k := Step(CloseThenPop, keyOf, s, CloseReturns(t)), keyOf(s.tasks[t].settings);
    if k in s.cache {
      CachedAfterPop(keyOf, s, k, n);
    } else {
      assert Cached(n) == Cached(s);
    }
    assert forall c :: DropsOpen(keyOf, s, t, c) ==> k in s.cache && c == s.cache[k];
    if HoldsAnother(keyOf, s, t) {
      assert s.cache[k] in Cached(s);
      assert DropsOpen(keyOf, s, t, s.cache[k]);
    }
  }

  /** Every client is cached, closed, overwritten, dropped by a late pop or
      abandoned, and what is none of the first two is never cached again. */
  ghost predicate Accounted<S, K>(s: State<S, K>) {
    && Cached(s) + s.closed !! s.abandoned && Cached(s) !! s.replaced + s.dropped
    && Cached(s) + s.closed + s.replaced + s.dropped + s.abandoned == Upto(|s.built|)
  }

  lemma StoreAccounted<S, K>(keyOf: S -> K, s: State<S, K>, settings: S)
    requires Accounted(s) && Keyed(keyOf, s)
    ensures Accounted(Store(s, settings, keyOf(settings)))
  {
    var k, c := keyOf(settings), |s.built|;
    var n := Store(s, settings, k);
    assert c !in Cached(s) + s.closed + s.replaced + s.dropped + s.abandoned;
    CachedAfterStore(keyOf, s, settings);
    assert Upto(c + 1) == Upto(c) + {c};
    assert k in s.cache ==> s.cache[k] in Cached(s);
    assert Cached(n) + n.closed + n.replaced + n.dropped + n.abandoned
        == Cached(s) + s.closed + s.replaced + s.dropped + s.abandoned + {c};
  }

  lemma PopAccounted<S, K>(keyOf: S -> K, s: State<S, K>, t: nat)
    requires Accounted(s) && Keyed(keyOf, s) && StaleExplained(s) && t in s.tasks && s.tasks[t].Closing?
    ensures Accounted(Step(CloseThenPop, keyOf, s, CloseReturns(t)))
  {
    var k := keyOf(s.tasks[t].settings);
    var n := Step(CloseThenPop, keyOf, s, CloseReturns(t));
    if k in s.cache {
      CachedAfterPop(keyOf, s, k, n);
      assert s.cache[k] in Cached(s);
      assert Cached(n) + n.closed + n.replaced + n.dropped + n.abandoned
          == Cached(s) + s.closed + s.replaced + s.dropped + s.abandoned;
    } else {
      assert Cached(n) == Cached(s);
    }
  }

  lemma StepAccounted<S, K>(keyOf: S -> K, s: State<S, K>, e: Event<S>)
    requires Accounted(s) && Keyed(keyOf, s) && StaleExplained(s)
    ensures Accounted(Step(CloseThenPop, keyOf, s, e))
  {
    var n := Step(CloseThenPop, keyOf, s, e);
    match e
    case BuildReturns(t) =>
      if t in s.tasks && s.tasks[t].Building? {
        var stored := Store(s, s.tasks[t].settings, keyOf(s.tasks[t].settings));
        StoreAccounted(keyOf, s, s.tasks[t].settings);
        assert Cached(n) == Cached(stored);
      }
    case CloseReturns(t) => if t in s.tasks && s.tasks[t].Closing? { PopAccounted(keyOf, s, t); }
    case Close(t, settings) =>
      if t !in s.tasks && keyOf(settings) in s.cache { assert s.cache[keyOf(settings)] in Cached(s); }
      assert Cached(n) == Cached(s);
    case BuildFails(t, made) =>
      assert Cached(n) == Cached(s);
      NextClient(s);
    case _ => assert Cached(n) == Cached(s);
  }

  lemma {:induction false} RunAccounted<S, K>(keyOf: S -> K, events: seq<Event<S>>)
    ensures Accounted(Run(CloseThenPop, keyOf, Init(), events))
  {
    if events == [] {
      assert Cached(Init<S, K>()) == {};
    } else {
      hide Step, Accounted, StaleExplained, Keyed;
      var n := |events| - 1;
      RunAccounted(keyOf, events[..n]);
      RunKeyed(CloseThenPop, keyOf, events[..n]);
      RunStale(keyOf, events[..n]);
      StepAccounted(keyOf, Run(CloseThenPop, keyOf, Init(), events[..n]), events[n]);
    }
  }

  /** What this order leaks: a client that nobody has begun to close is
      uncached exactly when its entry was overwritten by a second build or
      dropped by a late pop, with no close of it begun by then, or the get that
      made it failed. */
  lemma LateLeaksExactly<S, K>(keyOf: S -> K, events: seq<Event<S>>, c: nat)
    ensures var s := Run(CloseThenPop, keyOf, Init(), events);
            c < |s.built| && c !in s.closed && c !in Cached(s)
            <==> c in s.replaced + s.dropped + s.abandoned && c !in s.closed
  {
    hide Step, Run;
    RunAccounted(keyOf, events);
    var s := Run(CloseThenPop, keyOf, Init(), events);
    assert c in Cached(s) + s.closed + s.replaced + s.dropped + s.abandoned <==> c in Upto(|s.built|);
  }

  /** Such a run exists: a get that lands while the close is suspended. */
  lemma GetDuringCloseIsStale<S, K>(keyOf: S -> K, settings: S)
    ensures exists events ::
              var s: State<S, K> := Run(CloseThenPop, keyOf, Init(), events);
              s.handed != [] && s.handed[|s.handed| - 1] == Handout(settings, 0, true)
  {
    hide Run;
    var s0: State<S, K> := Init();
    RunNothing(CloseThenPop, keyOf, s0);
    RunSplit(CloseThenPop, keyOf, s0, [], Get(0, settings));
    RunSplit(CloseThenPop, keyOf, s0, [] + [Get(0, settings)], BuildReturns(0));
    RunSplit(CloseThenPop, keyOf, s0, [] + [Get(0, settings)] + [BuildReturns(0)], Close(1, settings));
    var es := [] + [Get(0, settings)] + [BuildReturns(0)] + [Close(1, settings)];
    RunSplit(CloseThenPop, keyOf, s0, es, Get(2, settings));
    assert Run(CloseThenPop, keyOf, s0, es + [Get(2, settings)]).handed[1] == Handout(settings, 0, true);
  }

  lemma RunNothing<S, K>(order: Order, keyOf: S -> K, s: State<S, K>)
    ensures Run(order, keyOf, s, []) == s
  {
  }

  /** Closing by key after the await can also drop a client that was never
      closed: one stored by a slower build in the meantime. */
  lemma ClosePopsAnotherClient<S, K>(keyOf: S -> K, settings: S)
    ensures exists events ::
              var s: State<S, K> := Run(CloseThenPop, keyOf, Init(), events);
              |s.built| == 2 && 1 in s.dropped && 1 !in s.closed && keyOf(settings) !in s.cache
  {
    hide Run;
    var s0: State<S, K> := Init();
    RunNothing(CloseThenPop, keyOf, s0);
    RunSplit(CloseThenPop, keyOf, s0, [], Get(0, settings));
    RunSplit(CloseThenPop, keyOf, s0, [] + [Get(0, settings)], Get(1, settings));
    RunSplit(CloseThenPop, keyOf, s0, [] + [Get(0, settings)] + [Get(1, settings)], BuildReturns(0));
    var es := [] + [Get(0, settings)] + [Get(1, settings)] + [BuildReturns(0)];
    RunSplit(CloseThenPop, keyOf, s0, es, Close(2, settings));
    RunSplit(CloseThenPop, keyOf, s0, es + [Close(2, settings)], BuildReturns(1));
    RunSplit(CloseThenPop, keyOf, s0, es + [Close(2, settings)] + [BuildReturns(1)], CloseReturns(2));
    var s := Run(CloseThenPop, keyOf, s0, es + [Close(2, settings)] + [BuildReturns(1)] + [CloseReturns(2)]);
    assert |s.built| == 2;
  }

  // ------------------------------------------------------------------
  // What one call does, whatever else is going on
  // ------------------------------------------------------------------

  /** In every run a get of a cached key returns the cached client at once.
      One that misses suspends; when its build returns, the client it made is
      new, open, cached under the key and returned, and when the build fails
      nothing is cached or returned. */
  lemma GetServes<S, K>(order: Order, keyOf: S -> K, events: seq<Event<S>>, t: nat, settings: S, made: bool)
    requires t !in Run(order, keyOf, Init(), events).tasks
    ensures var s := Run(order, keyOf, Init(), events);
            var k, n, c := keyOf(settings), Step(order, keyOf, s, Get(t, settings)), |s.built|;
            if k in s.cache then
              n == s.(handed := s.handed + [Handout(settings, s.cache[k], s.cache[k] in s.closed)])
            else
              && n == s.(tasks := s.tasks[t := Building(settings)])
              && var b := Step(order, keyOf, n, BuildReturns(t));
              && b.built == s.built + [settings] && c !in b.closed && b.closed == s.closed
              && b.cache == s.cache[k := c] && b.handed == s.handed + [Handout(settings, c, false)]
              && b.tasks == s.tasks
              && var f := Step(order, keyOf, n, BuildFails(t, made));
              && f.cache == s.cache && f.handed == s.handed && f.tasks == s.tasks && f.closed == s.closed
              && f.built == s.built + (if made then [settings] else [])
  {
    hide Run;
    RunKeyed(order, keyOf, events);
  }

  /** In every run a build that was suspended while others went on stores and
      returns its own client, over whatever the key holds by then. */
  lemma LateBuildStores<S, K>(order: Order, keyOf: S -> K, events: seq<Event<S>>, t: nat)
    requires var s := Run(order, keyOf, Init(), events); t in s.tasks && s.tasks[t].Building?
    ensures var s := Run(order, keyOf, Init(), events);
            var settings, c, n := s.tasks[t].settings, |s.built|, Step(order, keyOf, s, BuildReturns(t));
            && n.built == s.built + [settings] && n.cache == s.cache[keyOf(settings) := c] && t !in n.tasks
            && n.handed == s.handed + [Handout(settings, c, false)] && c !in n.closed && n.closed == s.closed
  {
    hide Run;
    RunKeyed(order, keyOf, events);
  }

  /** Pop, then close: in every run a close of a cached key takes effect at
      once.  The client is closed, its entry and no other is gone, and a get
      that follows misses and in the end returns a new, open client; the end of
      the close, or its failure, no longer touches the cache. */
  lemma PopThenCloseTakesEffect<S, K>(keyOf: S -> K, events: seq<Event<S>>, t: nat, u: nat, settings: S)
    requires var s := Run(PopThenClose, keyOf, Init(), events);
             keyOf(settings) in s.cache && t !in s.tasks && u !in s.tasks && t != u
    ensures var s := Run(PopThenClose, keyOf, Init(), events);
            var k := keyOf(settings);
            var n := Step(PopThenClose, keyOf, s, Close(t, settings));
            var again := Step(PopThenClose, keyOf, n, Get(u, settings));
            var served := Step(PopThenClose, keyOf, again, BuildReturns(u));
            && s.cache[k] !in s.closed && n.closed == s.closed + {s.cache[k]}
            && n.cache == s.cache - {k} && n.tasks.Keys == s.tasks.Keys + {t}
            && again.handed == s.handed && u in again.tasks
            && served.handed == s.handed + [Handout(settings, |s.built|, false)]
            && served.cache == s.cache[k := |s.built|]
    ensures var s := Run(PopThenClose, keyOf, Init(), events);
            var n := Step(PopThenClose, keyOf, s, Close(t, settings));
            var ended := Step(PopThenClose, keyOf, n, CloseReturns(t));
            var failed := Step(PopThenClose, keyOf, n, CloseFails(t));
            && ended.cache == failed.cache == s.cache - {keyOf(settings)}
            && ended.tasks == failed.tasks == s.tasks && ended.closed == failed.closed == n.closed
  {
    hide Run;
    RunKeyed(PopThenClose, keyOf, events);
    PopThenCloseIsSafe(keyOf, events);
  }

  /** Close, then pop: the client is closed at once, but its entry stays until
      the close returns, and a get that lands before gets the closed client.
      When the close returns the entry is gone; when it fails the entry stays. */
  lemma CloseThenPopTakesEffect<S, K>(keyOf: S -> K, events: seq<Event<S>>, t: nat, u: nat, settings: S)
    requires var s := Run(CloseThenPop, keyOf, Init(), events);
             keyOf(settings) in s.cache && t !in s.tasks && u !in s.tasks && t != u
    ensures var s := Run(CloseThenPop, keyOf, Init(), events);
            var k := keyOf(settings);
            var n := Step(CloseThenPop, keyOf, s, Close(t, settings));
            var again := Step(CloseThenPop, keyOf, n, Get(u, settings));
            && n.closed == s.closed + {s.cache[k]} && n.cache == s.cache && n.tasks.Keys == s.tasks.Keys + {t}
            && again.handed == s.handed + [Handout(settings, s.cache[k], true)]
    ensures var s := Run(CloseThenPop, keyOf, Init(), events);
            var n := Step(CloseThenPop, keyOf, s, Close(t, settings));
            var ended := Step(CloseThenPop, keyOf, n, CloseReturns(t));
            var failed := Step(CloseThenPop, keyOf, n, CloseFails(t));
            && ended.cache == s.cache - {keyOf(settings)} && failed.cache == s.cache
            && ended.tasks == failed.tasks == s.tasks && ended.closed == failed.closed == n.closed
            && failed.failed == s.failed + {s.cache[keyOf(settings)]} && ended.dropped == s.dropped
  {
  }

  /** A close of a key that is not cached is over at once and does nothing. */
  lemma CloseOfNothing<S, K>(order: Order, keyOf: S -> K, s: State<S, K>, t: nat, settings: S)
    requires keyOf(settings) !in s.cache
    ensures Step(order, keyOf, s, Close(t, settings)) == s
  {
  }
}

/** The module-level dict and its two coroutines, one method per segment. */
module ClientCacheModel {
  import opened ClientCache

  class AsyncCache<S, K(==)> {
    const order: Order
    const keyOf: S -> K
    var cache: map<K, nat>
    var tasks: map<nat, Task<S>>
    var built: seq<S>
    ghost var closed: set<nat>
    ghost var failed: set<nat>
    ghost var replaced: set<nat>
    ghost var dropped: set<nat>
    ghost var abandoned: set<nat>
    ghost var handed: seq<Handout<S>>

    ghost function View(): State<S, K>
      reads this
    {
      State(cache, built, closed, tasks, failed, replaced, dropped, abandoned, handed)
    }

    constructor (order: Order, keyOf: S -> K)
      ensures View() == Init() && this.order == order && this.keyOf == keyOf
    {
      this.order, this.keyOf := order, keyOf;
      cache, tasks, built := map[], map[], [];
      closed, failed, replaced, dropped, abandoned, handed := {}, {}, {}, {}, {}, [];
    }

    /** get, up to its await; a hit needs none. */
    method Get(t: nat, settings: S) returns (hit: bool, client: nat)
      requires t !in tasks
      modifies this
      ensures View() == Step(order, keyOf, old(View()), Event.Get(t, settings))
      ensures hit <==> keyOf(settings) in old(cache)
      ensures hit ==> keyOf(settings) in cache && client == cache[keyOf(settings)]
    {
      var key := keyOf(settings);
      if key in cache {
        handed := handed + [Handout(settings, cache[key], cache[key] in closed)];
        return true, cache[key];
      }
      tasks := tasks[t := Building(settings)];
      return false, 0;
    }

    /** get, when the client it awaited is ready. */
    method BuildReturned(t: nat) returns (client: nat)
      requires t in tasks && tasks[t].Building?
      modifies this
      ensures View() == Step(order, keyOf, old(View()), BuildReturns(t))
      ensures keyOf(old(tasks[t].settings)) in cache && client == cache[keyOf(old(tasks[t].settings))]
    {
      var settings := tasks[t].settings;
      var key := keyOf(settings);
      client := |built|;
      built, tasks := built + [settings], tasks - {t};
      if key in cache { replaced := replaced + {cache[key]}; }
      cache := cache[key := client];
      handed := handed + [Handout(settings, client, client in closed)];
    }

    /** get, when its await raised: the cache is left alone, and a client that
        was made before is forgotten without being closed. */
    method BuildFailed(t: nat, made: bool)
      requires t in tasks && tasks[t].Building?
      modifies this
      ensures View() == Step(order, keyOf, old(View()), BuildFails(t, made)) && cache == old(cache)
    {
      if made {
        abandoned := abandoned + {|built|};
        built := built + [tasks[t].settings];
      }
      tasks := tasks - {t};
    }

    /** close, up to its await. */
    method Close(t: nat, settings: S) returns (waits: bool)
      requires t !in tasks
      modifies this
      ensures View() == Step(order, keyOf, old(View()), Event.Close(t, settings))
      ensures waits <==> t in tasks
    {
      var key := keyOf(settings);
      if key !in cache { return false; }
      var client := cache[key];
      if order.PopThenClose? { cache := cache - {key}; }
      closed, tasks := closed + {client}, tasks[t := Closing(settings, client)];
      return true;
    }

    /** close, after its await. */
    method CloseReturned(t: nat)
      requires t in tasks && tasks[t].Closing?
      modifies this
      ensures View() == Step(order, keyOf, old(View()), CloseReturns(t))
    {
      var key, client := keyOf(tasks[t].settings), tasks[t].client;
      tasks := tasks - {t};
      if order.CloseThenPop? && key in cache {
        if cache[key] != client { dropped := dropped + {cache[key]}; }
        cache := cache - {key};
      }
    }

    /** close, when closing the client raised. */
    method CloseFailed(t: nat)
      requires t in tasks && tasks[t].Closing?
      modifies this
      ensures View() == Step(order, keyOf, old(View()), CloseFails(t)) && cache == old(cache)
    {
      failed, tasks := failed + {tasks[t].client}, tasks - {t};
    }

    /** One turn of the event loop; an event that no task waits for does nothing. */
    method Turn(e: Event<S>)
      modifies this
      ensures View() == Step(order, keyOf, old(View()), e)
    {
      match e
      case Get(t, settings) =>
        if t !in tasks { var _, _ := Get(t, settings); }
      case BuildReturns(t) =>
        if t in tasks && tasks[t].Building? { var _ := BuildReturned(t); }
      case BuildFails(t, made) =>
        if t in tasks && tasks[t].Building? { BuildFailed(t, made); }
      case Close(t, settings) =>
        if t !in tasks { var _ := Close(t, settings); }
      case CloseReturns(t) =>
        if t in tasks && tasks[t].Closing? { CloseReturned(t); }
      case CloseFails(t) =>
        if t in tasks && tasks[t].Closing? { CloseFailed(t); }
    }

    /** Any interleaving of gets and closes leaves the state machine's state. */
    method Loop(script: seq<Event<S>>)
      modifies this
      ensures View() == Run(order, keyOf, old(View()), script)
    {
      hide Step;
      assert script[..|script|] == script;
      for n := 0 to |script|
        invariant View() == Run(order, keyOf, old(View()), script[..n])
      {
        Turn(script[n]);
        assert script[..n + 1] == script[..n] + [script[n]];
        RunSplit(order, keyOf, old(View()), script[..n], script[n]);
      }
    }
  }
}

/** The settings that enter each cache key, and those that enter the driver call. */
module ConnectionKeys {
  import opened ClientCache
  import opened Text

  // --- Redis ---

  datatype RedisSettings = RedisSettings(
    url: string, maxConnections: int, socketTimeout: real, socketConnectTimeout: real,
    keyPrefix: string, defaultTtl: int, operationTimeout: real, connectionTimeout: real)

  datatype RedisKey = RedisKey(url: string, pool: (int, real, real))

  function RedisCacheKey(s: RedisSettings): RedisKey {
    RedisKey(s.url, (s.maxConnections, s.socketTimeout, s.socketConnectTimeout))
  }

  /** The arguments of `ConnectionPool.from_url`. */
  datatype RedisConnect = RedisConnect(
    url: string, maxConnections: int, socketTimeout: real, socketConnectTimeout: real, decodeResponses: bool)

  function RedisConnectArgs(s: RedisSettings): RedisConnect {
    RedisConnect(s.url, s.maxConnections, s.socketTimeout, s.socketConnectTimeout, true)
  }

  /** Two settings share a client exactly when their pools would be equal: the
      prefix, the TTL and the timeouts of one call do not matter. */
  lemma RedisKeyIsExact(a: RedisSettings, b: RedisSettings)
    ensures RedisCacheKey(a) == RedisCacheKey(b) <==> RedisConnectArgs(a) == RedisConnectArgs(b)
  {
  }

  /** In every interleaving, the client a get returns was opened with the
      caller's own connect arguments and is not closed. */
  lemma RedisServesOwnSettings(events: seq<Event<RedisSettings>>, i: nat)
    requires i < |Run(PopThenClose, RedisCacheKey, Init(), events).handed|
    ensures var s := Run(PopThenClose, RedisCacheKey, Init(), events);
            var h := s.handed[i];
            h.client < |s.built| && !h.stale && RedisConnectArgs(s.built[h.client]) == RedisConnectArgs(h.settings)
  {
    hide Step, Run;
    PopThenCloseIsSafe(RedisCacheKey, events);
    var s := Run(PopThenClose, RedisCacheKey, Init(), events);
    assert RedisCacheKey(s.built[s.handed[i].client]) == RedisCacheKey(s.handed[i].settings);
  }

  // --- DynamoDB ---

  datatype DynamoSettings = DynamoSettings(
    region: string, endpointUrl: Option<string>, tableName: string,
    accessKeyId: Option<string>, secretAccessKey: Option<string>, sessionToken: Option<string>,
    operationTimeout: real, connectionTimeout: real)

  datatype DynamoKey = DynamoKey(
    region: string, endpointUrl: Option<string>, tableName: string,
    accessKeyId: Option<string>, secretAccessKey: Option<string>, sessionToken: Option<string>)

  function DynamoCacheKey(s: DynamoSettings): DynamoKey {
    DynamoKey(s.region, s.endpointUrl, s.tableName, s.accessKeyId, s.secretAccessKey, s.sessionToken)
  }

  function With(kwargs: map<string, string>, name: string, value: Option<string>): map<string, string> {
    if value.Some? then kwargs[name := value.value] else kwargs
  }

  /** The keyword arguments of `session.resource`: absent settings are left out. */
  function DynamoResourceArgs(s: DynamoSettings): map<string, string> {
    With(With(With(With(map["region_name" := s.region],
      "endpoint_url", s.endpointUrl),
      "aws_access_key_id", s.accessKeyId),
      "aws_secret_access_key", s.secretAccessKey),
      "aws_session_token", s.sessionToken)
  }

  function Lookup(m: map<string, string>, name: string): Option<string> {
    if name in m then Some(m[name]) else None
  }

  lemma DynamoArgsLookup(s: DynamoSettings)
    ensures var m := DynamoResourceArgs(s);
            && Lookup(m, "region_name") == Some(s.region)
            && Lookup(m, "endpoint_url") == s.endpointUrl
            && Lookup(m, "aws_access_key_id") == s.accessKeyId
            && Lookup(m, "aws_secret_access_key") == s.secretAccessKey
            && Lookup(m, "aws_session_token") == s.sessionToken
  {
    assert |"region_name"| != |"endpoint_url"|;
    assert |"aws_access_key_id"| == 17 && |"aws_session_token"| == 17;
    assert "aws_access_key_id"[4] != "aws_session_token"[4];
  }

  /** Two settings share a cache key exactly when they open the same table
      through the same resource arguments. */
  lemma DynamoKeyIsExact(a: DynamoSettings, b: DynamoSettings)
    ensures DynamoCacheKey(a) == DynamoCacheKey(b)
       <==> DynamoResourceArgs(a) == DynamoResourceArgs(b) && a.tableName == b.tableName
  {
    DynamoArgsLookup(a);
    DynamoArgsLookup(b);
  }

  lemma DynamoServesOwnSettings(events: seq<Event<DynamoSettings>>, i: nat)
    requires i < |Run(PopThenClose, DynamoCacheKey, Init(), events).handed|
    ensures var s := Run(PopThenClose, DynamoCacheKey, Init(), events);
            var h := s.handed[i];
            && h.client < |s.built| && !h.stale
            && DynamoResourceArgs(s.built[h.client]) == DynamoResourceArgs(h.settings)
            && s.built[h.client].tableName == h.settings.tableName
  {
    hide Step, Run, DynamoCacheKey, DynamoResourceArgs;
    PopThenCloseIsSafe(DynamoCacheKey, events);
    var s := Run(PopThenClose, DynamoCacheKey, Init(), events);
    DynamoKeyIsExact(s.built[s.handed[i].client], s.handed[i].settings);
  }

  // --- MongoDB ---

  datatype MongoSettings = MongoSettings(
    url: string, minPoolSize: int, maxPoolSize: int, serverSelectionTimeoutMs: int,
    tls: bool, tlsAllowInvalidCerts: bool, database: string, operationTimeout: real)

  datatype MongoKey = MongoKey(url: string, pool: (int, int, int, bool, bool))

  function MongoCacheKey(s: MongoSettings): MongoKey {
    MongoKey(s.url, (s.minPoolSize, s.maxPoolSize, s.serverSelectionTimeoutMs, s.tls, s.tlsAllowInvalidCerts))
  }

  /** The arguments of `AsyncIOMotorClient`; the certificate flag is passed only under TLS. */
  datatype MongoConnect = MongoConnect(
    url: string, serverSelectionTimeoutMs: int, minPoolSize: int, maxPoolSize: int, tls: bool,
    tlsAllowInvalidCertificates: Option<bool>)

  function MongoConnectArgs(s: MongoSettings): MongoConnect {
    MongoConnect(s.url, s.serverSelectionTimeoutMs, s.minPoolSize, s.maxPoolSize, s.tls,
                 if s.tls then Some(s.tlsAllowInvalidCerts) else None)
  }

  /** Two settings share a client exactly when the driver is called alike and
      the certificate flag is the same, even where TLS is off and it is unused. */
  lemma MongoKeyIsExact(a: MongoSettings, b: MongoSettings)
    ensures MongoCacheKey(a) == MongoCacheKey(b)
       <==> MongoConnectArgs(a) == MongoConnectArgs(b) && a.tlsAllowInvalidCerts == b.tlsAllowInvalidCerts
  {
  }
}

/** The MongoDB client cache: neither function has an await, so each call is one step. */
module MongoClientCacheModel {
  import opened ConnectionKeys
  import opened Text

  datatype Call = GetClient(settings: MongoSettings, urlValid: bool) | CloseClient(settings: MongoSettings)

  datatype Clients = Clients(
    cache: map<MongoKey, nat>, built: seq<MongoSettings>, closed: set<nat>)

  function After(c: Clients, call: Call): Clients {
    var k := MongoCacheKey(call.settings);
    match call
    case GetClient(settings, urlValid) =>
      if k in c.cache || !urlValid then c
      else c.(cache := c.cache[k := |c.built|], built := c.built + [settings])
    case CloseClient(_) =>
      if k !in c.cache then c else c.(cache := c.cache - {k}, closed := c.closed + {c.cache[k]})
  }

  function AfterAll(calls: seq<Call>): Clients {
    if calls == [] then Clients(map[], [], {})
    else After(AfterAll(calls[..|calls| - 1]), calls[|calls| - 1])
  }

  predicate IsOpen(c: Clients, client: nat) {
    client < |c.built| && client !in c.closed
  }

  /** The open clients are exactly the cached ones, each under its own key. */
  ghost predicate Matched(c: Clients) {
    && (forall k :: k in c.cache ==> IsOpen(c, c.cache[k]) && MongoCacheKey(c.built[c.cache[k]]) == k)
    && (forall i: nat :: IsOpen(c, i) ==>
          MongoCacheKey(c.built[i]) in c.cache && c.cache[MongoCacheKey(c.built[i])] == i)
    && (forall i :: i in c.closed ==> i < |c.built|)
  }

  lemma {:induction false} AlwaysMatched(calls: seq<Call>)
    ensures Matched(AfterAll(calls))
  {
    if calls != [] {
      hide After, Matched;
      var n := |calls| - 1;
      AlwaysMatched(calls[..n]);
      AfterKeepsMatched(AfterAll(calls[..n]), calls[n]);
    } else {
      assert Matched(AfterAll(calls));
    }
  }

  lemma AfterKeepsMatched(c: Clients, call: Call)
    requires Matched(c)
    ensures Matched(After(c, call))
  {
  }

  /** At most one client is open for one set of connect arguments that share a
      key, and none is open without being cached: nothing leaks. */
  lemma NoLeakNoDuplicate(calls: seq<Call>, i: nat, j: nat)
    requires var c := AfterAll(calls); IsOpen(c, i) && IsOpen(c, j)
    ensures var c := AfterAll(calls);
            && (MongoCacheKey(c.built[i]) == MongoCacheKey(c.built[j]) ==> i == j)
            && (exists k :: k in c.cache && c.cache[k] == i)
  {
    AlwaysMatched(calls);
    var c := AfterAll(calls);
    assert c.cache[MongoCacheKey(c.built[i])] == i;
  }

  /** After any calls, a get with a valid URL leaves an open client cached under
      its key: the one that was there, or else a new one.  A close leaves the
      key without a client and closes the one it had, so that the next get
      makes a new one. */
  lemma GetAndCloseTakeEffect(calls: seq<Call>, settings: MongoSettings)
    ensures var c, k := AfterAll(calls), MongoCacheKey(settings);
            var got := AfterAll(calls + [GetClient(settings, true)]);
            && k in got.cache && IsOpen(got, got.cache[k]) && got.closed == c.closed
            && (if k in c.cache then got == c
                else got.cache == c.cache[k := |c.built|] && got.built == c.built + [settings])
            && (k !in c.cache ==> AfterAll(calls + [GetClient(settings, false)]) == c)
    ensures var c, k := AfterAll(calls), MongoCacheKey(settings);
            var gone := AfterAll(calls + [CloseClient(settings)]);
            var again := AfterAll(calls + [CloseClient(settings)] + [GetClient(settings, true)]);
            && gone.cache == c.cache - {k} && gone.built == c.built
            && gone.closed == c.closed + (if k in c.cache then {c.cache[k]} else {})
            && again.cache == c.cache[k := |c.built|] && again.closed == gone.closed
  {
    hide AfterAll, MongoCacheKey;
    AlwaysMatched(calls);
    CallAppended(calls, GetClient(settings, true));
    CallAppended(calls, GetClient(settings, false));
    CallAppended(calls, CloseClient(settings));
    CallAppended(calls + [CloseClient(settings)], GetClient(settings, true));
  }

  lemma CallAppended(calls: seq<Call>, call: Call)
    ensures AfterAll(calls + [call]) == After(AfterAll(calls), call)
  {
    hide After;
    assert (calls + [call])[..|calls|] == calls;
  }

  /** The module-level dict with the two functions as they run. */
  class MongoClientCache {
    var cache: map<MongoKey, nat>
    var built: seq<MongoSettings>
    ghost var closed: set<nat>

    ghost function View(): Clients
      reads this
    {
      Clients(cache, built, closed)
    }

    constructor ()
      ensures View() == AfterAll([])
    {
      cache, built, closed := map[], [], {};
    }

    /** get_mongo_client: None stands for AdapterConfigurationError. */
    method GetMongoClient(settings: MongoSettings, urlValid: bool) returns (client: Option<nat>)
      requires Matched(View())
      modifies this
      ensures View() == After(old(View()), GetClient(settings, urlValid)) && Matched(View())
      ensures client.None? <==> MongoCacheKey(settings) !in old(cache) && !urlValid
      ensures client.Some? ==>
                IsOpen(View(), client.value) && MongoConnectArgs(built[client.value]) == MongoConnectArgs(settings)
    {
      var key := MongoCacheKey(settings);
      if key in cache {
        AfterKeepsMatched(View(), GetClient(settings, urlValid));
        return Some(cache[key]);
      }
      if !urlValid { return None; }
      AfterKeepsMatched(View(), GetClient(settings, urlValid));
      client := Some(|built|);
      built := built + [settings];
      cache := cache[key := client.value];
    }

    /** MongoRepository.close. */
    method Close(settings: MongoSettings)
      requires Matched(View())
      modifies this
      ensures View() == After(old(View()), CloseClient(settings)) && Matched(View())
    {
      AfterKeepsMatched(View(), CloseClient(settings));
      var key := MongoCacheKey(settings);
      if key in cache {
        closed := closed + {cache[key]};
        cache := cache - {key};
      }
    }
  }
}
