/** The offset-commit protocol of the Kafka consumer.

    The broker keeps one committed offset per partition; a session keeps one
    position per partition.  `subscribe()` suspends at every `await`, and an
    event is whatever happens next: the awaited call finishes, `close()` runs
    one of its own segments, a producer publishes, the task is cancelled, or
    the process dies.  An event that cannot happen in a state changes nothing,
    so a run is simply any sequence of events.
 */
module KafkaProtocol {

  /** What the two decoding steps make of a message: `_deserialise` can raise,
      and so can decoding the headers after it. */
  datatype Payload = Good | BadBody | BadHeaders

  datatype Message = Message(partition: nat, offset: nat)

  /** The history of a run, in the order in which things happened. */
  datatype Note =
    | SessionStarted
    | Taken(m: Message)      // the loop entered its try block with m
    | Succeeded(m: Message)  // the handler returned
    | Failed(m: Message)     // decoding or the handler raised
    | CommitApplied          // the broker stored a commit

  /** Where `subscribe()` is suspended. */
  datatype Pc =
    | Idle
    | Starting
    | Pulling
    | Handling(m: Message)
    | Committing(m: Message, applied: bool)
    | Stopping

  datatype State = State(
    logs: seq<seq<Payload>>,
    committed: seq<nat>,
    position: seq<nat>,
    running: bool,
    consumer: bool,   // `_consumer is not None`
    closing: nat,     // close() calls awaiting stop()
    bound: bool,      // the local `message` has been assigned in this session
    pc: Pc,
    notes: seq<Note>)

  datatype Event =
    | Publish(partition: nat, payload: Payload)
    | Subscribe
    | StartReturns
    | StartFails
    | Pull(partition: nat)
    | HandlerReturns
    | HandlerRaises
    | CommitApplies
    | CommitReturns
    | StreamEnds
    | StopReturns
    | CloseBegins
    | CloseEnds
    | Cancel
    | Crash

  function Init(partitions: nat): State {
    State(seq(partitions, _ => []), seq(partitions, _ => 0), seq(partitions, _ => 0),
          false, false, 0, false, Idle, [])
  }

  function Log(s: State, more: seq<Note>): State {
    s.(notes := s.notes + more)
  }

  /** The `finally` block: stop the consumer if there still is one. */
  function Finally(s: State): State {
    if s.consumer then s.(pc := Stopping) else s.(running := false, pc := Idle)
  }

  function Take(s: State, p: nat): State
    requires p < |s.position| && p < |s.logs| && s.position[p] < |s.logs[p]|
  {
    var m := Message(p, s.position[p]);
    var pulled := s.(position := s.position[p := s.position[p] + 1]);
    if !s.running then Finally(pulled)
    else
      match s.logs[p][m.offset]
      case Good => Log(pulled, [Taken(m)]).(bound := true, pc := Handling(m))
      case BadHeaders => Log(pulled, [Taken(m), Failed(m)]).(bound := true)
      // nack(message) reads a local that the first failing decode never assigned
      case BadBody =>
        var failed := Log(pulled, [Taken(m), Failed(m)]);
        if s.bound then failed else Finally(failed)
  }

  function Step(s: State, e: Event): State {
    match e
    case Publish(p, payload) =>
      if p < |s.logs| then s.(logs := s.logs[p := s.logs[p] + [payload]]) else s
    case Subscribe =>
      if s.pc != Idle then s
      else Log(s, [SessionStarted]).(consumer := true, position := s.committed, bound := false, pc := Starting)
    case StartReturns =>
      if s.pc != Starting then s
      else if s.consumer then s.(running := true, pc := Pulling)
      else Finally(s.(running := true))
    case StartFails =>
      if s.pc != Starting then s else s.(consumer := false, pc := Idle)
    case Pull(p) =>
      if s.pc == Pulling && p < |s.position| && p < |s.logs| && s.position[p] < |s.logs[p]|
      then Take(s, p) else s
    case HandlerReturns =>
      if !s.pc.Handling? then s
      else Log(s, [Succeeded(s.pc.m)]).(pc := if s.consumer then Committing(s.pc.m, false) else Pulling)
    case HandlerRaises =>
      if !s.pc.Handling? then s else Log(s, [Failed(s.pc.m)]).(pc := Pulling)
    case CommitApplies =>
      if !s.pc.Committing? || s.pc.applied then s
      else Log(s, [CommitApplied]).(committed := s.position, pc := Committing(s.pc.m, true))
    case CommitReturns =>
      if !s.pc.Committing? then s else s.(pc := Pulling)
    case StreamEnds =>
      if s.pc != Pulling then s else Finally(s)
    case StopReturns =>
      if s.pc != Stopping then s else s.(consumer := false, running := false, pc := Idle)
    case CloseBegins =>
      s.(running := false, closing := if s.consumer then s.closing + 1 else s.closing)
    case CloseEnds =>
      if s.closing == 0 then s else s.(consumer := false, closing := s.closing - 1)
    case Cancel =>
      if s.pc.Pulling? || s.pc.Handling? || s.pc.Committing? then Finally(s)
      else s.(pc := Idle)
    case Crash =>
      s.(running := false, consumer := false, closing := 0, pc := Idle)
  }

  function Run(s: State, events: seq<Event>): State {
    if events == [] then s
    else Step(Run(s, events[..|events| - 1]), events[|events| - 1])
  }

  // ------------------------------------------------------------------
  // What a history says, without looking at offsets
  // ------------------------------------------------------------------

  ghost predicate SameSession(ns: seq<Note>, i: int, j: int) {
    forall k :: i < k <= j && 0 <= k < |ns| ==> ns[k] != SessionStarted
  }

  /** m was taken in the session that is still the latest one. */
  ghost predicate TakenLately(ns: seq<Note>, m: Message) {
    exists i :: 0 <= i < |ns| && ns[i] == Taken(m) && SameSession(ns, i, |ns| - 1)
  }

  /** Some session took m and later had a commit applied. */
  ghost predicate Covered(ns: seq<Note>, m: Message) {
    exists i, j :: 0 <= i < j < |ns| && ns[i] == Taken(m) && ns[j] == CommitApplied && SameSession(ns, i, j)
  }

  /** A commit follows at once on the success that caused it. */
  ghost predicate CommitFollows(ns: seq<Note>, j: int)
    requires 0 <= j < |ns|
  {
    ns[j] == CommitApplied ==> j >= 2 && ns[j - 1].Succeeded? && ns[j - 2] == Taken(ns[j - 1].m)
  }

  /** An attempt's outcome follows at once on the attempt, unless its session died first. */
  ghost predicate OutcomeFollows(ns: seq<Note>, i: int)
    requires 0 <= i < |ns|
  {
    ns[i].Taken? && i + 1 < |ns| ==>
      ns[i + 1] == Succeeded(ns[i].m) || ns[i + 1] == Failed(ns[i].m) || ns[i + 1] == SessionStarted
  }

  ghost predicate Sequential(ns: seq<Note>) {
    forall i :: 0 <= i < |ns| ==> CommitFollows(ns, i) && OutcomeFollows(ns, i)
  }

  lemma SequentialGrows(ns: seq<Note>, x: Note)
    requires Sequential(ns)
    requires x == CommitApplied ==>
               |ns| >= 2 && ns[|ns| - 1].Succeeded? && ns[|ns| - 2] == Taken(ns[|ns| - 1].m)
    requires ns != [] && ns[|ns| - 1].Taken? ==>
               x == Succeeded(ns[|ns| - 1].m) || x == Failed(ns[|ns| - 1].m) || x == SessionStarted
    ensures Sequential(ns + [x])
  {
    forall i | 0 <= i < |ns + [x]|
      ensures CommitFollows(ns + [x], i) && OutcomeFollows(ns + [x], i)
    {
      if i < |ns| { assert CommitFollows(ns, i) && OutcomeFollows(ns, i); }
    }
  }

  lemma TakenLatelyGrows(ns: seq<Note>, x: Note, m: Message)
    ensures TakenLately(ns + [x], m) <==> x == Taken(m) || (x != SessionStarted && TakenLately(ns, m))
  {
    var more := ns + [x];
    if x == Taken(m) {
      assert more[|ns|] == Taken(m);
    } else if TakenLately(more, m) {
      var i :| 0 <= i < |more| && more[i] == Taken(m) && SameSession(more, i, |more| - 1);
      assert more[|ns|] == x;
      assert SameSession(ns, i, |ns| - 1) by {
        forall k | i < k <= |ns| - 1 ensures ns[k] != SessionStarted { assert more[k] == ns[k]; }
      }
      assert ns[i] == Taken(m);
    } else if x != SessionStarted && TakenLately(ns, m) {
      var i :| 0 <= i < |ns| && ns[i] == Taken(m) && SameSession(ns, i, |ns| - 1);
      assert more[i] == Taken(m) && SameSession(more, i, |more| - 1);
    }
  }

  lemma CoveredGrows(ns: seq<Note>, x: Note, m: Message)
    ensures Covered(ns + [x], m) <==> Covered(ns, m) || (x == CommitApplied && TakenLately(ns, m))
  {
    var more := ns + [x];
    if Covered(ns, m) {
      var i, j :| 0 <= i < j < |ns| && ns[i] == Taken(m) && ns[j] == CommitApplied && SameSession(ns, i, j);
      assert more[i] == Taken(m) && more[j] == CommitApplied && SameSession(more, i, j);
    }
    if x == CommitApplied && TakenLately(ns, m) {
      var i :| 0 <= i < |ns| && ns[i] == Taken(m) && SameSession(ns, i, |ns| - 1);
      assert more[i] == Taken(m) && more[|ns|] == CommitApplied && SameSession(more, i, |ns|);
    }
    if Covered(more, m) {
      var i, j :| 0 <= i < j < |more| && more[i] == Taken(m) && more[j] == CommitApplied && SameSession(more, i, j);
      forall k | i < k <= j && k < |ns| ensures ns[k] != SessionStarted { assert more[k] == ns[k]; }
      assert ns[i] == Taken(m);
      if j < |ns| {
        assert ns[j] == CommitApplied && SameSession(ns, i, j);
      } else {
        assert SameSession(ns, i, |ns| - 1);
      }
    }
  }

  // ------------------------------------------------------------------
  // The invariant
  // ------------------------------------------------------------------

  ghost predicate Shape(s: State) {
    |s.logs| == |s.committed| == |s.position|
  }

  /** Whether the loop of the latest session may still take or commit. */
  predicate Live(s: State) {
    s.pc.Starting? || s.pc.Pulling? || s.pc.Handling? || s.pc.Committing?
  }

  predicate Below(m: Message, offsets: seq<nat>) {
    m.partition < |offsets| && m.offset < offsets[m.partition]
  }

  predicate Pointwise(a: seq<nat>, b: seq<nat>) {
    |a| == |b| && forall p :: 0 <= p < |a| ==> a[p] <= b[p]
  }

  predicate Within(a: seq<nat>, logs: seq<seq<Payload>>) {
    |a| == |logs| && forall p :: 0 <= p < |a| ==> a[p] <= |logs[p]|
  }

  /** The committed offsets are exactly the covered messages. */
  ghost predicate CommitsMatch(ns: seq<Note>, committed: seq<nat>) {
    forall m :: Covered(ns, m) <==> Below(m, committed)
  }

  /** What the latest session took lies below its positions, and everything
      between the committed offsets and the positions was taken by it. */
  ghost predicate Window(ns: seq<Note>, committed: seq<nat>, position: seq<nat>) {
    && (forall m :: TakenLately(ns, m) ==> Below(m, position))
    && (forall m :: Below(m, position) && !Below(m, committed) ==> TakenLately(ns, m))
  }

  ghost predicate Offsets(s: State) {
    && Within(s.committed, s.logs)
    && CommitsMatch(s.notes, s.committed)
    && (Live(s) ==>
          && Pointwise(s.committed, s.position)
          && Within(s.position, s.logs)
          && Window(s.notes, s.committed, s.position))
  }

  ghost predicate Order(s: State) {
    var n := |s.notes|;
    && Sequential(s.notes)
    && (s.pc.Handling? ==> n >= 1 && s.notes[n - 1] == Taken(s.pc.m))
    && (s.pc.Committing? && !s.pc.applied ==>
          n >= 2 && s.notes[n - 1] == Succeeded(s.pc.m) && s.notes[n - 2] == Taken(s.pc.m))
    && (Live(s) && !s.pc.Handling? ==> n >= 1 && !s.notes[n - 1].Taken?)
  }

  ghost predicate Inv(s: State) {
    |s.position| == |s.logs| && Offsets(s) && Order(s)
  }

  lemma TakenMovesWindow(ns: seq<Note>, committed: seq<nat>, position: seq<nat>, p: nat)
    requires p < |position| && Pointwise(committed, position)
    requires Window(ns, committed, position) && CommitsMatch(ns, committed)
    ensures Window(ns + [Taken(Message(p, position[p]))], committed, position[p := position[p] + 1])
    ensures CommitsMatch(ns + [Taken(Message(p, position[p]))], committed)
  {
    var x := Message(p, position[p]);
    var after := position[p := position[p] + 1];
    forall m
      ensures Covered(ns + [Taken(x)], m) <==> Below(m, committed)
      ensures TakenLately(ns + [Taken(x)], m) ==> Below(m, after)
      ensures Below(m, after) && !Below(m, committed) ==> TakenLately(ns + [Taken(x)], m)
    {
      TakenLatelyGrows(ns, Taken(x), m);
      CoveredGrows(ns, Taken(x), m);
      assert Below(m, after) <==> Below(m, position) || m == x;
    }
  }

  lemma OutcomeKeepsWindow(ns: seq<Note>, x: Note, committed: seq<nat>, position: seq<nat>)
    requires x.Succeeded? || x.Failed?
    requires Window(ns, committed, position) && CommitsMatch(ns, committed)
    ensures Window(ns + [x], committed, position) && CommitsMatch(ns + [x], committed)
  {
    forall m
      ensures TakenLately(ns + [x], m) <==> TakenLately(ns, m)
      ensures Covered(ns + [x], m) <==> Covered(ns, m)
    {
      TakenLatelyGrows(ns, x, m);
      CoveredGrows(ns, x, m);
    }
  }

  lemma CommitClosesWindow(ns: seq<Note>, committed: seq<nat>, position: seq<nat>)
    requires Pointwise(committed, position)
    requires Window(ns, committed, position) && CommitsMatch(ns, committed)
    ensures Window(ns + [CommitApplied], position, position) && CommitsMatch(ns + [CommitApplied], position)
  {
    forall m
      ensures TakenLately(ns + [CommitApplied], m) <==> TakenLately(ns, m)
      ensures Covered(ns + [CommitApplied], m) <==> Below(m, position)
    {
      TakenLatelyGrows(ns, CommitApplied, m);
      CoveredGrows(ns, CommitApplied, m);
    }
  }

  lemma StartOpensWindow(ns: seq<Note>, committed: seq<nat>)
    requires CommitsMatch(ns, committed)
    ensures Window(ns + [SessionStarted], committed, committed) && CommitsMatch(ns + [SessionStarted], committed)
  {
    forall m
      ensures !TakenLately(ns + [SessionStarted], m)
      ensures Covered(ns + [SessionStarted], m) <==> Covered(ns, m)
    {
      TakenLatelyGrows(ns, SessionStarted, m);
      CoveredGrows(ns, SessionStarted, m);
    }
  }

  lemma TakeInv(s: State, p: nat)
    requires Offsets(s) && Order(s) && |s.position| == |s.logs|
    requires s.pc == Pulling && p < |s.position| && s.position[p] < |s.logs[p]|
    ensures Offsets(Take(s, p)) && Order(Take(s, p))
  {
    hide CommitFollows, OutcomeFollows, Covered, TakenLately, SameSession, CommitsMatch, Window, Sequential;
    var m := Message(p, s.position[p]);
    var ns := s.notes + [Taken(m)];
    if s.running {
      TakenMovesWindow(s.notes, s.committed, s.position, p);
      SequentialGrows(s.notes, Taken(m));
      if s.logs[p][m.offset] != Good {
        OutcomeKeepsWindow(ns, Failed(m), s.committed, s.position[p := m.offset + 1]);
        SequentialGrows(ns, Failed(m));
        assert s.notes + [Taken(m), Failed(m)] == ns + [Failed(m)];
      }
    }
  }

  /** Events that write nothing down only let the loop go on or stop. */
  lemma QuietFrame(s: State, e: Event)
    requires Shape(s)
    requires !e.Subscribe? && !e.Pull? && !e.HandlerReturns? && !e.HandlerRaises? && !e.CommitApplies?
    ensures var t := Step(s, e);
      && t.notes == s.notes && t.committed == s.committed && t.position == s.position && t.bound == s.bound
      && |t.logs| == |s.logs| && (forall p :: 0 <= p < |s.logs| ==> |s.logs[p]| <= |t.logs[p]|)
      && (Live(t) ==> Live(s)) && (Live(t) && !t.pc.Handling? ==> !s.pc.Handling?)
      && (t.pc.Handling? ==> t.pc == s.pc)
      && (t.pc.Committing? && !t.pc.applied ==> s.pc.Committing? && !s.pc.applied && s.pc.m == t.pc.m)
  {
  }

  lemma QuietInv(s: State, e: Event)
    requires Inv(s)
    requires !e.Subscribe? && !e.Pull? && !e.HandlerReturns? && !e.HandlerRaises? && !e.CommitApplies?
    ensures Inv(Step(s, e))
  {
    hide Step, CommitFollows, OutcomeFollows, Covered, TakenLately, SameSession, CommitsMatch, Window, Sequential;
    QuietFrame(s, e);
  }

  lemma StepInv(s: State, e: Event)
    requires Inv(s)
    ensures Inv(Step(s, e))
  {
    hide CommitFollows, OutcomeFollows, Covered, TakenLately, SameSession;
    match e
    case Subscribe =>
      StartOpensWindow(s.notes, s.committed);
      SequentialGrows(s.notes, SessionStarted);
    case Pull(p) =>
      if Step(s, e) != s { TakeInv(s, p); }
    case HandlerReturns =>
      if s.pc.Handling? {
        OutcomeKeepsWindow(s.notes, Succeeded(s.pc.m), s.committed, s.position);
        SequentialGrows(s.notes, Succeeded(s.pc.m));
      }
    case HandlerRaises =>
      if s.pc.Handling? {
        OutcomeKeepsWindow(s.notes, Failed(s.pc.m), s.committed, s.position);
        SequentialGrows(s.notes, Failed(s.pc.m));
      }
    case CommitApplies =>
      if s.pc.Committing? && !s.pc.applied {
        CommitClosesWindow(s.notes, s.committed, s.position);
        SequentialGrows(s.notes, CommitApplied);
      }
    case _ => QuietInv(s, e);
  }

  lemma {:induction false} RunInv(s: State, events: seq<Event>)
    requires Inv(s)
    ensures Inv(Run(s, events))
  {
    hide Step;
    if events != [] {
      var n := |events| - 1;
      RunInv(s, events[..n]);
      StepInv(Run(s, events[..n]), events[n]);
    }
  }

  lemma ReachableInv(partitions: nat, events: seq<Event>)
    ensures Inv(Run(Init(partitions), events))
  {
    RunInv(Init(partitions), events);
  }

  // ------------------------------------------------------------------
  // Main results
  // ------------------------------------------------------------------

  /** In every run an offset is committed exactly when some session took it
      and later had a commit applied.  In particular no commit passes an offset
      that the loop never attempted. */
  lemma CommittedExactlyCovered(partitions: nat, events: seq<Event>, m: Message)
    ensures var s := Run(Init(partitions), events);
            Below(m, s.committed) <==> Covered(s.notes, m)
  {
    hide Step, Run;
    ReachableInv(partitions, events);
  }

  lemma StepAdvances(s: State, e: Event)
    requires Live(s) ==> Pointwise(s.committed, s.position)
    ensures Pointwise(s.committed, Step(s, e).committed) && s.notes <= Step(s, e).notes
  {
  }

  lemma RunSplit(s: State, before: seq<Event>, e: Event)
    ensures Run(s, before + [e]) == Step(Run(s, before), e)
  {
    hide Step;
    assert (before + [e])[..|before|] == before;
  }

  /** No event lowers a committed offset, moves it past the log, or rewrites history. */
  lemma {:induction false} CommitsOnlyAdvance(partitions: nat, events: seq<Event>, more: seq<Event>)
    ensures var s, t := Run(Init(partitions), events), Run(Init(partitions), events + more);
            Pointwise(s.committed, t.committed) && Within(t.committed, t.logs) && s.notes <= t.notes
  {
    hide Step;
    ReachableInv(partitions, events + more);
    if more == [] {
      assert events + more == events;
    } else {
      var n := |more| - 1;
      CommitsOnlyAdvance(partitions, events, more[..n]);
      assert events + more == events + more[..n] + [more[n]];
      RunSplit(Init(partitions), events + more[..n], more[n]);
      ReachableInv(partitions, events + more[..n]);
      StepAdvances(Run(Init(partitions), events + more[..n]), more[n]);
    }
  }

  /** m failed, and later in the same session another message succeeded and
      the commit made for that message was applied. */
  ghost predicate PassedOver(ns: seq<Note>, m: Message) {
    exists i, j :: 0 <= i < j - 2 && j < |ns|
                && ns[i] == Taken(m) && ns[i + 1] == Failed(m)
                && ns[j - 1].Succeeded? && ns[j - 1].m != m && ns[j] == CommitApplied
                && SameSession(ns, i, j)
  }

  lemma TakenThenCommitted(ns: seq<Note>, m: Message, i: int, j: int)
    requires Sequential(ns) && Succeeded(m) !in ns
    requires 0 <= i < j < |ns| && ns[i] == Taken(m) && ns[j] == CommitApplied && SameSession(ns, i, j)
    ensures i < j - 2 && ns[i + 1] == Failed(m) && ns[j - 1].Succeeded? && ns[j - 1].m != m
  {
    assert CommitFollows(ns, j) && OutcomeFollows(ns, i);
    assert ns[i + 1] != SessionStarted;
    assert ns[i + 1] != Succeeded(m) && ns[j - 1] != Succeeded(m);
  }

  lemma CoveredIsPassedOver(ns: seq<Note>, m: Message)
    requires Sequential(ns) && Succeeded(m) !in ns
    ensures Covered(ns, m) <==> PassedOver(ns, m)
  {
    hide Sequential, SameSession;
    if Covered(ns, m) {
      var i, j :| 0 <= i < j < |ns| && ns[i] == Taken(m) && ns[j] == CommitApplied && SameSession(ns, i, j);
      TakenThenCommitted(ns, m, i, j);
    }
  }

  /** The exact condition under which a message that was never handled is lost
      (committed, hence never delivered again). */
  lemma LostExactlyWhenPassedOver(partitions: nat, events: seq<Event>, m: Message)
    requires Succeeded(m) !in Run(Init(partitions), events).notes
    ensures var s := Run(Init(partitions), events);
            Below(m, s.committed) <==> PassedOver(s.notes, m)
  {
    hide Run, Step, Offsets, Covered, PassedOver;
    ReachableInv(partitions, events);
    CommittedExactlyCovered(partitions, events, m);
    CoveredIsPassedOver(Run(Init(partitions), events).notes, m);
  }

  /** What holds of the promise that a nacked message comes again: the next
      session starts at or below m exactly when m was not passed over by a
      commit of the session that took it. */
  lemma RedeliveredUnlessCovered(partitions: nat, events: seq<Event>, m: Message)
    requires Run(Init(partitions), events).pc == Idle && m.partition < partitions
    ensures var s := Run(Init(partitions), events);
            m.partition < |Step(s, Subscribe).position|
            && (Step(s, Subscribe).position[m.partition] <= m.offset <==> !Covered(s.notes, m))
  {
    ReachableInv(partitions, events);
    PartitionsFixed(partitions, events);
  }

  lemma StepKeepsPartitions(s: State, e: Event)
    ensures |Step(s, e).logs| == |s.logs|
  {
  }

  lemma {:induction false} PartitionsFixed(partitions: nat, events: seq<Event>)
    ensures |Run(Init(partitions), events).logs| == partitions
  {
    hide Step;
    if events != [] {
      var n := |events| - 1;
      PartitionsFixed(partitions, events[..n]);
      StepKeepsPartitions(Run(Init(partitions), events[..n]), events[n]);
    }
  }

  /** A session whose position is past m has taken m itself, unless m was
      already committed: nothing is skipped unseen. */
  lemma SessionSkipsNothing(partitions: nat, events: seq<Event>, m: Message)
    requires var s := Run(Init(partitions), events); Live(s) && Below(m, s.position)
    ensures var s := Run(Init(partitions), events);
            Below(m, s.committed) || TakenLately(s.notes, m)
  {
    hide Step, Run;
    ReachableInv(partitions, events);
  }

  lemma Extend(s: State, events: seq<Event>, t: State, e: Event)
    requires Run(s, events) == t
    ensures Run(s, events + [e]) == Step(t, e)
  {
    hide Step, Run;
    RunSplit(s, events, e);
  }

  lemma TwoMessagesReady() returns (events: seq<Event>)
    ensures Run(Init(1), events)
         == State([[Good, Good]], [0], [0], true, true, 0, false, Pulling, [SessionStarted])
  {
    var s0 := State([[]], [0], [0], false, false, 0, false, Idle, []);
    assert Init(1) == s0;
    Extend(s0, [], s0, Publish(0, Good));
    var s1 := Step(s0, Publish(0, Good));
    Extend(s0, [] + [Publish(0, Good)], s1, Publish(0, Good));
    var s2 := Step(s1, Publish(0, Good));
    assert s2.logs[0] == [Good, Good];
    events := [] + [Publish(0, Good)] + [Publish(0, Good)];
    Extend(s0, events, s2, Subscribe);
    Extend(s0, events + [Subscribe], Step(s2, Subscribe), StartReturns);
    events := events + [Subscribe] + [StartReturns];
  }

  lemma FirstMessageFails() returns (events: seq<Event>)
    ensures Run(Init(1), events)
         == State([[Good, Good]], [0], [1], true, true, 0, true, Pulling,
                  [SessionStarted, Taken(Message(0, 0)), Failed(Message(0, 0))])
  {
    hide Run;
    var es := TwoMessagesReady();
    var s := State([[Good, Good]], [0], [0], true, true, 0, false, Pulling, [SessionStarted]);
    Extend(Init(1), es, s, Pull(0));
    Extend(Init(1), es + [Pull(0)], Step(s, Pull(0)), HandlerRaises);
    events := es + [Pull(0)] + [HandlerRaises];
  }

  lemma SecondMessageCommits(s: State, m: Message, k: Message)
    requires s == State([[Good, Good]], [0], [1], true, true, 0, true, Pulling,
                        [SessionStarted, Taken(m), Failed(m)])
    requires m == Message(0, 0) && k == Message(0, 1)
    ensures var t := Step(Step(Step(s, Pull(0)), HandlerReturns), CommitApplies);
            && t.committed == [2]
            && t.notes == [SessionStarted, Taken(m), Failed(m), Taken(k), Succeeded(k), CommitApplied]
  {
    var t := Step(s, Pull(0));
    assert t == State([[Good, Good]], [0], [2], true, true, 0, true, Handling(k), s.notes + [Taken(k)]);
    assert Step(t, HandlerReturns) == t.(pc := Committing(k, false), notes := t.notes + [Succeeded(k)]);
  }

  /** The promise is not kept in general: message 0 fails, message 1 succeeds
      and its commit covers both, and message 0 stays below the committed offset
      whatever happens next. */
  lemma NackedMessageCanBeLost() returns (events: seq<Event>, m: Message)
    ensures var s := Run(Init(1), events);
            Failed(m) in s.notes && Succeeded(m) !in s.notes
    ensures forall more :: Below(m, Run(Init(1), events + more).committed)
  {
    hide Step, Run;
    var es := FirstMessageFails();
    var s := Run(Init(1), es);
    m := Message(0, 0);
    SecondMessageCommits(s, m, Message(0, 1));
    Extend(Init(1), es, s, Pull(0));
    Extend(Init(1), es + [Pull(0)], Step(s, Pull(0)), HandlerReturns);
    Extend(Init(1), es + [Pull(0)] + [HandlerReturns], Step(Step(s, Pull(0)), HandlerReturns), CommitApplies);
    events := es + [Pull(0)] + [HandlerReturns] + [CommitApplies];
    assert Run(Init(1), events).notes[2] == Failed(m);
    forall more ensures Below(m, Run(Init(1), events + more).committed) {
      CommitsOnlyAdvance(1, events, more);
    }
  }

  /** The committed head of every partition is a message that does not decode. */
  ghost predicate Stuck(s: State, at: seq<nat>) {
    && |s.logs| == |s.position| == |at| && s.committed == at
    && (forall p :: 0 <= p < |at| ==> at[p] < |s.logs[p]| && s.logs[p][at[p]] == BadBody)
    && (s.pc.Idle? || s.pc.Starting? || s.pc.Pulling? || s.pc.Stopping?)
    && (s.pc.Starting? || s.pc.Pulling? ==> s.position == at && !s.bound)
  }

  lemma StuckStep(s: State, at: seq<nat>, e: Event)
    requires Stuck(s, at)
    ensures Stuck(Step(s, e), at)
  {
  }

  /** The first decode of a session assigns no `message`, so its failure ends
      the session.  When that is the head of every partition the committed
      offsets stay, whatever happens afterwards. */
  lemma {:induction false} PoisonHeadBlocksForever(s: State, at: seq<nat>, events: seq<Event>)
    requires Stuck(s, at)
    ensures Stuck(Run(s, events), at)
  {
    if events != [] {
      var n := |events| - 1;
      PoisonHeadBlocksForever(s, at, events[..n]);
      StuckStep(Run(s, events[..n]), at, events[n]);
    }
  }

  /** Such a run is easily had: one message, and it does not decode. */
  lemma PoisonArrives()
    ensures Stuck(Run(Init(1), [Publish(0, BadBody)]), [0])
  {
    var e := Publish(0, BadBody);
    assert [e][..0] == [] && Run(Init(1), []) == Init(1);
    assert Run(Init(1), [e]) == Step(Init(1), e);
    assert Init(1).logs == [[]] && Init(1).committed == [0] && Init(1).position == [0];
  }

  // ------------------------------------------------------------------
  // What gets done, and what ends it
  // ------------------------------------------------------------------

  /** In every run, while the session still has its consumer, a handler that
      returns is followed by a commit that covers its message, and by the next
      pull.  Without a consumer nothing is committed, and neither is anything
      after a handler that raised. */
  lemma HandledIsCommitted(partitions: nat, events: seq<Event>)
    requires Run(Init(partitions), events).pc.Handling?
    ensures var s := Run(Init(partitions), events);
            var done := Step(Step(s, HandlerReturns), CommitApplies);
            && Succeeded(s.pc.m) in done.notes
            && Step(done, CommitReturns).pc == Pulling
            && (if s.consumer then Below(s.pc.m, done.committed) && done.committed == s.position
                else done.committed == s.committed)
    ensures var s := Run(Init(partitions), events);
            var failed := Step(Step(s, HandlerRaises), CommitApplies);
            Failed(s.pc.m) in failed.notes && failed.pc == Pulling && failed.committed == s.committed
  {
    hide Run;
    ReachableInv(partitions, events);
    var s := Run(Init(partitions), events);
    assert TakenLately(s.notes, s.pc.m) by {
      assert s.notes[|s.notes| - 1] == Taken(s.pc.m) && SameSession(s.notes, |s.notes| - 1, |s.notes| - 1);
    }
  }

  lemma {:induction false} RunAppend(s: State, a: seq<Event>, b: seq<Event>)
    ensures Run(s, a + b) == Run(Run(s, a), b)
  {
    hide Step;
    if b == [] {
      assert a + b == a;
    } else {
      var n := |b| - 1;
      RunAppend(s, a, b[..n]);
      assert a + b == a + b[..n] + [b[n]];
      RunSplit(s, a + b[..n], b[n]);
    }
  }

  /** One message of partition p: pulled, handled, committed. */
  function Rounds(p: nat, k: nat): seq<Event> {
    if k == 0 then [] else Rounds(p, k - 1) + [Pull(p)] + [HandlerReturns] + [CommitApplies] + [CommitReturns]
  }

  /** What the loop writes down for the k messages of partition p from offset `from`. */
  function Handled(p: nat, from: nat, k: nat): seq<Note> {
    if k == 0 then [] else
      var m := Message(p, from + k - 1);
      Handled(p, from, k - 1) + [Taken(m), Succeeded(m), CommitApplied]
  }

  predicate Ready(s: State, p: nat, k: nat) {
    && s.pc == Pulling && s.running && s.consumer && p < |s.position| && p < |s.logs|
    && s.position[p] + k <= |s.logs[p]|
    && forall i :: s.position[p] <= i < s.position[p] + k ==> s.logs[p][i] == Good
  }

  lemma OneRound(s: State, p: nat)
    requires Ready(s, p, 1)
    ensures var t := Step(Step(Step(Step(s, Pull(p)), HandlerReturns), CommitApplies), CommitReturns);
            var after := s.position[p := s.position[p] + 1];
            && t.notes == s.notes + Handled(p, s.position[p], 1)
            && t.position == t.committed == after && t.logs == s.logs
            && t.pc == Pulling && t.running && t.consumer
  {
    var m := Message(p, s.position[p]);
    assert Step(s, Pull(p)).pc == Handling(m);
    assert Handled(p, s.position[p], 1) == [Taken(m), Succeeded(m), CommitApplied];
  }

  lemma {:induction false} RoundsGo(s: State, p: nat, k: nat)
    requires Ready(s, p, k)
    ensures var t := Run(s, Rounds(p, k));
            && t.notes == s.notes + Handled(p, s.position[p], k) && t.logs == s.logs
            && t.position == s.position[p := s.position[p] + k]
            && t.committed == (if k > 0 then t.position else s.committed)
            && t.pc == Pulling && t.running && t.consumer
  {
    hide Step, Run;
    if k == 0 {
      RunNothing(s);
    } else {
      RoundsGo(s, p, k - 1);
      var es := Rounds(p, k - 1);
      var t := Run(s, es);
      OneRound(t, p);
      Extend(s, es, t, Pull(p));
      Extend(s, es + [Pull(p)], Step(t, Pull(p)), HandlerReturns);
      Extend(s, es + [Pull(p)] + [HandlerReturns], Step(Step(t, Pull(p)), HandlerReturns), CommitApplies);
      Extend(s, es + [Pull(p)] + [HandlerReturns] + [CommitApplies],
             Step(Step(Step(t, Pull(p)), HandlerReturns), CommitApplies), CommitReturns);
      assert Handled(p, t.position[p], 1) == Handled(p, s.position[p] + k - 1, 0)
           + [Taken(Message(p, s.position[p] + k - 1)), Succeeded(Message(p, s.position[p] + k - 1)), CommitApplied];
    }
  }

  lemma RunNothing(s: State)
    ensures Run(s, []) == s
  {
  }

  /** A session left alone handles what is left of a partition, in order and
      each message once, and commits all of it: from any idle state of any run. */
  lemma SessionDrains(partitions: nat, events: seq<Event>, p: nat)
    requires var s := Run(Init(partitions), events);
             && s.pc == Idle && p < partitions
             && forall i :: Committed(s, p) <= i < |LogOf(s, p)| ==> LogOf(s, p)[i] == Good
    ensures var s := Run(Init(partitions), events);
            var left := |LogOf(s, p)| - Committed(s, p);
            && left >= 0
            && var t := Run(Init(partitions), events + ([Subscribe, StartReturns] + Rounds(p, left)));
            && t.notes == s.notes + [SessionStarted] + Handled(p, Committed(s, p), left)
            && Committed(t, p) == |LogOf(t, p)| == |LogOf(s, p)|
  {
    hide Run, Step;
    ReachableInv(partitions, events);
    PartitionsFixed(partitions, events);
    var s := Run(Init(partitions), events);
    var left := |s.logs[p]| - s.committed[p];
    var begun := [Subscribe, StartReturns];
    var ready := Run(s, begun);
    SessionBegins(s);
    RunAppend(Init(partitions), events, begun + Rounds(p, left));
    RunAppend(s, begun, Rounds(p, left));
    assert ready.position == s.committed && ready.logs == s.logs;
    assert LogOf(s, p) == s.logs[p] && Committed(s, p) == s.committed[p];
    assert left >= 0;
    assert Ready(ready, p, left);
    RoundsGo(ready, p, left);
  }

  function Committed(s: State, p: nat): nat {
    if p < |s.committed| then s.committed[p] else 0
  }

  function LogOf(s: State, p: nat): seq<Payload> {
    if p < |s.logs| then s.logs[p] else []
  }

  /** A session starts at the committed offsets. */
  lemma SessionBegins(s: State)
    requires s.pc == Idle
    ensures var t := Run(s, [Subscribe, StartReturns]);
            && t == s.(consumer := true, running := true, position := s.committed, bound := false,
                       pc := Pulling, notes := s.notes + [SessionStarted])
  {
    hide Run;
    RunNothing(s);
    Extend(s, [], s, Subscribe);
    Extend(s, [] + [Subscribe], Step(s, Subscribe), StartReturns);
    assert [] + [Subscribe] + [StartReturns] == [Subscribe, StartReturns];
  }

  ghost predicate TakesNothing(before: seq<Note>, after: seq<Note>) {
    before <= after && forall i :: |before| <= i < |after| ==> !after[i].Taken?
  }

  /** Once close() has begun no message is taken until a session starts anew. */
  lemma {:induction false} CloseStopsTaking(s: State, more: seq<Event>)
    requires StartReturns !in more
    ensures var t := Run(Step(s, CloseBegins), more);
            !t.running && TakesNothing(s.notes, t.notes)
  {
    if more != [] {
      var n := |more| - 1;
      CloseStopsTaking(s, more[..n]);
      assert more[n] in more;
      StoppedStep(Run(Step(s, CloseBegins), more[..n]), more[n]);
    }
  }

  lemma StoppedStep(s: State, e: Event)
    requires !s.running && !e.StartReturns?
    ensures !Step(s, e).running && TakesNothing(s.notes, Step(s, e).notes)
  {
  }

  /** Once close() has ended no further commit is asked for until a new
      session: what a handler still finishes is delivered again. */
  lemma {:induction false} CloseStopsCommits(s: State, more: seq<Event>)
    requires s.closing > 0 && !s.pc.Committing? && Subscribe !in more
    ensures var t := Run(Step(s, CloseEnds), more);
            !t.consumer && !t.pc.Committing? && t.committed == s.committed
  {
    if more != [] {
      var n := |more| - 1;
      CloseStopsCommits(s, more[..n]);
      assert more[n] in more;
      ForgottenStep(Run(Step(s, CloseEnds), more[..n]), more[n]);
    }
  }

  lemma ForgottenStep(s: State, e: Event)
    requires !s.consumer && !s.pc.Committing? && !e.Subscribe?
    ensures !Step(s, e).consumer && !Step(s, e).pc.Committing? && Step(s, e).committed == s.committed
  {
  }

  /** A close() that finds a consumer forgets it, and is over; one that finds
      none has nothing to wait for. */
  lemma CloseForgets(s: State)
    ensures var t := if s.consumer then Step(Step(s, CloseBegins), CloseEnds) else Step(s, CloseBegins);
            !t.consumer && !t.running && t.closing == s.closing && t.pc == s.pc && t.committed == s.committed
  {
  }

  predicate PullsOne(s: State, e: Event) {
    e.Pull? && e.partition < |s.position| && e.partition < |s.logs|
    && s.position[e.partition] < |s.logs[e.partition]|
  }

  /** Each way out of a session leads, once stop() has returned, to a consumer
      that can subscribe again: no session, no consumer, not running. */
  lemma SessionEnds(s: State, e: Event)
    requires match s.pc
             case Starting => e == StartFails || (e == StartReturns && !s.consumer)
             case Pulling => e == StreamEnds || e == Cancel || (PullsOne(s, e) && !s.running)
             case Handling(_) => e == Cancel
             case Committing(_, _) => e == Cancel
             case _ => false
    ensures var t := Step(Step(s, e), StopReturns);
            && t.pc == Idle && !t.consumer && (t.running ==> e == StartFails && s.running)
            && t.committed == s.committed && t.notes == s.notes && t.logs == s.logs
            && Step(t, Subscribe).pc == Starting && Step(t, Subscribe).position == t.committed
  {
  }

  /** A task cancelled while start() or stop() runs, or a process that dies,
      leaves no session either, but only the latter forgets the consumer. */
  lemma SessionInterrupted(s: State)
    ensures s.pc.Starting? || s.pc.Stopping? ==> Step(s, Cancel) == s.(pc := Idle)
    ensures var t := Step(s, Crash);
            && t.pc == Idle && !t.consumer && !t.running && t.closing == 0
            && t.committed == s.committed && t.notes == s.notes && t.logs == s.logs
  {
  }

  // ------------------------------------------------------------------
  // Messages that do not decode
  // ------------------------------------------------------------------

  predicate InLog(logs: seq<seq<Payload>>, m: Message) {
    m.partition < |logs| && m.offset < |logs[m.partition]|
  }

  /** Decoding m assigns `message`. */
  predicate Decodes(logs: seq<seq<Payload>>, m: Message) {
    InLog(logs, m) && logs[m.partition][m.offset] != BadBody
  }

  /** Before entry i its session had taken a message whose body decoded. */
  ghost predicate DecodedBefore(ns: seq<Note>, logs: seq<seq<Payload>>, i: int) {
    exists h :: 0 <= h < i && h < |ns| && ns[h].Taken? && Decodes(logs, ns[h].m) && SameSession(ns, h, i)
  }

  /** The attempt at entry i was its session's last. */
  ghost predicate LastAttempt(ns: seq<Note>, i: int)
    requires 0 <= i < |ns| && ns[i].Taken?
  {
    i + 1 < |ns| && ns[i + 1] == Failed(ns[i].m) && (i + 2 < |ns| ==> ns[i + 2] == SessionStarted)
  }

  ghost predicate Excused(ns: seq<Note>, logs: seq<seq<Payload>>, live: bool, i: int)
    requires 0 <= i < |ns| && ns[i].Taken?
  {
    && InLog(logs, ns[i].m)
    && (Decodes(logs, ns[i].m) || DecodedBefore(ns, logs, i) || (LastAttempt(ns, i) && (live ==> i + 2 < |ns|)))
  }

  /** `message` is bound only by a decode of the session, and a session goes on
      after a message that does not decode only when it is bound. */
  ghost predicate Decoding(ns: seq<Note>, logs: seq<seq<Payload>>, bound: bool, live: bool) {
    && (live && bound ==> DecodedBefore(ns, logs, |ns|))
    && (forall i :: 0 <= i < |ns| && ns[i].Taken? ==> Excused(ns, logs, live, i))
  }

  lemma DecodedBeforeGrows(ns: seq<Note>, logs: seq<seq<Payload>>, more: seq<Note>, i: int)
    requires 0 <= i <= |ns| && DecodedBefore(ns, logs, i)
    ensures i < |ns| || (forall x :: x in more ==> x != SessionStarted) ==> DecodedBefore(ns + more, logs, i)
    ensures i == |ns| && (forall x :: x in more ==> x != SessionStarted) ==> DecodedBefore(ns + more, logs, i + |more|)
  {
    var h :| 0 <= h < i && ns[h].Taken? && Decodes(logs, ns[h].m) && SameSession(ns, h, i);
    assert (ns + more)[h] == ns[h];
    if i < |ns| {
      assert SameSession(ns + more, h, i);
    } else if forall x :: x in more ==> x != SessionStarted {
      assert SameSession(ns + more, h, i + |more|) by {
        forall k | h < k <= i + |more| && k < |ns + more| ensures (ns + more)[k] != SessionStarted {
          assert k >= |ns| ==> (ns + more)[k] in more;
        }
      }
      assert SameSession(ns + more, h, i);
    }
  }

  lemma ExcusedGrows(ns: seq<Note>, logs: seq<seq<Payload>>, more: seq<Note>, live: bool, after: bool, i: int)
    requires 0 <= i < |ns| && ns[i].Taken? && Excused(ns, logs, live, i) && more != []
    requires live || more[0] == SessionStarted
    ensures Excused(ns + more, logs, after, i)
  {
    if DecodedBefore(ns, logs, i) {
      DecodedBeforeGrows(ns, logs, more, i);
    }
    assert i + 1 < |ns| ==> (ns + more)[i + 1] == ns[i + 1];
  }

  lemma DecodingStarts(ns: seq<Note>, logs: seq<seq<Payload>>, bound: bool, live: bool)
    requires Decoding(ns, logs, bound, live)
    ensures Decoding(ns + [SessionStarted], logs, false, true)
  {
    forall i | 0 <= i < |ns| && ns[i].Taken? ensures Excused(ns + [SessionStarted], logs, true, i) {
      ExcusedGrows(ns, logs, [SessionStarted], live, true, i);
    }
  }

  lemma DecodingGoesOn(ns: seq<Note>, logs: seq<seq<Payload>>, bound: bool, x: Note)
    requires Decoding(ns, logs, bound, true) && !x.Taken? && x != SessionStarted
    ensures Decoding(ns + [x], logs, bound, true)
  {
    if bound {
      DecodedBeforeGrows(ns, logs, [x], |ns|);
    }
    forall i | 0 <= i < |ns| && ns[i].Taken? ensures Excused(ns + [x], logs, true, i) {
      ExcusedGrows(ns, logs, [x], true, true, i);
    }
  }

  lemma DecodingTakes(ns: seq<Note>, logs: seq<seq<Payload>>, bound: bool, m: Message)
    requires Decoding(ns, logs, bound, true) && Decodes(logs, m)
    ensures Decoding(ns + [Taken(m)], logs, true, true)
  {
    var more := ns + [Taken(m)];
    assert more[|ns|] == Taken(m) && SameSession(more, |ns|, |more|);
    forall i | 0 <= i < |ns| && ns[i].Taken? ensures Excused(more, logs, true, i) {
      ExcusedGrows(ns, logs, [Taken(m)], true, true, i);
    }
  }

  lemma DecodingFails(ns: seq<Note>, logs: seq<seq<Payload>>, bound: bool, m: Message)
    requires Decoding(ns, logs, bound, true) && InLog(logs, m)
    ensures Decoding(ns + [Taken(m), Failed(m)], logs, bound, bound)
  {
    var last := [Taken(m), Failed(m)];
    var more := ns + last;
    if bound {
      DecodedBeforeGrows(ns, logs, last, |ns|);
    }
    assert more[|ns|] == Taken(m) && more[|ns| + 1] == Failed(m);
    forall i | 0 <= i < |ns| && ns[i].Taken? ensures Excused(more, logs, bound, i) {
      ExcusedGrows(ns, logs, last, true, bound, i);
    }
  }

  /** Publishing changes nothing about messages that are there. */
  lemma DecodingPublished(ns: seq<Note>, logs: seq<seq<Payload>>, bound: bool, live: bool, p: nat, payload: Payload)
    requires Decoding(ns, logs, bound, live) && p < |logs|
    ensures Decoding(ns, logs[p := logs[p] + [payload]], bound, live)
  {
    var after := logs[p := logs[p] + [payload]];
    assert forall m :: InLog(logs, m) ==> InLog(after, m) && (Decodes(logs, m) <==> Decodes(after, m));
    forall i | 0 <= i <= |ns| && DecodedBefore(ns, logs, i) ensures DecodedBefore(ns, after, i) {
      var h :| 0 <= h < i && h < |ns| && ns[h].Taken? && Decodes(logs, ns[h].m) && SameSession(ns, h, i);
      assert Decodes(after, ns[h].m);
    }
    forall i | 0 <= i < |ns| && ns[i].Taken? ensures Excused(ns, after, live, i) {
      assert Excused(ns, logs, live, i);
    }
  }

  ghost predicate DecodingInv(s: State) {
    Decoding(s.notes, s.logs, s.bound, Live(s))
  }

  lemma TakeDecoding(s: State, p: nat)
    requires DecodingInv(s) && s.pc == Pulling && p < |s.position| && p < |s.logs| && s.position[p] < |s.logs[p]|
    ensures DecodingInv(Take(s, p))
  {
    hide Decoding;
    var m := Message(p, s.position[p]);
    if !s.running {
      DecodingStops(s.notes, s.logs, s.bound, true);
    } else if s.logs[p][m.offset] == BadBody {
      DecodingFails(s.notes, s.logs, s.bound, m);
    } else {
      DecodingTakes(s.notes, s.logs, s.bound, m);
      if s.logs[p][m.offset] == BadHeaders {
        DecodingGoesOn(s.notes + [Taken(m)], s.logs, true, Failed(m));
        assert s.notes + [Taken(m)] + [Failed(m)] == s.notes + [Taken(m), Failed(m)];
      }
    }
  }

  lemma DecodingStops(ns: seq<Note>, logs: seq<seq<Payload>>, bound: bool, live: bool)
    requires Decoding(ns, logs, bound, live)
    ensures Decoding(ns, logs, bound, false)
  {
    forall i | 0 <= i < |ns| && ns[i].Taken? ensures Excused(ns, logs, false, i) {
      assert Excused(ns, logs, live, i);
    }
  }

  lemma StepDecoding(s: State, e: Event)
    requires Inv(s) && DecodingInv(s)
    ensures DecodingInv(Step(s, e))
  {
    hide Decoding, Offsets, Order, Take;
    match e
    case Publish(p, payload) =>
      if p < |s.logs| { DecodingPublished(s.notes, s.logs, s.bound, Live(s), p, payload); }
    case Subscribe => DecodingStarts(s.notes, s.logs, s.bound, Live(s));
    case Pull(p) => if Step(s, e) != s { TakeDecoding(s, p); }
    case HandlerReturns =>
      if s.pc.Handling? { DecodingGoesOn(s.notes, s.logs, s.bound, Succeeded(s.pc.m)); }
    case HandlerRaises =>
      if s.pc.Handling? { DecodingGoesOn(s.notes, s.logs, s.bound, Failed(s.pc.m)); }
    case CommitApplies =>
      if s.pc.Committing? && !s.pc.applied { DecodingGoesOn(s.notes, s.logs, s.bound, CommitApplied); }
    case _ => {
      QuietDecoding(s, e);
    }
  }

  lemma QuietDecoding(s: State, e: Event)
    requires Inv(s) && DecodingInv(s)
    requires !e.Publish? && !e.Subscribe? && !e.Pull? && !e.HandlerReturns? && !e.HandlerRaises? && !e.CommitApplies?
    ensures DecodingInv(Step(s, e))
  {
    assert Step(s, e).logs == s.logs;
    assert Shape(s);
    QuietFrame(s, e);
    hide Step, Decoding, Offsets, Order;
    DecodingStops(s.notes, s.logs, s.bound, Live(s));
  }

  lemma {:induction false} RunDecoding(partitions: nat, events: seq<Event>)
    ensures DecodingInv(Run(Init(partitions), events))
  {
    hide Step, Inv;
    if events != [] {
      var n := |events| - 1;
      RunDecoding(partitions, events[..n]);
      ReachableInv(partitions, events[..n]);
      StepDecoding(Run(Init(partitions), events[..n]), events[n]);
    }
  }

  /** A message the loop took is in the log, and one that does not decode has
      failed at once: the handler is never called with it. */
  ghost predicate FailsIfBroken(ns: seq<Note>, logs: seq<seq<Payload>>, i: int)
    requires 0 <= i < |ns| && ns[i].Taken?
  {
    && InLog(logs, ns[i].m)
    && (logs[ns[i].m.partition][ns[i].m.offset] != Good ==> i + 1 < |ns| && ns[i + 1] == Failed(ns[i].m))
  }

  ghost predicate BrokenFails(ns: seq<Note>, logs: seq<seq<Payload>>) {
    forall i :: 0 <= i < |ns| && ns[i].Taken? ==> FailsIfBroken(ns, logs, i)
  }

  /** No message of the latest session has decoded yet. */
  ghost predicate NothingDecoded(ns: seq<Note>, logs: seq<seq<Payload>>) {
    forall h :: 0 <= h < |ns| && ns[h].Taken? && Decodes(logs, ns[h].m) ==> !SameSession(ns, h, |ns|)
  }

  ghost predicate BrokenInv(s: State) {
    BrokenFails(s.notes, s.logs) && (Live(s) && !s.bound ==> NothingDecoded(s.notes, s.logs))
  }

  lemma NothingDecodedGrows(ns: seq<Note>, logs: seq<seq<Payload>>, more: seq<Note>)
    requires NothingDecoded(ns, logs) && forall x :: x in more && x.Taken? ==> !Decodes(logs, x.m)
    ensures NothingDecoded(ns + more, logs)
  {
    var all := ns + more;
    forall h | 0 <= h < |all| && all[h].Taken? && Decodes(logs, all[h].m) ensures !SameSession(all, h, |all|) {
      assert h < |ns| && all[h] == ns[h];
      var k :| h < k < |ns| && ns[k] == SessionStarted;
      assert all[k] == SessionStarted;
    }
  }

  lemma TakeBroken(s: State, p: nat)
    requires BrokenInv(s) && s.pc == Pulling && p < |s.position| && p < |s.logs| && s.position[p] < |s.logs[p]|
    ensures BrokenInv(Take(s, p))
  {
    hide NothingDecoded;
    var m := Message(p, s.position[p]);
    forall i | 0 <= i < |Take(s, p).notes| && Take(s, p).notes[i].Taken?
      ensures FailsIfBroken(Take(s, p).notes, s.logs, i)
    {
      if i < |s.notes| { assert FailsIfBroken(s.notes, s.logs, i); }
    }
    if s.running && s.logs[p][m.offset] == BadBody && !s.bound {
      NothingDecodedGrows(s.notes, s.logs, [Taken(m), Failed(m)]);
    }
  }

  lemma PublishBroken(s: State, p: nat, payload: Payload)
    requires BrokenInv(s) && p < |s.logs|
    ensures BrokenInv(Step(s, Publish(p, payload)))
  {
    var after := s.logs[p := s.logs[p] + [payload]];
    assert forall m :: InLog(s.logs, m) ==> InLog(after, m) && (Decodes(s.logs, m) <==> Decodes(after, m));
    forall i | 0 <= i < |s.notes| && s.notes[i].Taken? ensures FailsIfBroken(s.notes, after, i) {
      assert FailsIfBroken(s.notes, s.logs, i);
    }
  }

  lemma StepBroken(s: State, e: Event)
    requires BrokenInv(s)
    ensures BrokenInv(Step(s, e))
  {
    hide NothingDecoded, BrokenFails, Take;
    match e
    case Publish(p, payload) => if p < |s.logs| { PublishBroken(s, p, payload); }
    case Pull(p) => if Step(s, e) != s { TakeBroken(s, p); }
    case Subscribe => NotesBroken(s, SessionStarted);
    case HandlerReturns => if s.pc.Handling? { NotesBroken(s, Succeeded(s.pc.m)); }
    case HandlerRaises => if s.pc.Handling? { NotesBroken(s, Failed(s.pc.m)); }
    case CommitApplies => NotesBroken(s, CommitApplied);
    case _ => {}
  }

  lemma NotesBroken(s: State, x: Note)
    requires BrokenInv(s) && !x.Taken?
    ensures BrokenFails(s.notes + [x], s.logs)
    ensures x == SessionStarted || (Live(s) && !s.bound) ==> NothingDecoded(s.notes + [x], s.logs)
  {
    if x == SessionStarted {
      assert (s.notes + [x])[|s.notes|] == SessionStarted;
    } else if Live(s) && !s.bound {
      NothingDecodedGrows(s.notes, s.logs, [x]);
    }
    forall i | 0 <= i < |s.notes + [x]| && (s.notes + [x])[i].Taken?
      ensures FailsIfBroken(s.notes + [x], s.logs, i)
    {
      assert FailsIfBroken(s.notes, s.logs, i);
    }
  }

  lemma {:induction false} RunBroken(partitions: nat, events: seq<Event>)
    ensures BrokenInv(Run(Init(partitions), events))
  {
    hide Step, BrokenFails, NothingDecoded;
    if events != [] {
      var n := |events| - 1;
      RunBroken(partitions, events[..n]);
      StepBroken(Run(Init(partitions), events[..n]), events[n]);
    } else {
      assert BrokenInv(Init(partitions)) by { StartsUnbroken(partitions); }
    }
  }

  lemma StartsUnbroken(partitions: nat)
    ensures BrokenInv(Init(partitions))
  {
  }

  /** In every run the handler only ever finishes messages that decode, and
      every other message the loop takes fails at once. */
  lemma OnlyDecodedAreHandled(partitions: nat, events: seq<Event>, i: nat)
    requires i < |Run(Init(partitions), events).notes| && Run(Init(partitions), events).notes[i].Taken?
    ensures var s := Run(Init(partitions), events);
            var m := s.notes[i].m;
            && InLog(s.logs, m)
            && (s.logs[m.partition][m.offset] != Good ==> i + 1 < |s.notes| && s.notes[i + 1] == Failed(m))
  {
    hide Step, Run;
    RunBroken(partitions, events);
    var s := Run(Init(partitions), events);
    assert FailsIfBroken(s.notes, s.logs, i);
  }

  /** What becomes of a message that does not decode: it fails, its offset is
      passed, and the loop goes on after bad headers always, but after a bad
      body exactly when the session had decoded a message before. */
  lemma BrokenEndsSessionExactly(partitions: nat, events: seq<Event>, p: nat)
    requires var s := Run(Init(partitions), events);
             && s.pc == Pulling && s.running && p < |s.position| && p < |s.logs|
             && s.position[p] < |s.logs[p]| && s.logs[p][s.position[p]] != Good
    ensures var s := Run(Init(partitions), events);
            var m, t := Message(p, s.position[p]), Step(s, Pull(p));
            && t.notes == s.notes + [Taken(m), Failed(m)] && t.position == s.position[p := m.offset + 1]
            && (t.pc == Pulling <==> Decodes(s.logs, m) || DecodedBefore(s.notes, s.logs, |s.notes|))
  {
    hide Run, Decodes, DecodedBefore, NothingDecoded, Decoding;
    RunBroken(partitions, events);
    RunDecoding(partitions, events);
    var s := Run(Init(partitions), events);
    BoundExactly(s);
    assert Decodes(s.logs, Message(p, s.position[p])) <==> s.logs[p][s.position[p]] != BadBody by {
      DecodesIs(s.logs, p, s.position[p]);
    }
  }

  lemma DecodesIs(logs: seq<seq<Payload>>, p: nat, i: nat)
    requires p < |logs| && i < |logs[p]|
    ensures Decodes(logs, Message(p, i)) <==> logs[p][i] != BadBody
  {
  }

  lemma BoundExactly(s: State)
    requires BrokenInv(s) && DecodingInv(s) && Live(s)
    ensures s.bound <==> DecodedBefore(s.notes, s.logs, |s.notes|)
  {
    hide BrokenFails;
  }

  /** A commit was applied in a session that took m after a message whose body decoded. */
  ghost predicate CarriedOver(ns: seq<Note>, logs: seq<seq<Payload>>, m: Message) {
    exists h, i, j :: 0 <= h < i < j < |ns|
                   && ns[h].Taken? && Decodes(logs, ns[h].m)
                   && ns[i] == Taken(m) && ns[j] == CommitApplied && SameSession(ns, h, j)
  }

  /** In every run a message that does not decode is committed exactly when the
      session that took it had decoded another message before, so that
      `message` was bound, and had a commit applied after. */
  lemma PoisonPassedExactlyWhenBound(partitions: nat, events: seq<Event>, m: Message)
    requires var s := Run(Init(partitions), events); InLog(s.logs, m) && !Decodes(s.logs, m)
    ensures var s := Run(Init(partitions), events);
            Below(m, s.committed) <==> CarriedOver(s.notes, s.logs, m)
  {
    hide Step, Run, Decodes, InLog, SameSession;
    CommittedExactlyCovered(partitions, events, m);
    RunDecoding(partitions, events);
    var s := Run(Init(partitions), events);
    var ns := s.notes;
    if Covered(ns, m) {
      var i, j :| 0 <= i < j < |ns| && ns[i] == Taken(m) && ns[j] == CommitApplied && SameSession(ns, i, j);
      CoveredWasBound(ns, s.logs, Live(s), i, j);
    }
    if CarriedOver(ns, s.logs, m) {
      var h, i, j :| 0 <= h < i < j < |ns| && ns[h].Taken? && Decodes(s.logs, ns[h].m)
                  && ns[i] == Taken(m) && ns[j] == CommitApplied && SameSession(ns, h, j);
      SessionShrinks(ns, h, i, j);
    }
  }

  lemma SessionShrinks(ns: seq<Note>, h: int, i: int, j: int)
    requires h <= i <= j && SameSession(ns, h, j)
    ensures SameSession(ns, i, j)
  {
  }

  lemma CoveredWasBound(ns: seq<Note>, logs: seq<seq<Payload>>, live: bool, i: int, j: int)
    requires 0 <= i < j < |ns| && ns[i].Taken? && ns[j] == CommitApplied && SameSession(ns, i, j)
    requires Excused(ns, logs, live, i) && !Decodes(logs, ns[i].m)
    ensures CarriedOver(ns, logs, ns[i].m)
  {
    assert !LastAttempt(ns, i);
    var h :| 0 <= h < i && h < |ns| && ns[h].Taken? && Decodes(logs, ns[h].m) && SameSession(ns, h, i);
    assert SameSession(ns, h, j);
  }
}

/** The consumer itself, with the broker's side of the session in its fields. */
module KafkaConsumerModel {
  import opened KafkaProtocol

  /** Whether e lets a task suspended at pc go on. */
  predicate Wakes(pc: Pc, e: Event) {
    match pc
    case Idle => false
    case Starting => e.StartReturns? || e.StartFails? || e.Cancel? || e.Crash?
    case Pulling => e.Pull? || e.StreamEnds? || e.Cancel? || e.Crash?
    case Handling(_) => e.HandlerReturns? || e.HandlerRaises? || e.Cancel? || e.Crash?
    case Committing(_, _) => e.CommitReturns? || e.Cancel? || e.Crash?
    case Stopping => e.StopReturns? || e.Cancel? || e.Crash?
  }

  class KafkaConsumer {
    var running: bool
    var hasConsumer: bool
    var closing: nat
    // the broker and the session
    var logs: seq<seq<Payload>>
    var committed: seq<nat>
    var position: seq<nat>
    // where subscribe() is suspended, its local `message`, and what has happened
    var pc: Pc
    var bound: bool
    ghost var notes: seq<Note>

    ghost function View(): State
      reads this
    {
      State(logs, committed, position, running, hasConsumer, closing, bound, pc, notes)
    }

    constructor (partitions: nat)
      ensures View() == Init(partitions)
    {
      running, hasConsumer, closing := false, false, 0;
      logs := seq(partitions, _ => []);
      committed := seq(partitions, _ => 0);
      position := seq(partitions, _ => 0);
      bound, pc, notes := false, Idle, [];
    }

    /** close(), up to its await. */
    method Close()
      modifies this
      ensures View() == Step(old(View()), CloseBegins)
    {
      running := false;
      if hasConsumer { closing := closing + 1; }
    }

    /** close(), after its await. */
    method CloseResumed()
      requires closing > 0
      modifies this
      ensures View() == Step(old(View()), CloseEnds)
    {
      hasConsumer := false;
      closing := closing - 1;
    }

    /** The process dies. */
    method Die()
      modifies this
      ensures View() == Step(old(View()), Crash)
    {
      running, hasConsumer, closing, pc := false, false, 0, Idle;
    }

    /** What the rest of the world does while subscribe() stays suspended. */
    method Meanwhile(e: Event)
      requires pc != Idle && !Wakes(pc, e)
      modifies this
      ensures View() == Step(old(View()), e) && SamePlace(pc, old(pc)) && bound == old(bound)
    {
      match e
      case Publish(p, payload) =>
        if p < |logs| { logs := logs[p := logs[p] + [payload]]; }
      case CommitApplies =>
        if pc.Committing? && !pc.applied {
          committed, pc, notes := position, Committing(pc.m, true), notes + [CommitApplied];
        }
      case CloseBegins => Close();
      case CloseEnds => if closing > 0 { CloseResumed(); }
      case _ =>
    }

    /** Stay suspended until an event of the script wakes the task. */
    method Await(script: seq<Event>, from: nat, ghost s0: State) returns (n: nat)
      requires from <= |script| && pc != Idle && View() == Run(s0, script[..from])
      modifies this
      ensures from <= n <= |script| && View() == Run(s0, script[..n])
      ensures SamePlace(pc, old(pc)) && bound == old(bound)
      ensures n < |script| ==> Wakes(pc, script[n]) && Run(s0, script[..n + 1]) == Step(View(), script[n])
    {
      hide Step, Run;
      n := from;
      while n < |script| && !Wakes(pc, script[n])
        invariant from <= n <= |script| && View() == Run(s0, script[..n])
        invariant SamePlace(pc, old(pc)) && bound == old(bound)
      {
        Meanwhile(script[n]);
        Next(s0, script, n);
        n := n + 1;
      }
      if n < |script| { Next(s0, script, n); }
    }

    /** stop() returned, was cancelled, or the process died. */
    method StopResumed(e: Event)
      requires pc == Stopping && Wakes(pc, e)
      modifies this
      ensures View() == Step(old(View()), e) && pc == Idle && bound == old(bound)
    {
      match e
      case StopReturns => hasConsumer, running, pc := false, false, Idle;
      case Cancel => pc := Idle;
      case Crash => Die();
    }

    /** The `finally` block of subscribe(). */
    method FinallyBlock(script: seq<Event>, from: nat, ghost s0: State) returns (n: nat)
      requires from <= |script| && Run(s0, script[..from]) == Finally(View())
      modifies this
      ensures from <= n <= |script| && View() == Run(s0, script[..n])
      ensures n < |script| ==> pc == Idle
    {
      hide Step, Run;
      if !hasConsumer {
        running, pc := false, Idle;
        return from;
      }
      pc := Stopping;
      n := Await(script, from, s0);
      if n < |script| {
        StopResumed(script[n]);
        n := n + 1;
      }
    }

    /** The session is cancelled or its stream ends, or the process dies. */
    method Leave(script: seq<Event>, from: nat, ghost s0: State) returns (n: nat)
      requires from < |script| && View() == Run(s0, script[..from])
      requires script[from].Crash? || (script[from].StreamEnds? && pc.Pulling?)
            || (script[from].Cancel? && (pc.Pulling? || pc.Handling? || pc.Committing?))
      modifies this
      ensures from < n <= |script| && View() == Run(s0, script[..n])
      ensures n == |script| || pc == Idle
    {
      hide Run;
      Next(s0, script, from);
      if script[from].Crash? {
        Die();
        return from + 1;
      }
      n := FinallyBlock(script, from + 1, s0);
    }

    /** The await in ack(): commit the consumer's positions.  An error from
        commit() is swallowed; cancellation is not. */
    method Commit(script: seq<Event>, from: nat, m: Message, ghost s0: State) returns (n: nat, alive: bool)
      requires from <= |script| && pc == Committing(m, false) && View() == Run(s0, script[..from])
      modifies this
      ensures from <= n <= |script|
      ensures View() == Run(s0, script[..n])
      ensures alive ==> pc == Pulling
      ensures !alive ==> n == |script| || pc == Idle
    {
      hide Run;
      n := Await(script, from, s0);
      if n == |script| { return n, false; }
      if script[n].CommitReturns? {
        pc := Pulling;
        return n + 1, true;
      }
      n := Leave(script, n, s0);
      return n, false;
    }

    /** The loop body for the next message of partition p, up to its first
        await.  `leave` says that the loop is left. */
    method Body(p: nat) returns (leave: bool)
      requires pc == Pulling
      modifies this
      ensures leave ==> Finally(View()) == Step(old(View()), Pull(p))
      ensures !leave ==> View() == Step(old(View()), Pull(p)) && (pc.Pulling? || pc.Handling?)
    {
      if p >= |position| || p >= |logs| || position[p] >= |logs[p]| { return false; }
      var m := Message(p, position[p]);
      position := position[p := position[p] + 1];
      if !running { return true; }
      match logs[p][m.offset]
      case BadBody =>
        notes := notes + [Taken(m), Failed(m)];
        return !bound;  // nack(message) raises when there is no `message`
      case BadHeaders =>
        bound, notes := true, notes + [Taken(m), Failed(m)];
        return false;
      case Good =>
        bound, pc, notes := true, Handling(m), notes + [Taken(m)];
        return false;
    }

    /** The handler returned or raised; ack() or nack() runs up to its await. */
    method HandlerResumed(e: Event)
      requires pc.Handling? && (e.HandlerReturns? || e.HandlerRaises?)
      modifies this
      ensures View() == Step(old(View()), e)
      ensures pc == Pulling || pc == Committing(old(pc.m), false)
    {
      if e.HandlerReturns? {
        notes := notes + [Succeeded(pc.m)];
        pc := if hasConsumer then Committing(pc.m, false) else Pulling;
      } else {
        notes, pc := notes + [Failed(pc.m)], Pulling;
      }
    }

    /** From the await of the handler to the end of the loop body. */
    method Handle(script: seq<Event>, from: nat, ghost s0: State) returns (n: nat, alive: bool)
      requires from <= |script| && pc.Handling? && View() == Run(s0, script[..from])
      modifies this
      ensures from <= n <= |script|
      ensures View() == Run(s0, script[..n])
      ensures alive ==> pc == Pulling
      ensures !alive ==> n == |script| || pc == Idle
    {
      hide Step, Run;
      n := Await(script, from, s0);
      if n == |script| { return n, false; }
      if script[n].Cancel? || script[n].Crash? {
        n := Leave(script, n, s0);
        return n, false;
      }
      HandlerResumed(script[n]);
      n, alive := n + 1, true;
      if pc.Committing? {
        n, alive := Commit(script, n, pc.m, s0);
      }
    }

    /** `async for msg in consumer`, and the `finally` block after it. */
    method Consume(script: seq<Event>, from: nat, ghost s0: State) returns (n: nat)
      requires from <= |script| && pc == Pulling && View() == Run(s0, script[..from])
      modifies this
      ensures from <= n <= |script| && View() == Run(s0, script[..n])
      ensures n == |script| || pc == Idle
    {
      hide Step, Run;
      n := from;
      var alive := true;
      while alive
        invariant from <= n <= |script| && View() == Run(s0, script[..n])
        invariant alive ==> pc == Pulling
        invariant !alive ==> n == |script| || pc == Idle
        decreases alive, |script| - n
      {
        n := Await(script, n, s0);
        if n == |script| { return; }
        if !script[n].Pull? {
          n := Leave(script, n, s0);
          return;
        }
        var leave := Body(script[n].partition);
        n := n + 1;
        if leave {
          n := FinallyBlock(script, n, s0);
          return;
        }
        if pc.Handling? {
          n, alive := Handle(script, n, s0);
        }
      }
    }

    /** start() raised, was cancelled, or the process died. */
    method StartFailed(e: Event)
      requires pc == Starting && (e.StartFails? || e.Cancel? || e.Crash?)
      modifies this
      ensures View() == Step(old(View()), e) && pc == Idle
    {
      match e
      case StartFails => hasConsumer, pc := false, Idle;
      case Cancel => pc := Idle;
      case Crash => Die();
    }

    /** subscribe(), driven by whatever the script says happens next.  After
        every event its fields are the protocol's state. */
    method Subscribe(script: seq<Event>) returns (n: nat)
      requires pc == Idle
      modifies this
      ensures n <= |script|
      ensures View() == Run(Step(old(View()), Event.Subscribe), script[..n])
      ensures n < |script| ==> pc == Idle
    {
      ghost var s0 := Step(View(), Event.Subscribe);
      hasConsumer, position, bound, pc := true, committed, false, Starting;
      notes := notes + [SessionStarted];
      n := Await(script, 0, s0);
      if n == |script| { return; }
      if !script[n].StartReturns? {
        StartFailed(script[n]);
        return n + 1;
      }
      running, n := true, n + 1;
      if hasConsumer {
        pc := Pulling;
        n := Consume(script, n, s0);
      } else {
        n := FinallyBlock(script, n, s0);
      }
    }
  }

  predicate SamePlace(a: Pc, b: Pc) {
    a == b || (a.Committing? && b.Committing? && a.m == b.m)
  }

  lemma Next(s0: State, script: seq<Event>, n: nat)
    requires n < |script|
    ensures Run(s0, script[..n + 1]) == Step(Run(s0, script[..n]), script[n])
  {
    hide Step, Run;
    assert script[..n + 1] == script[..n] + [script[n]];
    RunSplit(s0, script[..n], script[n]);
  }
}
