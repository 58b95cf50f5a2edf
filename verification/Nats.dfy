/** Delivery through the durable JetStream consumer.

    A stream message waits for a delivery, is outstanding, is acknowledged, or
    is exhausted after `max_deliver` deliveries (a limit of zero or less means
    no limit).  Acknowledgements are fire-and-forget: the server may act on one
    at any later time, or never.
 */
module JetStream {
  import opened Sets

  datatype Stream = Stream(
    maxDeliver: int,
    published: nat,          // messages 0 .. published - 1
    waiting: set<nat>,
    outstanding: set<nat>,
    acked: set<nat>,
    exhausted: set<nat>,
    deliveries: seq<nat>)    // the message of each delivery, in delivery order

  function DeliveriesOf(st: Stream, m: nat): set<nat> {
    set d | 0 <= d < |st.deliveries| && st.deliveries[d] == m
  }

  predicate SpentFor(st: Stream, m: nat) {
    st.maxDeliver > 0 && |DeliveriesOf(st, m)| >= st.maxDeliver
  }

  function Publish(st: Stream): Stream {
    st.(published := st.published + 1, waiting := st.waiting + {st.published})
  }

  function Deliver(st: Stream, m: nat): Stream {
    st.(waiting := st.waiting - {m}, outstanding := st.outstanding + {m}, deliveries := st.deliveries + [m])
  }

  /** `ack_wait` ran out, or the message was nak'd. */
  function Retry(st: Stream, m: nat): Stream {
    if m !in st.outstanding then st
    else if SpentFor(st, m) then st.(outstanding := st.outstanding - {m}, exhausted := st.exhausted + {m})
    else st.(outstanding := st.outstanding - {m}, waiting := st.waiting + {m})
  }

  /** An ack of any delivery settles the message, unless it is settled or exhausted already. */
  function Ack(st: Stream, m: nat): Stream {
    if m !in st.outstanding && m !in st.waiting then st
    else st.(outstanding := st.outstanding - {m}, waiting := st.waiting - {m}, acked := st.acked + {m})
  }

  /** Every message is in exactly one of the four places. */
  ghost predicate Conserved(st: Stream) {
    && st.waiting !! st.outstanding !! st.acked !! st.exhausted
    && st.waiting + st.outstanding + st.acked + st.exhausted == Upto(st.published)
  }

  /** Delivery counts agree with the places. */
  ghost predicate Counted(st: Stream) {
    && (forall d :: 0 <= d < |st.deliveries| ==> st.deliveries[d] < st.published)
    && (forall m :: m in st.waiting ==> !SpentFor(st, m))
    && (forall m: nat :: st.maxDeliver > 0 ==> |DeliveriesOf(st, m)| <= st.maxDeliver)
    && (forall m :: m in st.exhausted ==> st.maxDeliver > 0 && |DeliveriesOf(st, m)| == st.maxDeliver)
  }

  lemma CountAfterDeliver(st: Stream, m: nat, k: nat)
    ensures |DeliveriesOf(Deliver(st, m), k)| == |DeliveriesOf(st, k)| + if k == m then 1 else 0
  {
    assert DeliveriesOf(Deliver(st, m), k) == DeliveriesOf(st, k) + if k == m then {|st.deliveries|} else {};
  }

  lemma PublishKeeps(st: Stream)
    requires Conserved(st) && Counted(st)
    ensures Conserved(Publish(st)) && Counted(Publish(st))
  {
    var n := Publish(st);
    assert st.published !in st.waiting + st.outstanding + st.acked + st.exhausted;
    assert Upto(n.published) == Upto(st.published) + {st.published};
    forall m ensures DeliveriesOf(n, m) == DeliveriesOf(st, m) {}
    assert DeliveriesOf(st, st.published) == {};
  }

  lemma DeliverKeeps(st: Stream, m: nat)
    requires Conserved(st) && Counted(st) && m in st.waiting
    ensures Conserved(Deliver(st, m)) && Counted(Deliver(st, m))
  {
    var n := Deliver(st, m);
    assert n.waiting + n.outstanding + n.acked + n.exhausted == st.waiting + st.outstanding + st.acked + st.exhausted;
    assert m < st.published by { assert m in Upto(st.published); }
    forall k: nat ensures |DeliveriesOf(n, k)| == |DeliveriesOf(st, k)| + if k == m then 1 else 0 {
      CountAfterDeliver(st, m, k);
    }
  }

  lemma RetryKeeps(st: Stream, m: nat)
    requires Conserved(st) && Counted(st)
    ensures Conserved(Retry(st, m)) && Counted(Retry(st, m))
  {
    var n := Retry(st, m);
    assert n.waiting + n.outstanding + n.acked + n.exhausted == st.waiting + st.outstanding + st.acked + st.exhausted;
    forall k ensures DeliveriesOf(n, k) == DeliveriesOf(st, k) {}
  }

  lemma AckKeeps(st: Stream, m: nat)
    requires Conserved(st) && Counted(st)
    ensures Conserved(Ack(st, m)) && Counted(Ack(st, m))
  {
    var n := Ack(st, m);
    assert n.waiting + n.outstanding + n.acked + n.exhausted == st.waiting + st.outstanding + st.acked + st.exhausted;
    forall k ensures DeliveriesOf(n, k) == DeliveriesOf(st, k) {}
  }
}

module NatsProtocol {
  import opened JetStream
  import opened Sets
  import opened Settlements

  datatype Pc = Idle | Starting | Pulling | Handling(delivery: nat) | Settling | Stopping

  datatype State = State(
    stream: Stream,
    buffer: seq<nat>,        // deliveries waiting in the subscription
    sent: set<(nat, bool)>,  // acks (true) and naks (false) on their way
    recorded: set<nat>,      // deliveries whose ack settled their message
    running: bool,
    nc: bool,                // `_nc is not None`
    sub: bool,               // `_sub is not None`
    closing: nat,
    pc: Pc,
    notes: seq<Note>)

  datatype Event =
    | Publish
    | Deliver(message: nat)
    | AckWaitElapses(message: nat)
    | ServerActs(delivery: nat, ack: bool)
    | Subscribe
    | StartReturns
    | StartFails
    | Pull(decodes: bool)
    | HandlerReturns
    | HandlerRaises
    | SettleReturns
    | StreamEnds
    | StopReturns
    | CloseBegins
    | CloseEnds
    | Cancel
    | Crash

  function Init(maxDeliver: int): State {
    State(Stream(maxDeliver, 0, {}, {}, {}, {}, []), [], {}, {}, false, false, false, 0, Idle, [])
  }

  function Log(s: State, more: seq<Note>): State {
    s.(notes := s.notes + more)
  }

  predicate Live(pc: Pc) {
    pc.Pulling? || pc.Handling? || pc.Settling?
  }

  /** ack() or nack() of one delivery, up to its await. */
  function Ask(s: State, outcome: Note, ack: bool): State {
    Log(s, [outcome, Asked(outcome.tag, ack)]).(sent := s.sent + {(outcome.tag, ack)}, pc := Settling)
  }

  function Finally(s: State): State {
    if s.sub || s.nc then s.(buffer := [], pc := Stopping) else s.(buffer := [], running := false, pc := Idle)
  }

  function Take(s: State, decodes: bool): State
    requires s.buffer != []
  {
    var d := s.buffer[0];
    var pulled := s.(buffer := s.buffer[1..]);
    if !s.running then Finally(pulled)
    else if decodes then Log(pulled, [Taken(d)]).(pc := Handling(d))
    else Ask(Log(pulled, [Taken(d)]), Raised(d), false)
  }

  function ServerStep(s: State, d: nat, ack: bool): State
    requires d < |s.stream.deliveries|
  {
    var m, arrived := s.stream.deliveries[d], s.(sent := s.sent - {(d, ack)});
    if !ack then arrived.(stream := Retry(s.stream, m))
    else if m in s.stream.outstanding || m in s.stream.waiting
    then arrived.(stream := Ack(s.stream, m), recorded := s.recorded + {d})
    else arrived
  }

  function Step(s: State, e: Event): State {
    match e
    case Publish => s.(stream := JetStream.Publish(s.stream))
    case Deliver(m) =>
      if m !in s.stream.waiting || !Live(s.pc) then s
      else s.(stream := JetStream.Deliver(s.stream, m), buffer := s.buffer + [|s.stream.deliveries|])
    case AckWaitElapses(m) => s.(stream := Retry(s.stream, m))
    case ServerActs(d, ack) =>
      if (d, ack) in s.sent && d < |s.stream.deliveries| then ServerStep(s, d, ack) else s
    case Subscribe =>
      if s.pc != Idle then s else s.(nc := true, sub := false, buffer := [], pc := Starting)
    case StartReturns =>
      if s.pc != Starting then s else s.(sub := true, running := true, pc := Pulling)
    case StartFails =>
      if s.pc != Starting then s else s.(nc := false, sub := false, pc := Idle)
    case Pull(decodes) =>
      if s.pc == Pulling && s.buffer != [] then Take(s, decodes) else s
    case HandlerReturns =>
      if !s.pc.Handling? then s else Ask(s, Returned(s.pc.delivery), true)
    case HandlerRaises =>
      if !s.pc.Handling? then s else Ask(s, Raised(s.pc.delivery), false)
    case SettleReturns =>
      if s.pc != Settling then s else s.(pc := Pulling)
    case StreamEnds =>
      if s.pc != Pulling then s else Finally(s)
    case StopReturns =>
      if s.pc != Stopping then s else s.(nc := false, sub := false, running := false, pc := Idle)
    case CloseBegins =>
      s.(running := false, closing := if s.sub || s.nc then s.closing + 1 else s.closing)
    case CloseEnds =>
      if s.closing == 0 then s else s.(nc := false, closing := s.closing - 1)
    case Cancel =>
      if Live(s.pc) then Finally(s) else s.(pc := Idle)
    case Crash =>
      s.(running := false, nc := false, sub := false, closing := 0, buffer := [], pc := Idle)
  }

  function Run(s: State, events: seq<Event>): State {
    if events == [] then s
    else Step(Run(s, events[..|events| - 1]), events[|events| - 1])
  }

  // ------------------------------------------------------------------
  // The invariant
  // ------------------------------------------------------------------

  /** Deliveries waiting in the buffer are known, distinct and not yet taken. */
  ghost predicate BufferFresh(s: State) {
    && (forall i :: 0 <= i < |s.buffer| ==> s.buffer[i] < |s.stream.deliveries| && Taken(s.buffer[i]) !in s.notes)
    && (forall i, j :: 0 <= i < j < |s.buffer| ==> s.buffer[i] != s.buffer[j])
    && (forall n :: n in s.notes ==> n.tag < |s.stream.deliveries|)
  }

  ghost predicate InHand(s: State) {
    s.pc.Handling? ==> s.notes != [] && s.notes[|s.notes| - 1] == Taken(s.pc.delivery)
  }

  /** Only asked settlements travel, and exactly the recorded ones count. */
  ghost predicate AcksAsked(s: State) {
    && (forall ask :: ask in s.sent ==> Asked(ask.0, ask.1) in s.notes)
    && (forall d :: d in s.recorded ==> Asked(d, true) in s.notes && d < |s.stream.deliveries|)
    && (forall m :: m in s.stream.acked <==> m in MessagesOf(s))
  }

  function MessagesOf(s: State): set<nat> {
    set d | d in s.recorded && d < |s.stream.deliveries| :: s.stream.deliveries[d]
  }

  ghost predicate Inv(s: State) {
    Conserved(s.stream) && Counted(s.stream) && Orderly(s.notes) && BufferFresh(s) && InHand(s) && AcksAsked(s)
  }

  lemma DeliverInv(s: State, m: nat)
    requires Inv(s) && m in s.stream.waiting
    ensures Inv(Step(s, Deliver(m)))
  {
    hide Conserved, Counted, Fits, Answered;
    DeliverKeeps(s.stream, m);
    assert MessagesOf(Step(s, Deliver(m))) == MessagesOf(s);
  }

  lemma ServerInv(s: State, d: nat, ack: bool)
    requires Inv(s) && (d, ack) in s.sent && d < |s.stream.deliveries|
    ensures Inv(ServerStep(s, d, ack))
  {
    hide Conserved, Counted, Fits, Answered;
    var t := ServerStep(s, d, ack);
    RetryKeeps(s.stream, s.stream.deliveries[d]);
    AckKeeps(s.stream, s.stream.deliveries[d]);
    if t.recorded == s.recorded + {d} {
      assert MessagesOf(t) == MessagesOf(s) + {s.stream.deliveries[d]};
    } else {
      assert MessagesOf(t) == MessagesOf(s);
    }
  }

  lemma NotesInv(s: State, more: seq<Note>, t: State)
    requires AcksAsked(s) && t.notes == s.notes + more && t.stream == s.stream && t.recorded == s.recorded
    requires forall ask :: ask in t.sent ==> ask in s.sent || Asked(ask.0, ask.1) in more
    ensures AcksAsked(t)
  {
    assert MessagesOf(t) == MessagesOf(s);
  }

  lemma TakeInv(s: State, decodes: bool)
    requires Inv(s) && s.buffer != []
    ensures Inv(Take(s, decodes))
  {
    hide Conserved, Counted, Fits, Answered;
    var t := Take(s, decodes);
    if s.running {
      var d := s.buffer[0];
      var more := TakenNotes(s.notes, d, decodes);
      assert t.notes == s.notes + more;
      NotesInv(s, more, t);
      forall i | 0 <= i < |t.buffer| ensures Taken(t.buffer[i]) !in t.notes {
        assert t.buffer[i] == s.buffer[i + 1] != d;
      }
    } else {
      NotesInv(s, [], t);
    }
  }

  lemma OutcomeInv(s: State, e: Event)
    requires Inv(s) && s.pc.Handling? && (e.HandlerReturns? || e.HandlerRaises?)
    ensures Inv(Step(s, e))
  {
    hide Conserved, Counted, Fits, Answered;
    var more := OutcomeNotes(s.notes, s.pc.delivery, e.HandlerReturns?);
    assert Step(s, e).notes == s.notes + more;
    NotesInv(s, more, Step(s, e));
  }

  lemma QuietInv(s: State, e: Event)
    requires Inv(s)
    requires e.Subscribe? || e.StartReturns? || e.StartFails? || e.SettleReturns? || e.StreamEnds? || e.StopReturns?
          || e.CloseBegins? || e.CloseEnds? || e.Cancel? || e.Crash?
    ensures Inv(Step(s, e))
  {
    hide Conserved, Counted, Fits, Answered;
    var t := Step(s, e);
    assert t.stream == s.stream && t.notes == s.notes && t.sent == s.sent && t.recorded == s.recorded;
    assert t.buffer == s.buffer || t.buffer == [];
    assert MessagesOf(t) == MessagesOf(s);
  }

  lemma StepInv(s: State, e: Event)
    requires Inv(s)
    ensures Inv(Step(s, e))
  {
    hide Conserved, Counted, Fits, Answered;
    match e
    case Publish =>
      PublishKeeps(s.stream);
      assert MessagesOf(Step(s, e)) == MessagesOf(s);
    case AckWaitElapses(m) =>
      RetryKeeps(s.stream, m);
      assert MessagesOf(Step(s, e)) == MessagesOf(s);
    case Deliver(m) => if Step(s, e) != s { DeliverInv(s, m); }
    case ServerActs(d, ack) => if Step(s, e) != s { ServerInv(s, d, ack); }
    case Pull(decodes) => if Step(s, e) != s { TakeInv(s, decodes); }
    case HandlerReturns => if s.pc.Handling? { OutcomeInv(s, e); }
    case HandlerRaises => if s.pc.Handling? { OutcomeInv(s, e); }
    case _ => QuietInv(s, e);
  }

  lemma InitInv(maxDeliver: int)
    ensures Inv(Init(maxDeliver))
  {
    forall m ensures DeliveriesOf(Init(maxDeliver).stream, m) == {} {}
  }

  lemma StepKeepsLimit(s: State, e: Event)
    ensures Step(s, e).stream.maxDeliver == s.stream.maxDeliver
  {
  }

  lemma {:induction false} ReachableInv(maxDeliver: int, events: seq<Event>)
    ensures Inv(Run(Init(maxDeliver), events)) && Run(Init(maxDeliver), events).stream.maxDeliver == maxDeliver
  {
    hide Step, Inv;
    if events == [] {
      InitInv(maxDeliver);
    } else {
      var n := |events| - 1;
      ReachableInv(maxDeliver, events[..n]);
      StepInv(Run(Init(maxDeliver), events[..n]), events[n]);
      StepKeepsLimit(Run(Init(maxDeliver), events[..n]), events[n]);
    }
  }

  // ------------------------------------------------------------------
  // Main results
  // ------------------------------------------------------------------

  /** In every run each published message is waiting, outstanding,
      acknowledged or exhausted, and never two of these. */
  lemma Conservation(maxDeliver: int, events: seq<Event>)
    ensures var st := Run(Init(maxDeliver), events).stream;
            && st.waiting !! st.outstanding !! st.acked !! st.exhausted
            && st.waiting + st.outstanding + st.acked + st.exhausted == Upto(st.published)
  {
    hide Step, Run;
    ReachableInv(maxDeliver, events);
  }

  /** An acknowledged message has a delivery whose handler call returned and
      whose ack was sent at once and recorded. */
  lemma AckedOnlyAfterItsHandlerReturned(maxDeliver: int, events: seq<Event>, m: nat)
    requires m in Run(Init(maxDeliver), events).stream.acked
    ensures var s := Run(Init(maxDeliver), events);
            exists d: nat, i ::
              && d in s.recorded && d < |s.stream.deliveries| && s.stream.deliveries[d] == m
              && 0 <= i < |s.notes| - 1 && s.notes[i] == Returned(d) && s.notes[i + 1] == Asked(d, true)
  {
    hide Step, Run, Conserved, Counted;
    ReachableInv(maxDeliver, events);
    var s := Run(Init(maxDeliver), events);
    var d: nat :| d in s.recorded && d < |s.stream.deliveries| && s.stream.deliveries[d] == m;
    var j :| 0 <= j < |s.notes| && s.notes[j] == Asked(d, true);
    AskedAfterOutcome(s.notes, j);
  }

  /** Among the messages that are not outstanding and have no recorded ack,
      exactly those delivered `max_deliver` times are exhausted: no message
      leaves the stream in any other way. */
  lemma ExhaustedExactly(maxDeliver: int, events: seq<Event>, m: nat)
    requires var s := Run(Init(maxDeliver), events); m < s.stream.published && m !in s.stream.outstanding
    ensures var s := Run(Init(maxDeliver), events);
            m in s.stream.exhausted <==>
              && maxDeliver > 0 && |DeliveriesOf(s.stream, m)| == maxDeliver
              && forall d :: d in s.recorded && d < |s.stream.deliveries| ==> s.stream.deliveries[d] != m
  {
    hide Step, Run;
    ReachableInv(maxDeliver, events);
    var s := Run(Init(maxDeliver), events);
    assert m in Upto(s.stream.published);
    forall d | d in s.recorded && d < |s.stream.deliveries| ensures s.stream.deliveries[d] in s.stream.acked {
      assert s.stream.deliveries[d] in MessagesOf(s);
    }
  }

  /** The places of the history where the loop took a delivery of m. */
  function AttemptsAt(s: State, m: nat): set<nat> {
    set i | 0 <= i < |s.notes| && s.notes[i].Taken? && s.notes[i].tag in DeliveriesOf(s.stream, m)
  }

  lemma {:induction false} AttemptsBelow(s: State, m: nat, places: set<nat>)
    requires Orderly(s.notes) && places <= AttemptsAt(s, m)
    ensures |places| <= |DeliveriesOf(s.stream, m)|
    ensures |places| == |set i | i in places :: s.notes[i].tag|
  {
    var taken := set i | i in places :: s.notes[i].tag;
    if places != {} {
      var i :| i in places;
      var rest := set k | k in places - {i} :: s.notes[k].tag;
      AttemptsBelow(s, m, places - {i});
      forall k | k in places - {i} ensures s.notes[k] != s.notes[i] {
        if s.notes[k] == s.notes[i] {
          TakenOnce(s.notes, k, i);
        }
      }
      assert taken == rest + {s.notes[i].tag};
    } else {
      assert taken == {};
    }
    SubsetSize(taken, DeliveriesOf(s.stream, m));
  }

  /** A message is attempted at most `max_deliver` times, however often it
      fails and whatever happens to the sessions. */
  lemma AttemptsBounded(maxDeliver: int, events: seq<Event>, m: nat)
    requires maxDeliver > 0
    ensures |AttemptsAt(Run(Init(maxDeliver), events), m)| <= maxDeliver
  {
    hide Step, Run;
    ReachableInv(maxDeliver, events);
    var s := Run(Init(maxDeliver), events);
    AttemptsBelow(s, m, AttemptsAt(s, m));
  }

  /** Every handled delivery is answered at once with its own settlement, an
      ack exactly when its handler returned, and only once; and no settlement
      is sent otherwise. */
  lemma OneSettlementPerDelivery(maxDeliver: int, events: seq<Event>, i: int)
    requires 0 <= i < |Run(Init(maxDeliver), events).notes|
    ensures var ns := Run(Init(maxDeliver), events).notes;
            ns[i].Returned? || ns[i].Raised? ==>
              && i + 1 < |ns| && ns[i + 1] == Asked(ns[i].tag, ns[i].Returned?)
              && forall j :: 0 <= j < |ns| && ns[j].Asked? && ns[j].tag == ns[i].tag ==> j == i + 1
    ensures var ns := Run(Init(maxDeliver), events).notes;
            ns[i].Asked? ==> i > 0 && ns[i - 1] == if ns[i].ack then Returned(ns[i].tag) else Raised(ns[i].tag)
  {
    hide Step, Run;
    ReachableInv(maxDeliver, events);
    var ns := Run(Init(maxDeliver), events).notes;
    if ns[i].Returned? || ns[i].Raised? {
      SettledOnce(ns, i);
    } else if ns[i].Asked? {
      AskedAfterOutcome(ns, i);
    }
  }

  lemma RunSplit(s: State, before: seq<Event>, e: Event)
    ensures Run(s, before + [e]) == Step(Run(s, before), e)
  {
    hide Step;
    assert (before + [e])[..|before|] == before;
  }

  /** One message, one permitted delivery, handled but not yet settled. */
  lemma HandledOnce() returns (events: seq<Event>, s: State)
    ensures s == Run(Init(1), events) && s.notes == [Taken(0), Returned(0), Asked(0, true)]
    ensures s.stream == Stream(1, 1, {}, {0}, {}, {}, [0])
  {
    hide Run;
    var s0 := Init(1);
    assert Run(s0, []) == s0 by { RunNothing(s0); }
    RunSplit(s0, [], Publish);
    RunSplit(s0, [] + [Publish], Subscribe);
    RunSplit(s0, [] + [Publish] + [Subscribe], StartReturns);
    events := [] + [Publish] + [Subscribe] + [StartReturns];
    var s1 := Run(s0, events);
    assert s1.pc == Pulling && s1.stream == Stream(1, 1, {0}, {}, {}, {}, []) && s1.running && s1.buffer == [];
    RunSplit(s0, events, Deliver(0));
    RunSplit(s0, events + [Deliver(0)], Pull(true));
    RunSplit(s0, events + [Deliver(0)] + [Pull(true)], HandlerReturns);
    events := events + [Deliver(0)] + [Pull(true)] + [HandlerReturns];
    s := Run(s0, events);
  }

  lemma RunNothing(s: State)
    ensures Run(s, []) == s
  {
  }

  /** Handled is not the same as acknowledged: when the ack is late, a message
      whose handler returned can still end exhausted, for good. */
  lemma HandledMessageCanBeExhausted()
    ensures exists events, d: nat, m: nat ::
              var s := Run(Init(1), events);
              Returned(d) in s.notes && d < |s.stream.deliveries| && s.stream.deliveries[d] == m
              && m in s.stream.exhausted
  {
    hide Run;
    var es, s := HandledOnce();
    RunSplit(Init(1), es, AckWaitElapses(0));
    assert DeliveriesOf(s.stream, 0) == {0};
    var t := Run(Init(1), es + [AckWaitElapses(0)]);
    assert t.notes[1] == Returned(0) && 0 in t.stream.exhausted;
  }

  // ------------------------------------------------------------------
  // What gets done, and what ends it
  // ------------------------------------------------------------------

  /** Message m was outstanding and is to be tried again: it waits, unless all
      its `max_deliver` deliveries are used up.  Nothing else moves. */
  ghost predicate TriedAgain(st: Stream, after: Stream, m: nat) {
    if m !in st.outstanding then after == st
    else
      var spent := 0 < st.maxDeliver <= |DeliveriesOf(st, m)|;
      && after.outstanding == st.outstanding - {m} && after.deliveries == st.deliveries
      && after.acked == st.acked && after.published == st.published && after.maxDeliver == st.maxDeliver
      && after.exhausted == st.exhausted + (if spent then {m} else {})
      && after.waiting == st.waiting + (if spent then {} else {m})
  }

  /** Message m is settled for good, unless it was before or is exhausted. */
  ghost predicate SettledForGood(st: Stream, after: Stream, m: nat) {
    if m !in st.outstanding + st.waiting then after == st
    else
      && after.acked == st.acked + {m} && m !in after.outstanding + after.waiting + after.exhausted
      && after.outstanding + after.waiting + {m} == st.outstanding + st.waiting
      && after.exhausted == st.exhausted && after.deliveries == st.deliveries && after.maxDeliver == st.maxDeliver
  }

  /** In every run a handler that returns has its own message settled for good
      as soon as the server acts on the ack, one that raises has it tried again
      as soon as the server acts on the nak, and the loop goes on meanwhile. */
  lemma OutcomeReachesServer(maxDeliver: int, events: seq<Event>, returned: bool)
    requires Run(Init(maxDeliver), events).pc.Handling?
    ensures var s := Run(Init(maxDeliver), events);
            var d := s.pc.delivery;
            var asked := Step(s, if returned then HandlerReturns else HandlerRaises);
            var after := Step(asked, ServerActs(d, returned));
            && d < |s.stream.deliveries| && Step(asked, SettleReturns).pc == Pulling
            && (if returned then Returned(d) else Raised(d)) in asked.notes && asked.stream == s.stream
            && (d, returned) in asked.sent && after.sent == asked.sent - {(d, returned)}
            && (if returned then SettledForGood(s.stream, after.stream, s.stream.deliveries[d])
                else TriedAgain(s.stream, after.stream, s.stream.deliveries[d]))
  {
    hide Run, Orderly, AcksAsked, Counted;
    ReachableInv(maxDeliver, events);
    var s := Run(Init(maxDeliver), events);
    assert Taken(s.pc.delivery) in s.notes;
    hide BufferFresh;
    AskThenServe(s, if returned then Returned(s.pc.delivery) else Raised(s.pc.delivery), returned);
  }

  lemma AskThenServe(s: State, outcome: Note, ack: bool)
    requires Conserved(s.stream) && outcome.tag < |s.stream.deliveries|
    ensures var asked := Ask(s, outcome, ack);
            var after := ServerStep(asked, outcome.tag, ack);
            && (outcome.tag, ack) in asked.sent && after.sent == asked.sent - {(outcome.tag, ack)}
            && (if ack then SettledForGood(s.stream, after.stream, s.stream.deliveries[outcome.tag])
                else TriedAgain(s.stream, after.stream, s.stream.deliveries[outcome.tag]))
  {
  }

  /** The same for a message that does not decode: it is nak'd unhandled. */
  lemma UndecodableIsNaked(maxDeliver: int, events: seq<Event>)
    requires var s := Run(Init(maxDeliver), events); s.pc == Pulling && s.running && s.buffer != []
    ensures var s := Run(Init(maxDeliver), events);
            var d := s.buffer[0];
            var asked := Step(s, Pull(false));
            && d < |s.stream.deliveries|
            && asked.notes == s.notes + [Taken(d), Raised(d), Asked(d, false)] && asked.buffer == s.buffer[1..]
            && Step(asked, SettleReturns).pc == Pulling
            && TriedAgain(s.stream, Step(asked, ServerActs(d, false)).stream, s.stream.deliveries[d])
  {
    hide Run, Orderly, AcksAsked, Counted;
    ReachableInv(maxDeliver, events);
    var s := Run(Init(maxDeliver), events);
    var taken := Log(s, [Taken(s.buffer[0])]).(buffer := s.buffer[1..]);
    AskThenServe(taken, Raised(s.buffer[0]), false);
  }

  /** A message that nobody settles within `ack_wait` is tried again too, and a
      live session is given any message that waits. */
  lemma UnsettledIsTriedAgain(s: State, m: nat)
    ensures TriedAgain(s.stream, Step(s, AckWaitElapses(m)).stream, m)
    ensures Step(s, AckWaitElapses(m)).pc == s.pc && Step(s, AckWaitElapses(m)).notes == s.notes
    ensures m in s.stream.waiting && Live(s.pc) ==>
              var t := Step(s, Deliver(m));
              && t.stream.deliveries == s.stream.deliveries + [m] && t.buffer == s.buffer + [|s.stream.deliveries|]
              && m in t.stream.outstanding && t.stream.waiting == s.stream.waiting - {m}
  {
  }

  predicate Distinct(ms: seq<nat>) {
    forall i, j :: 0 <= i < j < |ms| ==> ms[i] != ms[j]
  }

  function Members(ms: seq<nat>): set<nat> {
    set m | m in ms
  }

  /** Each message of ms delivered, handled and acked in turn; deliveries count from d. */
  function Rounds(ms: seq<nat>, d: nat): seq<Event> {
    if ms == [] then []
    else
      Rounds(ms[..|ms| - 1], d) + [Deliver(ms[|ms| - 1])] + [Pull(true)] + [HandlerReturns]
      + [ServerActs(d + |ms| - 1, true)] + [SettleReturns]
  }

  ghost predicate Ready(s: State, ms: seq<nat>) {
    s.pc == Pulling && s.running && s.buffer == [] && Distinct(ms) && Members(ms) <= s.stream.waiting
  }

  /** The messages of `done` went from waiting to acknowledged. */
  ghost predicate Moved(st: Stream, after: Stream, done: set<nat>, n: nat) {
    && after.waiting == st.waiting - done && after.acked == st.acked + done
    && after.outstanding == st.outstanding && after.exhausted == st.exhausted
    && |after.deliveries| == |st.deliveries| + n
  }

  lemma OneRound(s: State, m: nat)
    requires Ready(s, [m]) && m !in s.stream.outstanding
    ensures var d := |s.stream.deliveries|;
            var n := Step(Step(Step(Step(Step(s, Deliver(m)), Pull(true)), HandlerReturns), ServerActs(d, true)),
                          SettleReturns);
            Moved(s.stream, n.stream, {m}, 1) && n.pc == Pulling && n.running && n.buffer == []
  {
    assert m in Members([m]);
    var d := |s.stream.deliveries|;
    var s1 := Step(s, Deliver(m));
    assert s1.buffer == [d];
    var s2 := Step(s1, Pull(true));
    assert s2.pc == Handling(d) && s2.buffer == [];
  }

  lemma {:induction false} RoundsGo(s: State, ms: seq<nat>)
    requires Ready(s, ms) && s.stream.waiting !! s.stream.outstanding
    ensures var n := Run(s, Rounds(ms, |s.stream.deliveries|));
            Moved(s.stream, n.stream, Members(ms), |ms|) && Ready(n, [])
  {
    hide Step, Run;
    if ms == [] {
      RunNothing(s);
    } else {
      var k, d0 := |ms| - 1, |s.stream.deliveries|;
      var m := ms[k];
      assert ms == ms[..k] + [m];
      assert Members(ms) == Members(ms[..k]) + {m};
      RoundsGo(s, ms[..k]);
      var es := Rounds(ms[..k], d0);
      var n := Run(s, es);
      assert m in Members(ms) && m !in Members(ms[..k]);
      OneRound(n, m);
      RunSplit(s, es, Deliver(m));
      RunSplit(s, es + [Deliver(m)], Pull(true));
      RunSplit(s, es + [Deliver(m)] + [Pull(true)], HandlerReturns);
      RunSplit(s, es + [Deliver(m)] + [Pull(true)] + [HandlerReturns], ServerActs(d0 + k, true));
      RunSplit(s, es + [Deliver(m)] + [Pull(true)] + [HandlerReturns] + [ServerActs(d0 + k, true)], SettleReturns);
    }
  }

  lemma {:induction false} RunAppend(s: State, a: seq<Event>, b: seq<Event>)
    ensures Run(s, a + b) == Run(Run(s, a), b)
  {
    hide Step;
    if b == [] {
      assert a + b == a;
    } else {
      var n := |b| - 1;
      RunAppend(s, a, b[..n]);
      assert a + b == a + b[..n] + [b[n]];
      RunSplit(s, a + b[..n], b[n]);
    }
  }

  /** A session left alone has every waiting message acknowledged, in whatever
      order the server delivers them: from any idle state of any run. */
  lemma SessionDrains(maxDeliver: int, events: seq<Event>, ms: seq<nat>)
    requires var s := Run(Init(maxDeliver), events);
             s.pc == Idle && Distinct(ms) && Members(ms) == s.stream.waiting
    ensures var s := Run(Init(maxDeliver), events);
            var t := Run(Init(maxDeliver), events + ([Subscribe, StartReturns] + Rounds(ms, |s.stream.deliveries|)));
            && t.stream.waiting == {} && t.stream.acked == s.stream.acked + s.stream.waiting
            && t.stream.outstanding == s.stream.outstanding && t.stream.exhausted == s.stream.exhausted
  {
    hide Run, Step;
    ReachableInv(maxDeliver, events);
    var s := Run(Init(maxDeliver), events);
    var begun := [Subscribe, StartReturns];
    SessionBegins(s);
    RunAppend(Init(maxDeliver), events, begun + Rounds(ms, |s.stream.deliveries|));
    RunAppend(s, begun, Rounds(ms, |s.stream.deliveries|));
    RoundsGo(Run(s, begun), ms);
  }

  lemma SessionBegins(s: State)
    requires s.pc == Idle
    ensures var t := Run(s, [Subscribe, StartReturns]);
            && t.pc == Pulling && t.running && t.nc && t.sub && t.buffer == [] && t.notes == s.notes
            && t.stream == s.stream
  {
    hide Run;
    RunNothing(s);
    RunSplit(s, [], Subscribe);
    RunSplit(s, [] + [Subscribe], StartReturns);
    assert [] + [Subscribe] + [StartReturns] == [Subscribe, StartReturns];
  }

  ghost predicate TakesNothing(before: seq<Note>, after: seq<Note>) {
    before <= after && forall i :: |before| <= i < |after| ==> !after[i].Taken?
  }

  /** Once close() has begun no message is taken until a session starts anew. */
  lemma {:induction false} CloseStopsTaking(s: State, more: seq<Event>)
    requires StartReturns !in more
    ensures var t := Run(Step(s, CloseBegins), more);
            !t.running && TakesNothing(s.notes, t.notes)
  {
    if more != [] {
      var n := |more| - 1;
      CloseStopsTaking(s, more[..n]);
      assert more[n] in more;
      StoppedStep(Run(Step(s, CloseBegins), more[..n]), more[n]);
    }
  }

  lemma StoppedStep(s: State, e: Event)
    requires !s.running && !e.StartReturns?
    ensures !Step(s, e).running && TakesNothing(s.notes, Step(s, e).notes)
  {
  }

  /** A close() that finds a subscription or a connection forgets the
      connection, and is over; the subscription stays for the `finally` block. */
  lemma CloseForgets(s: State)
    ensures var t := if s.sub || s.nc then Step(Step(s, CloseBegins), CloseEnds) else Step(s, CloseBegins);
            && !t.nc && !t.running && t.closing == s.closing && t.pc == s.pc && t.sub == s.sub
            && t.stream == s.stream
  {
  }

  /** Each way out of a session leads, once the teardown has returned, to a
      consumer that can subscribe again: no session, no subscription, no
      connection, not running, and nothing left in the subscription's buffer. */
  lemma SessionEnds(s: State, e: Event)
    requires match s.pc
             case Starting => e == StartFails
             case Pulling => e == StreamEnds || e == Cancel || (e.Pull? && !s.running && s.buffer != [])
             case Handling(_) => e == Cancel
             case Settling => e == Cancel
             case _ => false
    ensures var t := Step(Step(s, e), StopReturns);
            && t.pc == Idle && !t.nc && !t.sub && (t.running ==> e == StartFails && s.running)
            && (e == StartFails || t.buffer == []) && t.stream == s.stream && t.notes == s.notes && t.sent == s.sent
            && Step(t, Subscribe).pc == Starting && Step(t, Subscribe).buffer == []
  {
  }

  /** A task cancelled while it connects or tears down, or a process that dies,
      leaves no session either, but only the latter forgets the connection. */
  lemma SessionInterrupted(s: State)
    ensures s.pc.Starting? || s.pc.Stopping? ==> Step(s, Cancel) == s.(pc := Idle)
    ensures var t := Step(s, Crash);
            && t.pc == Idle && !t.nc && !t.sub && !t.running && t.closing == 0 && t.buffer == []
            && t.stream == s.stream && t.notes == s.notes && t.sent == s.sent
  {
  }
}

/** The consumer itself, with the stream in its fields. */
module NatsConsumerModel {
  import opened JetStream
  import opened NatsProtocol
  import opened Settlements

  predicate Wakes(pc: Pc, e: Event) {
    match pc
    case Idle => false
    case Starting => e.StartReturns? || e.StartFails? || e.Cancel? || e.Crash?
    case Pulling => e.Pull? || e.StreamEnds? || e.Cancel? || e.Crash?
    case Handling(_) => e.HandlerReturns? || e.HandlerRaises? || e.Cancel? || e.Crash?
    case Settling => e.SettleReturns? || e.Cancel? || e.Crash?
    case Stopping => e.StopReturns? || e.Cancel? || e.Crash?
  }

  lemma Next(s0: State, script: seq<Event>, n: nat)
    requires n < |script|
    ensures Run(s0, script[..n + 1]) == Step(Run(s0, script[..n]), script[n])
  {
    hide Step;
    assert script[..n + 1][..n] == script[..n];
  }

  class NatsConsumer {
    var running: bool
    var hasNc: bool
    var hasSub: bool
    var closing: nat
    // the server, the subscription's buffer and what is on the wire
    var stream: Stream
    var buffer: seq<nat>
    var sent: set<(nat, bool)>
    // where subscribe() is suspended, and what has happened
    var pc: Pc
    ghost var recorded: set<nat>
    ghost var notes: seq<Note>

    ghost function View(): State
      reads this
    {
      State(stream, buffer, sent, recorded, running, hasNc, hasSub, closing, pc, notes)
    }

    constructor (maxDeliver: int)
      ensures View() == Init(maxDeliver)
    {
      running, hasNc, hasSub, closing := false, false, false, 0;
      stream, buffer, sent := Stream(maxDeliver, 0, {}, {}, {}, {}, []), [], {};
      pc, recorded, notes := Idle, {}, [];
    }

    /** close(), up to its first await. */
    method Close()
      modifies this
      ensures View() == Step(old(View()), CloseBegins)
    {
      running := false;
      if hasSub || hasNc { closing := closing + 1; }
    }

    /** close(), after its awaits. */
    method CloseResumed()
      requires closing > 0
      modifies this
      ensures View() == Step(old(View()), CloseEnds)
    {
      hasNc := false;
      closing := closing - 1;
    }

    /** The process dies. */
    method Die()
      modifies this
      ensures View() == Step(old(View()), Crash)
    {
      running, hasNc, hasSub, closing, buffer, pc := false, false, false, 0, [], Idle;
    }

    /** A settlement reaches the server. */
    method ServerActs(d: nat, ack: bool)
      modifies this
      ensures View() == Step(old(View()), Event.ServerActs(d, ack)) && pc == old(pc)
    {
      if (d, ack) !in sent || d >= |stream.deliveries| { return; }
      var m := stream.deliveries[d];
      sent := sent - {(d, ack)};
      if !ack {
        stream := Retry(stream, m);
      } else if m in stream.outstanding || m in stream.waiting {
        stream := JetStream.Ack(stream, m);
        recorded := recorded + {d};
      }
    }

    /** What the rest of the world does while subscribe() stays suspended. */
    method Meanwhile(e: Event)
      requires pc != Idle && !Wakes(pc, e)
      modifies this
      ensures View() == Step(old(View()), e) && pc == old(pc)
    {
      match e
      case Publish => stream := JetStream.Publish(stream);
      case Deliver(m) =>
        if m in stream.waiting && Live(pc) {
          buffer := buffer + [|stream.deliveries|];
          stream := JetStream.Deliver(stream, m);
        }
      case AckWaitElapses(m) => stream := Retry(stream, m);
      case ServerActs(d, ack) => ServerActs(d, ack);
      case CloseBegins => Close();
      case CloseEnds => if closing > 0 { CloseResumed(); }
      case _ =>
    }

    /** Stay suspended until an event of the script wakes the task. */
    method Await(script: seq<Event>, from: nat, ghost s0: State) returns (n: nat)
      requires from <= |script| && pc != Idle && View() == Run(s0, script[..from])
      modifies this
      ensures from <= n <= |script| && pc == old(pc) && View() == Run(s0, script[..n])
      ensures n < |script| ==> Wakes(pc, script[n]) && Run(s0, script[..n + 1]) == Step(View(), script[n])
    {
      hide Step, Run;
      n := from;
      while n < |script| && !Wakes(pc, script[n])
        invariant from <= n <= |script| && pc == old(pc) && View() == Run(s0, script[..n])
      {
        Meanwhile(script[n]);
        Next(s0, script, n);
        n := n + 1;
      }
      if n < |script| { Next(s0, script, n); }
    }

    /** unsubscribe() and close() are done, or the task is cancelled once more,
        or the process dies. */
    method StopResumed(e: Event)
      requires pc == Stopping && Wakes(pc, e)
      modifies this
      ensures View() == Step(old(View()), e) && pc == Idle
    {
      match e
      case StopReturns => hasNc, hasSub, running, pc := false, false, false, Idle;
      case Cancel => pc := Idle;
      case Crash => Die();
    }

    /** The `finally` block of subscribe(). */
    method FinallyBlock(script: seq<Event>, from: nat, ghost s0: State) returns (n: nat)
      requires from <= |script| && Run(s0, script[..from]) == Finally(View())
      modifies this
      ensures from <= n <= |script| && View() == Run(s0, script[..n])
      ensures n < |script| ==> pc == Idle
    {
      hide Step, Run;
      buffer := [];
      if !hasSub && !hasNc {
        running, pc := false, Idle;
        return from;
      }
      pc := Stopping;
      n := Await(script, from, s0);
      if n < |script| {
        StopResumed(script[n]);
        n := n + 1;
      }
    }

    /** The session is cancelled or its stream ends, or the process dies. */
    method Leave(script: seq<Event>, from: nat, ghost s0: State) returns (n: nat)
      requires from < |script| && View() == Run(s0, script[..from])
      requires script[from].Crash? || (script[from].StreamEnds? && pc.Pulling?)
            || (script[from].Cancel? && Live(pc))
      modifies this
      ensures from < n <= |script| && View() == Run(s0, script[..n])
      ensures n == |script| || pc == Idle
    {
      hide Run;
      Next(s0, script, from);
      if script[from].Crash? {
        Die();
        return from + 1;
      }
      n := FinallyBlock(script, from + 1, s0);
    }

    /** ack() or nack() of exactly the delivery passed in, up to its await. */
    method Ask(outcome: Note, ack: bool)
      modifies this
      ensures View() == NatsProtocol.Ask(old(View()), outcome, ack)
    {
      sent := sent + {(outcome.tag, ack)};
      pc, notes := Settling, notes + [outcome, Asked(outcome.tag, ack)];
    }

    /** The loop body for the next buffered message, up to its first await.
        `leave` says that the loop is left. */
    method Body(decodes: bool) returns (leave: bool)
      requires pc == Pulling
      modifies this
      ensures leave ==> Finally(View()) == Step(old(View()), Pull(decodes))
      ensures !leave ==> View() == Step(old(View()), Pull(decodes)) && Live(pc)
    {
      if buffer == [] { return false; }
      var d := buffer[0];
      buffer := buffer[1..];
      if !running { return true; }
      notes := notes + [Taken(d)];
      if decodes {
        pc := Handling(d);
      } else {
        Ask(Raised(d), false);
      }
      return false;
    }

    /** The handler returned or raised; ack() or nack() runs up to its await. */
    method HandlerResumed(e: Event)
      requires pc.Handling? && (e.HandlerReturns? || e.HandlerRaises?)
      modifies this
      ensures View() == Step(old(View()), e) && pc == Settling
    {
      if e.HandlerReturns? {
        Ask(Returned(pc.delivery), true);
      } else {
        Ask(Raised(pc.delivery), false);
      }
    }

    /** From the await of the settlement to the end of the loop body; an error
        from the client is swallowed. */
    method Settled(script: seq<Event>, from: nat, ghost s0: State) returns (n: nat, alive: bool)
      requires from <= |script| && pc.Settling? && View() == Run(s0, script[..from])
      modifies this
      ensures from <= n <= |script| && View() == Run(s0, script[..n])
      ensures alive ==> pc == Pulling
      ensures !alive ==> n == |script| || pc == Idle
    {
      hide Run;
      n := Await(script, from, s0);
      if n == |script| { return n, false; }
      if script[n].SettleReturns? {
        pc := Pulling;
        return n + 1, true;
      }
      n := Leave(script, n, s0);
      return n, false;
    }

    /** From the await of the handler to the end of the loop body. */
    method Handle(script: seq<Event>, from: nat, ghost s0: State) returns (n: nat, alive: bool)
      requires from <= |script| && pc.Handling? && View() == Run(s0, script[..from])
      modifies this
      ensures from <= n <= |script| && View() == Run(s0, script[..n])
      ensures alive ==> pc == Pulling
      ensures !alive ==> n == |script| || pc == Idle
    {
      hide Step, Run;
      n := Await(script, from, s0);
      if n == |script| { return n, false; }
      if script[n].Cancel? || script[n].Crash? {
        n := Leave(script, n, s0);
        return n, false;
      }
      HandlerResumed(script[n]);
      n, alive := Settled(script, n + 1, s0);
    }

    /** `async for msg in self._sub.messages`, and what follows it. */
    method Consume(script: seq<Event>, from: nat, ghost s0: State) returns (n: nat)
      requires from <= |script| && pc == Pulling && View() == Run(s0, script[..from])
      modifies this
      ensures from <= n <= |script| && View() == Run(s0, script[..n])
      ensures n == |script| || pc == Idle
    {
      hide Step, Run;
      n := from;
      var alive := true;
      while alive
        invariant from <= n <= |script| && View() == Run(s0, script[..n])
        invariant alive ==> pc == Pulling
        invariant !alive ==> n == |script| || pc == Idle
        decreases alive, |script| - n
      {
        n := Await(script, n, s0);
        if n == |script| { return; }
        if !script[n].Pull? {
          n := Leave(script, n, s0);
          return;
        }
        var leave := Body(script[n].decodes);
        n := n + 1;
        if leave {
          n := FinallyBlock(script, n, s0);
          return;
        }
        if pc.Handling? {
          n, alive := Handle(script, n, s0);
        } else if pc.Settling? {
          n, alive := Settled(script, n, s0);
        }
      }
    }

    /** Connecting or subscribing failed, was cancelled, or the process died. */
    method StartFailed(e: Event)
      requires pc == Starting && (e.StartFails? || e.Cancel? || e.Crash?)
      modifies this
      ensures View() == Step(old(View()), e) && pc == Idle
    {
      match e
      case StartFails => hasNc, hasSub, pc := false, false, Idle;
      case Cancel => pc := Idle;
      case Crash => Die();
    }

    /** subscribe(), driven by whatever the script says happens next.  After
        every event its fields are the protocol's state. */
    method Subscribe(script: seq<Event>) returns (n: nat)
      requires pc == Idle
      modifies this
      ensures n <= |script|
      ensures View() == Run(Step(old(View()), Event.Subscribe), script[..n])
      ensures n < |script| ==> pc == Idle
    {
      ghost var s0 := Step(View(), Event.Subscribe);
      hasNc, hasSub, buffer, pc := true, false, [], Starting;
      RunNothing(s0);
      n := Connected(script, s0);
    }

    /** subscribe() once it awaits the connection. */
    method Connected(script: seq<Event>, ghost s0: State) returns (n: nat)
      requires pc == Starting && View() == Run(s0, script[..0])
      modifies this
      ensures n <= |script| && View() == Run(s0, script[..n])
      ensures n < |script| ==> pc == Idle
    {
      hide Run;
      n := Await(script, 0, s0);
      if n == |script| { return; }
      if !script[n].StartReturns? {
        StartFailed(script[n]);
        return n + 1;
      }
      n := n + 1;
      hasSub, running, pc := true, true, Pulling;
      n := Consume(script, n, s0);
    }
  }
}
