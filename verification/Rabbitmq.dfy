/** The acknowledgement protocol of the RabbitMQ consumer.

    The broker side is a queue whose messages are ready, delivered and not yet
    settled, or acknowledged.  Every delivery carries its own tag and belongs
    to one channel; when a channel goes, what it had not settled is ready
    again.  As in the Kafka model an event is whatever happens at an `await`,
    and an event that cannot happen changes nothing.
 */
module RabbitBroker {
  import opened Sets

  datatype Delivery = Delivery(message: nat, channel: nat)

  datatype Broker = Broker(
    published: nat,            // messages 0 .. published - 1
    ready: set<nat>,           // messages
    unacked: set<nat>,         // delivery tags
    acked: set<nat>,           // messages
    deliveries: seq<Delivery>, // indexed by tag
    channel: nat)              // the channel in use

  function HeldBy(b: Broker, c: nat): set<nat> {
    set t | t in b.unacked && t < |b.deliveries| && b.deliveries[t].channel == c
  }

  function Messages(b: Broker, tags: set<nat>): set<nat> {
    set t | t in tags && t < |b.deliveries| :: b.deliveries[t].message
  }

  predicate HasRoom(b: Broker, prefetch: nat) {
    prefetch == 0 || |HeldBy(b, b.channel)| < prefetch
  }

  function Publish(b: Broker): Broker {
    b.(published := b.published + 1, ready := b.ready + {b.published})
  }

  /** Push a ready message to a channel; its tag is the next number. */
  function DeliverOn(b: Broker, m: nat, c: nat): Broker {
    b.(ready := b.ready - {m}, unacked := b.unacked + {|b.deliveries|},
       deliveries := b.deliveries + [Delivery(m, c)])
  }

  /** The same, to the channel in use. */
  function Deliver(b: Broker, m: nat): Broker {
    DeliverOn(b, m, b.channel)
  }

  /** A settlement of an unknown or already settled tag is refused. */
  function Settle(b: Broker, t: nat, ack: bool): Broker {
    if t !in b.unacked || t >= |b.deliveries| then b
    else if ack then b.(unacked := b.unacked - {t}, acked := b.acked + {b.deliveries[t].message})
    else b.(unacked := b.unacked - {t}, ready := b.ready + {b.deliveries[t].message})
  }

  /** A channel is gone: requeue what it held.  The robust connection replaces
      the channel in use by a new one. */
  function ChannelGone(b: Broker, c: nat): Broker {
    b.(unacked := b.unacked - HeldBy(b, c), ready := b.ready + Messages(b, HeldBy(b, c)),
       channel := if c == b.channel then c + 1 else b.channel)
  }

  ghost predicate TagsKnown(b: Broker) {
    forall t :: t in b.unacked ==> t < |b.deliveries| && b.deliveries[t].channel <= b.channel
  }

  /** Distinct live tags carry distinct messages. */
  ghost predicate OneTagEach(b: Broker)
    requires TagsKnown(b)
  {
    forall t, u :: t in b.unacked && u in b.unacked && b.deliveries[t].message == b.deliveries[u].message ==> t == u
  }

  /** Every message is in exactly one place: ready, acknowledged, or out under
      exactly one live tag. */
  ghost predicate Conserved(b: Broker) {
    var out := Messages(b, b.unacked);
    && TagsKnown(b) && OneTagEach(b)
    && b.ready !! b.acked !! out
    && b.ready + b.acked + out == Upto(b.published)
  }

  ghost predicate WithinPrefetch(b: Broker, prefetch: nat) {
    prefetch != 0 ==> forall c :: |HeldBy(b, c)| <= prefetch
  }

  lemma PublishConserves(b: Broker)
    requires Conserved(b)
    ensures Conserved(Publish(b))
  {
    assert Messages(Publish(b), b.unacked) == Messages(b, b.unacked);
    assert b.published !in b.ready + b.acked + Messages(b, b.unacked);
    assert Upto(b.published + 1) == Upto(b.published) + {b.published};
  }

  lemma DeliverConserves(b: Broker, m: nat, c: nat)
    requires Conserved(b) && m in b.ready && c <= b.channel
    ensures Conserved(DeliverOn(b, m, c))
  {
    var d := DeliverOn(b, m, c);
    assert Messages(d, d.unacked) == Messages(b, b.unacked) + {m};
    forall t | t in b.unacked ensures b.deliveries[t].message != m {
      assert b.deliveries[t].message in Messages(b, b.unacked);
    }
    assert d.ready + d.acked + Messages(d, d.unacked) == b.ready + b.acked + Messages(b, b.unacked);
  }

  lemma SettleConserves(b: Broker, t: nat, ack: bool)
    requires Conserved(b)
    ensures Conserved(Settle(b, t, ack))
  {
    if t in b.unacked {
      var d, m := Settle(b, t, ack), b.deliveries[t].message;
      assert m in Messages(b, b.unacked);
      assert Messages(d, d.unacked) == Messages(b, b.unacked) - {m};
      assert d.ready + d.acked + Messages(d, d.unacked) == b.ready + b.acked + Messages(b, b.unacked);
    }
  }

  lemma ChannelGoneConserves(b: Broker, c: nat)
    requires Conserved(b)
    ensures Conserved(ChannelGone(b, c))
  {
    var d, back := ChannelGone(b, c), Messages(b, HeldBy(b, c));
    assert back <= Messages(b, b.unacked);
    assert Messages(d, d.unacked) == Messages(b, b.unacked) - back;
    assert d.ready + d.acked + Messages(d, d.unacked) == b.ready + b.acked + Messages(b, b.unacked);
  }

  lemma HeldAfterDeliver(b: Broker, m: nat, c: nat)
    requires TagsKnown(b)
    ensures HeldBy(Deliver(b, m), c) == HeldBy(b, c) + if c == b.channel then {|b.deliveries|} else {}
  {
  }

  lemma DeliverWithinPrefetch(b: Broker, m: nat, prefetch: nat)
    requires TagsKnown(b) && WithinPrefetch(b, prefetch) && HasRoom(b, prefetch)
    ensures WithinPrefetch(Deliver(b, m), prefetch)
  {
    forall c ensures prefetch != 0 ==> |HeldBy(Deliver(b, m), c)| <= prefetch {
      HeldAfterDeliver(b, m, c);
      if c == b.channel {
        assert |HeldBy(b, c) + {|b.deliveries|}| <= |HeldBy(b, c)| + 1;
      } else {
        assert HeldBy(b, c) + {} == HeldBy(b, c);
      }
    }
  }

  lemma FewerWithinPrefetch(b: Broker, d: Broker, prefetch: nat)
    requires d.deliveries == b.deliveries && d.unacked <= b.unacked && WithinPrefetch(b, prefetch)
    ensures WithinPrefetch(d, prefetch)
  {
    forall c ensures |HeldBy(d, c)| <= |HeldBy(b, c)| {
      SubsetSize(HeldBy(d, c), HeldBy(b, c));
    }
  }

  lemma {:induction false} MessagesSize(b: Broker, tags: set<nat>)
    requires TagsKnown(b) && OneTagEach(b) && tags <= b.unacked
    ensures |Messages(b, tags)| == |tags|
  {
    if tags == {} {
      assert Messages(b, tags) == {};
    } else {
      var t :| t in tags;
      MessagesSize(b, tags - {t});
      assert Messages(b, tags) == Messages(b, tags - {t}) + {b.deliveries[t].message};
    }
  }

  /** Conservation as a count. */
  lemma ConservedCount(b: Broker)
    requires Conserved(b)
    ensures |b.ready| + |b.unacked| + |b.acked| == b.published
  {
    UptoSize(b.published);
    MessagesSize(b, b.unacked);
  }
}

module RabbitProtocol {
  import opened RabbitBroker
  import opened Sets
  import opened Settlements

  datatype Pc = Idle | Starting | Pulling | Handling(tag: nat) | Settling(tag: nat) | Stopping

  datatype Current = Nothing | Raw(tag: nat)

  datatype State = State(
    broker: Broker,
    prefetch: nat,
    buffer: seq<nat>,   // delivered to the iterator, not yet taken by the loop
    running: bool,
    channel: bool,      // `_channel`, `_connection` and `_queue` are set
    closing: nat,       // close() calls awaiting the channel
    current: Current,   // `_current_raw_message`
    sent: set<(nat, bool)>, // acks (true) and nacks (false) on their way
    recorded: set<nat>, // tags whose ack the broker acted on
    pc: Pc,
    notes: seq<Note>)

  datatype Event =
    | Publish
    | Deliver(message: nat)
    | ChannelGone(channel: nat)
    | Subscribe
    | StartReturns
    | StartFails
    | Pull(decodes: bool)
    | HandlerReturns
    | HandlerRaises
    | BrokerActs(tag: nat, ack: bool)
    | SettleReturns
    | StreamEnds
    | StopReturns
    | CloseBegins
    | CloseEnds
    | Cancel
    | Crash

  function Init(prefetch: nat): State {
    State(Broker(0, {}, {}, {}, [], 0), prefetch, [], false, false, 0, Nothing, {}, {}, Idle, [])
  }

  function Log(s: State, more: seq<Note>): State {
    s.(notes := s.notes + more)
  }

  predicate Live(s: State) {
    s.pc.Pulling? || s.pc.Handling? || s.pc.Settling?
  }

  /** Leaving the loop drops the iterator; `finally` closes what is still open. */
  function Finally(s: State): State {
    if s.channel then s.(buffer := [], pc := Stopping) else s.(buffer := [], running := false, pc := Idle)
  }

  /** ack() or nack(), up to its await: one settlement of the current message leaves. */
  function Ask(s: State, outcome: Note, ack: bool): State {
    Log(s, [outcome, Asked(outcome.tag, ack)]).(sent := s.sent + {(outcome.tag, ack)}, pc := Settling(outcome.tag))
  }

  function BrokerStep(s: State, t: nat, ack: bool): State {
    var arrived := s.(sent := s.sent - {(t, ack)}, broker := Settle(s.broker, t, ack));
    if ack && t in s.broker.unacked then arrived.(recorded := s.recorded + {t}) else arrived
  }

  function Take(s: State, decodes: bool): State
    requires s.buffer != []
  {
    var t := s.buffer[0];
    var pulled := s.(buffer := s.buffer[1..]);
    if !s.running then Finally(pulled)
    else if decodes then Log(pulled, [Taken(t)]).(current := Raw(t), pc := Handling(t))
    else Ask(Log(pulled, [Taken(t)]).(current := Raw(t)), Raised(t), false)
  }

  function Step(s: State, e: Event): State {
    match e
    case Publish => s.(broker := RabbitBroker.Publish(s.broker))
    case Deliver(m) =>
      if Live(s) && m in s.broker.ready && HasRoom(s.broker, s.prefetch)
      then s.(broker := RabbitBroker.Deliver(s.broker, m), buffer := s.buffer + [|s.broker.deliveries|])
      else s
    case ChannelGone(c) =>
      if c <= s.broker.channel then s.(broker := RabbitBroker.ChannelGone(s.broker, c)) else s
    case Subscribe =>
      if s.pc != Idle then s
      else s.(channel := true, buffer := [], pc := Starting, broker := s.broker.(channel := s.broker.channel + 1))
    case StartReturns =>
      if s.pc != Starting then s
      else if s.channel then s.(running := true, pc := Pulling)
      else Finally(s)
    case StartFails =>
      if s.pc != Starting then s else s.(channel := false, pc := Idle)
    case Pull(decodes) =>
      if s.pc == Pulling && s.buffer != [] then Take(s, decodes) else s
    case HandlerReturns =>
      if !s.pc.Handling? then s else Ask(s, Returned(s.pc.tag), true)
    case HandlerRaises =>
      if !s.pc.Handling? then s else Ask(s, Raised(s.pc.tag), false)
    case BrokerActs(t, ack) =>
      if (t, ack) in s.sent then BrokerStep(s, t, ack) else s
    case SettleReturns =>
      if !s.pc.Settling? then s else s.(pc := Pulling)
    case StreamEnds =>
      if s.pc != Pulling then s else Finally(s)
    case StopReturns =>
      if s.pc != Stopping then s else s.(channel := false, running := false, pc := Idle)
    case CloseBegins =>
      s.(running := false, closing := if s.channel then s.closing + 1 else s.closing)
    case CloseEnds =>
      if s.closing == 0 then s else s.(channel := false, closing := s.closing - 1)
    case Cancel =>
      if Live(s) then Finally(s) else s.(pc := Idle)
    case Crash =>
      s.(running := false, channel := false, closing := 0, current := Nothing, buffer := [], pc := Idle)
  }

  function Run(s: State, events: seq<Event>): State {
    if events == [] then s
    else Step(Run(s, events[..|events| - 1]), events[|events| - 1])
  }

  lemma RunNothing(s: State)
    ensures Run(s, []) == s
  {
  }

  // ------------------------------------------------------------------
  // The invariant
  // ------------------------------------------------------------------

  /** Tags waiting in the buffer are known, distinct and not yet taken. */
  ghost predicate BufferFresh(s: State) {
    && (forall i :: 0 <= i < |s.buffer| ==> s.buffer[i] < |s.broker.deliveries| && Taken(s.buffer[i]) !in s.notes)
    && (forall i, j :: 0 <= i < j < |s.buffer| ==> s.buffer[i] != s.buffer[j])
    && (forall n :: n in s.notes ==> n.tag < |s.broker.deliveries|)
  }

  /** `_current_raw_message` is the message the loop is working on. */
  ghost predicate InHand(s: State) {
    && (s.pc.Handling? || s.pc.Settling? ==> s.current == Raw(s.pc.tag))
    && (s.pc.Handling? ==> s.notes != [] && s.notes[|s.notes| - 1] == Taken(s.pc.tag))
  }

  function MessagesOf(s: State): set<nat> {
    set t | t in s.recorded && t < |s.broker.deliveries| :: s.broker.deliveries[t].message
  }

  /** Only asked settlements travel, and the acknowledged messages are exactly
      those with a recorded ack. */
  ghost predicate AcksAsked(s: State) {
    && (forall ask :: ask in s.sent ==> Asked(ask.0, ask.1) in s.notes)
    && (forall t :: t in s.recorded ==> Asked(t, true) in s.notes && t < |s.broker.deliveries|)
    && (forall m :: m in s.broker.acked <==> m in MessagesOf(s))
  }

  ghost predicate Inv(s: State) {
    && Conserved(s.broker) && WithinPrefetch(s.broker, s.prefetch)
    && Orderly(s.notes) && BufferFresh(s) && InHand(s) && AcksAsked(s)
  }

  lemma DeliverInv(s: State, m: nat)
    requires Inv(s) && Live(s) && m in s.broker.ready && HasRoom(s.broker, s.prefetch)
    ensures Inv(Step(s, Deliver(m)))
  {
    hide WithinPrefetch, Fits, Answered, HasRoom, OneTagEach;
    DeliverConserves(s.broker, m, s.broker.channel);
    DeliverWithinPrefetch(s.broker, m, s.prefetch);
    assert MessagesOf(Step(s, Deliver(m))) == MessagesOf(s);
  }

  lemma ChannelGoneInv(s: State, c: nat)
    requires Inv(s) && c <= s.broker.channel
    ensures Inv(Step(s, Event.ChannelGone(c)))
  {
    hide WithinPrefetch, Fits, Answered, OneTagEach;
    ChannelGoneConserves(s.broker, c);
    FewerWithinPrefetch(s.broker, RabbitBroker.ChannelGone(s.broker, c), s.prefetch);
    assert MessagesOf(Step(s, Event.ChannelGone(c))) == MessagesOf(s);
  }

  lemma BrokerInv(s: State, t: nat, ack: bool)
    requires Inv(s) && (t, ack) in s.sent
    ensures Inv(BrokerStep(s, t, ack))
  {
    hide WithinPrefetch, Fits, Answered, OneTagEach;
    SettleConserves(s.broker, t, ack);
    FewerWithinPrefetch(s.broker, Settle(s.broker, t, ack), s.prefetch);
    var n := BrokerStep(s, t, ack);
    if ack && t in s.broker.unacked {
      assert MessagesOf(n) == MessagesOf(s) + {s.broker.deliveries[t].message};
    } else {
      assert MessagesOf(n) == MessagesOf(s);
    }
  }

  lemma NotesInv(s: State, more: seq<Note>, t: State)
    requires AcksAsked(s) && t.notes == s.notes + more && t.broker == s.broker && t.recorded == s.recorded
    requires forall ask :: ask in t.sent ==> ask in s.sent || Asked(ask.0, ask.1) in more
    ensures AcksAsked(t)
  {
    assert MessagesOf(t) == MessagesOf(s);
  }

  lemma TakeInv(s: State, decodes: bool)
    requires Inv(s) && s.buffer != []
    ensures Inv(Take(s, decodes))
  {
    hide Conserved, WithinPrefetch, Fits, Answered;
    var n := Take(s, decodes);
    if s.running {
      var t := s.buffer[0];
      var more := TakenNotes(s.notes, t, decodes);
      assert n.notes == s.notes + more;
      NotesInv(s, more, n);
      forall i | 0 <= i < |n.buffer| ensures Taken(n.buffer[i]) !in n.notes {
        assert n.buffer[i] == s.buffer[i + 1] != t;
      }
    } else {
      NotesInv(s, [], n);
    }
  }

  lemma OutcomeInv(s: State, e: Event)
    requires Inv(s) && s.pc.Handling? && (e.HandlerReturns? || e.HandlerRaises?)
    ensures Inv(Step(s, e))
  {
    hide Conserved, WithinPrefetch, Fits, Answered;
    var more := OutcomeNotes(s.notes, s.pc.tag, e.HandlerReturns?);
    assert Step(s, e).notes == s.notes + more;
    NotesInv(s, more, Step(s, e));
  }

  lemma QuietInv(s: State, e: Event)
    requires Inv(s)
    requires e.StartReturns? || e.StartFails? || e.SettleReturns? || e.StreamEnds? || e.StopReturns?
          || e.CloseBegins? || e.CloseEnds? || e.Cancel? || e.Crash?
    ensures Inv(Step(s, e))
  {
    hide Conserved, WithinPrefetch, Fits, Answered;
    var t := Step(s, e);
    assert t.broker == s.broker && t.notes == s.notes && t.sent == s.sent && t.recorded == s.recorded;
    assert t.buffer == s.buffer || t.buffer == [];
    NotesInv(s, [], t);
  }

  lemma FreshChannelInv(s: State)
    requires Inv(s)
    ensures Inv(Step(s, Subscribe))
  {
    hide WithinPrefetch, Fits, Answered;
    var b := s.broker.(channel := s.broker.channel + 1);
    assert Messages(b, b.unacked) == Messages(s.broker, s.broker.unacked);
    FewerWithinPrefetch(s.broker, b, s.prefetch);
    assert MessagesOf(Step(s, Subscribe)) == MessagesOf(s);
  }

  lemma PublishInv(s: State)
    requires Inv(s)
    ensures Inv(Step(s, Publish))
  {
    hide WithinPrefetch, Conserved, Fits, Answered;
    PublishConserves(s.broker);
    FewerWithinPrefetch(s.broker, RabbitBroker.Publish(s.broker), s.prefetch);
    assert MessagesOf(Step(s, Publish)) == MessagesOf(s);
  }

  lemma StepInv(s: State, e: Event)
    requires Inv(s)
    ensures Inv(Step(s, e))
  {
    hide Inv, Take, BrokerStep;
    match e
    case Publish => PublishInv(s);
    case Subscribe => FreshChannelInv(s);
    case Deliver(m) => if Live(s) && m in s.broker.ready && HasRoom(s.broker, s.prefetch) { DeliverInv(s, m); }
    case ChannelGone(c) => if c <= s.broker.channel { ChannelGoneInv(s, c); }
    case BrokerActs(t, ack) => if (t, ack) in s.sent { BrokerInv(s, t, ack); }
    case Pull(decodes) => if s.pc == Pulling && s.buffer != [] { TakeInv(s, decodes); }
    case HandlerReturns => if s.pc.Handling? { OutcomeInv(s, e); }
    case HandlerRaises => if s.pc.Handling? { OutcomeInv(s, e); }
    case _ => QuietInv(s, e);
  }

  lemma InitInv(prefetch: nat)
    ensures Inv(Init(prefetch))
  {
    assert Messages(Init(prefetch).broker, {}) == {};
    forall c ensures HeldBy(Init(prefetch).broker, c) == {} {}
  }

  lemma StepKeepsPrefetch(s: State, e: Event)
    ensures Step(s, e).prefetch == s.prefetch
  {
  }

  lemma {:induction false} ReachableInv(prefetch: nat, events: seq<Event>)
    ensures Inv(Run(Init(prefetch), events)) && Run(Init(prefetch), events).prefetch == prefetch
  {
    hide Step;
    if events == [] {
      InitInv(prefetch);
    } else {
      var n := |events| - 1;
      ReachableInv(prefetch, events[..n]);
      StepInv(Run(Init(prefetch), events[..n]), events[n]);
      StepKeepsPrefetch(Run(Init(prefetch), events[..n]), events[n]);
    }
  }

  // ------------------------------------------------------------------
  // Main results
  // ------------------------------------------------------------------

  /** In every run the published messages are exactly the ready, the
      unacknowledged and the acknowledged ones, without overlap, and no channel
      holds more than the prefetch count. */
  lemma Conservation(prefetch: nat, events: seq<Event>)
    ensures var b := Run(Init(prefetch), events).broker;
            && b.ready !! b.acked !! Messages(b, b.unacked)
            && b.ready + b.acked + Messages(b, b.unacked) == Upto(b.published)
            && |b.ready| + |b.unacked| + |b.acked| == b.published
            && (prefetch != 0 ==> forall c :: |HeldBy(b, c)| <= prefetch)
  {
    hide Step, Run;
    ReachableInv(prefetch, events);
    ConservedCount(Run(Init(prefetch), events).broker);
  }

  /** An acknowledged message has a delivery whose handler call returned and
      whose ack was sent at once and acted on. */
  lemma AckedOnlyAfterItsHandlerReturned(prefetch: nat, events: seq<Event>, m: nat)
    requires m in Run(Init(prefetch), events).broker.acked
    ensures var s := Run(Init(prefetch), events);
            exists t: nat, i ::
              && t in s.recorded && t < |s.broker.deliveries| && s.broker.deliveries[t].message == m
              && 0 <= i < |s.notes| - 1 && s.notes[i] == Returned(t) && s.notes[i + 1] == Asked(t, true)
  {
    hide Step, Run, Conserved, WithinPrefetch, Answered;
    ReachableInv(prefetch, events);
    var s := Run(Init(prefetch), events);
    var t: nat :| t in s.recorded && t < |s.broker.deliveries| && s.broker.deliveries[t].message == m;
    var j :| 0 <= j < |s.notes| && s.notes[j] == Asked(t, true);
    AskedAfterOutcome(s.notes, j);
  }

  /** Each handled delivery gets exactly one settlement attempt, an ack exactly
      when its handler returned, and it is sent at once. */
  lemma OneSettlementPerDelivery(prefetch: nat, events: seq<Event>, i: int)
    requires var ns := Run(Init(prefetch), events).notes;
             0 <= i < |ns| && (ns[i].Returned? || ns[i].Raised?)
    ensures var ns := Run(Init(prefetch), events).notes;
            && i + 1 < |ns| && ns[i + 1] == Asked(ns[i].tag, ns[i].Returned?)
            && forall j :: 0 <= j < |ns| && ns[j].Asked? && ns[j].tag == ns[i].tag ==> j == i + 1
  {
    hide Step, Run;
    ReachableInv(prefetch, events);
    SettledOnce(Run(Init(prefetch), events).notes, i);
  }

  /** The two settlement methods act on `_current_raw_message`; it is always
      the message being handled. */
  lemma CurrentIsTheMessageInHand(prefetch: nat, events: seq<Event>)
    ensures var s := Run(Init(prefetch), events);
            s.pc.Handling? || s.pc.Settling? ==> s.current == Raw(s.pc.tag)
  {
    hide Step, Run;
    ReachableInv(prefetch, events);
  }

  /** All channels up to n have gone. */
  function Drained(b: Broker, n: nat): Broker {
    RabbitBroker.ChannelGone(if n == 0 then b else Drained(b, n - 1), n)
  }

  lemma {:induction false} DrainedKeeps(b: Broker, n: nat)
    requires Conserved(b) && n <= b.channel
    ensures var d := Drained(b, n);
            && Conserved(d) && d.acked == b.acked && d.published == b.published
            && d.deliveries == b.deliveries && d.unacked <= b.unacked
            && d.channel == (if n == b.channel then n + 1 else b.channel)
            && forall t :: t in d.unacked ==> d.deliveries[t].channel > n
  {
    if n > 0 { DrainedKeeps(b, n - 1); }
    ChannelGoneConserves(if n == 0 then b else Drained(b, n - 1), n);
  }

  /** Whatever was not acknowledged is there to be delivered again once the
      channels of a run are gone, however the sessions ended. */
  lemma UnsettledComesBack(prefetch: nat, events: seq<Event>)
    ensures var b := Run(Init(prefetch), events).broker;
            var d := Drained(b, b.channel);
            d.unacked == {} && d.acked == b.acked && d.ready == Upto(b.published) - b.acked
  {
    hide Step, Run;
    var b := Run(Init(prefetch), events).broker;
    ReachableInv(prefetch, events);
    DrainedKeeps(b, b.channel);
    var d := Drained(b, b.channel);
    forall t ensures t !in d.unacked {
      assert t in b.unacked ==> b.deliveries[t].channel <= b.channel;
    }
    assert Messages(d, {}) == {};
    assert d.ready + d.acked == Upto(b.published);
  }

  // ------------------------------------------------------------------
  // What gets done, and what ends it
  // ------------------------------------------------------------------

  /** In every run the message in hand has its own live or lost delivery: a
      handler that returns leads to its ack, one that raises to its nack.  While
      the delivery is live the broker then has the message among the
      acknowledged or again among the ready ones; a lost one is not settled. */
  lemma OutcomeReachesBroker(prefetch: nat, events: seq<Event>, returned: bool)
    requires Run(Init(prefetch), events).pc.Handling?
    ensures var s := Run(Init(prefetch), events);
            var tag := s.pc.tag;
            var asked := Step(s, if returned then HandlerReturns else HandlerRaises);
            var after := Step(asked, BrokerActs(tag, returned));
            && tag < |s.broker.deliveries|
            && (tag, returned) in asked.sent && after.sent == asked.sent - {(tag, returned)}
            && (if returned then Returned(tag) else Raised(tag)) in asked.notes && asked.broker == s.broker
            && Step(asked, SettleReturns).pc == Pulling
            && SettledAs(s.broker, after.broker, tag, returned)
  {
    hide Run, WithinPrefetch, Orderly, AcksAsked;
    ReachableInv(prefetch, events);
    var s := Run(Init(prefetch), events);
    assert Taken(s.pc.tag) in s.notes;
    hide Conserved;
    AskThenSettle(s, if returned then Returned(s.pc.tag) else Raised(s.pc.tag), returned);
  }

  /** The same for a message that does not decode: it is nacked unhandled. */
  lemma UndecodableIsNacked(prefetch: nat, events: seq<Event>)
    requires var s := Run(Init(prefetch), events); s.pc == Pulling && s.running && s.buffer != []
    ensures var s := Run(Init(prefetch), events);
            var tag := s.buffer[0];
            var asked := Step(s, Pull(false));
            && tag < |s.broker.deliveries|
            && asked.notes == s.notes + [Taken(tag), Raised(tag), Asked(tag, false)] && asked.buffer == s.buffer[1..]
            && Step(asked, SettleReturns).pc == Pulling
            && SettledAs(s.broker, Step(asked, BrokerActs(tag, false)).broker, tag, false)
  {
    hide Run, WithinPrefetch, Orderly, AcksAsked;
    ReachableInv(prefetch, events);
    var s := Run(Init(prefetch), events);
    hide Conserved;
    var taken := Log(s, [Taken(s.buffer[0])]).(current := Raw(s.buffer[0]), buffer := s.buffer[1..]);
    AskThenSettle(taken, Raised(s.buffer[0]), false);
  }

  /** The delivery's message went where its settlement sends it, and nothing else moved. */
  ghost predicate SettledAs(b: Broker, after: Broker, tag: nat, ack: bool)
    requires tag < |b.deliveries|
  {
    var m := b.deliveries[tag].message;
    if tag !in b.unacked then after == b
    else
      && after.unacked == b.unacked - {tag} && after.deliveries == b.deliveries && after.published == b.published
      && after.acked == b.acked + (if ack then {m} else {}) && after.ready == b.ready + (if ack then {} else {m})
      && m !in Messages(after, after.unacked)
  }

  lemma AskThenSettle(s: State, outcome: Note, ack: bool)
    requires Conserved(s.broker) && outcome.tag < |s.broker.deliveries|
    ensures var asked := Ask(s, outcome, ack);
            var after := BrokerStep(asked, outcome.tag, ack);
            && (outcome.tag, ack) in asked.sent && after.sent == asked.sent - {(outcome.tag, ack)}
            && SettledAs(s.broker, after.broker, outcome.tag, ack)
  {
    MessageLeaves(s.broker, outcome.tag);
  }

  lemma MessageLeaves(b: Broker, tag: nat)
    requires Conserved(b)
    ensures tag in b.unacked ==> b.deliveries[tag].message !in Messages(b, b.unacked - {tag})
  {
  }

  /** The broker pushes a ready message to a live session exactly while the
      session holds fewer than the prefetch count, or when that is 0. */
  lemma DeliveredExactlyWithinPrefetch(prefetch: nat, events: seq<Event>, m: nat)
    requires var s := Run(Init(prefetch), events); Live(s) && m in s.broker.ready
    ensures var s := Run(Init(prefetch), events);
            var t := Step(s, Deliver(m));
            if prefetch == 0 || |HeldBy(s.broker, s.broker.channel)| < prefetch then
              && t.buffer == s.buffer + [|s.broker.deliveries|]
              && t.broker.deliveries == s.broker.deliveries + [Delivery(m, s.broker.channel)]
              && t.broker.unacked == s.broker.unacked + {|s.broker.deliveries|}
              && t.broker.ready == s.broker.ready - {m} && t.broker.acked == s.broker.acked
            else t == s
  {
    hide Run, Inv;
    ReachableInv(prefetch, events);
  }

  /** When a channel goes, exactly what was out on it is ready again, and a
      settlement of any of it that still arrives changes nothing. */
  lemma LostChannelRequeues(s: State, c: nat, t: nat, ack: bool)
    requires c <= s.broker.channel && t in s.broker.unacked && t < |s.broker.deliveries|
    ensures var n := Step(s, Event.ChannelGone(c));
            && (t in n.broker.unacked <==> s.broker.deliveries[t].channel != c)
            && (s.broker.deliveries[t].channel == c ==>
                  && s.broker.deliveries[t].message in n.broker.ready
                  && Step(n, BrokerActs(t, ack)).broker == n.broker)
            && n.broker.acked == s.broker.acked && n.broker.deliveries == s.broker.deliveries
            && n.broker.channel >= s.broker.channel && n.broker.channel > c
  {
    var b := s.broker;
    assert t in HeldBy(b, c) <==> b.deliveries[t].channel == c;
    assert t in HeldBy(b, c) ==> b.deliveries[t].message in Messages(b, HeldBy(b, c));
  }

  predicate Distinct(ms: seq<nat>) {
    forall i, j :: 0 <= i < j < |ms| ==> ms[i] != ms[j]
  }

  function Members(ms: seq<nat>): set<nat> {
    set m | m in ms
  }

  /** Each message of ms delivered, handled and acked in turn; tags count from t. */
  function Rounds(ms: seq<nat>, t: nat): seq<Event> {
    if ms == [] then []
    else
      Rounds(ms[..|ms| - 1], t) + [Deliver(ms[|ms| - 1])] + [Pull(true)] + [HandlerReturns]
      + [BrokerActs(t + |ms| - 1, true)] + [SettleReturns]
  }

  ghost predicate Waiting(s: State, ms: seq<nat>) {
    && s.pc == Pulling && s.running && s.buffer == [] && HeldBy(s.broker, s.broker.channel) == {}
    && |s.broker.deliveries| !in s.broker.unacked
    && Distinct(ms) && Members(ms) <= s.broker.ready
  }

  lemma OneRound(s: State, m: nat)
    requires Waiting(s, [m]) && TagsKnown(s.broker)
    ensures var t := |s.broker.deliveries|;
            var n := Step(Step(Step(Step(Step(s, Deliver(m)), Pull(true)), HandlerReturns), BrokerActs(t, true)),
                          SettleReturns);
            && n.broker.ready == s.broker.ready - {m} && n.broker.acked == s.broker.acked + {m}
            && n.broker.unacked == s.broker.unacked && |n.broker.deliveries| == t + 1
            && n.broker.channel == s.broker.channel && HeldBy(n.broker, n.broker.channel) == {}
            && TagsKnown(n.broker) && n.pc == Pulling && n.running && n.buffer == []
  {
    assert m in Members([m]);
    var t := |s.broker.deliveries|;
    var s1 := Step(s, Deliver(m));
    assert s1.buffer == [t];
    var s2 := Step(s1, Pull(true));
    assert s2.pc == Handling(t) && s2.buffer == [];
  }

  lemma {:induction false} RoundsGo(s: State, ms: seq<nat>)
    requires Waiting(s, ms) && TagsKnown(s.broker)
    ensures var n := Run(s, Rounds(ms, |s.broker.deliveries|));
            && n.broker.ready == s.broker.ready - Members(ms) && n.broker.acked == s.broker.acked + Members(ms)
            && n.broker.unacked == s.broker.unacked && |n.broker.deliveries| == |s.broker.deliveries| + |ms|
            && TagsKnown(n.broker) && Waiting(n, [])
  {
    hide Step, Run;
    if ms == [] {
      RunNothing(s);
    } else {
      var k, t0 := |ms| - 1, |s.broker.deliveries|;
      var m := ms[k];
      assert ms == ms[..k] + [m];
      assert Members(ms) == Members(ms[..k]) + {m};
      RoundsGo(s, ms[..k]);
      var es := Rounds(ms[..k], t0);
      var n := Run(s, es);
      assert m in Members(ms) && m !in Members(ms[..k]);
      OneRound(n, m);
      Extend(s, es, n, Deliver(m));
      Extend(s, es + [Deliver(m)], Step(n, Deliver(m)), Pull(true));
      var n2 := Step(Step(n, Deliver(m)), Pull(true));
      Extend(s, es + [Deliver(m)] + [Pull(true)], n2, HandlerReturns);
      Extend(s, es + [Deliver(m)] + [Pull(true)] + [HandlerReturns],
             Step(n2, HandlerReturns), BrokerActs(t0 + k, true));
      Extend(s, es + [Deliver(m)] + [Pull(true)] + [HandlerReturns] + [BrokerActs(t0 + k, true)],
             Step(Step(n2, HandlerReturns), BrokerActs(t0 + k, true)), SettleReturns);
    }
  }

  lemma Extend(s: State, events: seq<Event>, t: State, e: Event)
    requires Run(s, events) == t
    ensures Run(s, events + [e]) == Step(t, e)
  {
    hide Step;
    assert (events + [e])[..|events|] == events;
  }

  lemma {:induction false} RunAppend(s: State, a: seq<Event>, b: seq<Event>)
    ensures Run(s, a + b) == Run(Run(s, a), b)
  {
    hide Step;
    if b == [] {
      assert a + b == a;
    } else {
      var n := |b| - 1;
      RunAppend(s, a, b[..n]);
      assert a + b == a + b[..n] + [b[n]];
      Extend(s, a + b[..n], Run(s, a + b[..n]), b[n]);
    }
  }

  /** A session left alone acknowledges every message that is ready, in whatever
      order the broker delivers them: from any idle state of any run, and with
      any prefetch count. */
  lemma SessionDrains(prefetch: nat, events: seq<Event>, ms: seq<nat>)
    requires var s := Run(Init(prefetch), events);
             s.pc == Idle && Distinct(ms) && Members(ms) == s.broker.ready
    ensures var s := Run(Init(prefetch), events);
            var t := Run(Init(prefetch), events + ([Subscribe, StartReturns] + Rounds(ms, |s.broker.deliveries|)));
            && t.broker.ready == {} && t.broker.acked == s.broker.acked + Members(ms)
            && t.broker.unacked == s.broker.unacked
  {
    hide Run, Step;
    ReachableInv(prefetch, events);
    var s := Run(Init(prefetch), events);
    var begun := [Subscribe, StartReturns];
    SessionBegins(s);
    RunAppend(Init(prefetch), events, begun + Rounds(ms, |s.broker.deliveries|));
    RunAppend(s, begun, Rounds(ms, |s.broker.deliveries|));
    RoundsGo(Run(s, begun), ms);
  }

  /** A session opens a channel of its own, on which nothing is out yet. */
  lemma SessionBegins(s: State)
    requires s.pc == Idle && TagsKnown(s.broker)
    ensures var t := Run(s, [Subscribe, StartReturns]);
            && t.pc == Pulling && t.running && t.channel && t.buffer == [] && t.notes == s.notes
            && t.broker == s.broker.(channel := s.broker.channel + 1)
            && TagsKnown(t.broker) && HeldBy(t.broker, t.broker.channel) == {}
  {
    hide Run;
    RunNothing(s);
    Extend(s, [], s, Subscribe);
    Extend(s, [] + [Subscribe], Step(s, Subscribe), StartReturns);
    assert [] + [Subscribe] + [StartReturns] == [Subscribe, StartReturns];
  }

  ghost predicate TakesNothing(before: seq<Note>, after: seq<Note>) {
    before <= after && forall i :: |before| <= i < |after| ==> !after[i].Taken?
  }

  /** Once close() has begun no message is taken until a session starts anew. */
  lemma {:induction false} CloseStopsTaking(s: State, more: seq<Event>)
    requires StartReturns !in more
    ensures var t := Run(Step(s, CloseBegins), more);
            !t.running && TakesNothing(s.notes, t.notes)
  {
    if more != [] {
      var n := |more| - 1;
      CloseStopsTaking(s, more[..n]);
      assert more[n] in more;
      StoppedStep(Run(Step(s, CloseBegins), more[..n]), more[n]);
    }
  }

  lemma StoppedStep(s: State, e: Event)
    requires !s.running && !e.StartReturns?
    ensures !Step(s, e).running && TakesNothing(s.notes, Step(s, e).notes)
  {
  }

  /** A close() that finds a channel forgets it, and is over; one that finds
      none has nothing to wait for. */
  lemma CloseForgets(s: State)
    ensures var t := if s.channel then Step(Step(s, CloseBegins), CloseEnds) else Step(s, CloseBegins);
            !t.channel && !t.running && t.closing == s.closing && t.pc == s.pc && t.broker == s.broker
  {
  }

  /** Each way out of a session leads, once the connection is closed, to a
      consumer that can subscribe again: no session, no channel, not running,
      and nothing left of the iterator's buffer. */
  lemma SessionEnds(s: State, e: Event)
    requires match s.pc
             case Starting => e == StartFails || (e == StartReturns && !s.channel)
             case Pulling => e == StreamEnds || e == Cancel || (e.Pull? && !s.running && s.buffer != [])
             case Handling(_) => e == Cancel
             case Settling(_) => e == Cancel
             case _ => false
    ensures var t := Step(Step(s, e), StopReturns);
            && t.pc == Idle && !t.channel && (t.running ==> e == StartFails && s.running)
            && (e == StartFails || t.buffer == []) && t.broker == s.broker && t.notes == s.notes && t.sent == s.sent
            && Step(t, Subscribe).pc == Starting && Step(t, Subscribe).buffer == []
  {
  }

  /** A task cancelled while it connects or closes, or a process that dies,
      leaves no session either, but only the latter forgets the channel. */
  lemma SessionInterrupted(s: State)
    ensures s.pc.Starting? || s.pc.Stopping? ==> Step(s, Cancel) == s.(pc := Idle)
    ensures var t := Step(s, Crash);
            && t.pc == Idle && !t.channel && !t.running && t.closing == 0 && t.buffer == [] && t.current == Nothing
            && t.broker == s.broker && t.notes == s.notes && t.sent == s.sent
  {
  }
}

/** Several overlapping subscribe() calls on one consumer: their loops share
    `_current_raw_message`, and each settles whatever it holds.  Each loop has a
    channel of its own; channels go, loops are left and the process dies at any
    time, and a settlement that was sent is acted on at any later time or never. */
module RabbitOverlap {
  import opened RabbitBroker
  import opened Sets
  import opened Settlements
  import opened Text

  datatype State = State(
    broker: Broker,
    current: Option<nat>,   // `_current_raw_message`
    taken: set<nat>,        // deliveries that some loop took
    hands: map<nat, nat>,   // the delivery that each loop's handler is working on
    sent: set<(nat, bool)>, // acks (true) and nacks (false) on their way
    recorded: set<nat>,     // deliveries whose ack the broker acted on
    notes: seq<Note>)

  datatype Event =
    | Publish
    | OpenChannel
    | Deliver(message: nat, channel: nat)
    | ChannelGone(channel: nat)
    | Takes(loop: nat, tag: nat)
    | Returns(loop: nat)
    | Raises(loop: nat)
    | Leaves(loop: nat)
    | BrokerActs(tag: nat, ack: bool)
    | Crash

  function Init(): State {
    State(Broker(0, {}, {}, {}, [], 0), None, {}, map[], {}, {}, [])
  }

  /** ack() or nack() after the handler of this loop: it settles the current message. */
  function Ask(s: State, loop: nat, outcome: Note, ack: bool): State {
    var done := s.(hands := s.hands - {loop});
    if s.current.None? then done.(notes := s.notes + [outcome])
    else done.(notes := s.notes + [outcome, Asked(s.current.value, ack)], sent := s.sent + {(s.current.value, ack)})
  }

  function BrokerStep(s: State, t: nat, ack: bool): State {
    s.(sent := s.sent - {(t, ack)}, broker := Settle(s.broker, t, ack),
       recorded := if ack && t in s.broker.unacked then s.recorded + {t} else s.recorded)
  }

  function Step(s: State, e: Event): State {
    match e
    case Publish => s.(broker := RabbitBroker.Publish(s.broker))
    case OpenChannel => s.(broker := s.broker.(channel := s.broker.channel + 1))
    case Deliver(m, c) =>
      if m in s.broker.ready && c <= s.broker.channel then s.(broker := DeliverOn(s.broker, m, c)) else s
    case ChannelGone(c) => s.(broker := RabbitBroker.ChannelGone(s.broker, c))
    case Takes(l, t) =>
      if l in s.hands || t in s.taken || t >= |s.broker.deliveries| then s
      else s.(current := Some(t), taken := s.taken + {t}, hands := s.hands[l := t], notes := s.notes + [Taken(t)])
    case Returns(l) => if l !in s.hands then s else Ask(s, l, Returned(s.hands[l]), true)
    case Raises(l) => if l !in s.hands then s else Ask(s, l, Raised(s.hands[l]), false)
    case Leaves(l) => s.(hands := s.hands - {l})
    case BrokerActs(t, ack) => if (t, ack) in s.sent then BrokerStep(s, t, ack) else s
    case Crash => s.(hands := map[], current := None)
  }

  function Run(events: seq<Event>): State {
    if events == [] then Init() else Step(Run(events[..|events| - 1]), events[|events| - 1])
  }

  /** The delivery that some loop took last. */
  function LastTaken(ns: seq<Note>): Option<nat> {
    if ns == [] then None
    else if ns[|ns| - 1].Taken? then Some(ns[|ns| - 1].tag)
    else LastTaken(ns[..|ns| - 1])
  }

  /** An outcome is followed by a settlement of the message taken last, and nothing else is. */
  ghost predicate Paired(ns: seq<Note>, i: int)
    requires 0 <= i < |ns|
  {
    match ns[i]
    case Taken(_) => true
    case Returned(_) => i + 1 < |ns| && ns[i + 1].Asked? && ns[i + 1].ack && LastTaken(ns[..i]) == Some(ns[i + 1].tag)
    case Raised(_) => i + 1 < |ns| && ns[i + 1].Asked? && !ns[i + 1].ack && LastTaken(ns[..i]) == Some(ns[i + 1].tag)
    case Asked(_, ack) => i > 0 && if ack then ns[i - 1].Returned? else ns[i - 1].Raised?
  }

  ghost predicate Shared(s: State) {
    && (s.current.Some? ==> s.current == LastTaken(s.notes)) && (s.current.None? ==> s.hands == map[])
    && forall i :: 0 <= i < |s.notes| ==> Paired(s.notes, i)
  }

  function MessagesOf(s: State): set<nat> {
    set t | t in s.recorded && t < |s.broker.deliveries| :: s.broker.deliveries[t].message
  }

  /** Only asked settlements travel, and the acknowledged messages are exactly
      those with a recorded ack. */
  ghost predicate AcksAsked(s: State) {
    && (forall ask :: ask in s.sent ==> Asked(ask.0, ask.1) in s.notes)
    && (forall t :: t in s.recorded ==> Asked(t, true) in s.notes && t < |s.broker.deliveries|)
    && s.broker.acked == MessagesOf(s)
  }

  ghost predicate Inv(s: State) {
    Shared(s) && AcksAsked(s) && Conserved(s.broker)
  }

  lemma PairedGrows(ns: seq<Note>, more: seq<Note>)
    requires forall i :: 0 <= i < |ns| ==> Paired(ns, i)
    requires forall i :: |ns| <= i < |ns + more| ==> Paired(ns + more, i)
    ensures forall i :: 0 <= i < |ns + more| ==> Paired(ns + more, i)
  {
    forall i | 0 <= i < |ns| ensures Paired(ns + more, i) {
      assert Paired(ns, i);
      assert (ns + more)[..i] == ns[..i];
    }
  }

  lemma TakeShared(s: State, l: nat, t: nat)
    requires Shared(s)
    ensures Shared(Step(s, Takes(l, t)))
  {
    if Step(s, Takes(l, t)) != s {
      assert (s.notes + [Taken(t)])[..|s.notes|] == s.notes;
      PairedGrows(s.notes, [Taken(t)]);
    }
  }

  lemma AskShared(s: State, l: nat, returned: bool)
    requires Shared(s) && l in s.hands
    ensures Shared(Ask(s, l, if returned then Returned(s.hands[l]) else Raised(s.hands[l]), returned))
  {
    var n := |s.notes|;
    var more := [if returned then Returned(s.hands[l]) else Raised(s.hands[l]), Asked(s.current.value, returned)];
    var after := s.notes + more;
    assert after[..n] == s.notes && after[..n + 1] == s.notes + [more[0]] && (s.notes + [more[0]])[..n] == s.notes;
    assert LastTaken(s.notes + [more[0]]) == LastTaken(s.notes);
    assert after[..|after| - 1] == s.notes + [more[0]];
    PairedGrows(s.notes, more);
  }

  /** What a step of the loops leaves to the broker. */
  lemma LoopAcks(s: State, t: State, more: seq<Note>)
    requires AcksAsked(s) && t.notes == s.notes + more && t.broker == s.broker && t.recorded == s.recorded
    requires forall ask :: ask in t.sent ==> ask in s.sent || Asked(ask.0, ask.1) in more
    ensures AcksAsked(t)
  {
    assert MessagesOf(t) == MessagesOf(s);
  }

  lemma LoopInv(s: State, e: Event)
    requires Inv(s) && (e.Takes? || e.Returns? || e.Raises? || e.Leaves? || e.Crash?)
    ensures Inv(Step(s, e))
  {
    hide Conserved, Paired;
    var t := Step(s, e);
    match e
    case Takes(l, tag) =>
      TakeShared(s, l, tag);
      LoopAcks(s, t, if t == s then [] else [Taken(tag)]);
    case Leaves(_) => LoopAcks(s, t, []);
    case Crash => LoopAcks(s, t, []);
    case Returns(l) => if l in s.hands { AskInv(s, l, true); }
    case Raises(l) => if l in s.hands { AskInv(s, l, false); }
    case _ =>
  }

  lemma AskInv(s: State, l: nat, returned: bool)
    requires Inv(s) && l in s.hands
    ensures Inv(Ask(s, l, if returned then Returned(s.hands[l]) else Raised(s.hands[l]), returned))
  {
    hide Conserved, Paired;
    var outcome := if returned then Returned(s.hands[l]) else Raised(s.hands[l]);
    AskShared(s, l, returned);
    LoopAcks(s, Ask(s, l, outcome, returned), [outcome, Asked(s.current.value, returned)]);
  }

  lemma OpenConserves(b: Broker)
    requires Conserved(b)
    ensures Conserved(b.(channel := b.channel + 1))
  {
    assert Messages(b.(channel := b.channel + 1), b.unacked) == Messages(b, b.unacked);
  }

  lemma BrokerInv(s: State, e: Event)
    requires Inv(s) && (e.Publish? || e.OpenChannel? || e.Deliver? || e.ChannelGone?)
    ensures Inv(Step(s, e))
  {
    hide Paired, Conserved;
    var t := Step(s, e);
    match e {
      case Publish => PublishConserves(s.broker);
      case OpenChannel => OpenConserves(s.broker);
      case Deliver(m, c) => if m in s.broker.ready && c <= s.broker.channel { DeliverConserves(s.broker, m, c); }
      case ChannelGone(c) => ChannelGoneConserves(s.broker, c);
    }
    assert MessagesOf(t) == MessagesOf(s);
  }

  lemma SettleInv(s: State, t: nat, ack: bool)
    requires Inv(s) && (t, ack) in s.sent
    ensures Inv(BrokerStep(s, t, ack))
  {
    hide Paired, OneTagEach;
    SettleConserves(s.broker, t, ack);
    var n := BrokerStep(s, t, ack);
    if ack && t in s.broker.unacked {
      assert MessagesOf(n) == MessagesOf(s) + {s.broker.deliveries[t].message};
    } else {
      assert MessagesOf(n) == MessagesOf(s);
    }
  }

  lemma StepInv(s: State, e: Event)
    requires Inv(s)
    ensures Inv(Step(s, e))
  {
    hide Inv;
    if e.BrokerActs? {
      if (e.tag, e.ack) in s.sent { SettleInv(s, e.tag, e.ack); }
    } else if e.Publish? || e.OpenChannel? || e.Deliver? || e.ChannelGone? {
      BrokerInv(s, e);
    } else {
      LoopInv(s, e);
    }
  }

  lemma {:induction false} ReachableInv(events: seq<Event>)
    ensures Inv(Run(events))
  {
    if events == [] {
      assert Messages(Init().broker, {}) == {};
      assert MessagesOf(Init()) == {};
    } else {
      hide Step, Inv;
      ReachableInv(events[..|events| - 1]);
      StepInv(Run(events[..|events| - 1]), events[|events| - 1]);
    }
  }

  /** Messages are conserved with any number of loops. */
  lemma Conservation(events: seq<Event>)
    ensures var b := Run(events).broker;
            && b.ready !! b.acked !! Messages(b, b.unacked)
            && b.ready + b.acked + Messages(b, b.unacked) == Upto(b.published)
  {
    hide Step, Run;
    ReachableInv(events);
  }

  /** With any number of loops, a finished handler settles its own message
      exactly when no other loop has taken one since. */
  lemma SettlesOwnExactly(events: seq<Event>, i: int)
    requires var ns := Run(events).notes; 0 <= i < |ns| && (ns[i].Returned? || ns[i].Raised?)
    ensures var ns := Run(events).notes;
            && i + 1 < |ns| && ns[i + 1].Asked? && ns[i + 1].ack == ns[i].Returned?
            && (ns[i + 1].tag == ns[i].tag <==> LastTaken(ns[..i]) == Some(ns[i].tag))
  {
    hide Step, Run, Conserved, AcksAsked;
    ReachableInv(events);
    assert Paired(Run(events).notes, i);
  }

  /** Every ack comes after its own message's handler returned. */
  ghost predicate AcksHandled(ns: seq<Note>) {
    forall i :: 0 <= i < |ns| && ns[i].Asked? && ns[i].ack ==> Returned(ns[i].tag) in ns[..i]
  }

  /** Whenever a handler returns, the handler of the message taken last has returned. */
  ghost predicate LastOneDone(ns: seq<Note>) {
    forall i :: 0 <= i < |ns| && ns[i].Returned? ==>
      LastTaken(ns[..i]).Some? && Returned(LastTaken(ns[..i]).value) in ns[..i + 1]
  }

  /** What survives of "acked only after its handler returned" with several
      loops: it holds of a run exactly when no handler returns while the
      handler of the message taken last has not. */
  lemma AcksHandledExactly(events: seq<Event>)
    ensures AcksHandled(Run(events).notes) <==> LastOneDone(Run(events).notes)
  {
    hide Step, Run, Conserved, AcksAsked;
    ReachableInv(events);
    var ns := Run(events).notes;
    if AcksHandled(ns) {
      forall i | 0 <= i < |ns| && ns[i].Returned?
        ensures LastTaken(ns[..i]).Some? && Returned(LastTaken(ns[..i]).value) in ns[..i + 1]
      {
        assert Paired(ns, i);
      }
    }
    if LastOneDone(ns) {
      forall i | 0 <= i < |ns| && ns[i].Asked? && ns[i].ack ensures Returned(ns[i].tag) in ns[..i] {
        assert Paired(ns, i) && Paired(ns, i - 1);
      }
    }
  }

  /** The handler of some delivery returned at entry i while t was the message taken last. */
  ghost predicate AckedBy(ns: seq<Note>, t: nat, i: int) {
    0 <= i < |ns| - 1 && ns[i].Returned? && LastTaken(ns[..i]) == Some(t) && ns[i + 1] == Asked(t, true)
  }

  /** A message acked at the broker has a delivery t that was acked because some
      handler returned while t was taken last.  So a delivery is acked at the
      broker without its own handler having returned only when handlers of
      other deliveries alone returned while it was taken last. */
  lemma AckedAtBroker(events: seq<Event>, m: nat)
    requires m in Run(events).broker.acked
    ensures var s := Run(events);
            exists t: nat, i ::
              && t in s.recorded && t < |s.broker.deliveries| && s.broker.deliveries[t].message == m
              && AckedBy(s.notes, t, i)
              && (Returned(t) !in s.notes ==> forall j :: AckedBy(s.notes, t, j) ==> s.notes[j].tag != t)
              && (LastOneDone(s.notes) ==> Returned(t) in s.notes[..i + 1])
  {
    hide Step, Run, Conserved;
    ReachableInv(events);
    var s := Run(events);
    var ns := s.notes;
    var t: nat :| t in s.recorded && t < |s.broker.deliveries| && s.broker.deliveries[t].message == m;
    var k :| 0 <= k < |ns| && ns[k] == Asked(t, true);
    assert Paired(ns, k) && Paired(ns, k - 1);
    assert AckedBy(ns, t, k - 1);
    forall j | AckedBy(ns, t, j) && ns[j].tag == t ensures Returned(t) in ns {
      assert ns[j] == Returned(t);
    }
  }

  /** Whichever loop finishes, its handler's outcome is written down and leads
      to one settlement, of the message that some loop took last; while that
      delivery is live the broker then has its message among the acknowledged
      or again among the ready ones.  The other loops go on. */
  lemma LoopSettlesLastTaken(events: seq<Event>, l: nat, returned: bool)
    requires l in Run(events).hands
    ensures var s := Run(events);
            var asked := Step(s, if returned then Returns(l) else Raises(l));
            && LastTaken(s.notes).Some?
            && var t := LastTaken(s.notes).value;
            var b := Step(asked, BrokerActs(t, returned)).broker;
            var outcome := if returned then Returned(s.hands[l]) else Raised(s.hands[l]);
            && asked.notes == s.notes + [outcome, Asked(t, returned)]
            && asked.hands == s.hands - {l} && asked.current == s.current && asked.broker == s.broker
            && (t in s.broker.unacked && t < |s.broker.deliveries| ==>
                  && b.unacked == s.broker.unacked - {t}
                  && b.acked == s.broker.acked + (if returned then {s.broker.deliveries[t].message} else {})
                  && b.ready == s.broker.ready + (if returned then {} else {s.broker.deliveries[t].message}))
  {
    hide Run, Conserved, AcksAsked, Paired;
    ReachableInv(events);
  }

  /** A loop at its await takes any delivery that none has taken, live or not,
      and the others keep theirs. */
  lemma LoopTakes(s: State, l: nat, t: nat)
    requires l !in s.hands && t !in s.taken && t < |s.broker.deliveries|
    ensures var n := Step(s, Takes(l, t));
            && n.notes == s.notes + [Taken(t)] && n.current == Some(t)
            && n.hands == s.hands[l := t] && Step(n, Takes(l + 1, t)) == n && n.broker == s.broker
  {
  }

  /** A loop that is left settles nothing.  A process that dies leaves no loop
      and nothing to settle, and what was out on a channel that goes is ready
      again; a new channel holds nothing. */
  lemma LoopsEnd(events: seq<Event>, l: nat, c: nat, t: nat)
    ensures var s := Run(events);
            && Step(s, Leaves(l)) == s.(hands := s.hands - {l})
            && Step(s, Crash) == s.(hands := map[], current := None)
            && HeldBy(Step(s, OpenChannel).broker, Step(s, OpenChannel).broker.channel) == {}
    ensures var s := Run(events);
            var n := Step(s, Event.ChannelGone(c));
            t in s.broker.unacked ==>
              && t < |s.broker.deliveries|
              && (t in n.broker.unacked <==> s.broker.deliveries[t].channel != c)
              && (s.broker.deliveries[t].channel == c ==> s.broker.deliveries[t].message in n.broker.ready)
              && n.broker.acked == s.broker.acked
  {
    hide Run, Shared, AcksAsked, OneTagEach;
    ReachableInv(events);
    var b := Run(events).broker;
    assert TagsKnown(b);
    if t in b.unacked {
      assert t in HeldBy(b, c) <==> b.deliveries[t].channel == c;
      assert t in HeldBy(b, c) ==> b.deliveries[t].message in Messages(b, HeldBy(b, c));
    }
  }

  /** Two loops are enough: the broker acks a message whose handler is still running. */
  lemma AckedWhileHandled() returns (events: seq<Event>)
    ensures var s := Run(events);
            s.broker.acked == {1} && s.hands == map[1 := 1] && s.broker.deliveries == [Delivery(0, 0), Delivery(1, 0)]
            && Returned(1) !in s.notes
  {
    hide Run;
    events := TwoInHand();
    RunSplit(events, Returns(0));
    RunSplit(events + [Returns(0)], BrokerActs(1, true));
    events := events + [Returns(0)] + [BrokerActs(1, true)];
    assert Run(events).notes == [Taken(0), Taken(1), Returned(0), Asked(1, true)];
  }

  lemma TwoInHand() returns (events: seq<Event>)
    ensures var s := Run(events);
            && s.broker == Broker(2, {}, {0, 1}, {}, [Delivery(0, 0), Delivery(1, 0)], 0)
            && s.current == Some(1) && s.hands == map[0 := 0, 1 := 1] && s.notes == [Taken(0), Taken(1)] && s.sent == {}
  {
    hide Run;
    var s0 := Run([]);
    assert s0 == Init() by { RunNothing(); }
    RunSplit([], Publish);
    RunSplit([] + [Publish], Publish);
    RunSplit([] + [Publish] + [Publish], Deliver(0, 0));
    events := [] + [Publish] + [Publish] + [Deliver(0, 0)];
    RunSplit(events, Deliver(1, 0));
    RunSplit(events + [Deliver(1, 0)], Takes(0, 0));
    RunSplit(events + [Deliver(1, 0)] + [Takes(0, 0)], Takes(1, 1));
    events := events + [Deliver(1, 0)] + [Takes(0, 0)] + [Takes(1, 1)];
  }

  lemma RunNothing()
    ensures Run([]) == Init()
  {
  }

  lemma RunSplit(before: seq<Event>, e: Event)
    ensures Run(before + [e]) == Step(Run(before), e)
  {
    hide Step;
    assert (before + [e])[..|before|] == before;
  }
}

/** The consumer itself, with the broker in its fields. */
module RabbitmqConsumerModel {
  import opened RabbitBroker
  import opened RabbitProtocol
  import opened Settlements

  predicate Wakes(pc: Pc, e: Event) {
    match pc
    case Idle => false
    case Starting => e.StartReturns? || e.StartFails? || e.Cancel? || e.Crash?
    case Pulling => e.Pull? || e.StreamEnds? || e.Cancel? || e.Crash?
    case Handling(_) => e.HandlerReturns? || e.HandlerRaises? || e.Cancel? || e.Crash?
    case Settling(_) => e.SettleReturns? || e.Cancel? || e.Crash?
    case Stopping => e.StopReturns? || e.Cancel? || e.Crash?
  }

  lemma Next(s0: State, script: seq<Event>, n: nat)
    requires n < |script|
    ensures Run(s0, script[..n + 1]) == Step(Run(s0, script[..n]), script[n])
  {
    hide Step;
    assert script[..n + 1][..n] == script[..n];
  }

  class RabbitmqConsumer {
    var running: bool
    var hasChannel: bool
    var closing: nat
    var current: Current
    // the broker, the iterator's buffer and what is on the wire
    const prefetch: nat
    var broker: Broker
    var buffer: seq<nat>
    var sent: set<(nat, bool)>
    // where subscribe() is suspended, and what has happened
    var pc: Pc
    ghost var recorded: set<nat>
    ghost var notes: seq<Note>

    ghost function View(): State
      reads this
    {
      State(broker, prefetch, buffer, running, hasChannel, closing, current, sent, recorded, pc, notes)
    }

    constructor (prefetch: nat)
      ensures View() == Init(prefetch)
    {
      this.prefetch := prefetch;
      running, hasChannel, closing, current := false, false, 0, Nothing;
      broker, buffer, sent := Broker(0, {}, {}, {}, [], 0), [], {};
      pc, recorded, notes := Idle, {}, [];
    }

    /** close(), up to its await. */
    method Close()
      modifies this
      ensures View() == Step(old(View()), CloseBegins)
    {
      running := false;
      if hasChannel { closing := closing + 1; }
    }

    /** close(), after its awaits. */
    method CloseResumed()
      requires closing > 0
      modifies this
      ensures View() == Step(old(View()), CloseEnds)
    {
      hasChannel := false;
      closing := closing - 1;
    }

    /** The process dies. */
    method Die()
      modifies this
      ensures View() == Step(old(View()), Crash)
    {
      running, hasChannel, closing, current, buffer, pc := false, false, 0, Nothing, [], Idle;
    }

    /** A settlement reaches the broker. */
    method BrokerActs(t: nat, ack: bool)
      modifies this
      ensures View() == Step(old(View()), Event.BrokerActs(t, ack))
      ensures pc == old(pc) && current == old(current)
    {
      if (t, ack) !in sent { return; }
      if ack && t in broker.unacked { recorded := recorded + {t}; }
      sent := sent - {(t, ack)};
      broker := Settle(broker, t, ack);
    }

    /** What the rest of the world does while subscribe() stays suspended. */
    method Meanwhile(e: Event)
      requires pc != Idle && !Wakes(pc, e)
      modifies this
      ensures View() == Step(old(View()), e)
      ensures pc == old(pc) && current == old(current)
    {
      match e
      case Publish => broker := RabbitBroker.Publish(broker);
      case Deliver(m) =>
        if (pc.Pulling? || pc.Handling? || pc.Settling?) && m in broker.ready && HasRoom(broker, prefetch) {
          buffer := buffer + [|broker.deliveries|];
          broker := RabbitBroker.Deliver(broker, m);
        }
      case ChannelGone(c) =>
        if c <= broker.channel { broker := RabbitBroker.ChannelGone(broker, c); }
      case BrokerActs(t, ack) => BrokerActs(t, ack);
      case CloseBegins => Close();
      case CloseEnds => if closing > 0 { CloseResumed(); }
      case _ =>
    }

    /** Stay suspended until an event of the script wakes the task; nothing else
        touches `_current_raw_message` meanwhile. */
    method Await(script: seq<Event>, from: nat, ghost s0: State) returns (n: nat)
      requires from <= |script| && pc != Idle && View() == Run(s0, script[..from])
      modifies this
      ensures from <= n <= |script| && View() == Run(s0, script[..n])
      ensures pc == old(pc) && current == old(current)
      ensures n < |script| ==> Wakes(pc, script[n]) && Run(s0, script[..n + 1]) == Step(View(), script[n])
    {
      hide Step, Run;
      n := from;
      while n < |script| && !Wakes(pc, script[n])
        invariant from <= n <= |script| && View() == Run(s0, script[..n])
        invariant pc == old(pc) && current == old(current)
      {
        Meanwhile(script[n]);
        Next(s0, script, n);
        n := n + 1;
      }
      if n < |script| { Next(s0, script, n); }
    }

    /** The connection is closed, or the task is cancelled once more, or the process dies. */
    method StopResumed(e: Event)
      requires pc == Stopping && Wakes(pc, e)
      modifies this
      ensures View() == Step(old(View()), e) && pc == Idle
    {
      match e
      case StopReturns => hasChannel, running, pc := false, false, Idle;
      case Cancel => pc := Idle;
      case Crash => Die();
    }

    /** Leave the iterator, then the `finally` block of subscribe(). */
    method FinallyBlock(script: seq<Event>, from: nat, ghost s0: State) returns (n: nat)
      requires from <= |script| && Run(s0, script[..from]) == Finally(View())
      modifies this
      ensures from <= n <= |script| && View() == Run(s0, script[..n])
      ensures n < |script| ==> pc == Idle
    {
      hide Step, Run;
      buffer := [];
      if !hasChannel {
        running, pc := false, Idle;
        return from;
      }
      pc := Stopping;
      n := Await(script, from, s0);
      if n < |script| {
        StopResumed(script[n]);
        n := n + 1;
      }
    }

    /** The session is cancelled or its stream ends, or the process dies. */
    method Leave(script: seq<Event>, from: nat, ghost s0: State) returns (n: nat)
      requires from < |script| && View() == Run(s0, script[..from])
      requires script[from].Crash? || (script[from].StreamEnds? && pc.Pulling?)
            || (script[from].Cancel? && (pc.Pulling? || pc.Handling? || pc.Settling?))
      modifies this
      ensures from < n <= |script| && View() == Run(s0, script[..n])
      ensures n == |script| || pc == Idle
    {
      hide Run;
      Next(s0, script, from);
      if script[from].Crash? {
        Die();
        return from + 1;
      }
      n := FinallyBlock(script, from + 1, s0);
    }

    /** ack() and nack(), up to their await: whatever `_current_raw_message`
        holds is settled. */
    method Ask(outcome: Note, ack: bool)
      requires current == Raw(outcome.tag)
      modifies this
      ensures View() == RabbitProtocol.Ask(old(View()), outcome, ack)
    {
      sent := sent + {(current.tag, ack)};
      pc, notes := Settling(current.tag), notes + [outcome, Asked(current.tag, ack)];
    }

    /** The loop body for the next buffered message, up to its first await.
        `leave` says that the loop is left. */
    method Body(decodes: bool) returns (leave: bool)
      requires pc == Pulling
      modifies this
      ensures leave ==> Finally(View()) == Step(old(View()), Pull(decodes))
      ensures !leave ==> View() == Step(old(View()), Pull(decodes)) && (pc.Pulling? || InLoop(pc, current))
    {
      if buffer == [] { return false; }
      var t := buffer[0];
      buffer := buffer[1..];
      if !running { return true; }
      current, notes := Raw(t), notes + [Taken(t)];
      if decodes {
        pc := Handling(t);
      } else {
        Ask(Raised(t), false);
      }
      return false;
    }

    /** The handler returned or raised; ack() or nack() runs up to its await. */
    method HandlerResumed(e: Event)
      requires pc.Handling? && current == Raw(pc.tag) && (e.HandlerReturns? || e.HandlerRaises?)
      modifies this
      ensures View() == Step(old(View()), e)
      ensures InLoop(pc, current) && pc.Settling?
    {
      if e.HandlerReturns? {
        Ask(Returned(pc.tag), true);
      } else {
        Ask(Raised(pc.tag), false);
      }
    }

    /** From the await of the settlement to the end of the loop body; an error
        from the broker is swallowed. */
    method Settled(script: seq<Event>, from: nat, ghost s0: State) returns (n: nat, alive: bool)
      requires from <= |script| && pc.Settling? && View() == Run(s0, script[..from])
      modifies this
      ensures from <= n <= |script| && View() == Run(s0, script[..n])
      ensures alive ==> pc == Pulling
      ensures !alive ==> n == |script| || pc == Idle
    {
      hide Run;
      n := Await(script, from, s0);
      if n == |script| { return n, false; }
      if script[n].SettleReturns? {
        pc := Pulling;
        return n + 1, true;
      }
      n := Leave(script, n, s0);
      return n, false;
    }

    /** From the await of the handler to the end of the loop body. */
    method Handle(script: seq<Event>, from: nat, ghost s0: State) returns (n: nat, alive: bool)
      requires from <= |script| && pc.Handling? && current == Raw(pc.tag) && View() == Run(s0, script[..from])
      modifies this
      ensures from <= n <= |script| && View() == Run(s0, script[..n])
      ensures alive ==> pc == Pulling
      ensures !alive ==> n == |script| || pc == Idle
    {
      hide Step, Run;
      n := Await(script, from, s0);
      if n == |script| { return n, false; }
      if script[n].Cancel? || script[n].Crash? {
        n := Leave(script, n, s0);
        return n, false;
      }
      HandlerResumed(script[n]);
      n, alive := Settled(script, n + 1, s0);
    }

    /** `async for message in queue_iter`, and what follows it. */
    method Consume(script: seq<Event>, from: nat, ghost s0: State) returns (n: nat)
      requires from <= |script| && pc == Pulling && View() == Run(s0, script[..from])
      modifies this
      ensures from <= n <= |script| && View() == Run(s0, script[..n])
      ensures n == |script| || pc == Idle
    {
      hide Step, Run;
      n := from;
      var alive := true;
      while alive
        invariant from <= n <= |script| && View() == Run(s0, script[..n])
        invariant alive ==> pc == Pulling
        invariant !alive ==> n == |script| || pc == Idle
        decreases alive, |script| - n
      {
        n := Await(script, n, s0);
        if n == |script| { return; }
        if !script[n].Pull? {
          n := Leave(script, n, s0);
          return;
        }
        var leave := Body(script[n].decodes);
        n := n + 1;
        if leave {
          n := FinallyBlock(script, n, s0);
          return;
        }
        if pc.Handling? {
          n, alive := Handle(script, n, s0);
        } else if pc.Settling? {
          n, alive := Settled(script, n, s0);
        }
      }
    }

    /** Connecting failed, was cancelled, or the process died. */
    method StartFailed(e: Event)
      requires pc == Starting && (e.StartFails? || e.Cancel? || e.Crash?)
      modifies this
      ensures View() == Step(old(View()), e) && pc == Idle
    {
      match e
      case StartFails => hasChannel, pc := false, Idle;
      case Cancel => pc := Idle;
      case Crash => Die();
    }

    /** subscribe(), driven by whatever the script says happens next.  After
        every event its fields are the protocol's state. */
    method Subscribe(script: seq<Event>) returns (n: nat)
      requires pc == Idle
      modifies this
      ensures n <= |script|
      ensures View() == Run(Step(old(View()), Event.Subscribe), script[..n])
      ensures n < |script| ==> pc == Idle
    {
      ghost var s0 := Step(View(), Event.Subscribe);
      hasChannel, buffer, pc := true, [], Starting;
      broker := broker.(channel := broker.channel + 1);
      RunNothing(s0);
      n := Connected(script, s0);
    }

    /** subscribe() once it awaits the connection. */
    method Connected(script: seq<Event>, ghost s0: State) returns (n: nat)
      requires pc == Starting && View() == Run(s0, script[..0])
      modifies this
      ensures n <= |script| && View() == Run(s0, script[..n])
      ensures n < |script| ==> pc == Idle
    {
      hide Run;
      n := Await(script, 0, s0);
      if n == |script| { return; }
      if !script[n].StartReturns? {
        StartFailed(script[n]);
        return n + 1;
      }
      n := n + 1;
      if hasChannel {
        running, pc := true, Pulling;
        n := Consume(script, n, s0);
      } else {
        n := FinallyBlock(script, n, s0);
      }
    }
  }

  predicate InLoop(pc: Pc, current: Current) {
    (pc.Handling? || pc.Settling?) && current == Raw(pc.tag)
  }
}
