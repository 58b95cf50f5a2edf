/** The bridge from the Cassandra driver's response future to asyncio.

    The driver's reactor thread only queues callbacks on the event loop; the
    loop runs them one by one; the operation timeout, or a caller, may cancel
    the waiting task at any point in between.  A run is any sequence of these
    events, with any number of reactor callbacks.
 */
module CassandraBridge {

  /** What the driver reports: rows, or an exception, which may happen to be a TimeoutError. */
  datatype Outcome = Rows(id: nat) | DriverError(code: nat, isTimeout: bool)

  datatype Future = Pending | Settled(outcome: Outcome) | Cancelled

  /** How `_execute` ends. */
  datatype Result = Returned(id: nat) | AdapterTimeout | Wrapped(code: nat) | TaskCancelled

  datatype Exec = Awaiting | Finished(result: Result)

  datatype State = State(
    fired: seq<Outcome>,    // reactor callbacks, in the order they fired
    queue: seq<Outcome>,    // callbacks queued on the loop
    future: Future,
    settlements: nat,       // set_result and set_exception calls made
    mustCancel: bool,       // cancel() came when the future was already done
    timedOut: bool,
    cancelled: bool,        // somebody else cancelled the task
    exec: Exec)

  datatype Event =
    | ReactorFires(outcome: Outcome)
    | LoopRunsCallback
    | TimeoutFires
    | CallerCancels
    | TaskResumes

  function Init(): State {
    State([], [], Pending, 0, false, false, false, Awaiting)
  }

  /** Task.cancel: cancel the awaited future, or remember to throw when it is done. */
  function CancelTask(s: State): State {
    if s.future.Pending? then s.(future := Cancelled) else s.(mustCancel := true)
  }

  /** The except clauses of `_execute`. */
  function Report(o: Outcome): Result {
    match o
    case Rows(id) => Returned(id)
    case DriverError(code, isTimeout) => if isTimeout then AdapterTimeout else Wrapped(code)
  }

  function Resume(s: State): Result
    requires !s.future.Pending?
  {
    if s.future.Cancelled? || s.mustCancel
    then if s.timedOut && !s.cancelled then AdapterTimeout else TaskCancelled
    else Report(s.future.outcome)
  }

  function Step(s: State, e: Event): State {
    match e
    case ReactorFires(o) => s.(fired := s.fired + [o], queue := s.queue + [o])
    case LoopRunsCallback =>
      if s.queue == [] then s
      else if !s.future.Pending? then s.(queue := s.queue[1..])
      else s.(queue := s.queue[1..], future := Settled(s.queue[0]), settlements := s.settlements + 1)
    case TimeoutFires =>
      if s.exec.Finished? || s.timedOut then s else CancelTask(s).(timedOut := true)
    case CallerCancels =>
      if s.exec.Finished? then s else CancelTask(s).(cancelled := true)
    case TaskResumes =>
      if s.exec.Finished? || s.future.Pending? then s else s.(exec := Finished(Resume(s)))
  }

  function Run(events: seq<Event>): State {
    if events == [] then Init()
    else Step(Run(events[..|events| - 1]), events[|events| - 1])
  }

  ghost predicate Inv(s: State) {
    match s.future
    case Pending =>
      s.queue == s.fired && s.settlements == 0 && !s.timedOut && !s.cancelled && !s.mustCancel && s.exec.Awaiting?
    case Settled(o) =>
      && s.settlements == 1 && s.fired != [] && o == s.fired[0]
      && (s.mustCancel <==> s.timedOut || s.cancelled)
      && (s.exec.Finished? ==> s.exec.result == Resume(s))
    case Cancelled =>
      && s.settlements == 0 && (s.timedOut || s.cancelled)
      && (s.exec.Finished? ==> s.exec.result == Resume(s))
  }

  lemma StepInv(s: State, e: Event)
    requires Inv(s)
    ensures Inv(Step(s, e))
  {
  }

  lemma {:induction false} Reachable(events: seq<Event>)
    ensures Inv(Run(events))
  {
    if events != [] {
      hide Step;
      Reachable(events[..|events| - 1]);
      StepInv(Run(events[..|events| - 1]), events[|events| - 1]);
    }
  }

  /** In every interleaving the future is settled at most once, and never with
      anything but the driver's first report; a cancelled one is never settled. */
  lemma SettledAtMostOnce(events: seq<Event>)
    ensures var s := Run(events);
            && s.settlements <= 1
            && (s.future.Settled? <==> s.settlements == 1)
            && (s.future.Settled? ==> s.fired != [] && s.future.outcome == s.fired[0])
  {
    hide Step, Run;
    Reachable(events);
  }

  lemma StepKeepsDecisions(s: State, e: Event)
    ensures var t := Step(s, e);
            (!s.future.Pending? ==> t.future == s.future) && (s.exec.Finished? ==> t.exec == s.exec)
  {
  }

  /** Once decided, neither the future nor the result of `_execute` changes,
      whatever callbacks or cancellations come later. */
  lemma {:induction false} DecidedForever(events: seq<Event>, more: seq<Event>)
    ensures var s, t := Run(events), Run(events + more);
            && (!s.future.Pending? ==> t.future == s.future)
            && (s.exec.Finished? ==> t.exec == s.exec)
  {
    if more == [] {
      assert events + more == events;
    } else {
      hide Step;
      var n := |more| - 1;
      DecidedForever(events, more[..n]);
      assert (events + more)[..|events| + n] == events + more[..n];
      StepKeepsDecisions(Run(events + more[..n]), more[n]);
    }
  }

  /** The exact outcome of `_execute`: a cancellation by the caller wins over
      the timeout, which wins over the driver's first report.  Rows are
      returned, an error of the driver is wrapped and raised, and an error that
      is a TimeoutError is raised as the operation's timeout. */
  lemma ExecuteOutcome(events: seq<Event>, id: nat, code: nat)
    requires Run(events).exec.Finished?
    ensures var s := Run(events);
            s.cancelled || s.timedOut || s.fired != []
    ensures var s := Run(events);
            s.exec.result == Returned(id) <==> !s.cancelled && !s.timedOut && s.fired != [] && s.fired[0] == Rows(id)
    ensures var s := Run(events);
            s.exec.result == Wrapped(code)
            <==> !s.cancelled && !s.timedOut && s.fired != [] && s.fired[0] == DriverError(code, false)
    ensures var s := Run(events);
            s.exec.result == AdapterTimeout
            <==> !s.cancelled && (s.timedOut || (s.fired != [] && s.fired[0].DriverError? && s.fired[0].isTimeout))
    ensures var s := Run(events);
            s.exec.result == TaskCancelled <==> s.cancelled
  {
    hide Step, Run;
    Reachable(events);
  }

  /** In every run a call that still waits is ended by each of the three: a
      cancellation, an expired timeout unless the call was cancelled, and the
      driver's report if it is the first and comes before both. */
  lemma EachEndsTheCall(events: seq<Event>, o: Outcome)
    requires Run(events).exec == Awaiting
    ensures var s := Step(Step(Run(events), CallerCancels), TaskResumes);
            s.exec == Finished(TaskCancelled)
    ensures var s := Step(Step(Run(events), TimeoutFires), TaskResumes);
            s.exec == Finished(if Run(events).cancelled then TaskCancelled else AdapterTimeout)
    ensures var s := Run(events);
            var t := Step(Step(Step(s, ReactorFires(o)), LoopRunsCallback), TaskResumes);
            s.fired == [] && !s.cancelled && !s.timedOut ==>
              && t.exec == Finished(match o
                                    case Rows(id) => Returned(id)
                                    case DriverError(code, true) => AdapterTimeout
                                    case DriverError(code, false) => Wrapped(code))
              && t.fired == [o] && t.settlements == 1 && t.queue == []
  {
    hide Run;
    Reachable(events);
  }

  /** A callback that runs after the future was settled or cancelled only
      leaves the loop's queue. */
  lemma LateReportIsDropped(s: State)
    requires !s.future.Pending? && s.queue != []
    ensures Step(s, LoopRunsCallback) == s.(queue := s.queue[1..])
  {
  }

  /** Nothing is left hanging: after a report, a timeout or a cancellation,
      one loop turn and one resumption finish the call. */
  lemma ExecuteFinishes(events: seq<Event>)
    requires var s := Run(events); s.fired != [] || s.timedOut || s.cancelled
    ensures Step(Step(Run(events), LoopRunsCallback), TaskResumes).exec.Finished?
  {
    hide Run;
    Reachable(events);
  }

  /** A query that succeeded can still be reported as timed out: the timeout
      fires after the future settled and before the task resumes. */
  lemma SuccessCanBeReportedAsTimeout()
    ensures exists events ::
              var s := Run(events);
              s.future == Settled(Rows(7)) && s.exec == Finished(AdapterTimeout)
  {
    hide Run;
    RunSplit([], ReactorFires(Rows(7)));
    RunSplit([] + [ReactorFires(Rows(7))], LoopRunsCallback);
    var es := [] + [ReactorFires(Rows(7))] + [LoopRunsCallback];
    RunSplit(es, TimeoutFires);
    RunSplit(es + [TimeoutFires], TaskResumes);
    assert Run([]) == Init() by { RunNothing(); }
    var s := Run(es + [TimeoutFires] + [TaskResumes]);
    assert s.future == Settled(Rows(7)) && s.exec == Finished(AdapterTimeout);
  }

  lemma RunNothing()
    ensures Run([]) == Init()
  {
  }

  lemma RunSplit(before: seq<Event>, e: Event)
    ensures Run(before + [e]) == Step(Run(before), e)
  {
    hide Step;
    assert (before + [e])[..|before|] == before;
  }
}

/** The bridge with the fields it mutates.  The frame of each method says which
    thread may touch what: the driver's callbacks never write the future. */
module CassandraBridgeModel {
  import opened CassandraBridge

  class Bridge {
    var queue: seq<Outcome>
    var future: Future
    ghost var fired: seq<Outcome>
    ghost var settlements: nat
    var mustCancel: bool
    var timedOut: bool
    var cancelled: bool
    var exec: Exec

    ghost function View(): State
      reads this
    {
      State(fired, queue, future, settlements, mustCancel, timedOut, cancelled, exec)
    }

    constructor ()
      ensures View() == Run([])
    {
      queue, future, fired, settlements := [], Pending, [], 0;
      mustCancel, timedOut, cancelled, exec := false, false, false, Awaiting;
    }

    /** on_success and on_error: reactor thread. */
    method OnReport(outcome: Outcome)
      modifies this`queue, this`fired
      ensures View() == Step(old(View()), ReactorFires(outcome))
    {
      fired, queue := fired + [outcome], queue + [outcome];
    }

    /** _set_result_threadsafe and _set_exception_threadsafe: event loop. */
    method RunCallback()
      modifies this`queue, this`future, this`settlements
      ensures View() == Step(old(View()), LoopRunsCallback)
    {
      if queue == [] { return; }
      var outcome := queue[0];
      queue := queue[1..];
      if future.Pending? {
        future, settlements := Settled(outcome), settlements + 1;
      }
    }

    /** The operation timeout expires. */
    method Timeout()
      modifies this`future, this`mustCancel, this`timedOut
      ensures View() == Step(old(View()), TimeoutFires)
    {
      if exec.Finished? || timedOut { return; }
      timedOut := true;
      if future.Pending? { future := Cancelled; } else { mustCancel := true; }
    }

    /** The caller cancels the task. */
    method Cancel()
      modifies this`future, this`mustCancel, this`cancelled
      ensures View() == Step(old(View()), CallerCancels)
    {
      if exec.Finished? { return; }
      cancelled := true;
      if future.Pending? { future := Cancelled; } else { mustCancel := true; }
    }

    /** `_execute` after its await. */
    method ResumeTask()
      requires !future.Pending? && exec.Awaiting?
      modifies this`exec
      ensures View() == Step(old(View()), TaskResumes)
    {
      if future.Cancelled? || mustCancel {
        exec := Finished(if timedOut && !cancelled then AdapterTimeout else TaskCancelled);
      } else {
        match future.outcome
        case Rows(id) => exec := Finished(Returned(id));
        case DriverError(code, isTimeout) => exec := Finished(if isTimeout then AdapterTimeout else Wrapped(code));
      }
    }
  }
}
