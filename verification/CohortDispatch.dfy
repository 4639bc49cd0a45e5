/**
 One dispatch of a council's cohorts by pool workers that share the slots of a governor. Every step
 below is one that other workers may precede or follow.
 */
module CohortDispatch {
  import opened Prelude
  import opened VesselTiming

  datatype Pc =
    | Queued
    | Admitted                          // transport admission is recorded
    | Acquired                          // holds a slot
    | Counted                           // and is counted by the governor
    | Started                           // provider start is recorded
    | Invoking                          // the provider call is in flight
    | Answered(ok: bool, failure: Disposition)
    | Leaving(failed: bool, failure: Disposition)    // the body of the slot has ended
    | Releasing(failed: bool, failure: Disposition)  // no longer counted
    | Raised(failure: Disposition)                   // the slot is back, the exception is being handled
    | Finished(counted: bool)

  datatype Worker = Worker(record: Record, pc: Pc, clock: Instant, invocations: nat)

  /** Counters that outlive a dispatch; `free` is the value of the semaphore. */
  datatype Governor = Governor(limit: nat, free: nat, active: nat, peak: nat, total: nat, starved: nat)

  datatype State = State(governor: Governor, invalid: seq<bool>, workers: seq<Worker>)

  /** How the next step of a worker turns out: as wanted, or with an exception classified by its handler. */
  datatype Outcome = Fine | Throws(failure: Disposition)

  /** Worker `i` moves on; its clock advances by `tick`. */
  datatype Event = Event(i: nat, tick: nat, outcome: Outcome)

  predicate Quiescent(g: Governor) {
    g.limit >= 1 && g.free == g.limit && g.active == 0 && g.peak <= g.limit
  }

  function Begin(g: Governor, invalid: seq<bool>, logical: Instant): State {
    State(g, invalid, seq(|invalid|, _ => Worker(Fresh(logical), Queued, logical, 0)))
  }

  // Stages of a worker ------------------------------------------------------------------------

  predicate IsRunning(pc: Pc) { !pc.Queued? && !pc.Finished? }

  predicate HoldsSlot(pc: Pc) {
    pc.Acquired? || IsCounted(pc) || pc.Releasing?
  }

  predicate IsCounted(pc: Pc) {
    pc.Counted? || pc.Started? || pc.Invoking? || pc.Answered? || pc.Leaving?
  }

  predicate InFlight(pc: Pc) { pc.Invoking? }

  predicate PastCount(pc: Pc) {
    IsCounted(pc) || pc.Releasing? || pc.Raised? || (pc.Finished? && pc.counted)
  }

  function Count(workers: seq<Worker>, stage: Pc -> bool): nat {
    if workers == [] then 0
    else Count(workers[..|workers|-1], stage) + if stage(workers[|workers|-1].pc) then 1 else 0
  }

  /** The pool never runs more workers than it has records or the governor has slots. */
  function PoolSize(s: State): nat {
    var wanted := if |s.workers| == 0 then 1 else |s.workers|;
    if wanted < s.governor.limit then wanted else s.governor.limit
  }

  // Steps -------------------------------------------------------------------------------------

  function Put(s: State, i: nat, w: Worker): State
    requires i < |s.workers|
  {
    s.(workers := s.workers[i := w])
  }

  /** A refused timing transition raises inside the slot and is handled like any other failure. */
  function WithTiming(w: Worker, next: Result<Timing, TimingError>, pc: Pc): Worker {
    if next.Ok? then w.(record := w.record.(timing := next.value), pc := pc) else w.(pc := Leaving(true, Failed))
  }

  /** Outside the slot a refused transition would escape; the worker then stands still. */
  function WithRecord(w: Worker, next: Result<Record, TimingError>, pc: Pc): Worker {
    if next.Ok? then w.(record := next.value, pc := pc) else w
  }

  function StartNext(s: State, i: nat, w: Worker): State
    requires i < |s.workers| && i < |s.invalid|
  {
    if Count(s.workers, IsRunning) >= PoolSize(s) then s
    else if s.invalid[i] then Put(s, i, WithRecord(w, Termination(w.record, Invalidated, w.clock), Finished(false)))
    else
      var next := AdmitTransport(w.record.timing, w.clock);
      if next.Ok? then Put(s, i, w.(record := w.record.(timing := next.value), pc := Admitted)) else s
  }

  /** A wait for a slot ends with a slot or, when none is free, possibly starves. */
  function Acquire(s: State, i: nat, w: Worker, outcome: Outcome): State
    requires i < |s.workers|
  {
    var g := s.governor;
    if g.free > 0 then Put(s, i, w.(pc := Acquired)).(governor := g.(free := g.free - 1))
    else if outcome.Throws? then
      var starved := WithRecord(w, Termination(w.record, Starved, w.clock), Finished(false));
      Put(s, i, starved).(governor := g.(starved := g.starved + 1))
    else s
  }

  function Enter(g: Governor): Governor {
    g.(active := g.active + 1, total := g.total + 1, peak := if g.active + 1 > g.peak then g.active + 1 else g.peak)
  }

  function Inside(w: Worker, outcome: Outcome): Worker {
    match w.pc
    case Counted =>
      if outcome.Throws? then w.(pc := Leaving(true, outcome.failure))
      else WithTiming(w, StartProvider(w.record.timing, w.clock), Started)
    case Started =>
      if outcome.Throws? then w.(pc := Leaving(true, outcome.failure))
      else w.(pc := Invoking, invocations := w.invocations + 1)
    case Invoking => w.(pc := Answered(outcome.Fine?, if outcome.Throws? then outcome.failure else Failed))
    case Answered(ok, failure) =>
      if !ok then w.(pc := Leaving(true, failure))
      else
        var next := Completion(w.record, w.clock);
        if next.Ok? then w.(record := next.value, pc := Leaving(false, Failed)) else w.(pc := Leaving(true, Failed))
    case _ => w
  }

  function Step(s: State, e: Event): State {
    if e.i >= |s.workers| || e.i >= |s.invalid| then s
    else if e.outcome.Throws? && e.outcome.failure !in {Failed, TimedOut, Starved} then s
    else
      var i, w, g := e.i, s.workers[e.i].(clock := s.workers[e.i].clock + e.tick), s.governor;
      match w.pc
      case Queued => StartNext(s, i, w)
      case Admitted => Acquire(s, i, w, e.outcome)
      case Acquired => Put(s, i, w.(pc := Counted)).(governor := Enter(g))
      case Leaving(failed, failure) =>
        if g.active == 0 then s
        else Put(s, i, w.(pc := Releasing(failed, failure))).(governor := g.(active := g.active - 1))
      case Releasing(failed, failure) =>
        if g.free >= g.limit then s
        else
          var next := if failed then Raised(failure) else Finished(true);
          Put(s, i, w.(pc := next)).(governor := g.(free := g.free + 1))
      case Raised(failure) => Put(s, i, WithRecord(w, Termination(w.record, failure, w.clock), Finished(true)))
      case Finished(_) => s
      case _ => Put(s, i, Inside(w, e.outcome))
  }

  function Run(s: State, events: seq<Event>): State {
    if events == [] then s else Step(Run(s, events[..|events|-1]), events[|events|-1])
  }

  // Counting ----------------------------------------------------------------------------------

  lemma {:induction false} CountUpdate(workers: seq<Worker>, stage: Pc -> bool, i: nat, w: Worker)
    requires i < |workers|
    ensures Count(workers[i := w], stage) + (if stage(workers[i].pc) then 1 else 0)
         == Count(workers, stage) + (if stage(w.pc) then 1 else 0)
  {
    var front := workers[..|workers|-1];
    if i < |front| {
      CountUpdate(front, stage, i, w);
      assert workers[i := w][..|workers|-1] == front[i := w];
    } else {
      assert workers[i := w][..|workers|-1] == front;
    }
  }

  lemma {:induction false} CountLess(workers: seq<Worker>, some: Pc -> bool, more: Pc -> bool)
    requires forall pc :: some(pc) ==> more(pc)
    ensures Count(workers, some) <= Count(workers, more)
  {
    if workers != [] {
      CountLess(workers[..|workers|-1], some, more);
    }
  }

  /** A running worker that holds no slot leaves one for itself. */
  lemma {:induction false} CountStrictlyLess(workers: seq<Worker>, some: Pc -> bool, more: Pc -> bool, i: nat)
    requires forall pc :: some(pc) ==> more(pc)
    requires i < |workers| && more(workers[i].pc) && !some(workers[i].pc)
    ensures Count(workers, some) < Count(workers, more)
  {
    var front := workers[..|workers|-1];
    if i < |front| {
      CountStrictlyLess(front, some, more, i);
    } else {
      CountLess(front, some, more);
    }
  }

  lemma {:induction false} CountNone(workers: seq<Worker>, stage: Pc -> bool)
    requires forall i :: 0 <= i < |workers| ==> !stage(workers[i].pc)
    ensures Count(workers, stage) == 0
  {
    if workers != [] {
      CountNone(workers[..|workers|-1], stage);
    }
  }

  // Invariant ---------------------------------------------------------------------------------

  /** What a worker's record says at each of its stages. */
  predicate WorkerOk(w: Worker, invalid: bool, logical: Instant) {
    var t := w.record.timing;
    && Ordered(t) && t.logical == logical && logical <= w.clock
    && (t.admitted.Some? ==> t.admitted.value <= w.clock) && (t.started.Some? ==> t.started.value <= w.clock)
    && w.invocations <= 1 && (invalid ==> w.invocations == 0)
    && (w.invocations == 1 ==> t.started.Some?)
    && (w.record.disposition == Completed ==> w.invocations == 1)
    && (w.record.disposition != Pending && t.started.Some? ==> t.completed.Some?)
    && match w.pc
       case Queued => w.record == Fresh(logical) && w.invocations == 0
       case Admitted => Waiting(w, invalid)
       case Acquired => Waiting(w, invalid)
       case Counted => Waiting(w, invalid)
       case Started => Open(w, invalid) && t.started.Some? && w.invocations == 0
       case Invoking => Open(w, invalid) && w.invocations == 1
       case Answered(ok, failure) => Open(w, invalid) && w.invocations == 1 && failure in {Failed, TimedOut, Starved}
       case Leaving(failed, failure) => Closing(w, invalid, failed, failure)
       case Releasing(failed, failure) => Closing(w, invalid, failed, failure)
       case Raised(failure) => Open(w, invalid) && failure in {Failed, TimedOut, Starved}
       case Finished(counted) =>
         && w.record.disposition != Pending && (invalid <==> w.record.disposition == Invalidated)
         && (counted <==> !invalid) && (invalid ==> t.admitted.None?)
  }

  predicate Open(w: Worker, invalid: bool) {
    !invalid && w.record.disposition == Pending && w.record.timing.admitted.Some? && w.record.timing.completed.None?
  }

  predicate Waiting(w: Worker, invalid: bool) {
    Open(w, invalid) && w.record.timing.started.None? && w.invocations == 0
  }

  predicate Closing(w: Worker, invalid: bool, failed: bool, failure: Disposition) {
    if failed then Open(w, invalid) && failure in {Failed, TimedOut, Starved}
    else !invalid && w.record.disposition == Completed
  }

  ghost predicate WorkersOk(s: State, logical: Instant) {
    |s.workers| == |s.invalid| &&
    forall i :: 0 <= i < |s.workers| ==> WorkerOk(s.workers[i], s.invalid[i], logical)
  }

  /** The counters agree with the stages of the workers. */
  predicate CountersAgree(s: State, g0: Governor) {
    var g := s.governor;
    && g.limit == g0.limit >= 1
    && g.free + Count(s.workers, HoldsSlot) == g.limit
    && g.active == Count(s.workers, IsCounted)
    && g.total == g0.total + Count(s.workers, PastCount)
    && g.peak <= g.limit && g.active <= g.peak && g.starved == g0.starved
    && Count(s.workers, IsRunning) <= PoolSize(s)
  }

  ghost predicate Inv(s: State, g0: Governor, logical: Instant) {
    WorkersOk(s, logical) && CountersAgree(s, g0)
  }

  function One(stage: Pc -> bool, pc: Pc): nat { if stage(pc) then 1 else 0 }

  /** How the four counts change when worker `i` becomes `w`. */
  lemma Moved(s: State, i: nat, w: Worker)
    requires i < |s.workers|
    ensures var workers', was := Put(s, i, w).workers, s.workers[i].pc;
      && Count(workers', HoldsSlot) == Count(s.workers, HoldsSlot) - One(HoldsSlot, was) + One(HoldsSlot, w.pc)
      && Count(workers', IsCounted) == Count(s.workers, IsCounted) - One(IsCounted, was) + One(IsCounted, w.pc)
      && Count(workers', PastCount) == Count(s.workers, PastCount) - One(PastCount, was) + One(PastCount, w.pc)
      && Count(workers', IsRunning) == Count(s.workers, IsRunning) - One(IsRunning, was) + One(IsRunning, w.pc)
  {
    CountUpdate(s.workers, HoldsSlot, i, w);
    CountUpdate(s.workers, IsCounted, i, w);
    CountUpdate(s.workers, PastCount, i, w);
    CountUpdate(s.workers, IsRunning, i, w);
  }

  function Ticked(s: State, e: Event): Worker
    requires e.i < |s.workers|
  {
    s.workers[e.i].(clock := s.workers[e.i].clock + e.tick)
  }

  predicate Sensible(s: State, e: Event) {
    e.i < |s.workers| == |s.invalid| && (e.outcome.Throws? ==> e.outcome.failure in {Failed, TimedOut, Starved})
  }

  lemma QueuedStep(s: State, e: Event, g0: Governor, logical: Instant)
    requires Inv(s, g0, logical) && Sensible(s, e) && s.workers[e.i].pc.Queued?
    ensures Inv(Step(s, e), g0, logical)
  {
    var w := Ticked(s, e);
    assert WorkerOk(s.workers[e.i], s.invalid[e.i], logical);
    if Count(s.workers, IsRunning) < PoolSize(s) {
      if s.invalid[e.i] {
        InvalidatedStep(s, e.i, w, g0, logical);
      } else {
        AdmissionStep(s, e.i, w, g0, logical);
      }
    }
  }

  lemma InvalidatedStep(s: State, i: nat, w: Worker, g0: Governor, logical: Instant)
    requires Inv(s, g0, logical) && i < |s.workers| && s.invalid[i] && s.workers[i].pc.Queued? && w.pc.Queued?
    requires WorkerOk(w, true, logical)
    ensures Inv(Put(s, i, w.(record := w.record.(disposition := Invalidated), pc := Finished(false))), g0, logical)
  {
    Moved(s, i, w.(record := w.record.(disposition := Invalidated), pc := Finished(false)));
  }

  lemma AdmissionStep(s: State, i: nat, w: Worker, g0: Governor, logical: Instant)
    requires Inv(s, g0, logical) && i < |s.workers| && !s.invalid[i] && s.workers[i].pc.Queued? && w.pc.Queued?
    requires WorkerOk(w, false, logical) && Count(s.workers, IsRunning) < PoolSize(s)
    ensures var timing := w.record.timing.(admitted := Some(w.clock));
      Inv(Put(s, i, w.(record := w.record.(timing := timing), pc := Admitted)), g0, logical)
  {
    Moved(s, i, w.(record := w.record.(timing := w.record.timing.(admitted := Some(w.clock))), pc := Admitted));
  }

  /** No wait for a slot starves: whoever waits runs in the pool without a slot, so one is free. */
  lemma AdmittedStep(s: State, e: Event, g0: Governor, logical: Instant)
    requires Inv(s, g0, logical) && Sensible(s, e) && s.workers[e.i].pc.Admitted?
    ensures Inv(Step(s, e), g0, logical)
  {
    assert WorkerOk(s.workers[e.i], s.invalid[e.i], logical);
    CountStrictlyLess(s.workers, HoldsSlot, IsRunning, e.i);
    Moved(s, e.i, Ticked(s, e).(pc := Acquired));
  }

  lemma AcquiredStep(s: State, e: Event, g0: Governor, logical: Instant)
    requires Inv(s, g0, logical) && Sensible(s, e) && s.workers[e.i].pc.Acquired?
    ensures Inv(Step(s, e), g0, logical)
  {
    assert WorkerOk(s.workers[e.i], s.invalid[e.i], logical);
    CountLess(s.workers, IsCounted, HoldsSlot);
    CountStrictlyLess(s.workers, IsCounted, HoldsSlot, e.i);
    Moved(s, e.i, Ticked(s, e).(pc := Counted));
  }

  lemma InsideStep(s: State, e: Event, g0: Governor, logical: Instant)
    requires Inv(s, g0, logical) && Sensible(s, e) && IsCounted(s.workers[e.i].pc) && !s.workers[e.i].pc.Leaving?
    ensures Inv(Step(s, e), g0, logical)
  {
    var w := Inside(Ticked(s, e), e.outcome);
    assert WorkerOk(s.workers[e.i], s.invalid[e.i], logical);
    InsideOk(Ticked(s, e), e.outcome, s.invalid[e.i], logical);
    Moved(s, e.i, w);
  }

  lemma InsideOk(w: Worker, outcome: Outcome, invalid: bool, logical: Instant)
    requires WorkerOk(w, invalid, logical) && IsCounted(w.pc) && !w.pc.Leaving?
    requires outcome.Throws? ==> outcome.failure in {Failed, TimedOut, Starved}
    ensures WorkerOk(Inside(w, outcome), invalid, logical) && IsCounted(Inside(w, outcome).pc)
  {
  }

  lemma LeavingStep(s: State, e: Event, g0: Governor, logical: Instant)
    requires Inv(s, g0, logical) && Sensible(s, e) && s.workers[e.i].pc.Leaving?
    ensures Inv(Step(s, e), g0, logical)
  {
    var pc := s.workers[e.i].pc;
    assert WorkerOk(s.workers[e.i], s.invalid[e.i], logical);
    Moved(s, e.i, Ticked(s, e).(pc := Releasing(pc.failed, pc.failure)));
  }

  lemma ReleasingStep(s: State, e: Event, g0: Governor, logical: Instant)
    requires Inv(s, g0, logical) && Sensible(s, e) && s.workers[e.i].pc.Releasing?
    ensures Inv(Step(s, e), g0, logical)
  {
    var pc := s.workers[e.i].pc;
    assert WorkerOk(s.workers[e.i], s.invalid[e.i], logical);
    var w := Ticked(s, e).(pc := if pc.failed then Raised(pc.failure) else Finished(true));
    Moved(s, e.i, w);
    assert WorkerOk(w, s.invalid[e.i], logical);
  }

  lemma RaisedStep(s: State, e: Event, g0: Governor, logical: Instant)
    requires Inv(s, g0, logical) && Sensible(s, e) && s.workers[e.i].pc.Raised?
    ensures Inv(Step(s, e), g0, logical)
  {
    assert WorkerOk(s.workers[e.i], s.invalid[e.i], logical);
    Moved(s, e.i, Step(s, e).workers[e.i]);
  }

  lemma StepKeepsInv(s: State, e: Event, g0: Governor, logical: Instant)
    requires Inv(s, g0, logical)
    ensures Inv(Step(s, e), g0, logical)
  {
    if Sensible(s, e) {
      match s.workers[e.i].pc
      case Queued => QueuedStep(s, e, g0, logical);
      case Admitted => AdmittedStep(s, e, g0, logical);
      case Acquired => AcquiredStep(s, e, g0, logical);
      case Leaving(_, _) => LeavingStep(s, e, g0, logical);
      case Releasing(_, _) => ReleasingStep(s, e, g0, logical);
      case Raised(_) => RaisedStep(s, e, g0, logical);
      case Finished(_) =>
      case _ => InsideStep(s, e, g0, logical);
    }
  }

  lemma {:induction false} RunKeepsInv(g0: Governor, invalid: seq<bool>, logical: Instant, events: seq<Event>)
    requires Quiescent(g0)
    ensures Inv(Run(Begin(g0, invalid, logical), events), g0, logical)
    ensures Run(Begin(g0, invalid, logical), events).invalid == invalid
  {
    var s := Begin(g0, invalid, logical);
    if events == [] {
      CountNone(s.workers, HoldsSlot);
      CountNone(s.workers, IsCounted);
      CountNone(s.workers, PastCount);
      CountNone(s.workers, IsRunning);
    } else {
      RunKeepsInv(g0, invalid, logical, events[..|events|-1]);
      StepKeepsInv(Run(s, events[..|events|-1]), events[|events|-1], g0, logical);
    }
  }

  // Main results ------------------------------------------------------------------------------

  /** At every moment of every interleaving. */
  lemma AtEveryMoment(g0: Governor, invalid: seq<bool>, logical: Instant, events: seq<Event>)
    requires Quiescent(g0)
    ensures var s := Run(Begin(g0, invalid, logical), events);
      && Count(s.workers, InFlight) <= s.governor.active <= g0.limit
      && s.governor.starved == g0.starved
      && |s.workers| == |invalid|
      && forall i :: 0 <= i < |invalid| ==>
           s.workers[i].invocations <= (if invalid[i] then 0 else 1) && Ordered(s.workers[i].record.timing)
  {
    RunKeepsInv(g0, invalid, logical, events);
    var s := Run(Begin(g0, invalid, logical), events);
    CountLess(s.workers, InFlight, IsCounted);
    assert forall i :: 0 <= i < |invalid| ==> WorkerOk(s.workers[i], invalid[i], logical);
  }

  /** A terminal disposition is final, and so are the timings recorded with it. */
  lemma TerminalIsFinal(s: State, e: Event, g0: Governor, logical: Instant, i: nat)
    requires Inv(s, g0, logical) && i < |s.workers| && s.workers[i].record.disposition != Pending
    ensures Step(s, e).workers[i].record == s.workers[i].record
  {
    assert WorkerOk(s.workers[i], s.invalid[i], logical);
  }

  datatype ClosingError = NoTerminalDisposition | SlotsLeaked | LimitExceeded | CallMultiplication

  predicate AllFinished(s: State) {
    forall i :: 0 <= i < |s.workers| ==> s.workers[i].pc.Finished?
  }

  function TrueCount(flags: seq<bool>): nat {
    if flags == [] then 0 else TrueCount(flags[..|flags|-1]) + if flags[|flags|-1] then 1 else 0
  }

  predicate AllTerminal(s: State) {
    forall i :: 0 <= i < |s.workers| ==> s.workers[i].record.disposition in TERMINAL
  }

  /** The checks at the end of a dispatch, in their order. */
  method ClosingChecks(s: State) returns (r: Option<ClosingError>)
    ensures r == if !AllTerminal(s) then Some(NoTerminalDisposition)
                 else if s.governor.active != 0 then Some(SlotsLeaked)
                 else if s.governor.peak > s.governor.limit then Some(LimitExceeded)
                 else if s.governor.total > |s.workers| then Some(CallMultiplication)
                 else None
  {
    var i := 0;
    while i < |s.workers|
      invariant i <= |s.workers|
      invariant forall j :: 0 <= j < i ==> s.workers[j].record.disposition in TERMINAL
    {
      if s.workers[i].record.disposition !in TERMINAL {
        return Some(NoTerminalDisposition);
      }
      i := i + 1;
    }
    if s.governor.active != 0 {
      return Some(SlotsLeaked);
    }
    if s.governor.peak > s.governor.limit {
      return Some(LimitExceeded);
    }
    if s.governor.total > |s.workers| {
      return Some(CallMultiplication);
    }
    return None;
  }

  lemma {:induction false} FinishedCount(s: State, logical: Instant)
    requires WorkersOk(s, logical) && AllFinished(s)
    ensures Count(s.workers, PastCount) + TrueCount(s.invalid) == |s.workers|
    decreases |s.workers|
  {
    if |s.workers| > 0 {
      var n := |s.workers| - 1;
      assert WorkerOk(s.workers[n], s.invalid[n], logical);
      FinishedCount(s.(workers := s.workers[..n], invalid := s.invalid[..n]), logical);
    }
  }

  /**
   Once all workers are done the governor is quiescent again, every record is terminal, the first three
   closing checks pass, and the last one fails exactly when earlier dispatches of the same dispatcher
   already took more slots than this one invalidates cohorts: the total counts every dispatch ever made.
   */
  lemma WhenAllAreDone(g0: Governor, invalid: seq<bool>, logical: Instant, events: seq<Event>)
    requires Quiescent(g0) && AllFinished(Run(Begin(g0, invalid, logical), events))
    ensures var s := Run(Begin(g0, invalid, logical), events);
      && Quiescent(s.governor)
      && |s.workers| == |invalid|
      && (forall i :: 0 <= i < |invalid| ==> s.workers[i].record.disposition in TERMINAL)
      && (forall i :: 0 <= i < |invalid| ==> (s.workers[i].record.disposition == Invalidated <==> invalid[i]))
      && s.governor.total == g0.total + |invalid| - TrueCount(invalid)
      && (s.governor.total > |s.workers| <==> g0.total > TrueCount(invalid))
  {
    RunKeepsInv(g0, invalid, logical, events);
    var s := Run(Begin(g0, invalid, logical), events);
    FinishedCount(s, logical);
    CountNone(s.workers, HoldsSlot);
    CountNone(s.workers, IsCounted);
    assert forall i :: 0 <= i < |invalid| ==> WorkerOk(s.workers[i], invalid[i], logical);
  }

  /**
   The end of any dispatch: it reports multiplied provider calls exactly when the governor's earlier total
   exceeds the cohorts invalidated now, so never on a new dispatcher, and reports nothing else.
   */
  method EndOfDispatch(g0: Governor, invalid: seq<bool>, logical: Instant, events: seq<Event>)
    returns (r: Option<ClosingError>)
    requires Quiescent(g0) && AllFinished(Run(Begin(g0, invalid, logical), events))
    ensures r == if g0.total > TrueCount(invalid) then Some(CallMultiplication) else None
  {
    var s := Run(Begin(g0, invalid, logical), events);
    WhenAllAreDone(g0, invalid, logical, events);
    r := ClosingChecks(s);
  }

  // A dispatch can always end -----------------------------------------------------------------

  /** How many steps a worker may still take. */
  function Rank(pc: Pc): nat {
    match pc
    case Queued => 10
    case Admitted => 9
    case Acquired => 8
    case Counted => 7
    case Started => 6
    case Invoking => 5
    case Answered(_, _) => 4
    case Leaving(_, _) => 3
    case Releasing(_, _) => 2
    case Raised(_) => 1
    case Finished(_) => 0
  }

  function Remaining(workers: seq<Worker>): nat {
    if workers == [] then 0 else Remaining(workers[..|workers|-1]) + Rank(workers[|workers|-1].pc)
  }

  lemma {:induction false} RemainingUpdate(workers: seq<Worker>, i: nat, w: Worker)
    requires i < |workers|
    ensures Remaining(workers[i := w]) + Rank(workers[i].pc) == Remaining(workers) + Rank(w.pc)
  {
    var front := workers[..|workers|-1];
    if i < |front| {
      RemainingUpdate(front, i, w);
      assert workers[i := w][..|workers|-1] == front[i := w];
    } else {
      assert workers[i := w][..|workers|-1] == front;
    }
  }

  lemma CountPositive(workers: seq<Worker>, stage: Pc -> bool, i: nat)
    requires i < |workers| && stage(workers[i].pc)
    ensures Count(workers, stage) > 0
  {
    CountStrictlyLess(workers, (pc: Pc) => false, stage, i);
  }

  function Go(i: nat): Event {
    Event(i, 0, Fine)
  }

  /** What keeps the next step of worker `i` from being held up. */
  ghost predicate Unhindered(s: State, i: nat) {
    && i < |s.workers| == |s.invalid| && !s.workers[i].pc.Finished?
    && (s.workers[i].pc.Queued? ==> Count(s.workers, IsRunning) < PoolSize(s))
    && (s.workers[i].pc.Admitted? ==> s.governor.free > 0)
    && (s.workers[i].pc.Leaving? ==> s.governor.active > 0)
    && (s.workers[i].pc.Releasing? ==> s.governor.free < s.governor.limit)
  }

  lemma StepLowersRank(s: State, i: nat, logical: Instant)
    requires Unhindered(s, i) && WorkerOk(s.workers[i], s.invalid[i], logical)
    ensures var s' := Step(s, Go(i));
      |s'.workers| == |s.workers| && s'.workers == s.workers[i := s'.workers[i]] &&
      Rank(s'.workers[i].pc) < Rank(s.workers[i].pc)
  {
    if IsCounted(s.workers[i].pc) && !s.workers[i].pc.Leaving? {
      InsideLowersRank(s.workers[i], Fine);
      assert Ticked(s, Go(i)) == s.workers[i];
    }
  }

  lemma InsideLowersRank(w: Worker, outcome: Outcome)
    requires IsCounted(w.pc) && !w.pc.Leaving?
    ensures Rank(Inside(w, outcome).pc) < Rank(w.pc)
  {
  }

  lemma RunningIsUnhindered(s: State, g0: Governor, logical: Instant, i: nat)
    requires Inv(s, g0, logical) && i < |s.workers| && IsRunning(s.workers[i].pc)
    ensures Unhindered(s, i)
  {
    match s.workers[i].pc
    case Admitted => CountStrictlyLess(s.workers, HoldsSlot, IsRunning, i);
    case Leaving(_, _) => CountPositive(s.workers, IsCounted, i);
    case Releasing(_, _) => CountPositive(s.workers, HoldsSlot, i);
    case _ =>
  }

  /** Unless all are finished, some worker can move on: a running one, or the first queued one of an empty pool. */
  lemma SomeWorkerCanMove(s: State, g0: Governor, logical: Instant) returns (i: nat)
    requires Inv(s, g0, logical) && !AllFinished(s)
    ensures Unhindered(s, i)
  {
    if running: nat :| running < |s.workers| && IsRunning(s.workers[running].pc) {
      i := running;
      RunningIsUnhindered(s, g0, logical, i);
    } else {
      i :| 0 <= i < |s.workers| && !s.workers[i].pc.Finished?;
      CountNone(s.workers, IsRunning);
    }
  }

  lemma {:induction false} RunAfter(s: State, e: Event, events: seq<Event>)
    ensures Run(s, [e] + events) == Run(Step(s, e), events)
  {
    if events == [] {
      assert [e] + events == [e] && [e][..0] == [];
    } else {
      var front := events[..|events|-1];
      RunAfter(s, e, front);
      assert ([e] + events)[..|[e] + events|-1] == [e] + front;
    }
  }

  lemma {:induction false} CanEnd(s: State, g0: Governor, logical: Instant) returns (events: seq<Event>)
    requires Inv(s, g0, logical)
    ensures AllFinished(Run(s, events))
    decreases Remaining(s.workers)
  {
    if AllFinished(s) {
      events := [];
    } else {
      var i := SomeWorkerCanMove(s, g0, logical);
      var next := Step(s, Go(i));
      assert WorkerOk(s.workers[i], s.invalid[i], logical);
      StepLowersRank(s, i, logical);
      RemainingUpdate(s.workers, i, next.workers[i]);
      StepKeepsInv(s, Go(i), g0, logical);
      var rest := CanEnd(next, g0, logical);
      RunAfter(s, Go(i), rest);
      events := [Go(i)] + rest;
    }
  }

  /** No dispatch gets stuck: whatever has happened, it can go on until every worker is finished. */
  lemma DispatchCanAlwaysEnd(g0: Governor, invalid: seq<bool>, logical: Instant, events: seq<Event>)
    requires Quiescent(g0)
    ensures exists more :: AllFinished(Run(Run(Begin(g0, invalid, logical), events), more))
  {
    RunKeepsInv(g0, invalid, logical, events);
    var more := CanEnd(Run(Begin(g0, invalid, logical), events), g0, logical);
  }
}
