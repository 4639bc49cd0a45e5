/** Why each record of a dispatch ends as it does, and at which instants: read off the events of the run. */
module CohortCauses {
  import opened Prelude
  import opened VesselTiming
  import opened CohortDispatch

  // Transitions of a timing and of a record ----------------------------------------------------

  /** An accepted transition records the instant and nothing else; a refused one says why. */
  lemma TransitionsExactly(t: Timing, at: Instant)
    ensures match AdmitTransport(t, at)
            case Ok(t') =>
              t.admitted.None? && t.logical <= at && t' == Timing(t.logical, Some(at), t.started, t.completed)
            case Err(AlreadyRecorded) => t.admitted.Some?
            case Err(PrerequisiteMissing) => false
            case Err(Regression) => t.admitted.None? && at < t.logical
    ensures match StartProvider(t, at)
            case Ok(t') =>
              && t.started.None? && t.admitted.Some? && t.admitted.value <= at
              && t' == Timing(t.logical, t.admitted, Some(at), t.completed)
            case Err(AlreadyRecorded) => t.started.Some?
            case Err(PrerequisiteMissing) => t.started.None? && t.admitted.None?
            case Err(Regression) => t.started.None? && t.admitted.Some? && at < t.admitted.value
    ensures match CompleteTiming(t, at)
            case Ok(t') =>
              && t.completed.None? && t.started.Some? && t.started.value <= at
              && t' == Timing(t.logical, t.admitted, t.started, Some(at))
            case Err(AlreadyRecorded) => t.completed.Some?
            case Err(PrerequisiteMissing) => t.completed.None? && t.started.None?
            case Err(Regression) => t.completed.None? && t.started.Some? && at < t.started.value
  {
  }

  /** A record is completed or terminated with the instant of its end, if its provider was started. */
  lemma EndsExactly(r: Record, to: Disposition, at: Instant)
    requires Ordered(r.timing)
    ensures Completion(r, at).Ok? <==>
              r.timing.started.None? || (r.timing.completed.None? && r.timing.started.value <= at)
    ensures Completion(r, at).Ok? ==> EndedAt(r, Completion(r, at).value, Completed, at)
    ensures Termination(r, to, at).Ok? <==>
              r.timing.started.None? || r.timing.completed.Some? || r.timing.started.value <= at
    ensures Termination(r, to, at).Ok? ==> EndedAt(r, Termination(r, to, at).value, to, at)
  {
  }

  predicate EndedAt(r: Record, r': Record, to: Disposition, at: Instant) {
    && r'.disposition == to && r'.timing.logical == r.timing.logical
    && r'.timing.admitted == r.timing.admitted && r'.timing.started == r.timing.started
    && r'.timing.completed ==
       if r.timing.started.Some? && r.timing.completed.None? then Some(at) else r.timing.completed
  }

  // What ended a worker's call ------------------------------------------------------------------

  /** The provider call is answered, or an exception comes before it is made. */
  predicate Ends(pc: Pc, outcome: Outcome) {
    pc.Invoking? || (outcome.Throws? && (pc.Counted? || pc.Started?))
  }

  /** How the call of worker `i` ended, by the event that ended it. */
  function Cause(s: State, events: seq<Event>, i: nat): Option<Outcome> {
    if events == [] then None
    else
      var front, e := events[..|events|-1], events[|events|-1];
      var was := Run(s, front);
      if e.i == i && Sensible(was, e) && Ends(was.workers[i].pc, e.outcome) then Some(e.outcome)
      else Cause(s, front, i)
  }

  /** What a worker's stage and record say about how its call ended. */
  predicate Explained(w: Worker, invalid: bool, cause: Option<Outcome>) {
    match w.pc
    case Answered(ok, failure) => cause == Some(if ok then Fine else Throws(failure))
    case Leaving(failed, failure) => ClosedBy(w, failed, failure, cause)
    case Releasing(failed, failure) => ClosedBy(w, failed, failure, cause)
    case Raised(failure) => cause == Some(Throws(failure))
    case Finished(counted) =>
      if invalid then cause == None && w.record.disposition == Invalidated
      else
        || (cause == Some(Fine) && w.record.disposition == Completed)
        || cause == Some(Throws(w.record.disposition))
    case _ => cause == None
  }

  predicate ClosedBy(w: Worker, failed: bool, failure: Disposition, cause: Option<Outcome>) {
    if failed then cause == Some(Throws(failure)) else cause == Some(Fine) && w.record.disposition == Completed
  }

  lemma InsideExplained(w: Worker, outcome: Outcome, invalid: bool, logical: Instant, cause: Option<Outcome>)
    requires WorkerOk(w, invalid, logical) && Explained(w, invalid, cause)
    requires IsCounted(w.pc) && !w.pc.Leaving?
    ensures Explained(Inside(w, outcome), invalid, if Ends(w.pc, outcome) then Some(outcome) else cause)
  {
  }

  /** The moving worker stays explained; the governor never runs out of slots under it. */
  lemma OwnStepExplained(s: State, e: Event, g0: Governor, logical: Instant, cause: Option<Outcome>)
    requires Inv(s, g0, logical) && Sensible(s, e) && Explained(s.workers[e.i], s.invalid[e.i], cause)
    ensures e.i < |Step(s, e).workers|
    ensures Explained(Step(s, e).workers[e.i], s.invalid[e.i],
                      if Ends(s.workers[e.i].pc, e.outcome) then Some(e.outcome) else cause)
  {
    var w := Ticked(s, e);
    assert WorkerOk(s.workers[e.i], s.invalid[e.i], logical);
    match w.pc
    case Queued =>
    case Admitted => CountStrictlyLess(s.workers, HoldsSlot, IsRunning, e.i);
    case Acquired =>
    case Leaving(_, _) =>
    case Releasing(_, _) =>
    case Raised(_) =>
    case Finished(_) =>
    case _ => InsideExplained(w, e.outcome, s.invalid[e.i], logical, cause);
  }

  lemma OthersStay(s: State, e: Event, i: nat)
    requires i < |s.workers| == |s.invalid| && (e.i != i || !Sensible(s, e))
    ensures i < |Step(s, e).workers| && Step(s, e).workers[i] == s.workers[i]
  {
  }

  lemma {:induction false} EveryWorkerIsExplained(g0: Governor, invalid: seq<bool>, logical: Instant,
                                                  events: seq<Event>, i: nat)
    requires Quiescent(g0) && i < |invalid|
    ensures var s := Begin(g0, invalid, logical);
      && |Run(s, events).workers| == |invalid|
      && Explained(Run(s, events).workers[i], invalid[i], Cause(s, events, i))
  {
    var s := Begin(g0, invalid, logical);
    if events != [] {
      var front, e := events[..|events|-1], events[|events|-1];
      EveryWorkerIsExplained(g0, invalid, logical, front, i);
      RunKeepsInv(g0, invalid, logical, front);
      RunKeepsInv(g0, invalid, logical, events);
      if e.i == i && Sensible(Run(s, front), e) {
        OwnStepExplained(Run(s, front), e, g0, logical, Cause(s, front, i));
      } else {
        OthersStay(Run(s, front), e, i);
      }
    }
  }

  /**
   Every record ends as its own events say: invalidated exactly when its cohort was, completed exactly
   when its call was answered without an exception, and otherwise with the class of the exception that
   ended it. A refused timing transition or a wait that starves is never among the reasons.
   */
  lemma DispositionIsCaused(g0: Governor, invalid: seq<bool>, logical: Instant, events: seq<Event>, i: nat)
    requires Quiescent(g0) && AllFinished(Run(Begin(g0, invalid, logical), events)) && i < |invalid|
    ensures var s := Begin(g0, invalid, logical);
      && i < |Run(s, events).workers|
      && var disposition, cause := Run(s, events).workers[i].record.disposition, Cause(s, events, i);
      && (disposition == Invalidated <==> invalid[i])
      && (cause == None <==> invalid[i])
      && (disposition == Completed <==> cause == Some(Fine))
      && (disposition == TimedOut <==> cause == Some(Throws(TimedOut)))
      && (disposition == Starved <==> cause == Some(Throws(Starved)))
      && (disposition == Failed <==> cause == Some(Throws(Failed)))
  {
    EveryWorkerIsExplained(g0, invalid, logical, events, i);
    WhenAllAreDone(g0, invalid, logical, events);
    CauseIsSensible(Begin(g0, invalid, logical), events, i);
  }

  lemma {:induction false} CauseIsSensible(s: State, events: seq<Event>, i: nat)
    ensures var cause := Cause(s, events, i);
      cause.Some? && cause.value.Throws? ==> cause.value.failure in {Failed, TimedOut, Starved}
  {
    if events != [] {
      CauseIsSensible(s, events[..|events|-1], i);
    }
  }

  // Instants ------------------------------------------------------------------------------------

  /** The worker's clock before and after, and every instant a step records. */
  predicate StampsAreClock(w: Worker, w': Worker) {
    var t, t' := w.record.timing, w'.record.timing;
    && w.clock <= w'.clock && t'.logical == t.logical
    && (t'.admitted == t.admitted || (w.pc.Queued? && w'.pc.Admitted? && t'.admitted == Some(w'.clock)))
    && (w.pc.Queued? && w'.pc.Admitted? ==> t'.admitted == Some(w'.clock))
    && (t'.started == t.started || (w.pc.Counted? && w'.pc.Started?))
    && (w.pc.Counted? && w'.pc.Started? ==> t'.started == Some(w'.clock))
    && (t'.completed == t.completed || (t.started.Some? && w'.record.disposition != w.record.disposition))
    && (w'.record.disposition != w.record.disposition && t.started.Some? ==> t'.completed == Some(w'.clock))
  }

  lemma InsideStamps(w: Worker, outcome: Outcome, invalid: bool, logical: Instant)
    requires WorkerOk(w, invalid, logical) && IsCounted(w.pc) && !w.pc.Leaving?
    ensures StampsAreClock(w, Inside(w, outcome))
  {
  }

  lemma QueuedStamps(s: State, e: Event, logical: Instant)
    requires Sensible(s, e) && WorkerOk(s.workers[e.i], s.invalid[e.i], logical) && s.workers[e.i].pc.Queued?
    ensures e.i < |Step(s, e).workers| && StampsAreClock(s.workers[e.i], Step(s, e).workers[e.i])
  {
  }

  lemma RaisedStamps(s: State, e: Event, logical: Instant)
    requires Sensible(s, e) && WorkerOk(s.workers[e.i], s.invalid[e.i], logical) && s.workers[e.i].pc.Raised?
    ensures e.i < |Step(s, e).workers| && StampsAreClock(s.workers[e.i], Step(s, e).workers[e.i])
  {
  }

  lemma StepStamps(s: State, e: Event, g0: Governor, logical: Instant)
    requires Inv(s, g0, logical) && Sensible(s, e)
    ensures e.i < |Step(s, e).workers| && StampsAreClock(s.workers[e.i], Step(s, e).workers[e.i])
  {
    var w := Ticked(s, e);
    assert WorkerOk(s.workers[e.i], s.invalid[e.i], logical);
    match w.pc
    case Queued => QueuedStamps(s, e, logical);
    case Admitted => CountStrictlyLess(s.workers, HoldsSlot, IsRunning, e.i);
    case Acquired =>
    case Leaving(_, _) =>
    case Releasing(_, _) =>
    case Raised(_) => RaisedStamps(s, e, logical);
    case Finished(_) =>
    case _ => InsideStamps(w, e.outcome, s.invalid[e.i], logical);
  }

  /** In every run each instant of a record is the clock of the step that recorded it. */
  lemma EveryInstantIsClock(g0: Governor, invalid: seq<bool>, logical: Instant, events: seq<Event>, e: Event, i: nat)
    requires Quiescent(g0) && i < |invalid|
    ensures var s := Run(Begin(g0, invalid, logical), events);
      && i < |s.workers| && i < |Step(s, e).workers|
      && StampsAreClock(s.workers[i], Step(s, e).workers[i])
  {
    RunKeepsInv(g0, invalid, logical, events);
    var s := Run(Begin(g0, invalid, logical), events);
    assert |s.workers| == |invalid|;
    if e.i == i && Sensible(s, e) {
      StepStamps(s, e, g0, logical);
    } else {
      OthersStay(s, e, i);
      assert WorkerOk(s.workers[i], invalid[i], logical);
    }
  }

  // The pool and the peak -----------------------------------------------------------------------

  /** A queued worker is taken up exactly while fewer run than there are records and slots. */
  lemma PoolFills(g0: Governor, invalid: seq<bool>, logical: Instant, events: seq<Event>, i: nat)
    requires Quiescent(g0) && i < |invalid|
    requires var s := Run(Begin(g0, invalid, logical), events); i < |s.workers| && s.workers[i].pc.Queued?
    ensures var s := Run(Begin(g0, invalid, logical), events); var s' := Step(s, Go(i));
      && i < |s'.workers|
      && (!s'.workers[i].pc.Queued? <==>
          Count(s.workers, IsRunning) < |invalid| && Count(s.workers, IsRunning) < g0.limit)
      && (!s'.workers[i].pc.Queued? ==> (s'.workers[i].pc.Admitted? <==> !invalid[i]))
  {
    RunKeepsInv(g0, invalid, logical, events);
    var s := Run(Begin(g0, invalid, logical), events);
    assert WorkerOk(s.workers[i], invalid[i], logical);
  }

  /** The most workers counted at once so far. */
  function MostCounted(s: State, events: seq<Event>): nat {
    var now := Count(Run(s, events).workers, IsCounted);
    if events == [] then now
    else
      var before := MostCounted(s, events[..|events|-1]);
      if now > before then now else before
  }

  lemma PeakStep(s: State, e: Event, g0: Governor, logical: Instant)
    requires Inv(s, g0, logical)
    ensures var s' := Step(s, e);
      && s'.governor.active == Count(s'.workers, IsCounted)
      && s'.governor.peak == if s'.governor.active > s.governor.peak then s'.governor.active else s.governor.peak
  {
    StepKeepsInv(s, e, g0, logical);
    if e.i < |s.workers| && s.workers[e.i].pc.Acquired? {
      EnterRaisesPeak(s, e);
    } else {
      OthersKeepPeak(s, e);
    }
  }

  lemma EnterRaisesPeak(s: State, e: Event)
    requires e.i < |s.workers| && s.workers[e.i].pc.Acquired? && s.governor.active <= s.governor.peak
    ensures var g, g' := s.governor, Step(s, e).governor;
      g'.peak == if g'.active > g.peak then g'.active else g.peak
  {
  }

  lemma OthersKeepPeak(s: State, e: Event)
    requires e.i < |s.workers| ==> !s.workers[e.i].pc.Acquired?
    ensures Step(s, e).governor.peak == s.governor.peak && Step(s, e).governor.active <= s.governor.active
  {
  }

  /** The reported peak is the greatest number of workers that ever held a counted slot, now or before. */
  lemma {:induction false} PeakIsMaximum(g0: Governor, invalid: seq<bool>, logical: Instant, events: seq<Event>)
    requires Quiescent(g0)
    ensures var s, most := Begin(g0, invalid, logical), MostCounted(Begin(g0, invalid, logical), events);
      Run(s, events).governor.peak == if most > g0.peak then most else g0.peak
  {
    var s := Begin(g0, invalid, logical);
    if events == [] {
      CountNone(s.workers, IsCounted);
    } else {
      var front, e := events[..|events|-1], events[|events|-1];
      PeakIsMaximum(g0, invalid, logical, front);
      RunKeepsInv(g0, invalid, logical, front);
      PeakStep(Run(s, front), e, g0, logical);
    }
  }
}
