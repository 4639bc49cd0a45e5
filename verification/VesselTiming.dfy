/** The timing record of a dispatch and the mutable record of one cohort that carries it. */
module VesselTiming {
  import opened Prelude

  /** Timestamps are instants; their text form and its parsing are not modelled. */
  type Instant = nat

  datatype Timing = Timing(logical: Instant, admitted: Option<Instant>, started: Option<Instant>,
                           completed: Option<Instant>)

  datatype TimingError = AlreadyRecorded | PrerequisiteMissing | Regression

  /** The shared guard of all three transitions, in the order of its checks. */
  function Guard(current: Option<Instant>, prior: Option<Instant>, at: Instant): Option<TimingError> {
    if current.Some? then Some(AlreadyRecorded)
    else if prior.None? then Some(PrerequisiteMissing)
    else if at < prior.value then Some(Regression)
    else None
  }

  function AdmitTransport(t: Timing, at: Instant): Result<Timing, TimingError> {
    var refused := Guard(t.admitted, Some(t.logical), at);
    if refused.Some? then Err(refused.value) else Ok(t.(admitted := Some(at)))
  }

  function StartProvider(t: Timing, at: Instant): Result<Timing, TimingError> {
    var refused := Guard(t.started, t.admitted, at);
    if refused.Some? then Err(refused.value) else Ok(t.(started := Some(at)))
  }

  function CompleteTiming(t: Timing, at: Instant): Result<Timing, TimingError> {
    var refused := Guard(t.completed, t.started, at);
    if refused.Some? then Err(refused.value) else Ok(t.(completed := Some(at)))
  }

  predicate Follows(later: Option<Instant>, earlier: Option<Instant>) {
    later.Some? ==> earlier.Some? && earlier.value <= later.value
  }

  /** No stage without the one before it, and none before the one before it. */
  predicate Ordered(t: Timing) {
    Follows(t.admitted, Some(t.logical)) && Follows(t.started, t.admitted) && Follows(t.completed, t.started)
  }

  /** A transition keeps the order and every instant already recorded; it is refused exactly when it could not. */
  lemma TransitionsKeepOrder(t: Timing, at: Instant)
    requires Ordered(t)
    ensures AdmitTransport(t, at).Ok? <==> t.admitted.None? && t.logical <= at
    ensures StartProvider(t, at).Ok? <==> t.started.None? && t.admitted.Some? && t.admitted.value <= at
    ensures CompleteTiming(t, at).Ok? <==> t.completed.None? && t.started.Some? && t.started.value <= at
    ensures forall r :: r in {AdmitTransport(t, at), StartProvider(t, at), CompleteTiming(t, at)} && r.Ok? ==>
      Ordered(r.value) && Extends(t, r.value)
  {
  }

  predicate Extends(t: Timing, t': Timing) {
    && t'.logical == t.logical && (t.admitted.Some? ==> t'.admitted == t.admitted)
    && (t.started.Some? ==> t'.started == t.started) && (t.completed.Some? ==> t'.completed == t.completed)
  }

  datatype Disposition = Pending | Completed | Failed | Invalidated | Starved | TimedOut

  const TERMINAL: set<Disposition> := {Completed, Failed, Invalidated, Starved, TimedOut}

  /** The state of a dispatch record as a value. */
  datatype Record = Record(timing: Timing, disposition: Disposition)

  function Fresh(logical: Instant): Record {
    Record(Timing(logical, None, None, None), Pending)
  }

  /** Completing takes a timestamp only if the provider was started. */
  function Completion(r: Record, at: Instant): Result<Record, TimingError> {
    if r.timing.started.None? then Ok(r.(disposition := Completed))
    else
      var timing := CompleteTiming(r.timing, at);
      if timing.Err? then Err(timing.error) else Ok(Record(timing.value, Completed))
  }

  function Termination(r: Record, disposition: Disposition, at: Instant): Result<Record, TimingError> {
    if r.timing.started.None? || r.timing.completed.Some? then Ok(r.(disposition := disposition))
    else
      var timing := CompleteTiming(r.timing, at);
      if timing.Err? then Err(timing.error) else Ok(Record(timing.value, disposition))
  }

  datatype RecordError = BadTiming(timing: TimingError) | InvalidTerminalDisposition

  class CohortDispatchRecord {
    var timing: Timing
    var disposition: Disposition

    function View(): Record
      reads this
    {
      Record(timing, disposition)
    }

    constructor (logical: Instant)
      ensures View() == Fresh(logical)
    {
      timing := Timing(logical, None, None, None);
      disposition := Pending;
    }

    method RecordTransportAdmission(at: Instant) returns (r: Result<(), TimingError>)
      modifies this
      ensures r.Ok? <==> AdmitTransport(old(timing), at).Ok?
      ensures View() == if r.Ok? then Record(AdmitTransport(old(timing), at).value, old(disposition)) else old(View())
    {
      var next := AdmitTransport(timing, at);
      if next.Err? {
        return Err(next.error);
      }
      timing := next.value;
      return Ok(());
    }

    method RecordProviderStart(at: Instant) returns (r: Result<(), TimingError>)
      modifies this
      ensures r.Ok? <==> StartProvider(old(timing), at).Ok?
      ensures View() == if r.Ok? then Record(StartProvider(old(timing), at).value, old(disposition)) else old(View())
    {
      var next := StartProvider(timing, at);
      if next.Err? {
        return Err(next.error);
      }
      timing := next.value;
      return Ok(());
    }

    method Complete(at: Instant) returns (r: Result<(), TimingError>)
      modifies this
      ensures r.Ok? <==> Completion(old(View()), at).Ok?
      ensures View() == if r.Ok? then Completion(old(View()), at).value else old(View())
    {
      if timing.started.Some? {
        var next := CompleteTiming(timing, at);
        if next.Err? {
          return Err(next.error);
        }
        timing := next.value;
      }
      disposition := Completed;
      return Ok(());
    }

    method Terminate(to: Disposition, at: Instant) returns (r: Result<(), RecordError>)
      modifies this
      ensures r == Err(InvalidTerminalDisposition) <==> to !in TERMINAL - {Completed}
      ensures r.Ok? <==> to in TERMINAL - {Completed} && Termination(old(View()), to, at).Ok?
      ensures View() == if r.Ok? then Termination(old(View()), to, at).value else old(View())
    {
      if to !in TERMINAL - {Completed} {
        return Err(InvalidTerminalDisposition);
      }
      if timing.started.Some? && timing.completed.None? {
        var next := CompleteTiming(timing, at);
        if next.Err? {
          return Err(BadTiming(next.error));
        }
        timing := next.value;
      }
      disposition := to;
      return Ok(());
    }
  }
}
