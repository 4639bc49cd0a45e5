/** What the stream of a run that replays must look like, and the stored run it leads to, event by event. */
module RunStreams {
  import opened Prelude
  import opened EventStore
  import opened Replay
  import opened DriverRunLedger
  import D = DriverRun
  import T = DriverRunTables

  /** The phases of the ledger's table from which `to` may be reached in one move. */
  function Before(to: Phase): set<Phase> {
    match to
    case Created => {}
    case Submitted => {Created}
    case Running => {Submitted, Suspended}
    case Suspended => {Running}
    case Completed => {Running}
    case Lost => {Submitted, Running, Suspended}
    case Cancelled => {Created, Submitted, Running, Suspended}
    case Failed => {Created, Submitted, Running, Suspended, Lost}
    case Reconciled => {Lost}
  }

  /** The phases the run has moved to since its last creation. */
  function PhasesSince(payloads: seq<Payload>): seq<Phase> {
    if payloads == [] then []
    else
      var front, last := payloads[..|payloads|-1], payloads[|payloads|-1];
      if last.RunCreated? then []
      else if last.StateChanged? then PhasesSince(front) + [last.to]
      else PhasesSince(front)
  }

  function LastPhase(phases: seq<Phase>): Phase {
    if phases == [] then Created else phases[|phases|-1]
  }

  function LastMarker(markers: seq<D.Boundary>): D.Boundary {
    if markers == [] then D.NotDispatched else markers[|markers|-1]
  }

  /** The run as it was last created. */
  function LastCreated(payloads: seq<Payload>): Option<D.Run> {
    if payloads == [] then None
    else if payloads[|payloads|-1].RunCreated? then Some(payloads[|payloads|-1].run)
    else LastCreated(payloads[..|payloads|-1])
  }

  /** The stored run is the last created one, moved on by the events since. */
  ghost predicate LedTo(payloads: seq<Payload>, s: Stored) {
    var phases, created := PhasesSince(payloads), LastCreated(payloads);
    && created.Some? && s.run.id == created.value.id
    && s.run.missionId == created.value.missionId && s.run.taskId == created.value.taskId
    && s.run.limit == created.value.limit && s.run.approvalId == created.value.approvalId
    && s.phase == LastPhase(phases)
    && s.run.boundary == LastMarker(SinceCreation(payloads))
    && s.reconciliationStatus ==
       (if s.phase == Reconciled then "resolved_effect_absent"
        else if Lost in phases then "required"
        else "not_required")
  }

  /** The event may follow the events before it. */
  ghost predicate MayFollow(before: seq<Payload>, p: Payload) {
    match p
    case RunCreated(_) => true
    case StateChanged(_, _, to) => LastCreated(before).Some? && LastPhase(PhasesSince(before)) in Before(to)
    case BoundaryRecorded(id, boundary, previous, _) =>
      && LastCreated(before).Some? && id == LastCreated(before).value.id
      && previous == LastMarker(SinceCreation(before))
      && (boundary == previous || T.Follows(previous, boundary))
  }

  lemma MovesTo(s: Stored, to: Phase)
    ensures Moved(s, to).Some? <==> s.phase in Before(to)
    ensures Moved(s, to).Some? ==>
      Moved(s, to).value.phase == to && Moved(s, to).value.run == s.run &&
      Moved(s, to).value.reconciliationStatus ==
        (if to == Lost then "required" else if to == Reconciled then "resolved_effect_absent"
         else s.reconciliationStatus)
  {
  }

  lemma NextLedTo(before: seq<Payload>, p: Payload, s: Option<Stored>, s': Stored)
    requires before != [] ==> s.Some? && LedTo(before, s.value)
    requires before == [] ==> s.None?
    requires Reduced(Runs(), s, p) == Ok(s')
    ensures LedTo(before + [p], s') && MayFollow(before, p)
  {
    var after := before + [p];
    assert after[..|after|-1] == before && after[|after|-1] == p;
    match p
    case RunCreated(_) =>
    case StateChanged(_, _, to) =>
      MovesTo(s.value, to);
      NextPhase(PhasesSince(before), to);
    case BoundaryRecorded(_, boundary, previous, at) =>
      T.RecordsExactly(s.value.run, boundary, at);
  }

  lemma NextPhase(phases: seq<Phase>, to: Phase)
    ensures Lost in phases + [to] <==> Lost in phases || to == Lost
    ensures LastPhase(phases + [to]) == to
  {
  }

  /** In a stream that replays each event may follow those before it, and the stored run is what they led to. */
  lemma {:induction false} StreamLeadsTo(payloads: seq<Payload>)
    requires payloads != [] && StreamState(Runs(), payloads).Ok?
    ensures StreamState(Runs(), payloads).value.Some?
    ensures LedTo(payloads, StreamState(Runs(), payloads).value.value)
    ensures forall i :: 0 <= i < |payloads| ==> MayFollow(payloads[..i], payloads[i])
  {
    var front, p := payloads[..|payloads|-1], payloads[|payloads|-1];
    assert payloads == front + [p];
    if front != [] {
      StreamLeadsTo(front);
    }
    NextLedTo(front, p, StreamState(Runs(), front).value, StreamState(Runs(), payloads).value.value);
    forall i | 0 <= i < |payloads|
      ensures MayFollow(payloads[..i], payloads[i])
    {
      if i < |front| {
        assert front[..i] == payloads[..i] && front[i] == payloads[i];
      } else {
        assert payloads[..i] == front;
      }
    }
  }

  /** When a command on a stored run is accepted, and the event it appends. */
  lemma ServedExactly(s: Stored, c: Command)
    ensures match c
            case CreateRun(run) =>
              && Served(Some(s), c).Some? && Served(Some(s), c) == Served(None, c)
              && Served(None, c).value.0 == RunCreated(run)
            case TransitionRun(to) =>
              && (Served(Some(s), c).Some? <==> s.phase in Before(to)) && Served(None, c).None?
              && (s.phase in Before(to) ==> Served(Some(s), c).value.0 == StateChanged(s.run.id, s.phase, to))
            case RecordRunBoundary(boundary, at) =>
              && (Served(Some(s), c).Some? <==> D.RecordBoundary(s.run, boundary, at).Ok?) && Served(None, c).None?
              && (Served(Some(s), c).Some? ==>
                    && Served(Some(s), c).value.0 == BoundaryRecorded(s.run.id, boundary, s.run.boundary, at)
                    && Served(Some(s), c).value.1.run == D.RecordBoundary(s.run, boundary, at).value)
  {
  }
}
