/**
 Read-only reconciliation of driver runs: from the durable boundary marker, from the run's ledger
 events, and from driver observations.
 */
module Reconciliation {
  import opened Prelude
  import opened DriverRun

  datatype Disposition =
    | ReconciledCompleted | RequiresHuman | SafeToRetry | RetryForbidden | ExternalStateUnknown

  datatype Anomaly =
    | OrphanedRun | ConflictingDuplicates(ids: seq<Option<string>>) | LeaseInvalid | BudgetInvalid
    | LostRun(boundary: Boundary) | CompletionWithoutArtifact | ArtifactWithoutCompletion

  datatype LedgerEvent =
    | StateChanged(to: Lifecycle)
    | BoundaryRecorded(runId: string, boundary: Boundary)
    | OtherEvent

  /** A driver observation: an identity, perhaps missing, and everything else it says. */
  datatype Observation = Observation(id: Option<string>, body: string)

  function ClassifyBoundary(b: Boundary): Disposition {
    match b
    case NotDispatched | Prepared | BudgetRejected => SafeToRetry
    case RequestStarted | ResponseStarted => RetryForbidden
    case ResponseCompleted | ResultPersisted => ReconciledCompleted
    case _ => ExternalStateUnknown
  }

  // Observations ------------------------------------------------------------------------------

  /** The first observation that carries `id`. */
  function FirstWith(obs: seq<Observation>, id: Option<string>): Option<Observation> {
    if obs == [] then None
    else if obs[0].id == id then Some(obs[0])
    else FirstWith(obs[1..], id)
  }

  /** Identities of the observations that contradict the first one of their identity, in order. */
  function Conflicts(obs: seq<Observation>): seq<Option<string>> {
    if obs == [] then []
    else
      var last := obs[|obs|-1];
      Conflicts(obs[..|obs|-1]) +
      if FirstWith(obs, last.id) != Some(last) then [last.id] else []
  }

  lemma {:induction false} FirstWithExtended(obs: seq<Observation>, o: Observation, id: Option<string>)
    ensures FirstWith(obs + [o], id) ==
            if FirstWith(obs, id).Some? then FirstWith(obs, id) else if o.id == id then Some(o) else None
  {
    if obs != [] {
      assert (obs + [o])[1..] == obs[1..] + [o];
      FirstWithExtended(obs[1..], o, id);
    }
  }

  lemma {:induction false} FirstWithMember(obs: seq<Observation>, id: Option<string>)
    ensures FirstWith(obs, id).Some? ==> FirstWith(obs, id).value in obs && FirstWith(obs, id).value.id == id
    ensures FirstWith(obs, id).None? ==> forall o :: o in obs ==> o.id != id
  {
    if obs != [] {
      FirstWithMember(obs[1..], id);
      assert obs == [obs[0]] + obs[1..];
    }
  }

  ghost predicate Consistent(obs: seq<Observation>) {
    forall o, p :: o in obs && p in obs && o.id == p.id ==> o == p
  }

  /** A conflict is reported exactly when two observations share an identity and differ. */
  lemma {:induction false} ConflictsExactly(obs: seq<Observation>)
    ensures Conflicts(obs) == [] <==> Consistent(obs)
  {
    if obs != [] {
      var before, last := obs[..|obs|-1], obs[|obs|-1];
      ConflictsExactly(before);
      assert obs == before + [last];
      assert forall o :: o in obs <==> o in before || o == last;
      FirstWithExtended(before, last, last.id);
      FirstWithMember(before, last.id);
    }
  }

  method ConflictingObservations(obs: seq<Observation>) returns (conflicts: seq<Option<string>>)
    ensures conflicts == Conflicts(obs)
  {
    var seen: map<Option<string>, Observation> := map[];
    conflicts := [];
    for n := 0 to |obs|
      invariant conflicts == Conflicts(obs[..n])
      invariant forall id :: FirstWith(obs[..n], id) == if id in seen then Some(seen[id]) else None
    {
      var o := obs[n];
      assert obs[..n+1] == obs[..n] + [o] && obs[..n+1][..n] == obs[..n];
      forall id {
        FirstWithExtended(obs[..n], o, id);
      }
      if o.id in seen && seen[o.id] != o {
        conflicts := conflicts + [o.id];
      } else {
        seen := seen[o.id := o];
      }
    }
    assert obs[..|obs|] == obs;
  }

  // Reconciliation from the marker ------------------------------------------------------------

  function ReconcileResult(run: Run, hasCompletion: bool, artifact: bool, lease: bool, budget: bool): Disposition {
    if run.lifecycle == Lost then
      var d := ClassifyBoundary(run.boundary);
      if d == ReconciledCompleted && !artifact then RequiresHuman else d
    else if !lease || !budget then RetryForbidden
    else if hasCompletion && artifact then ReconciledCompleted
    else RequiresHuman
  }

  method HasCompletion(events: seq<LedgerEvent>) returns (found: bool)
    ensures found <==> StateChanged(Completed) in events
  {
    found := false;
    for n := 0 to |events|
      invariant found <==> StateChanged(Completed) in events[..n]
    {
      found := found || events[n] == StateChanged(Completed);
    }
    assert events[..|events|] == events;
  }

  /** When an anomaly is to be reported. */
  predicate Detected(x: Anomaly, run: Run, hasCompletion: bool, conflicts: seq<Option<string>>,
                     artifact: bool, lease: bool, budget: bool) {
    match x
    case OrphanedRun => run.missionId == "" || run.taskId == ""
    case ConflictingDuplicates(ids) => ids == conflicts != []
    case LeaseInvalid => !lease
    case BudgetInvalid => !budget
    case LostRun(b) => run.lifecycle == Lost && run.boundary == b
    case CompletionWithoutArtifact => run.lifecycle != Lost && lease && budget && hasCompletion && !artifact
    case ArtifactWithoutCompletion => run.lifecycle != Lost && lease && budget && !hasCompletion && artifact
  }

  predicate ConcernsOutcome(x: Anomaly) {
    x.LostRun? || x.CompletionWithoutArtifact? || x.ArtifactWithoutCompletion?
  }

  /** The disposition, and the anomalies that go with it. */
  method Outcome(run: Run, hasCompletion: bool, conflicts: seq<Option<string>>, artifact: bool, lease: bool,
                 budget: bool)
    returns (result: Disposition, outcome: seq<Anomaly>)
    ensures result == ReconcileResult(run, hasCompletion, artifact, lease, budget)
    ensures forall x :: (x in outcome <==>
              ConcernsOutcome(x) && Detected(x, run, hasCompletion, conflicts, artifact, lease, budget))
  {
    outcome := [];
    if run.lifecycle == Lost {
      result := ClassifyBoundary(run.boundary);
      outcome := [LostRun(run.boundary)];
      if result == ReconciledCompleted && !artifact {
        result := RequiresHuman;
      }
    } else if !lease || !budget {
      result := RetryForbidden;
    } else if hasCompletion && artifact {
      result := ReconciledCompleted;
    } else {
      result := RequiresHuman;
      if hasCompletion {
        outcome := [CompletionWithoutArtifact];
      } else if artifact {
        outcome := [ArtifactWithoutCompletion];
      }
    }
  }

  /** The anomalies of the records themselves, which do not touch the disposition. */
  method RecordAnomalies(run: Run, hasCompletion: bool, conflicts: seq<Option<string>>, artifact: bool, lease: bool,
                         budget: bool)
    returns (anomalies: seq<Anomaly>)
    ensures forall x :: (x in anomalies <==>
              !ConcernsOutcome(x) && Detected(x, run, hasCompletion, conflicts, artifact, lease, budget))
  {
    anomalies := if run.missionId == "" || run.taskId == "" then [OrphanedRun] else [];
    if conflicts != [] {
      anomalies := anomalies + [ConflictingDuplicates(conflicts)];
    }
    if !lease {
      anomalies := anomalies + [LeaseInvalid];
    }
    if !budget {
      anomalies := anomalies + [BudgetInvalid];
    }
  }

  method Reconcile(run: Run, events: seq<LedgerEvent>, obs: seq<Observation>, artifact: bool, lease: bool, budget: bool)
    returns (result: Disposition, anomalies: seq<Anomaly>)
    ensures result == ReconcileResult(run, StateChanged(Completed) in events, artifact, lease, budget)
    ensures forall x :: (x in anomalies <==>
              Detected(x, run, StateChanged(Completed) in events, Conflicts(obs), artifact, lease, budget))
    ensures OrphanedRun in anomalies <==> run.missionId == "" || run.taskId == ""
    ensures (exists ids :: ConflictingDuplicates(ids) in anomalies) <==>
            exists o, p :: o in obs && p in obs && o.id == p.id && o != p
    ensures LeaseInvalid in anomalies <==> !lease
    ensures BudgetInvalid in anomalies <==> !budget
    ensures forall b :: LostRun(b) in anomalies <==> run.lifecycle == Lost && b == run.boundary
    ensures CompletionWithoutArtifact in anomalies <==>
            lease && budget && run.lifecycle != Lost && StateChanged(Completed) in events && !artifact
    ensures ArtifactWithoutCompletion in anomalies <==>
            lease && budget && run.lifecycle != Lost && StateChanged(Completed) !in events && artifact
  {
    var hasCompletion := HasCompletion(events);
    var conflicting := ConflictingObservations(obs);
    var before := RecordAnomalies(run, hasCompletion, conflicting, artifact, lease, budget);
    var outcome;
    result, outcome := Outcome(run, hasCompletion, conflicting, artifact, lease, budget);
    anomalies := before + outcome;
    ConflictsExactly(obs);
    assert Conflicts(obs) != [] ==> ConflictingDuplicates(Conflicts(obs)) in anomalies;
  }

  // Reconciliation from the events ------------------------------------------------------------

  datatype ProviderDisposition = ProviderCompleted | SafeUnderNewApproval | Forbidden | RequiresVerification

  datatype ProviderError = RunMismatch | InvalidEventSequence

  /** The boundaries recorded by a list of ledger events, in order. */
  function Recorded(events: seq<LedgerEvent>): seq<Boundary> {
    if events == [] then []
    else
      Recorded(events[..|events|-1]) +
      if events[|events|-1].BoundaryRecorded? then [events[|events|-1].boundary] else []
  }

  predicate OfRun(events: seq<LedgerEvent>, id: string) {
    forall e :: e in events && e.BoundaryRecorded? ==> e.runId == id
  }

  function ProviderResult(run: Run, recorded: seq<Boundary>, artifactVerified: bool)
    : Result<ProviderDisposition, ProviderError>
  {
    if Count(recorded, ResponseCompleted) > Count(recorded, RequestStarted) then Err(InvalidEventSequence)
    else
      var persisted := Count(recorded, ResultPersisted) > 0;
      Ok(if run.lifecycle == Lost then
           if ClassifyBoundary(run.boundary) == ReconciledCompleted && artifactVerified && persisted
           then ProviderCompleted
           else if ClassifyBoundary(run.boundary) == SafeToRetry && Count(recorded, RequestStarted) == 0
           then SafeUnderNewApproval
           else Forbidden
         else if run.lifecycle == Completed && artifactVerified && persisted then ProviderCompleted
         else RequiresVerification)
  }

  lemma RecordedNext(events: seq<LedgerEvent>, n: nat)
    requires n < |events|
    ensures events[..n+1] == events[..n] + [events[n]]
    ensures forall b :: Count(Recorded(events[..n+1]), b) ==
              Count(Recorded(events[..n]), b) + if events[n].BoundaryRecorded? && events[n].boundary == b then 1 else 0
  {
    assert events[..n+1][..n] == events[..n];
    if events[n].BoundaryRecorded? {
      var after := Recorded(events[..n]) + [events[n].boundary];
      assert after[..|after|-1] == Recorded(events[..n]) && Recorded(events[..n+1]) == after;
    } else {
      assert Recorded(events[..n+1]) == Recorded(events[..n]);
    }
  }

  ghost predicate Tallies(tally: map<Boundary, nat>, events: seq<LedgerEvent>) {
    forall b :: b in tally ==> tally[b] == Count(Recorded(events), b)
  }

  function Tallied(tally: map<Boundary, nat>, e: LedgerEvent): map<Boundary, nat> {
    if e.BoundaryRecorded? && e.boundary in tally then tally[e.boundary := tally[e.boundary] + 1] else tally
  }

  lemma TallyNext(tally: map<Boundary, nat>, events: seq<LedgerEvent>, n: nat)
    requires n < |events| && Tallies(tally, events[..n])
    ensures Tallies(Tallied(tally, events[n]), events[..n + 1])
  {
    RecordedNext(events, n);
  }

  /** The number of events of each provider boundary, unless one belongs to another run. */
  method CountBoundaries(id: string, events: seq<LedgerEvent>) returns (counts: Option<map<Boundary, nat>>)
    ensures counts.Some? <==> OfRun(events, id)
    ensures counts.Some? ==> counts.value.Keys == {RequestStarted, ResponseStarted, ResponseCompleted, ResultPersisted}
    ensures counts.Some? ==> forall b :: b in counts.value ==> counts.value[b] == Count(Recorded(events), b)
  {
    var tally: map<Boundary, nat> :=
      map[RequestStarted := 0, ResponseStarted := 0, ResponseCompleted := 0, ResultPersisted := 0];
    for n := 0 to |events|
      invariant tally.Keys == {RequestStarted, ResponseStarted, ResponseCompleted, ResultPersisted}
      invariant OfRun(events[..n], id) && Tallies(tally, events[..n])
    {
      var e := events[n];
      assert events[..n + 1] == events[..n] + [e];
      if e.BoundaryRecorded? {
        if e.runId != id {
          assert e in events;
          return None;
        }
      }
      TallyNext(tally, events, n);
      tally := Tallied(tally, e);
    }
    assert events[..|events|] == events;
    return Some(tally);
  }

  method ReconcileProviderHttpAttempts(run: Run, events: seq<LedgerEvent>, artifactVerified: bool)
    returns (r: Result<ProviderDisposition, ProviderError>)
    ensures r == if OfRun(events, run.id) then ProviderResult(run, Recorded(events), artifactVerified)
                 else Err(RunMismatch)
  {
    var counted := CountBoundaries(run.id, events);
    if counted.None? {
      return Err(RunMismatch);
    }
    var counts := counted.value;
    if counts[ResponseCompleted] > counts[RequestStarted] {
      return Err(InvalidEventSequence);
    }
    var persisted := counts[ResultPersisted] > 0;
    if run.lifecycle == Lost {
      var original := ClassifyBoundary(run.boundary);
      if original == ReconciledCompleted && artifactVerified && persisted {
        return Ok(ProviderCompleted);
      } else if original == SafeToRetry && counts[RequestStarted] == 0 {
        return Ok(SafeUnderNewApproval);
      }
      return Ok(Forbidden);
    } else if run.lifecycle == Completed && artifactVerified && persisted {
      return Ok(ProviderCompleted);
    }
    return Ok(RequiresVerification);
  }

  // Safety over whole histories ---------------------------------------------------------------

  lemma AgreesClassified(run: Run, events: seq<Boundary>)
    requires Agrees(run, events)
    ensures ClassifyBoundary(run.boundary) == SafeToRetry <==> forall e :: e in events ==> !Crossed(e)
    ensures ClassifyBoundary(run.boundary) == SafeToRetry ==> run.attempts == 0
  {
  }

  /**
   After any history the marker classifies the run as safe to retry exactly when no operation of
   the history recorded `request_started` or anything later. So once such a record is accepted no
   continuation makes the run safe again, and a safe run has made no provider attempt.
   */
  lemma SafeExactlyWhenNeverCrossed(start: Run, ops: seq<Op>)
    requires IsNew(start)
    ensures ClassifyBoundary(Exec(start, ops).boundary) == SafeToRetry
            <==> forall e :: e in Events(start, ops) ==> !Crossed(e)
    ensures ClassifyBoundary(Exec(start, ops).boundary) == SafeToRetry ==> Exec(start, ops).attempts == 0
  {
    HistoryAgrees(start, ops);
    AgreesClassified(Exec(start, ops), Events(start, ops));
  }

  lemma {:induction false} EventsGrow(start: Run, ops: seq<Op>, more: seq<Op>)
    ensures Events(start, ops) <= Events(start, ops + more)
  {
    if more == [] {
      assert ops + more == ops;
    } else {
      EventsGrow(start, ops, more[..|more|-1]);
      assert (ops + more)[..|ops + more|-1] == ops + more[..|more|-1];
    }
  }

  lemma NeverSafeAgain(start: Run, ops: seq<Op>, more: seq<Op>)
    requires IsNew(start)
    requires exists e :: e in Events(start, ops) && Crossed(e)
    ensures ClassifyBoundary(Exec(start, ops + more).boundary) != SafeToRetry
  {
    EventsGrow(start, ops, more);
    SafeExactlyWhenNeverCrossed(start, ops + more);
    var e :| e in Events(start, ops) && Crossed(e);
    assert e in Events(start, ops + more);
  }

  /**
   For a lost run read with its own events, the marker-based and the event-based procedures allow a
   retry in exactly the same cases, and then no `request_started` event exists.
   */
  lemma ProceduresAgreeOnRetry(start: Run, ops: seq<Op>, completion: bool, artifact: bool, lease: bool, budget: bool,
                               verified: bool)
    requires IsNew(start) && Exec(start, ops).lifecycle == Lost
    ensures ReconcileResult(Exec(start, ops), completion, artifact, lease, budget) == SafeToRetry
            <==> ProviderResult(Exec(start, ops), Events(start, ops), verified) == Ok(SafeUnderNewApproval)
    ensures ProviderResult(Exec(start, ops), Events(start, ops), verified) == Ok(SafeUnderNewApproval)
            ==> RequestStarted !in Events(start, ops)
  {
    SafeExactlyWhenNeverCrossed(start, ops);
    CountIsZero(Events(start, ops), RequestStarted);
    CountIsZero(Events(start, ops), ResponseCompleted);
  }

  /**
   Responses may outnumber requests in the events of a legal history: the marker may skip
   `request_started`, and re-recording `response_completed` is accepted and appends another event.
   The event-based procedure then refuses the run's own ledger.
   */
  lemma OwnLedgerMayBeRefused(start: Run, at: string, verified: bool)
    requires IsNew(start)
    ensures var ops := [Record(ResponseCompleted, at)];
      ProviderResult(Exec(start, ops), Events(start, ops), verified) == Err(InvalidEventSequence)
  {
    OneOperation(start, Record(ResponseCompleted, at));
    CountOne(ResponseCompleted, ResponseCompleted);
    CountOne(ResponseCompleted, RequestStarted);
  }

  lemma OneOperation(start: Run, op: Op)
    ensures Exec(start, [op]) == Step(start, op) && Events(start, [op]) == Emitted(start, op)
  {
    assert [op][..0] == [];
  }

  lemma CountOne(e: Boundary, b: Boundary)
    ensures Count([e], b) == if e == b then 1 else 0
  {
    assert [e][..0] == [];
  }

  /** A request is out and its response is not yet complete. */
  predicate Awaiting(b: Boundary) {
    b == RequestStarted || b == ResponseStarted
  }

  function Open(b: Boundary): nat {
    if Awaiting(b) then 1 else 0
  }

  /** A response is recorded only while its request is out, and only once as completed. */
  predicate ResponseInTurn(run: Run, op: Op) {
    op.Record? && (op.boundary == ResponseStarted || op.boundary == ResponseCompleted) && Apply(run, op).Ok? ==>
      Awaiting(run.boundary)
  }

  ghost predicate ResponsesInTurn(start: Run, ops: seq<Op>) {
    ops == [] ||
    (ResponsesInTurn(start, ops[..|ops|-1]) && ResponseInTurn(Exec(start, ops[..|ops|-1]), ops[|ops|-1]))
  }

  lemma {:induction false} InTurnCounts(start: Run, ops: seq<Op>)
    requires IsNew(start) && ResponsesInTurn(start, ops)
    ensures Count(Events(start, ops), ResponseCompleted) + Open(Exec(start, ops).boundary)
         <= Count(Events(start, ops), RequestStarted)
  {
    if ops != [] {
      var before, op := ops[..|ops|-1], ops[|ops|-1];
      InTurnCounts(start, before);
      InTurnStep(Exec(start, before), op, Events(start, before));
    }
  }

  lemma InTurnStep(run: Run, op: Op, events: seq<Boundary>)
    requires ResponseInTurn(run, op)
    requires Count(events, ResponseCompleted) + Open(run.boundary) <= Count(events, RequestStarted)
    ensures var after := events + Emitted(run, op);
      Count(after, ResponseCompleted) + Open(Step(run, op).boundary) <= Count(after, RequestStarted)
  {
    StepFrame(run, op);
    if Emitted(run, op) == [] {
      assert events + Emitted(run, op) == events;
    } else {
      RecordEffect(run, op.boundary, op.at);
      assert (events + [op.boundary])[..|events|] == events;
    }
  }

  /** When every accepted response is recorded in its turn, the run's own ledger is never refused. */
  lemma InTurnIsNeverRefused(start: Run, ops: seq<Op>, verified: bool)
    requires IsNew(start) && ResponsesInTurn(start, ops)
    ensures ProviderResult(Exec(start, ops), Events(start, ops), verified).Ok?
  {
    InTurnCounts(start, ops);
  }

  predicate Completes(run: Run, op: Op) {
    op.Record? && op.boundary == ResponseCompleted && Apply(run, op).Ok?
  }

  /** Each accepted response_completed finds more requests than completed responses before it. */
  ghost predicate CompletionsCovered(start: Run, ops: seq<Op>) {
    ops == [] ||
    (var before := ops[..|ops|-1];
     && CompletionsCovered(start, before)
     && (Completes(Exec(start, before), ops[|ops|-1]) ==>
           Count(Events(start, before), ResponseCompleted) < Count(Events(start, before), RequestStarted)))
  }

  /** At no point of the history is the ledger so far refused. */
  ghost predicate NeverRefused(start: Run, ops: seq<Op>, verified: bool) {
    && ProviderResult(Exec(start, ops), Events(start, ops), verified).Ok?
    && (ops != [] ==> NeverRefused(start, ops[..|ops|-1], verified))
  }

  lemma CountsAfter(run: Run, op: Op, events: seq<Boundary>, b: Boundary)
    ensures Count(events + Emitted(run, op), b) ==
      Count(events, b) + if op.Record? && op.boundary == b && Apply(run, op).Ok? then 1 else 0
  {
    if Emitted(run, op) == [] {
      assert events + Emitted(run, op) == events;
    } else {
      assert (events + [op.boundary])[..|events|] == events;
    }
  }

  /** A run's own ledger is never refused exactly when each completed response has a request of its own before it. */
  lemma {:induction false} NeverRefusedExactly(start: Run, ops: seq<Op>, verified: bool)
    ensures NeverRefused(start, ops, verified) <==> CompletionsCovered(start, ops)
  {
    if ops != [] {
      var before, op := ops[..|ops|-1], ops[|ops|-1];
      NeverRefusedExactly(start, before, verified);
      CountsAfter(Exec(start, before), op, Events(start, before), ResponseCompleted);
      CountsAfter(Exec(start, before), op, Events(start, before), RequestStarted);
    }
  }

  // The documented criteria -------------------------------------------------------------------

  /** An invalid lease or budget forbids the retry exactly unless a lost run's marker decides otherwise. */
  lemma InvalidAuthorityForbidsExactly(run: Run, completion: bool, artifact: bool, lease: bool, budget: bool)
    requires !lease || !budget
    ensures ReconcileResult(run, completion, artifact, lease, budget) == RetryForbidden <==>
            run.lifecycle != Lost || run.boundary == RequestStarted || run.boundary == ResponseStarted
  {
  }

  /** A human is asked exactly in these cases; conflicting observations and a missing binding are not among them. */
  lemma HumanIsAskedExactly(run: Run, completion: bool, artifact: bool, lease: bool, budget: bool)
    ensures ReconcileResult(run, completion, artifact, lease, budget) == RequiresHuman <==>
            if run.lifecycle == Lost
            then (run.boundary == ResponseCompleted || run.boundary == ResultPersisted) && !artifact
            else lease && budget && !(completion && artifact)
  {
  }

  /** A lost run's external state is called unknown exactly when its marker is none of the vocabulary. */
  lemma LostIsUnknownExactly(run: Run, completion: bool, artifact: bool, lease: bool, budget: bool)
    requires run.lifecycle == Lost
    ensures ReconcileResult(run, completion, artifact, lease, budget) == ExternalStateUnknown <==>
            run.boundary == Unknown || run.boundary.Unrecognized?
  {
  }

  /** Completion is reconciled exactly when marker or events say so, as the case may be, and the artifact is there. */
  lemma CompletedExactly(run: Run, completion: bool, artifact: bool, lease: bool, budget: bool)
    ensures ReconcileResult(run, completion, artifact, lease, budget) == ReconciledCompleted <==>
            artifact &&
            if run.lifecycle == Lost then run.boundary == ResponseCompleted || run.boundary == ResultPersisted
            else lease && budget && completion
  {
  }

  /** A lost run that was never sent may be retried, although lease and budget are invalid and its state is lost. */
  method StaleAuthorityIsRetried(run: Run) returns (result: Disposition, anomalies: seq<Anomaly>)
    ensures result == SafeToRetry && LeaseInvalid in anomalies && BudgetInvalid in anomalies
    ensures LostRun(Prepared) in anomalies
  {
    var lost := run.(lifecycle := Lifecycle.Lost, boundary := Prepared);
    result, anomalies := Reconcile(lost, [], [], false, false, false);
  }

  /** A run without mission that two observations contradict is completed all the same. */
  method BadRecordsAreCompleted(run: Run) returns (result: Disposition, anomalies: seq<Anomaly>)
    ensures result == ReconciledCompleted && OrphanedRun in anomalies
    ensures exists ids :: ConflictingDuplicates(ids) in anomalies
  {
    var observations := [Observation(Some("o"), "a"), Observation(Some("o"), "b")];
    var orphan := run.(lifecycle := Lifecycle.Completed, missionId := "");
    result, anomalies := Reconcile(orphan, [StateChanged(Lifecycle.Completed)], observations, true, true, true);
    ConflictsExactly(observations);
    assert observations[0] in observations && observations[1] in observations;
    assert ConflictingDuplicates(Conflicts(observations)) in anomalies;
  }
}
