/**
 The driver-run state machine: a lifecycle and, beside it, the durable marker of how far the
 run got towards its provider. A refused operation leaves the run as it was.
 */
module DriverRun {
  import opened Prelude

  datatype Lifecycle =
    | Created | Queued | Running | Suspended | Completed | Cancelled | Failed | Lost | Reconciled

  /** The dispatch-boundary vocabulary. `Unknown` is the reading of a run without a marker. */
  datatype Boundary =
    | Unknown | NotDispatched | Prepared | RequestStarted | ResponseStarted
    | ResponseCompleted | ResultPersisted | BudgetRejected | Unrecognized(text: string)

  /** The stored provider-request limit is untyped data: missing, an integer, or something else. */
  datatype Ceiling = Absent | Whole(n: int) | NotAnInteger

  datatype Run = Run(
    id: string,
    missionId: string,
    taskId: string,
    lifecycle: Lifecycle,
    reconciliationStatus: string,
    reconciliationState: string,
    attemptCount: nat,
    terminalDisposition: Option<Lifecycle>,
    externalRunId: Option<string>,
    boundary: Boundary,
    boundaryUpdatedAt: Option<string>,
    attempts: nat,
    limit: Ceiling,
    approvalId: string)

  datatype Refusal =
    | Terminal | IllegalTransition | RequestAlreadyStarted | InvalidCeiling | AttemptCapExceeded

  const MAX_PROVIDER_HTTP_REQUESTS_PER_RUN: nat := 24

  function Create(id: string, missionId: string, taskId: string, externalRunId: Option<string>,
                  limit: Ceiling, approvalId: string): Run {
    Run(id, missionId, taskId, Created, "not_required", "", 0, None, externalRunId,
        NotDispatched, None, 0, limit, approvalId)
  }

  function Successors(state: Lifecycle): set<Lifecycle> {
    match state
    case Created => {Queued, Cancelled, Failed}
    case Queued => {Running, Cancelled, Failed}
    case Running => {Suspended, Completed, Cancelled, Failed, Lost}
    case Suspended => {Running, Cancelled, Failed}
    case Lost => {Reconciled, Failed}
    case _ => {}
  }

  function Transition(run: Run, to: Lifecycle, externalRunId: Option<string>): Result<Run, Refusal> {
    if run.lifecycle in {Completed, Cancelled, Failed, Reconciled} then Err(Terminal)
    else if to !in Successors(run.lifecycle) then Err(IllegalTransition)
    else
      var moved := run.(lifecycle := to);
      var named := if externalRunId.Some? then moved.(externalRunId := externalRunId) else moved;
      Ok(match to
         case Running => named.(attemptCount := run.attemptCount + 1)
         case Completed | Cancelled | Failed => named.(terminalDisposition := Some(to))
         case Lost => named.(reconciliationStatus := "required")
         case Reconciled =>
           named.(reconciliationStatus :=
                    if run.reconciliationState != "" then run.reconciliationState
                    else "resolved_effect_absent")
         case _ => named)
  }

  /** Position of a boundary on the way to the provider and back; the markers off that way have none. */
  function Order(b: Boundary): Option<nat> {
    match b
    case NotDispatched => Some(0)
    case Prepared => Some(1)
    case RequestStarted => Some(2)
    case ResponseStarted => Some(3)
    case ResponseCompleted => Some(4)
    case ResultPersisted => Some(5)
    case _ => None
  }

  predicate ApprovalBound(run: Run) {
    run.approvalId != ""
  }

  function Limit(run: Run): Option<int> {
    match run.limit
    case Absent => Some(MAX_PROVIDER_HTTP_REQUESTS_PER_RUN)
    case Whole(n) => if 1 <= n <= 24 then Some(n) else None
    case NotAnInteger => None
  }

  predicate MayMove(current: Boundary, next: Boundary) {
    if next == BudgetRejected then current in {Unknown, NotDispatched, Prepared}
    else if Order(next).None? || current == BudgetRejected then false
    else
      || Order(current).None?
      || Order(next).value > Order(current).value
      || (next == RequestStarted && current == ResponseCompleted)
  }

  function RecordBoundary(run: Run, next: Boundary, at: string): Result<Run, Refusal> {
    if next == run.boundary then
      if next == RequestStarted && ApprovalBound(run) then Err(RequestAlreadyStarted)
      else Ok(run.(boundaryUpdatedAt := Some(at)))
    else if !MayMove(run.boundary, next) then Err(IllegalTransition)
    else if next == RequestStarted then
      if Limit(run).None? then Err(InvalidCeiling)
      else if run.attempts >= Limit(run).value then Err(AttemptCapExceeded)
      else Ok(run.(attempts := run.attempts + 1, boundary := next, boundaryUpdatedAt := Some(at)))
    else Ok(run.(boundary := next, boundaryUpdatedAt := Some(at)))
  }

  // Histories ---------------------------------------------------------------------------------

  datatype Op = Move(to: Lifecycle, externalRunId: Option<string>) | Record(boundary: Boundary, at: string)

  function Apply(run: Run, op: Op): Result<Run, Refusal> {
    match op
    case Move(to, ext) => Transition(run, to, ext)
    case Record(b, at) => RecordBoundary(run, b, at)
  }

  function Step(run: Run, op: Op): Run {
    var r := Apply(run, op);
    if r.Ok? then r.value else run
  }

  function Exec(run: Run, ops: seq<Op>): Run {
    if ops == [] then run else Step(Exec(run, ops[..|ops|-1]), ops[|ops|-1])
  }

  /** The ledger events of one operation: every accepted boundary record appends one. */
  function Emitted(run: Run, op: Op): seq<Boundary> {
    if op.Record? && Apply(run, op).Ok? then [op.boundary] else []
  }

  function Events(run: Run, ops: seq<Op>): seq<Boundary> {
    if ops == [] then []
    else
      var before := ops[..|ops|-1];
      Events(run, before) + Emitted(Exec(run, before), ops[|ops|-1])
  }

  function BoundaryChanges(run: Run, ops: seq<Op>): nat {
    if ops == [] then 0
    else
      var before := ops[..|ops|-1];
      BoundaryChanges(run, before) +
      if Exec(run, ops).boundary != Exec(run, before).boundary then 1 else 0
  }

  function Count(events: seq<Boundary>, b: Boundary): nat {
    if events == [] then 0
    else Count(events[..|events|-1], b) + if events[|events|-1] == b then 1 else 0
  }

  /** The request may have left: `request_started` or any later marker. */
  predicate Crossed(b: Boundary) {
    b in {RequestStarted, ResponseStarted, ResponseCompleted, ResultPersisted}
  }

  predicate IsNew(run: Run) {
    run.lifecycle == Created && run.boundary == NotDispatched && run.attempts == 0
  }

  // What every history keeps ------------------------------------------------------------------

  ghost predicate Agrees(run: Run, events: seq<Boundary>) {
    && run.boundary in {NotDispatched, Prepared, BudgetRejected, RequestStarted, ResponseStarted,
                        ResponseCompleted, ResultPersisted}
    && (Crossed(run.boundary) <==> exists e :: e in events && Crossed(e))
    && (!Crossed(run.boundary) ==> run.attempts == 0)
    && run.attempts <= (if Limit(run).Some? then Limit(run).value else 0)
    && run.attempts <= Count(events, RequestStarted)
    && (ApprovalBound(run) ==> run.attempts == Count(events, RequestStarted))
  }

  /** Lifecycle moves leave the dispatch side alone; no operation touches the limit or the approval. */
  lemma StepFrame(run: Run, op: Op)
    ensures Step(run, op).limit == run.limit && Step(run, op).approvalId == run.approvalId
    ensures Emitted(run, op) == [] ==> Step(run, op).boundary == run.boundary && Step(run, op).attempts == run.attempts
  {
    match op
    case Move(to, ext) =>
    case Record(b, at) =>
  }

  lemma RecordEffect(run: Run, b: Boundary, at: string)
    requires RecordBoundary(run, b, at).Ok?
    ensures var next := RecordBoundary(run, b, at).value;
            && next.boundary == b
            && (b != run.boundary ==> MayMove(run.boundary, b))
            && (if b == RequestStarted && run.boundary != RequestStarted
                then Limit(run).Some? && next.attempts == run.attempts + 1 <= Limit(run).value
                else next.attempts == run.attempts)
            && (b == RequestStarted == run.boundary ==> !ApprovalBound(run))
  {
  }

  lemma StepAgrees(run: Run, op: Op, events: seq<Boundary>)
    requires Agrees(run, events)
    ensures Agrees(Step(run, op), events + Emitted(run, op))
  {
    StepFrame(run, op);
    if Emitted(run, op) == [] {
      assert events + Emitted(run, op) == events;
    } else {
      var b := op.boundary;
      RecordEffect(run, b, op.at);
      var after := events + [b];
      assert after[..|after|-1] == events && after[|events|] == b;
      assert forall e :: e in after <==> e in events || e == b;
    }
  }

  lemma {:induction false} HistoryAgrees(start: Run, ops: seq<Op>)
    requires IsNew(start)
    ensures Agrees(Exec(start, ops), Events(start, ops))
    ensures Limit(Exec(start, ops)) == Limit(start)
    ensures ApprovalBound(Exec(start, ops)) == ApprovalBound(start)
  {
    if ops != [] {
      var before := ops[..|ops|-1];
      HistoryAgrees(start, before);
      StepAgrees(Exec(start, before), ops[|ops|-1], Events(start, before));
      StepFrame(Exec(start, before), ops[|ops|-1]);
    }
  }

  lemma {:induction false} CountIsZero(events: seq<Boundary>, b: Boundary)
    ensures Count(events, b) == 0 <==> b !in events
  {
    if events != [] {
      CountIsZero(events[..|events|-1], b);
      assert events == events[..|events|-1] + [events[|events|-1]];
    }
  }

  /** Attempts never pass the limit, and under an approval they are exactly the accepted request events. */
  lemma AttemptsWithinLimit(start: Run, ops: seq<Op>)
    requires IsNew(start) && Limit(start).Some?
    ensures Exec(start, ops).attempts <= Limit(start).value
    ensures ApprovalBound(start)
            ==> Exec(start, ops).attempts == Count(Events(start, ops), RequestStarted)
  {
    HistoryAgrees(start, ops);
  }

  // How many times the boundary can change ----------------------------------------------------

  function Rank(b: Boundary): nat {
    match b
    case NotDispatched => 4
    case Prepared => 3
    case RequestStarted => 3
    case ResponseStarted => 2
    case ResponseCompleted => 1
    case _ => 0
  }

  /** Falls with every change of boundary, also when a tool loop reopens requests. */
  function Measure(run: Run, limit: nat): int {
    3 * (limit - run.attempts) + Rank(run.boundary)
  }

  lemma StepLowersMeasure(run: Run, op: Op, events: seq<Boundary>, limit: nat)
    requires Agrees(run, events) && Limit(run) == Some(limit)
    ensures Step(run, op).boundary == run.boundary ==> Measure(Step(run, op), limit) == Measure(run, limit)
    ensures Step(run, op).boundary != run.boundary ==> Measure(Step(run, op), limit) < Measure(run, limit)
  {
    StepFrame(run, op);
    if Emitted(run, op) != [] {
      RecordEffect(run, op.boundary, op.at);
    }
  }

  lemma {:induction false} ChangesBoundedByMeasure(start: Run, ops: seq<Op>, limit: nat)
    requires IsNew(start) && Limit(start) == Some(limit)
    ensures BoundaryChanges(start, ops) + Measure(Exec(start, ops), limit) <= 3 * limit + 4
  {
    if ops != [] {
      var before := ops[..|ops|-1];
      ChangesBoundedByMeasure(start, before, limit);
      HistoryAgrees(start, before);
      StepLowersMeasure(Exec(start, before), ops[|ops|-1], Events(start, before), limit);
    }
  }

  lemma BoundaryChangesBounded(start: Run, ops: seq<Op>, limit: nat)
    requires IsNew(start) && Limit(start) == Some(limit)
    ensures BoundaryChanges(start, ops) <= 3 * limit + 4
  {
    ChangesBoundedByMeasure(start, ops, limit);
    HistoryAgrees(start, ops);
  }

  /** A history that uses the whole allowance: it skips the first request marker, then loops. */
  function LongestHistory(rounds: nat): seq<Op> {
    if rounds == 0 then
      [Record(Prepared, ""), Record(ResponseStarted, ""), Record(ResponseCompleted, "")]
    else
      LongestHistory(rounds - 1) +
      [Record(RequestStarted, "")] + [Record(ResponseStarted, "")] + [Record(ResponseCompleted, "")]
  }

  lemma ExecAppend(start: Run, ops: seq<Op>, op: Op)
    ensures Exec(start, ops + [op]) == Step(Exec(start, ops), op)
    ensures BoundaryChanges(start, ops + [op]) == BoundaryChanges(start, ops) +
              if Step(Exec(start, ops), op).boundary != Exec(start, ops).boundary then 1 else 0
  {
    assert (ops + [op])[..|ops + [op]|-1] == ops;
  }

  /** From `start`, `ops` ends at boundary `b` after `attempts` attempts and `changes` changes of boundary. */
  ghost predicate Reaches(start: Run, ops: seq<Op>, b: Boundary, attempts: nat, changes: nat, limit: nat) {
    var run := Exec(start, ops);
    run.boundary == b && run.attempts == attempts && Limit(run) == Some(limit) &&
    BoundaryChanges(start, ops) == changes
  }

  lemma ReachesNext(start: Run, ops: seq<Op>, from: Boundary, attempts: nat, changes: nat, limit: nat, to: Boundary)
    requires Reaches(start, ops, from, attempts, changes, limit)
    requires from != to && MayMove(from, to) && (to == RequestStarted ==> attempts < limit)
    ensures Reaches(start, ops + [Record(to, "")], to,
                    if to == RequestStarted then attempts + 1 else attempts, changes + 1, limit)
  {
    ExecAppend(start, ops, Record(to, ""));
    StepFrame(Exec(start, ops), Record(to, ""));
  }

  lemma FirstRound(start: Run, limit: nat, h1: seq<Op>, h2: seq<Op>, h3: seq<Op>)
    requires IsNew(start) && Limit(start) == Some(limit)
    requires h1 == [] + [Record(Prepared, "")] && h2 == h1 + [Record(ResponseStarted, "")]
    requires h3 == h2 + [Record(ResponseCompleted, "")]
    ensures Reaches(start, h3, ResponseCompleted, 0, 3, limit)
  {
    ReachesNext(start, [], NotDispatched, 0, 0, limit, Prepared);
    ReachesNext(start, h1, Prepared, 0, 1, limit, ResponseStarted);
    ReachesNext(start, h2, ResponseStarted, 0, 2, limit, ResponseCompleted);
  }

  lemma {:induction false} LongestHistoryRuns(start: Run, rounds: nat, limit: nat, h: seq<Op>)
    requires IsNew(start) && Limit(start) == Some(limit) && rounds <= limit && h == LongestHistory(rounds)
    ensures Reaches(start, h, ResponseCompleted, rounds, 3 * rounds + 3, limit)
  {
    if rounds == 0 {
      FirstRound(start, limit, h[..1], h[..2], h);
    } else {
      var shorter := LongestHistory(rounds - 1);
      LongestHistoryRuns(start, rounds - 1, limit, shorter);
      OneRound(start, shorter, h, rounds, 3 * rounds, limit);
    }
  }

  lemma OneRound(start: Run, h: seq<Op>, h': seq<Op>, rounds: nat, changes: nat, limit: nat)
    requires 1 <= rounds <= limit && Reaches(start, h, ResponseCompleted, rounds - 1, changes, limit)
    requires h' == h + [Record(RequestStarted, "")] + [Record(ResponseStarted, "")] + [Record(ResponseCompleted, "")]
    ensures Reaches(start, h', ResponseCompleted, rounds, changes + 3, limit)
  {
    var h1 := h + [Record(RequestStarted, "")];
    var h2 := h1 + [Record(ResponseStarted, "")];
    ReachesNext(start, h, ResponseCompleted, rounds - 1, changes, limit, RequestStarted);
    ReachesNext(start, h1, RequestStarted, rounds, changes + 1, limit, ResponseStarted);
    ReachesNext(start, h2, ResponseStarted, rounds, changes + 2, limit, ResponseCompleted);
  }

  /** The bound is reached, for every limit. */
  lemma BoundaryBoundIsTight(start: Run, limit: nat)
    requires IsNew(start) && Limit(start) == Some(limit)
    ensures BoundaryChanges(start, LongestHistory(limit) + [Record(ResultPersisted, "")]) == 3 * limit + 4
  {
    LongestHistoryRuns(start, limit, limit, LongestHistory(limit));
    ReachesNext(start, LongestHistory(limit), ResponseCompleted, limit, 3 * limit + 3, limit, ResultPersisted);
  }
}
