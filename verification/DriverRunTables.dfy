/**
 The two tables of the driver run read backwards, from each target to where it may come from, and what
 a whole history of accepted moves leaves in the fields of a run.
 */
module DriverRunTables {
  import opened Prelude
  import opened DriverRun

  /** The lifecycles from which `to` may be reached in one move. */
  function Before(to: Lifecycle): set<Lifecycle> {
    match to
    case Created => {}
    case Queued => {Created}
    case Running => {Queued, Suspended}
    case Suspended => {Running}
    case Completed => {Running}
    case Lost => {Running}
    case Cancelled => {Created, Queued, Running, Suspended}
    case Failed => {Created, Queued, Running, Suspended, Lost}
    case Reconciled => {Lost}
  }

  /** When a move is accepted, which refusal it meets otherwise, and every field it changes. */
  lemma MovesExactly(run: Run, to: Lifecycle, externalRunId: Option<string>)
    ensures match Transition(run, to, externalRunId)
            case Ok(moved) =>
              && run.lifecycle in Before(to) && moved.lifecycle == to
              && moved.attemptCount == (if to == Running then run.attemptCount + 1 else run.attemptCount)
              && moved.terminalDisposition ==
                 (if to == Completed || to == Cancelled || to == Failed then Some(to) else run.terminalDisposition)
              && moved.reconciliationStatus ==
                 (if to == Lost then "required"
                  else if to != Reconciled then run.reconciliationStatus
                  else if run.reconciliationState == "" then "resolved_effect_absent"
                  else run.reconciliationState)
              && moved.externalRunId == (if externalRunId.None? then run.externalRunId else externalRunId)
              && SameDispatch(run, moved)
            case Err(Terminal) => run.lifecycle in {Completed, Cancelled, Failed, Reconciled}
            case Err(e) =>
              && e == IllegalTransition && run.lifecycle !in Before(to)
              && run.lifecycle !in {Completed, Cancelled, Failed, Reconciled}
  {
  }

  /** Nothing of the identity and of the dispatch side differs. */
  predicate SameDispatch(run: Run, other: Run) {
    && other.id == run.id && other.missionId == run.missionId && other.taskId == run.taskId
    && other.reconciliationState == run.reconciliationState
    && other.boundary == run.boundary && other.boundaryUpdatedAt == run.boundaryUpdatedAt
    && other.attempts == run.attempts && other.limit == run.limit && other.approvalId == run.approvalId
  }

  /** The known markers from which `to` may follow; a run without a known marker may go on to any of them. */
  function MarkersBefore(to: Boundary): set<Boundary> {
    match to
    case Prepared => {NotDispatched}
    case RequestStarted => {NotDispatched, Prepared, ResponseCompleted}
    case ResponseStarted => {NotDispatched, Prepared, RequestStarted}
    case ResponseCompleted => {NotDispatched, Prepared, RequestStarted, ResponseStarted}
    case ResultPersisted => {NotDispatched, Prepared, RequestStarted, ResponseStarted, ResponseCompleted}
    case BudgetRejected => {NotDispatched, Prepared}
    case _ => {}
  }

  /** Another marker than the current one is legal. */
  predicate Follows(current: Boundary, next: Boundary) {
    match current
    case Unknown => next !in {Unknown} && !next.Unrecognized?
    case Unrecognized(_) => next !in {Unknown, BudgetRejected} && !next.Unrecognized?
    case _ => current in MarkersBefore(next)
  }

  predicate RequestRefused(run: Run) {
    match run.limit
    case Absent => run.attempts >= 24
    case Whole(n) => n < 1 || n > 24 || run.attempts >= n
    case NotAnInteger => true
  }

  /** When a boundary record is accepted and every field it changes. */
  lemma RecordsExactly(run: Run, next: Boundary, at: string)
    ensures RecordBoundary(run, next, at).Ok? <==>
              if next == run.boundary then !(next == RequestStarted && run.approvalId != "")
              else Follows(run.boundary, next) && !(next == RequestStarted && RequestRefused(run))
    ensures RecordBoundary(run, next, at).Ok? ==>
              var attempts := if next == RequestStarted && run.boundary != RequestStarted
                              then run.attempts + 1 else run.attempts;
              RecordBoundary(run, next, at).value ==
                run.(boundary := next, boundaryUpdatedAt := Some(at), attempts := attempts)
  {
  }

  /** A refused record names what is in its way. */
  lemma RecordRefusalIsTrue(run: Run, next: Boundary, at: string)
    ensures match RecordBoundary(run, next, at)
            case Ok(_) => true
            case Err(RequestAlreadyStarted) => next == RequestStarted == run.boundary && run.approvalId != ""
            case Err(IllegalTransition) => next != run.boundary && !Follows(run.boundary, next)
            case Err(InvalidCeiling) =>
              next == RequestStarted && (run.limit.NotAnInteger? || (run.limit.Whole? && !(1 <= run.limit.n <= 24)))
            case Err(AttemptCapExceeded) =>
              next == RequestStarted && run.attempts >= (if run.limit.Whole? then run.limit.n else 24)
            case Err(Terminal) => false
  {
  }

  // Whole histories -----------------------------------------------------------------------------

  /** The lifecycles the accepted moves led to, in order. */
  function Moves(start: Run, ops: seq<Op>): seq<Lifecycle> {
    if ops == [] then []
    else
      var before := ops[..|ops|-1];
      var last := ops[|ops|-1];
      Moves(start, before) + if last.Move? && Apply(Exec(start, before), last).Ok? then [last.to] else []
  }

  function CountMoves(moves: seq<Lifecycle>, to: Lifecycle): nat {
    if moves == [] then 0 else CountMoves(moves[..|moves|-1], to) + if moves[|moves|-1] == to then 1 else 0
  }

  /** The move starts where the one before it led; the first starts at `Created`. */
  predicate Linked(moves: seq<Lifecycle>, i: nat)
    requires i < |moves|
  {
    (if i == 0 then Created else moves[i - 1]) in Before(moves[i])
  }

  predicate IsPath(moves: seq<Lifecycle>) {
    forall i :: 0 <= i < |moves| ==> Linked(moves, i)
  }

  /** What the moves so far must have left in the run. */
  predicate LeftBy(run: Run, moves: seq<Lifecycle>) {
    && IsPath(moves)
    && run.lifecycle == (if moves == [] then Created else moves[|moves|-1])
    && run.attemptCount == CountMoves(moves, Running)
    && run.terminalDisposition ==
       (if run.lifecycle in {Completed, Cancelled, Failed} then Some(run.lifecycle) else None)
    && run.reconciliationStatus ==
       (if run.lifecycle == Reconciled then
          (if run.reconciliationState == "" then "resolved_effect_absent" else run.reconciliationState)
        else if Lost in moves then "required" else "not_required")
  }

  lemma PathGoesOn(moves: seq<Lifecycle>, to: Lifecycle)
    requires IsPath(moves) && (if moves == [] then Created else moves[|moves|-1]) in Before(to)
    ensures IsPath(moves + [to])
  {
    var after := moves + [to];
    forall i | 0 <= i < |after|
      ensures Linked(after, i)
    {
      if i < |moves| {
        assert Linked(moves, i);
      }
    }
  }

  lemma StepLeaves(run: Run, op: Op, moves: seq<Lifecycle>)
    requires LeftBy(run, moves)
    ensures LeftBy(Step(run, op), moves + if op.Move? && Apply(run, op).Ok? then [op.to] else [])
  {
    if op.Move? {
      MovesExactly(run, op.to, op.externalRunId);
      if Apply(run, op).Ok? {
        var after := moves + [op.to];
        assert after[..|after|-1] == moves;
        assert Lost in after <==> Lost in moves || op.to == Lost;
        PathGoesOn(moves, op.to);
      } else {
        assert moves + [] == moves;
      }
    } else {
      RecordsExactly(run, op.boundary, op.at);
      assert moves + [] == moves;
    }
  }

  /**
   After any history of a created run its lifecycle is where the accepted moves led, it counts the times it
   started running, is disposed of exactly when it ended, and asks for reconciliation once it was lost.
   */
  lemma {:induction false} HistoryLeaves(id: string, missionId: string, taskId: string, externalRunId: Option<string>,
                                         limit: Ceiling, approvalId: string, ops: seq<Op>)
    ensures var start := Create(id, missionId, taskId, externalRunId, limit, approvalId);
      && LeftBy(Exec(start, ops), Moves(start, ops))
      && Exec(start, ops).id == id && Exec(start, ops).missionId == missionId && Exec(start, ops).taskId == taskId
      && Exec(start, ops).reconciliationState == ""
  {
    var start := Create(id, missionId, taskId, externalRunId, limit, approvalId);
    if ops != [] {
      var before, last := ops[..|ops|-1], ops[|ops|-1];
      HistoryLeaves(id, missionId, taskId, externalRunId, limit, approvalId, before);
      StepLeaves(Exec(start, before), last, Moves(start, before));
      if last.Move? {
        MovesExactly(Exec(start, before), last.to, last.externalRunId);
      } else {
        RecordsExactly(Exec(start, before), last.boundary, last.at);
      }
    }
  }

  /** Only a run that was running is ever completed or lost, and only a lost one reconciled. */
  lemma {:induction false} EndsComeFrom(moves: seq<Lifecycle>, i: nat)
    requires IsPath(moves) && i < |moves|
    ensures moves[i] == Completed || moves[i] == Lost ==> i > 0 && moves[i - 1] == Running
    ensures moves[i] == Reconciled ==> i > 1 && moves[i - 1] == Lost && moves[i - 2] == Running
    ensures moves[i] in {Completed, Cancelled, Failed, Reconciled} ==> i == |moves| - 1
  {
    assert Linked(moves, i);
    if moves[i] == Reconciled && i > 0 {
      EndsComeFrom(moves, i - 1);
    }
    if i + 1 < |moves| {
      assert Linked(moves, i + 1);
    }
  }
}
