/**
 What the gates of the media calls let through: every record was written in a state that allowed it, and
 a call that meets such a state gets its work done.
 */
module MediaProgress {
  import opened Prelude
  import opened Permits
  import opened MediaJobs

  // What a record finds when it is written ------------------------------------------------------

  /** A video job under its consumed approval, reported ready by the provider. */
  predicate ReadyVideo(b: string -> Binding, s: State, req: string) {
    var d := b(req).driver;
    && b(req).operation == Video && req in s.approvals && s.approvals[req] == Consumed(d)
    && d in s.jobs && s.jobs[d] == ReadyToDownload
  }

  /** A video job under its consumed approval, sent and not yet answered. */
  predicate PendingVideo(b: string -> Binding, s: State, req: string) {
    var d := b(req).driver;
    && b(req).operation == Video && req in s.approvals && s.approvals[req] == Consumed(d)
    && d in s.jobs && (s.jobs[d] == Submitted || s.jobs[d] == Processing)
  }

  /** The state that the caller's next step, writing `e`, starts from. */
  predicate Gate(b: string -> Binding, s: State, pc: Pc, e: Entry) {
    match e
    case ApprovalConsumed(req, d) =>
      && d == b(req).driver && req in s.approvals && s.approvals[req] == Approved
      && d !in s.admitted && d !in s.runs
    case JobClaimed(d) => pc.SubmitAdmitted? && d == b(pc.req).driver && d !in s.jobs
    case RequestStarted(d) => pc.SubmitClaimed? && d == b(pc.req).driver && d in s.runs && !s.runs[d]
    case Dispatched(req, d) => pc == SubmitRecorded(req) && d == b(req).driver
    case DownloadClaimed(d) => pc.FetchRead? && d == b(pc.req).driver && d !in s.downloads
    case Downloaded(req, d) =>
      d == b(req).driver && (pc == FetchClaimed(req) || (pc == SubmitSent(req) && b(req).operation == ImageByUrl))
    case PiClaimed(p) => pc == PiCalled(p) && p !in s.attempts
    case Compiled(p) => pc == PiAdmitted(p)
    case ProposalRecorded(p) => pc == PiSent(p)
  }

  /** The record a step has written, if any. */
  function Added(s: State, s': State): Option<Entry> {
    if |s'.log| > |s.log| then Some(s'.log[|s'.log|-1]) else None
  }

  /** A step writes nothing or one record through its gate, and claims exactly what it has written. */
  predicate Writes(b: string -> Binding, s: State, s': State, pc: Pc) {
    var e := Added(s, s');
    && s'.log == s.log + (if e.Some? then [e.value] else [])
    && (e.Some? ==> Gate(b, s, pc, e.value))
    && s'.downloads == s.downloads + (if e.Some? && e.value.DownloadClaimed? then {e.value.driver} else {})
    && s'.attempts == s.attempts + (if e.Some? && e.value.PiClaimed? then {e.value.proposal} else {})
    && s'.jobs.Keys == s.jobs.Keys + (if e.Some? && e.value.JobClaimed? then {e.value.driver} else {})
    && s'.admitted.Keys == s.admitted.Keys + (if e.Some? && e.value.ApprovalConsumed? then {e.value.driver} else {})
  }

  lemma SubmitWrites(b: string -> Binding, s: State, c: nat, pc: Pc, ok: bool, result: JobState)
    requires Reached(b, s, pc)
    ensures Writes(b, s, AdvanceSubmit(b, s, c, pc, ok, result), pc)
  {
    match pc
    case SubmitChecked(req) => AdmitWrites(b, s, c, req, ok);
    case SubmitAdmitted(req) => ClaimWrites(b, s, c, req, ok, result);
    case SubmitClaimed(req) => StartWrites(b, s, c, req, ok, result);
    case _ => SendWrites(b, s, c, pc, ok, result);
  }

  lemma AdmitWrites(b: string -> Binding, s: State, c: nat, req: string, ok: bool)
    ensures Writes(b, s, Admit(b, s, c, req, ok), SubmitChecked(req))
  {
  }

  lemma ClaimWrites(b: string -> Binding, s: State, c: nat, req: string, ok: bool, result: JobState)
    ensures Writes(b, s, AdvanceSubmit(b, s, c, SubmitAdmitted(req), ok, result), SubmitAdmitted(req))
  {
  }

  lemma StartWrites(b: string -> Binding, s: State, c: nat, req: string, ok: bool, result: JobState)
    ensures Writes(b, s, AdvanceSubmit(b, s, c, SubmitClaimed(req), ok, result), SubmitClaimed(req))
  {
  }

  lemma SendWrites(b: string -> Binding, s: State, c: nat, pc: Pc, ok: bool, result: JobState)
    requires Reached(b, s, pc)
    requires !pc.SubmitChecked? && !pc.SubmitAdmitted? && !pc.SubmitClaimed?
    ensures Writes(b, s, AdvanceSubmit(b, s, c, pc, ok, result), pc)
  {
  }

  lemma PollWrites(b: string -> Binding, s: State, c: nat, pc: Pc, ok: bool, result: JobState)
    requires Reached(b, s, pc)
    ensures Writes(b, s, AdvancePoll(b, s, c, pc, ok, result), pc)
  {
  }

  lemma FetchWrites(b: string -> Binding, s: State, c: nat, pc: Pc, ok: bool)
    requires Reached(b, s, pc)
    ensures Writes(b, s, AdvanceFetch(b, s, c, pc, ok), pc)
  {
  }

  lemma CompileWrites(b: string -> Binding, s: State, c: nat, pc: Pc, ok: bool)
    ensures Writes(b, s, AdvanceCompile(s, c, pc, ok), pc)
  {
  }

  lemma AdvanceWrites(b: string -> Binding, s: State, c: nat, ok: bool, result: JobState)
    requires c in s.callers && AllReached(b, s)
    ensures Writes(b, s, AdvanceCaller(b, s, c, s.callers[c], ok, result), s.callers[c])
  {
    var pc := s.callers[c];
    assert Reached(b, s, pc);
    if Polling(pc) {
      PollWrites(b, s, c, pc, ok, result);
    } else if Fetching(pc) {
      FetchWrites(b, s, c, pc, ok);
    } else if Compiling(pc) {
      CompileWrites(b, s, c, pc, ok);
    } else {
      SubmitWrites(b, s, c, pc, ok, result);
    }
  }

  lemma StepLogs(b: string -> Binding, s: State, e: Event, log: seq<Entry>)
    requires AllReached(b, s) && log == Step(b, s, e).log
    ensures log == s.log || (e.Advance? && e.c in s.callers && OneMore(b, s, s.callers[e.c], log))
  {
    if e.Advance? && e.c in s.callers {
      AdvanceWrites(b, s, e.c, e.ok, e.result);
    }
  }

  /** The log is one record longer, which has come through its gate. */
  predicate OneMore(b: string -> Binding, s: State, pc: Pc, log: seq<Entry>) {
    |log| == |s.log| + 1 && log[..|s.log|] == s.log && Gate(b, s, pc, log[|s.log|])
  }

  lemma {:induction false} LogGrows(b: string -> Binding, events: seq<Event>, n: nat)
    requires n <= |events|
    ensures Run(b, events[..n]).log <= Run(b, events).log
  {
    if n < |events| {
      LogGrows(b, events[..|events|-1], n);
      assert events[..|events|-1][..n] == events[..n];
      RunKeepsInv(b, events[..|events|-1]);
      StepLogs(b, Run(b, events[..|events|-1]), events[|events|-1], Run(b, events).log);
    } else {
      assert events[..n] == events;
    }
  }

  /** The event takes a caller of that state through the gate of the record at `k`. */
  predicate WritesAt(b: string -> Binding, s: State, e: Event, log: seq<Entry>, k: nat) {
    && k < |log| && s.log == log[..k]
    && e.Advance? && e.c in s.callers && Gate(b, s, s.callers[e.c], log[k])
  }

  ghost predicate WrittenBy(b: string -> Binding, events: seq<Event>, log: seq<Entry>, k: nat) {
    exists n :: 0 <= n < |events| && WritesAt(b, Run(b, events[..n]), events[n], log, k)
  }

  lemma WrittenBefore(b: string -> Binding, events: seq<Event>, log: seq<Entry>, k: nat)
    requires events != [] && WrittenBy(b, events[..|events|-1], log, k)
    ensures WrittenBy(b, events, log, k)
  {
    var front := events[..|events|-1];
    var n :| 0 <= n < |front| && WritesAt(b, Run(b, front[..n]), front[n], log, k);
    assert front[..n] == events[..n] && front[n] == events[n];
  }

  /** The step of the run that wrote the record at `k`. */
  lemma {:induction false} WrittenAt(b: string -> Binding, events: seq<Event>, log: seq<Entry>, k: nat)
    requires k < |Run(b, events).log| && Run(b, events).log <= log
    ensures WrittenBy(b, events, log, k)
  {
    var front := events[..|events|-1];
    RunKeepsInv(b, front);
    StepLogs(b, Run(b, front), events[|events|-1], Run(b, events).log);
    if k < |Run(b, front).log| {
      WrittenAt(b, front, log, k);
      WrittenBefore(b, events, log, k);
    } else {
      WrittenLast(b, Run(b, front), events[|events|-1], Run(b, events).log, log, k);
    }
  }

  lemma WrittenLast(b: string -> Binding, s: State, e: Event, longer: seq<Entry>, log: seq<Entry>, k: nat)
    requires e.Advance? && e.c in s.callers && OneMore(b, s, s.callers[e.c], longer) && longer <= log && k == |s.log|
    ensures WritesAt(b, s, e, log, k)
  {
    assert log[..k] == longer[..k] && log[k] == longer[k];
  }

  // What a caller has seen ----------------------------------------------------------------------

  predicate PastFetchGate(pc: Pc) { pc.FetchRead? || pc.FetchClaimed? || pc.FetchSent? }

  /** A step moves its own caller only. */
  predicate Moves(s: State, s': State, c: nat) {
    c in s'.callers && s'.callers == s.callers[c := s'.callers[c]]
  }

  lemma AdvanceMoves(b: string -> Binding, s: State, c: nat, ok: bool, result: JobState)
    requires c in s.callers
    ensures var s', pc := AdvanceCaller(b, s, c, s.callers[c], ok, result), s.callers[c];
      && Moves(s, s', c)
      && (Fetching(s'.callers[c]) ==> Fetching(pc)) && (Polling(s'.callers[c]) ==> Polling(pc))
  {
    var pc := s.callers[c];
    if Polling(pc) {
      PollMoves(b, s, c, pc, ok, result);
    } else if Fetching(pc) {
      FetchMoves(b, s, c, pc, ok);
    } else if Compiling(pc) {
      CompileMoves(s, c, pc, ok);
    } else {
      SubmitMoves(b, s, c, pc, ok, result);
    }
  }

  lemma PollMoves(b: string -> Binding, s: State, c: nat, pc: Pc, ok: bool, result: JobState)
    requires c in s.callers && s.callers[c] == pc && Polling(pc)
    ensures var s' := AdvancePoll(b, s, c, pc, ok, result); Moves(s, s', c) && !Fetching(s'.callers[c])
  {
  }

  lemma FetchMoves(b: string -> Binding, s: State, c: nat, pc: Pc, ok: bool)
    requires c in s.callers && s.callers[c] == pc && Fetching(pc)
    ensures var s' := AdvanceFetch(b, s, c, pc, ok); Moves(s, s', c) && !Polling(s'.callers[c])
  {
  }

  lemma CompileMoves(s: State, c: nat, pc: Pc, ok: bool)
    requires c in s.callers && s.callers[c] == pc && Compiling(pc)
    ensures var s' := AdvanceCompile(s, c, pc, ok);
      Moves(s, s', c) && !Polling(s'.callers[c]) && !Fetching(s'.callers[c])
  {
  }

  lemma SubmitMoves(b: string -> Binding, s: State, c: nat, pc: Pc, ok: bool, result: JobState)
    requires c in s.callers && s.callers[c] == pc && !Polling(pc) && !Fetching(pc) && !Compiling(pc)
    ensures var s' := AdvanceSubmit(b, s, c, pc, ok, result);
      Moves(s, s', c) && !Polling(s'.callers[c]) && !Fetching(s'.callers[c])
  {
  }

  lemma FetchAdvance(b: string -> Binding, s: State, c: nat, pc: Pc, ok: bool)
    requires Fetching(pc) && PastFetchGate(AdvanceFetch(b, s, c, pc, ok).callers[c])
    ensures var req := AdvanceFetch(b, s, c, pc, ok).callers[c].req;
      ReadyVideo(b, s, req) || (PastFetchGate(pc) && pc.req == req)
  {
  }

  /** A caller inside a call got there by its own step or has not moved. */
  lemma CallerStep(b: string -> Binding, s: State, e: Event, c: nat, s': State)
    requires s' == Step(b, s, e) && c in s'.callers && !EntryPoint(s'.callers[c])
    ensures c in s.callers
    ensures s'.callers[c] == s.callers[c] ||
            (e.Advance? && e.c == c && s' == AdvanceCaller(b, s, c, s.callers[c], e.ok, e.result))
  {
    if e.Advance? && e.c in s.callers {
      AdvanceMoves(b, s, e.c, e.ok, e.result);
    }
  }

  lemma FetcherStep(b: string -> Binding, s: State, e: Event, c: nat, req: string, s': State)
    requires s' == Step(b, s, e) && c in s'.callers && PastFetchGate(s'.callers[c]) && s'.callers[c].req == req
    ensures ReadyVideo(b, s, req) || (c in s.callers && PastFetchGate(s.callers[c]) && s.callers[c].req == req)
  {
    CallerStep(b, s, e, c, s');
    if s'.callers[c] != s.callers[c] {
      AdvanceMoves(b, s, c, e.ok, e.result);
      FetchAdvance(b, s, c, s.callers[c], e.ok);
    }
  }

  /** The job was ready at some moment before the last event. */
  ghost predicate WasReady(b: string -> Binding, events: seq<Event>, req: string) {
    exists n :: 0 <= n < |events| && ReadyVideo(b, Run(b, events[..n]), req)
  }

  lemma ReadyBefore(b: string -> Binding, events: seq<Event>, req: string)
    requires events != [] && WasReady(b, events[..|events|-1], req)
    ensures WasReady(b, events, req)
  {
    var front := events[..|events|-1];
    var n :| 0 <= n < |front| && ReadyVideo(b, Run(b, front[..n]), req);
    assert front[..n] == events[..n];
  }

  /** Whoever is past the gate of a fetch came by when the job was ready. */
  lemma {:induction false} FetcherSawReady(b: string -> Binding, events: seq<Event>, c: nat, req: string)
    requires var s := Run(b, events); c in s.callers && PastFetchGate(s.callers[c]) && s.callers[c].req == req
    ensures WasReady(b, events, req)
  {
    var front := events[..|events|-1];
    FetcherStep(b, Run(b, front), events[|events|-1], c, req, Run(b, events));
    if !ReadyVideo(b, Run(b, front), req) {
      FetcherSawReady(b, front, c, req);
      ReadyBefore(b, events, req);
    }
  }

  lemma PollAdvance(b: string -> Binding, s: State, c: nat, pc: Pc, ok: bool, result: JobState)
    requires Polling(pc) && AdvancePoll(b, s, c, pc, ok, result).callers[c].PollRead?
    ensures PendingVideo(b, s, AdvancePoll(b, s, c, pc, ok, result).callers[c].req)
  {
  }

  lemma PollerStep(b: string -> Binding, s: State, e: Event, c: nat, req: string, s': State)
    requires s' == Step(b, s, e) && c in s'.callers && s'.callers[c] == PollRead(req)
    ensures PendingVideo(b, s, req) || (c in s.callers && s.callers[c] == PollRead(req))
  {
    CallerStep(b, s, e, c, s');
    if s'.callers[c] != s.callers[c] {
      AdvanceMoves(b, s, c, e.ok, e.result);
      PollAdvance(b, s, c, s.callers[c], e.ok, e.result);
    }
  }

  /** The job was pending at some moment before the last event. */
  ghost predicate WasPending(b: string -> Binding, events: seq<Event>, req: string) {
    exists n :: 0 <= n < |events| && PendingVideo(b, Run(b, events[..n]), req)
  }

  lemma PendingBefore(b: string -> Binding, events: seq<Event>, req: string)
    requires events != [] && WasPending(b, events[..|events|-1], req)
    ensures WasPending(b, events, req)
  {
    var front := events[..|events|-1];
    var n :| 0 <= n < |front| && PendingVideo(b, Run(b, front[..n]), req);
    assert front[..n] == events[..n];
  }

  /** Whoever polls on came by when the job was pending. */
  lemma {:induction false} PollerSawPending(b: string -> Binding, events: seq<Event>, c: nat, req: string)
    requires c in Run(b, events).callers && Run(b, events).callers[c] == PollRead(req)
    ensures WasPending(b, events, req)
  {
    var front := events[..|events|-1];
    PollerStep(b, Run(b, front), events[|events|-1], c, req, Run(b, events));
    if !PendingVideo(b, Run(b, front), req) {
      PollerSawPending(b, front, c, req);
      PendingBefore(b, events, req);
    }
  }

  /** A download of the driver's video, or its claim. */
  predicate VideoDownload(b: string -> Binding, e: Entry) {
    e.DownloadClaimed? || (e.Downloaded? && b(e.req).operation != ImageByUrl)
  }

  /** A moment at which the job of the driver was ready and no more than `k` records were written. */
  ghost predicate ReadyAt(b: string -> Binding, events: seq<Event>, d: string, k: nat) {
    exists n, req ::
      && 0 <= n < |events| && |Run(b, events[..n]).log| <= k
      && b(req).driver == d && ReadyVideo(b, Run(b, events[..n]), req)
  }

  /** In every run a download was claimed, and a video downloaded, after a state in which its job was ready. */
  lemma DownloadedOnlyWhenReady(b: string -> Binding, events: seq<Event>, k: nat)
    requires k < |Run(b, events).log| && VideoDownload(b, Run(b, events).log[k])
    ensures ReadyAt(b, events, Run(b, events).log[k].driver, k)
  {
    var log := Run(b, events).log;
    WrittenAt(b, events, log, k);
    var n :| 0 <= n < |events| && WritesAt(b, Run(b, events[..n]), events[n], log, k);
    ReadyBeforeWriting(b, events, n, Run(b, events[..n]), log, k);
  }

  lemma ReadyBeforeWriting(b: string -> Binding, events: seq<Event>, n: nat, s: State, log: seq<Entry>, k: nat)
    requires n < |events| && s == Run(b, events[..n]) && WritesAt(b, s, events[n], log, k)
    requires VideoDownload(b, log[k])
    ensures ReadyAt(b, events, log[k].driver, k)
  {
    var req := s.callers[events[n].c].req;
    FetcherSawReady(b, events[..n], events[n].c, req);
    var m :| 0 <= m < n && ReadyVideo(b, Run(b, events[..n][..m]), req);
    LogGrows(b, events[..n], m);
    assert events[..n][..m] == events[..m];
  }

  /** The record at `k` is the next one, and consumes an approval that stands approved. */
  predicate ConsumedIn(b: string -> Binding, s: State, log: seq<Entry>, k: nat) {
    && k < |log| && s.log == log[..k] && log[k].ApprovalConsumed? && log[k].driver == b(log[k].req).driver
    && log[k].req in s.approvals && s.approvals[log[k].req] == Approved
    && log[k].driver !in s.admitted && log[k].driver !in s.runs
  }

  /** An approval is only consumed while it stands approved, once, and for a driver without a run. */
  lemma ConsumedOnlyWhenApproved(b: string -> Binding, events: seq<Event>, k: nat)
    requires k < |Run(b, events).log| && Run(b, events).log[k].ApprovalConsumed?
    ensures exists n :: 0 <= n < |events| && ConsumedIn(b, Run(b, events[..n]), Run(b, events).log, k)
  {
    var log := Run(b, events).log;
    WrittenAt(b, events, log, k);
    var n :| 0 <= n < |events| && WritesAt(b, Run(b, events[..n]), events[n], log, k);
    assert ConsumedIn(b, Run(b, events[..n]), log, k);
  }

  // The receipt of a job ------------------------------------------------------------------------

  /** A request that was recorded and never sent: no one is left who may send it. */
  ghost predicate NeverSent(b: string -> Binding, s: State, d: string) {
    && d in s.jobs && s.jobs[d] == Indeterminate
    && (forall req :: Dispatched(req, d) !in s.log)
    && forall c :: c in s.callers ==> HoldsDispatch(b)(s.callers[c]) != Some(d)
  }

  predicate LeavesJob(b: string -> Binding, s: State, s': State, c: nat, d: string) {
    && d in s.jobs && d in s'.jobs && s'.jobs[d] == s.jobs[d]
    && c in s'.callers && HoldsDispatch(b)(s'.callers[c]) != Some(d)
  }

  lemma SubmitLeavesJob(b: string -> Binding, s: State, c: nat, ok: bool, result: JobState, d: string)
    requires c in s.callers && Reached(b, s, s.callers[c]) && Tables(s) && NeverSent(b, s, d)
    ensures LeavesJob(b, s, AdvanceSubmit(b, s, c, s.callers[c], ok, result), c, d)
  {
    assert d in s.admitted;
    if s.callers[c].SubmitChecked? {
      AdmitLeavesJob(b, s, c, s.callers[c].req, ok, d);
    } else {
      LaterLeavesJob(b, s, c, s.callers[c], ok, result, d);
    }
  }

  lemma AdmitLeavesJob(b: string -> Binding, s: State, c: nat, req: string, ok: bool, d: string)
    requires d in s.admitted && d in s.jobs
    ensures LeavesJob(b, s, Admit(b, s, c, req, ok), c, d)
  {
  }

  lemma LaterLeavesJob(b: string -> Binding, s: State, c: nat, pc: Pc, ok: bool, result: JobState, d: string)
    requires c in s.callers && s.callers[c] == pc && !pc.SubmitChecked? && Reached(b, s, pc) && NeverSent(b, s, d)
    ensures LeavesJob(b, s, AdvanceSubmit(b, s, c, pc, ok, result), c, d)
  {
  }

  lemma PollLeavesJob(b: string -> Binding, s: State, c: nat, ok: bool, result: JobState, d: string)
    requires c in s.callers && Reached(b, s, s.callers[c]) && NeverSent(b, s, d) && Polling(s.callers[c])
    ensures LeavesJob(b, s, AdvancePoll(b, s, c, s.callers[c], ok, result), c, d)
  {
  }

  lemma FetchLeavesJob(b: string -> Binding, s: State, c: nat, ok: bool, d: string)
    requires c in s.callers && Reached(b, s, s.callers[c]) && NeverSent(b, s, d) && Fetching(s.callers[c])
    ensures LeavesJob(b, s, AdvanceFetch(b, s, c, s.callers[c], ok), c, d)
  {
  }

  lemma CompileLeavesJob(b: string -> Binding, s: State, c: nat, ok: bool, d: string)
    requires c in s.callers && NeverSent(b, s, d) && Compiling(s.callers[c])
    ensures LeavesJob(b, s, AdvanceCompile(s, c, s.callers[c], ok), c, d)
  {
  }

  lemma AdvanceLeavesJob(b: string -> Binding, s: State, c: nat, ok: bool, result: JobState, d: string)
    requires Inv(b, s) && NeverSent(b, s, d) && c in s.callers
    ensures LeavesJob(b, s, AdvanceCaller(b, s, c, s.callers[c], ok, result), c, d)
  {
    assert Reached(b, s, s.callers[c]);
    if Polling(s.callers[c]) {
      PollLeavesJob(b, s, c, ok, result, d);
    } else if Fetching(s.callers[c]) {
      FetchLeavesJob(b, s, c, ok, d);
    } else if Compiling(s.callers[c]) {
      CompileLeavesJob(b, s, c, ok, d);
    } else {
      SubmitLeavesJob(b, s, c, ok, result, d);
    }
  }

  lemma NeverSentAdvance(b: string -> Binding, s: State, c: nat, ok: bool, result: JobState, s': State, d: string)
    requires Inv(b, s) && NeverSent(b, s, d) && c in s.callers
    requires s' == AdvanceCaller(b, s, c, s.callers[c], ok, result)
    ensures NeverSent(b, s', d)
  {
    AdvanceLeavesJob(b, s, c, ok, result, d);
    AdvanceMoves(b, s, c, ok, result);
    AdvanceWrites(b, s, c, ok, result);
    NeverSentNext(b, s, c, s', d);
  }

  lemma NeverSentNext(b: string -> Binding, s: State, c: nat, s': State, d: string)
    requires NeverSent(b, s, d) && c in s.callers
    requires LeavesJob(b, s, s', c, d) && Moves(s, s', c) && Writes(b, s, s', s.callers[c])
    ensures NeverSent(b, s', d)
  {
    assert HoldsDispatch(b)(s.callers[c]) != Some(d);
  }

  lemma NeverSentStays(b: string -> Binding, s: State, e: Event, d: string)
    requires Inv(b, s) && NeverSent(b, s, d)
    ensures NeverSent(b, Step(b, s, e), d)
  {
    if e.Advance? {
      if e.c in s.callers {
        NeverSentAdvance(b, s, e.c, e.ok, e.result, Step(b, s, e), d);
      }
    } else {
      OutsideNeverSent(b, s, e, d);
    }
  }

  lemma OutsideNeverSent(b: string -> Binding, s: State, e: Event, d: string)
    requires NeverSent(b, s, d) && !e.Advance?
    ensures NeverSent(b, Step(b, s, e), d)
  {
    assert Step(b, s, e).jobs == s.jobs && Step(b, s, e).log == s.log;
  }

  lemma NeverSentOneLater(b: string -> Binding, longer: seq<Event>, d: string)
    requires longer != [] && NeverSent(b, Run(b, longer[..|longer|-1]), d)
    ensures NeverSent(b, Run(b, longer), d)
  {
    RunKeepsInv(b, longer[..|longer|-1]);
    NeverSentStays(b, Run(b, longer[..|longer|-1]), longer[|longer|-1], d);
  }

  lemma {:induction false} NeverSentLater(b: string -> Binding, events: seq<Event>, more: seq<Event>, d: string)
    requires NeverSent(b, Run(b, events), d)
    ensures NeverSent(b, Run(b, events + more), d)
  {
    if more == [] {
      assert events + more == events;
    } else {
      NeverSentLater(b, events, more[..|more|-1], d);
      assert (events + more)[..|events + more|-1] == events + more[..|more|-1];
      NeverSentOneLater(b, events + more, d);
    }
  }

  lemma FailedSend(b: string -> Binding, s: State, c: nat, req: string, s': State)
    requires Inv(b, s) && c in s.callers && s.callers[c] == SubmitRecorded(req)
    requires s' == At(s, c, Returned).(jobs := s.jobs[b(req).driver := Indeterminate])
    ensures NeverSent(b, s', b(req).driver)
  {
    var d := b(req).driver;
    assert HoldsDispatch(b)(s.callers[c]) == Some(d);
    HolderUnsent(b, s, c, d);
  }

  /** Who holds the dispatch permit has not used it, and no one else holds it. */
  lemma HolderUnsent(b: string -> Binding, s: State, c: nat, d: string)
    requires DispatchPermits(b, s) && c in s.callers && HoldsDispatch(b)(s.callers[c]) == Some(d)
    ensures forall other :: Dispatched(other, d) !in s.log
    ensures forall o :: o in s.callers && o != c ==> HoldsDispatch(b)(s.callers[o]) != Some(d)
  {
    forall other
      ensures Dispatched(other, d) !in s.log
    {
      if i :| 0 <= i < |s.log| && s.log[i] == Dispatched(other, d) {
        EffectIn(s.log, DispatchKey, i);
      }
    }
  }

  lemma FailedSendStep(b: string -> Binding, s: State, c: nat, req: string, result: JobState)
    requires c in s.callers && s.callers[c] == SubmitRecorded(req)
    ensures Step(b, s, Advance(c, false, result)) ==
            At(s, c, Returned).(jobs := s.jobs[b(req).driver := Indeterminate])
  {
  }

  /** A send that fails leaves the job indeterminate for ever, and the request is never sent again. */
  lemma FailedSendIsFinal(b: string -> Binding, events: seq<Event>, c: nat, req: string, result: JobState,
                          more: seq<Event>)
    requires c in Run(b, events).callers && Run(b, events).callers[c] == SubmitRecorded(req)
    ensures var d, s := b(req).driver, Run(b, events + [Advance(c, false, result)] + more);
      d in s.jobs && s.jobs[d] == Indeterminate && forall other :: Dispatched(other, d) !in s.log
  {
    RunKeepsInv(b, events);
    FailedSendStep(b, Run(b, events), c, req, result);
    FailedSend(b, Run(b, events), c, req, Step(b, Run(b, events), Advance(c, false, result)));
    var longer := events + [Advance(c, false, result)];
    assert longer[..|longer|-1] == events;
    NeverSentLater(b, longer, more, b(req).driver);
  }

  // Claims are the log --------------------------------------------------------------------------

  /** The claimed keys are exactly those of the log. */
  ghost predicate ClaimsLogged(s: State) {
    && (forall d :: d in s.downloads <==> DownloadClaimed(d) in s.log)
    && (forall p :: p in s.attempts <==> PiClaimed(p) in s.log)
    && (forall d :: d in s.jobs <==> JobClaimed(d) in s.log)
    && (forall d :: d in s.admitted <==> exists req :: ApprovalConsumed(req, d) in s.log)
  }

  lemma WritesKeepClaims(b: string -> Binding, s: State, s': State, pc: Pc)
    requires ClaimsLogged(s) && Writes(b, s, s', pc)
    ensures ClaimsLogged(s')
  {
    if Added(s, s').Some? {
      assert forall x :: x in s'.log <==> x in s.log || x == Added(s, s').value;
    }
  }

  lemma OutsideKeepsClaims(b: string -> Binding, s: State, e: Event)
    requires !e.Advance?
    ensures var s' := Step(b, s, e);
      && s'.log == s.log && s'.downloads == s.downloads && s'.attempts == s.attempts
      && s'.jobs == s.jobs && s'.admitted == s.admitted
  {
  }

  lemma StepClaims(b: string -> Binding, s: State, e: Event, s': State)
    requires AllReached(b, s) && ClaimsLogged(s) && s' == Step(b, s, e)
    ensures ClaimsLogged(s')
  {
    if e.Advance? {
      if e.c in s.callers {
        AdvanceWrites(b, s, e.c, e.ok, e.result);
        WritesKeepClaims(b, s, s', s.callers[e.c]);
      }
    } else {
      OutsideKeepsClaims(b, s, e);
    }
  }

  lemma {:induction false} RunClaimsLogged(b: string -> Binding, events: seq<Event>)
    ensures ClaimsLogged(Run(b, events))
  {
    if events != [] {
      RunClaimsLogged(b, events[..|events|-1]);
      RunKeepsInv(b, events[..|events|-1]);
      StepClaims(b, Run(b, events[..|events|-1]), events[|events|-1], Run(b, events));
    }
  }

  // Calls that get their work done --------------------------------------------------------------

  /** After `events` a fresh call comes in, and only it goes on, each step as well as it can. */
  predicate Undisturbed(events: seq<Event>, longer: seq<Event>, c: nat, pc: Pc, result: JobState) {
    && |events| < |longer| && longer[..|events|] == events && longer[|events|] == Call(c, pc)
    && forall i :: |events| < i < |longer| ==> longer[i] == Advance(c, true, result)
  }

  lemma Comes(b: string -> Binding, events: seq<Event>, c: nat, pc: Pc, result: JobState) returns (longer: seq<Event>)
    requires c !in Run(b, events).callers && EntryPoint(pc)
    ensures Undisturbed(events, longer, c, pc, result) && Run(b, longer) == At(Run(b, events), c, pc)
  {
    longer := events + [Call(c, pc)];
    assert longer[..|longer|-1] == events;
  }

  lemma GoesOn(b: string -> Binding, events: seq<Event>, before: seq<Event>, c: nat, pc: Pc, result: JobState)
    returns (longer: seq<Event>)
    requires Undisturbed(events, before, c, pc, result) && c in Run(b, before).callers
    ensures Undisturbed(events, longer, c, pc, result)
    ensures Run(b, longer) == AdvanceCaller(b, Run(b, before), c, Run(b, before).callers[c], true, result)
  {
    longer := before + [Advance(c, true, result)];
    assert longer[..|longer|-1] == before;
  }

  lemma Fetches(b: string -> Binding, events: seq<Event>, before: seq<Event>, c: nat, pc: Pc, result: JobState, at: Pc)
    returns (longer: seq<Event>)
    requires Undisturbed(events, before, c, pc, result) && Fetching(at)
    requires c in Run(b, before).callers && Run(b, before).callers[c] == at
    ensures Undisturbed(events, longer, c, pc, result)
    ensures Run(b, longer) == AdvanceFetch(b, Run(b, before), c, at, true)
  {
    longer := GoesOn(b, events, before, c, pc, result);
  }

  lemma Polls(b: string -> Binding, events: seq<Event>, before: seq<Event>, c: nat, pc: Pc, result: JobState, at: Pc)
    returns (longer: seq<Event>)
    requires Undisturbed(events, before, c, pc, result) && Polling(at)
    requires c in Run(b, before).callers && Run(b, before).callers[c] == at
    ensures Undisturbed(events, longer, c, pc, result)
    ensures Run(b, longer) == AdvancePoll(b, Run(b, before), c, at, true, result)
  {
    longer := GoesOn(b, events, before, c, pc, result);
  }

  lemma Compiles(b: string -> Binding, events: seq<Event>, before: seq<Event>, c: nat, pc: Pc, result: JobState, at: Pc)
    returns (longer: seq<Event>)
    requires Undisturbed(events, before, c, pc, result) && Compiling(at)
    requires c in Run(b, before).callers && Run(b, before).callers[c] == at
    ensures Undisturbed(events, longer, c, pc, result)
    ensures Run(b, longer) == AdvanceCompile(Run(b, before), c, at, true)
  {
    longer := GoesOn(b, events, before, c, pc, result);
  }

  lemma Submits(b: string -> Binding, events: seq<Event>, before: seq<Event>, c: nat, pc: Pc, result: JobState, at: Pc)
    returns (longer: seq<Event>)
    requires Undisturbed(events, before, c, pc, result) && !Polling(at) && !Fetching(at) && !Compiling(at)
    requires c in Run(b, before).callers && Run(b, before).callers[c] == at
    ensures Undisturbed(events, longer, c, pc, result)
    ensures Run(b, longer) == AdvanceSubmit(b, Run(b, before), c, at, true, result)
  {
    longer := GoesOn(b, events, before, c, pc, result);
  }

  // A fetch -------------------------------------------------------------------------------------

  /** From every reachable state: a ready video is downloaded by the first fetch that is not disturbed. */
  lemma ReadyIsFetched(b: string -> Binding, events: seq<Event>, c: nat, req: string, result: JobState)
    returns (longer: seq<Event>)
    requires var s := Run(b, events);
      ReadyVideo(b, s, req) && DownloadClaimed(b(req).driver) !in s.log && c !in s.callers
    ensures Undisturbed(events, longer, c, FetchCalled(req), result)
    ensures var s, d := Run(b, longer), b(req).driver;
      && s.log == Run(b, events).log + [DownloadClaimed(d), Downloaded(req, d)]
      && d in s.jobs && s.jobs[d] == JobCompleted
      && c in s.callers && s.callers[c] == Returned
  {
    var before := FetchHasDownloaded(b, events, c, req, result);
    longer := Fetches(b, events, before, c, FetchCalled(req), result, FetchSent(req));
    FetchEnds(b, Run(b, before), c, req, Run(b, longer));
  }

  lemma FetchHasDownloaded(b: string -> Binding, events: seq<Event>, c: nat, req: string, result: JobState)
    returns (longer: seq<Event>)
    requires var s := Run(b, events);
      ReadyVideo(b, s, req) && DownloadClaimed(b(req).driver) !in s.log && c !in s.callers
    ensures Undisturbed(events, longer, c, FetchCalled(req), result)
    ensures var s, d := Run(b, longer), b(req).driver;
      && s.log == Run(b, events).log + [DownloadClaimed(d), Downloaded(req, d)]
      && c in s.callers && s.callers[c] == FetchSent(req)
  {
    var before := FetchHasClaimed(b, events, c, req, result);
    longer := Fetches(b, events, before, c, FetchCalled(req), result, FetchClaimed(req));
    FetchDownloads(b, Run(b, before), c, req, Run(b, longer));
  }

  lemma FetchHasClaimed(b: string -> Binding, events: seq<Event>, c: nat, req: string, result: JobState)
    returns (longer: seq<Event>)
    requires var s := Run(b, events);
      ReadyVideo(b, s, req) && DownloadClaimed(b(req).driver) !in s.log && c !in s.callers
    ensures Undisturbed(events, longer, c, FetchCalled(req), result)
    ensures var s, d := Run(b, longer), b(req).driver;
      s.log == Run(b, events).log + [DownloadClaimed(d)] && c in s.callers && s.callers[c] == FetchClaimed(req)
  {
    RunClaimsLogged(b, events);
    var before := FetchHasRead(b, events, c, req, result);
    longer := Fetches(b, events, before, c, FetchCalled(req), result, FetchRead(req));
    FetchClaims(b, Run(b, before), c, req, Run(b, longer));
  }

  lemma FetchHasRead(b: string -> Binding, events: seq<Event>, c: nat, req: string, result: JobState)
    returns (longer: seq<Event>)
    requires ReadyVideo(b, Run(b, events), req) && c !in Run(b, events).callers
    ensures Undisturbed(events, longer, c, FetchCalled(req), result)
    ensures Run(b, longer) == At(Run(b, events), c, FetchRead(req))
  {
    var pc := FetchCalled(req);
    var before := Comes(b, events, c, pc, result);
    longer := Fetches(b, events, before, c, pc, result, pc);
    FetchReads(b, Run(b, before), c, req, Run(b, longer));
  }

  lemma FetchReads(b: string -> Binding, s: State, c: nat, req: string, s': State)
    requires ReadyVideo(b, s, req) && s' == AdvanceFetch(b, s, c, FetchCalled(req), true)
    ensures s' == At(s, c, FetchRead(req))
  {
  }

  lemma FetchClaims(b: string -> Binding, s: State, c: nat, req: string, s': State)
    requires b(req).driver !in s.downloads && s' == AdvanceFetch(b, s, c, FetchRead(req), true)
    ensures s'.callers == s.callers[c := FetchClaimed(req)] && s'.log == s.log + [DownloadClaimed(b(req).driver)]
  {
  }

  lemma FetchDownloads(b: string -> Binding, s: State, c: nat, req: string, s': State)
    requires s' == AdvanceFetch(b, s, c, FetchClaimed(req), true)
    ensures s'.callers == s.callers[c := FetchSent(req)] && s'.log == s.log + [Downloaded(req, b(req).driver)]
  {
  }

  lemma FetchEnds(b: string -> Binding, s: State, c: nat, req: string, s': State)
    requires s' == AdvanceFetch(b, s, c, FetchSent(req), true)
    ensures s'.callers == s.callers[c := Returned] && s'.log == s.log
    ensures s'.jobs == s.jobs[b(req).driver := JobCompleted]
  {
  }

  // A poll --------------------------------------------------------------------------------------

  /** A poll of a pending video writes what the provider says, if it says one of the three known things. */
  lemma PendingIsPolled(b: string -> Binding, events: seq<Event>, c: nat, req: string, result: JobState)
    returns (longer: seq<Event>)
    requires PendingVideo(b, Run(b, events), req) && c !in Run(b, events).callers
    ensures Undisturbed(events, longer, c, PollCalled(req), result)
    ensures var s, d := Run(b, longer), b(req).driver;
      && s.log == Run(b, events).log && c in s.callers && s.callers[c] == Returned
      && s.jobs == if result == Processing || result == JobFailed || result == ReadyToDownload
                   then Run(b, events).jobs[d := result] else Run(b, events).jobs
  {
    var before := PollHasRead(b, events, c, req, result);
    longer := Polls(b, events, before, c, PollCalled(req), result, PollRead(req));
    PollEnds(b, Run(b, before), c, req, result, Run(b, longer));
  }

  lemma PollHasRead(b: string -> Binding, events: seq<Event>, c: nat, req: string, result: JobState)
    returns (longer: seq<Event>)
    requires PendingVideo(b, Run(b, events), req) && c !in Run(b, events).callers
    ensures Undisturbed(events, longer, c, PollCalled(req), result)
    ensures Run(b, longer) == At(Run(b, events), c, PollRead(req))
  {
    var pc := PollCalled(req);
    var before := Comes(b, events, c, pc, result);
    longer := Polls(b, events, before, c, pc, result, pc);
    PollReads(b, Run(b, before), c, req, result, Run(b, longer));
  }

  lemma PollReads(b: string -> Binding, s: State, c: nat, req: string, result: JobState, s': State)
    requires PendingVideo(b, s, req) && s' == AdvancePoll(b, s, c, PollCalled(req), true, result)
    ensures s' == At(s, c, PollRead(req))
  {
  }

  lemma PollEnds(b: string -> Binding, s: State, c: nat, req: string, result: JobState, s': State)
    requires s' == AdvancePoll(b, s, c, PollRead(req), true, result)
    ensures s'.log == s.log && s'.callers == s.callers[c := Returned]
    ensures s'.jobs == if result == Processing || result == JobFailed || result == ReadyToDownload
            then s.jobs[b(req).driver := result] else s.jobs
  {
  }

  // A compilation -------------------------------------------------------------------------------

  /** A proposal that was never claimed is compiled and recorded. */
  lemma UnclaimedIsCompiled(b: string -> Binding, events: seq<Event>, c: nat, p: string, result: JobState)
    returns (longer: seq<Event>)
    requires PiClaimed(p) !in Run(b, events).log && c !in Run(b, events).callers
    ensures Undisturbed(events, longer, c, PiCalled(p), result)
    ensures var s := Run(b, longer);
      && s.log == Run(b, events).log + [PiClaimed(p), Compiled(p), ProposalRecorded(p)]
      && c in s.callers && s.callers[c] == Returned
  {
    var before := CompilationSent(b, events, c, p, result);
    longer := Compiles(b, events, before, c, PiCalled(p), result, PiSent(p));
    CompileEnds(Run(b, before), c, p, Run(b, longer));
  }

  lemma CompilationSent(b: string -> Binding, events: seq<Event>, c: nat, p: string, result: JobState)
    returns (longer: seq<Event>)
    requires PiClaimed(p) !in Run(b, events).log && c !in Run(b, events).callers
    ensures Undisturbed(events, longer, c, PiCalled(p), result)
    ensures var s := Run(b, longer);
      && s.log == Run(b, events).log + [PiClaimed(p), Compiled(p)] && c in s.callers && s.callers[c] == PiSent(p)
  {
    var before := CompilationClaimed(b, events, c, p, result);
    longer := Compiles(b, events, before, c, PiCalled(p), result, PiAdmitted(p));
    CompileSends(Run(b, before), c, p, Run(b, longer));
  }

  lemma CompilationClaimed(b: string -> Binding, events: seq<Event>, c: nat, p: string, result: JobState)
    returns (longer: seq<Event>)
    requires PiClaimed(p) !in Run(b, events).log && c !in Run(b, events).callers
    ensures Undisturbed(events, longer, c, PiCalled(p), result)
    ensures var s := Run(b, longer);
      s.log == Run(b, events).log + [PiClaimed(p)] && c in s.callers && s.callers[c] == PiAdmitted(p)
  {
    RunClaimsLogged(b, events);
    var pc := PiCalled(p);
    var before := Comes(b, events, c, pc, result);
    longer := Compiles(b, events, before, c, pc, result, pc);
    CompileClaims(Run(b, before), c, p, Run(b, longer));
  }

  lemma CompileClaims(s: State, c: nat, p: string, s': State)
    requires p !in s.attempts && s' == AdvanceCompile(s, c, PiCalled(p), true)
    ensures s'.callers == s.callers[c := PiAdmitted(p)] && s'.log == s.log + [PiClaimed(p)]
  {
  }

  lemma CompileSends(s: State, c: nat, p: string, s': State)
    requires s' == AdvanceCompile(s, c, PiAdmitted(p), true)
    ensures s'.callers == s.callers[c := PiSent(p)] && s'.log == s.log + [Compiled(p)]
  {
  }

  lemma CompileEnds(s: State, c: nat, p: string, s': State)
    requires s' == AdvanceCompile(s, c, PiSent(p), true)
    ensures s'.callers == s.callers[c := Returned] && s'.log == s.log + [ProposalRecorded(p)]
  {
  }

  // A submission --------------------------------------------------------------------------------

  /** The approval stands and its driver has neither been admitted nor has a run. */
  ghost predicate Submittable(b: string -> Binding, s: State, req: string) {
    && req in s.approvals && s.approvals[req] == Approved && b(req).driver !in s.runs
    && forall other :: ApprovalConsumed(other, b(req).driver) !in s.log
  }

  /** The approval is consumed for its driver and the call stands at `pc`. */
  predicate Stands(b: string -> Binding, s: State, c: nat, req: string, pc: Pc) {
    req in s.approvals && s.approvals[req] == Consumed(b(req).driver) && c in s.callers && s.callers[c] == pc
  }

  /** An approved request whose driver is unused is sent, and an image is fetched along with it. */
  lemma ApprovedIsSent(b: string -> Binding, events: seq<Event>, c: nat, req: string, result: JobState)
    returns (longer: seq<Event>)
    requires Submittable(b, Run(b, events), req) && c !in Run(b, events).callers
    ensures Undisturbed(events, longer, c, SubmitCalled(req), result)
    ensures var s, d := Run(b, longer), b(req).driver;
      && s.log == Run(b, events).log + [ApprovalConsumed(req, d), JobClaimed(d), RequestStarted(d), Dispatched(req, d)]
                  + (if b(req).operation == ImageByUrl then [Downloaded(req, d)] else [])
      && Stands(b, s, c, req, Returned) && d in s.jobs && s.jobs[d] == result
  {
    if b(req).operation == ImageByUrl {
      var before := ImageFetched(b, events, c, req, result);
      longer := Submits(b, events, before, c, SubmitCalled(req), result, SubmitFetched(req));
      KeepsReceipt(b, Run(b, before), c, req, result, Run(b, longer));
    } else {
      var before := SubmissionSent(b, events, c, req, result);
      longer := Submits(b, events, before, c, SubmitCalled(req), result, SubmitSent(req));
      TakesReceipt(b, Run(b, before), c, req, result, Run(b, longer));
    }
  }

  lemma ImageFetched(b: string -> Binding, events: seq<Event>, c: nat, req: string, result: JobState)
    returns (longer: seq<Event>)
    requires Submittable(b, Run(b, events), req) && c !in Run(b, events).callers && b(req).operation == ImageByUrl
    ensures Undisturbed(events, longer, c, SubmitCalled(req), result)
    ensures var s, d := Run(b, longer), b(req).driver;
      && s.log == Run(b, events).log + [ApprovalConsumed(req, d), JobClaimed(d), RequestStarted(d), Dispatched(req, d)]
                  + [Downloaded(req, d)]
      && Stands(b, s, c, req, SubmitFetched(req))
  {
    var before := SubmissionSent(b, events, c, req, result);
    longer := Submits(b, events, before, c, SubmitCalled(req), result, SubmitSent(req));
    FetchesImage(b, Run(b, before), c, req, result, Run(b, longer));
  }

  lemma SubmissionSent(b: string -> Binding, events: seq<Event>, c: nat, req: string, result: JobState)
    returns (longer: seq<Event>)
    requires Submittable(b, Run(b, events), req) && c !in Run(b, events).callers
    ensures Undisturbed(events, longer, c, SubmitCalled(req), result)
    ensures var s, d := Run(b, longer), b(req).driver;
      && s.log == Run(b, events).log + [ApprovalConsumed(req, d), JobClaimed(d), RequestStarted(d), Dispatched(req, d)]
      && Stands(b, s, c, req, SubmitSent(req))
  {
    var before := SubmissionStarted(b, events, c, req, result);
    longer := Submits(b, events, before, c, SubmitCalled(req), result, SubmitRecorded(req));
    Sends(b, Run(b, before), c, req, result, Run(b, longer));
  }

  lemma SubmissionStarted(b: string -> Binding, events: seq<Event>, c: nat, req: string, result: JobState)
    returns (longer: seq<Event>)
    requires Submittable(b, Run(b, events), req) && c !in Run(b, events).callers
    ensures Undisturbed(events, longer, c, SubmitCalled(req), result)
    ensures var s, d := Run(b, longer), b(req).driver;
      && s.log == Run(b, events).log + [ApprovalConsumed(req, d), JobClaimed(d), RequestStarted(d)]
      && Stands(b, s, c, req, SubmitRecorded(req))
  {
    var before := SubmissionClaimed(b, events, c, req, result);
    longer := Submits(b, events, before, c, SubmitCalled(req), result, SubmitClaimed(req));
    Starts(b, Run(b, before), c, req, result, Run(b, longer));
  }

  lemma SubmissionClaimed(b: string -> Binding, events: seq<Event>, c: nat, req: string, result: JobState)
    returns (longer: seq<Event>)
    requires Submittable(b, Run(b, events), req) && c !in Run(b, events).callers
    ensures Undisturbed(events, longer, c, SubmitCalled(req), result)
    ensures var s, d := Run(b, longer), b(req).driver;
      && s.log == Run(b, events).log + [ApprovalConsumed(req, d), JobClaimed(d)]
      && Stands(b, s, c, req, SubmitClaimed(req)) && d in s.runs && !s.runs[d]
  {
    var before := SubmissionAdmitted(b, events, c, req, result);
    longer := Submits(b, events, before, c, SubmitCalled(req), result, SubmitAdmitted(req));
    ClaimsJob(b, Run(b, before), c, req, result, Run(b, longer));
  }

  lemma SubmissionAdmitted(b: string -> Binding, events: seq<Event>, c: nat, req: string, result: JobState)
    returns (longer: seq<Event>)
    requires Submittable(b, Run(b, events), req) && c !in Run(b, events).callers
    ensures Undisturbed(events, longer, c, SubmitCalled(req), result)
    ensures var s, d := Run(b, longer), b(req).driver;
      && s.log == Run(b, events).log + [ApprovalConsumed(req, d)]
      && Stands(b, s, c, req, SubmitAdmitted(req)) && d !in s.jobs && d in s.runs && !s.runs[d]
  {
    RunClaimsLogged(b, events);
    RunKeepsInv(b, events);
    var before := SubmissionChecked(b, events, c, req, result);
    longer := Submits(b, events, before, c, SubmitCalled(req), result, SubmitChecked(req));
    Admits(b, Run(b, before), c, req, result, Run(b, longer));
  }

  lemma SubmissionChecked(b: string -> Binding, events: seq<Event>, c: nat, req: string, result: JobState)
    returns (longer: seq<Event>)
    requires Submittable(b, Run(b, events), req) && c !in Run(b, events).callers
    ensures Undisturbed(events, longer, c, SubmitCalled(req), result)
    ensures Run(b, longer) == At(Run(b, events), c, SubmitChecked(req))
  {
    var pc := SubmitCalled(req);
    var before := Comes(b, events, c, pc, result);
    longer := Submits(b, events, before, c, pc, result, pc);
    Checks(b, Run(b, before), c, req, result, Run(b, longer));
  }

  lemma Checks(b: string -> Binding, s: State, c: nat, req: string, result: JobState, s': State)
    requires req in s.approvals && s.approvals[req] == Approved
    requires s' == AdvanceSubmit(b, s, c, SubmitCalled(req), true, result)
    ensures s' == At(s, c, SubmitChecked(req))
  {
  }

  lemma Admits(b: string -> Binding, s: State, c: nat, req: string, result: JobState, s': State)
    requires s' == AdvanceSubmit(b, s, c, SubmitChecked(req), true, result)
    requires req in s.approvals && s.approvals[req] == Approved
    requires b(req).driver !in s.runs && b(req).driver !in s.admitted
    ensures var d := b(req).driver;
      && s'.callers == s.callers[c := SubmitAdmitted(req)] && s'.log == s.log + [ApprovalConsumed(req, d)]
      && s'.approvals == s.approvals[req := Consumed(d)] && s'.runs == s.runs[d := false] && s'.jobs == s.jobs
  {
  }

  lemma ClaimsJob(b: string -> Binding, s: State, c: nat, req: string, result: JobState, s': State)
    requires s' == AdvanceSubmit(b, s, c, SubmitAdmitted(req), true, result)
    requires b(req).driver !in s.jobs
    ensures var d := b(req).driver;
      && s'.callers == s.callers[c := SubmitClaimed(req)] && s'.log == s.log + [JobClaimed(d)]
      && s'.approvals == s.approvals && s'.runs == s.runs
  {
  }

  lemma Starts(b: string -> Binding, s: State, c: nat, req: string, result: JobState, s': State)
    requires s' == AdvanceSubmit(b, s, c, SubmitClaimed(req), true, result)
    requires b(req).driver in s.runs && !s.runs[b(req).driver]
    ensures var d := b(req).driver;
      && s'.callers == s.callers[c := SubmitRecorded(req)] && s'.log == s.log + [RequestStarted(d)]
      && s'.approvals == s.approvals
  {
  }

  lemma Sends(b: string -> Binding, s: State, c: nat, req: string, result: JobState, s': State)
    requires s' == AdvanceSubmit(b, s, c, SubmitRecorded(req), true, result)
    ensures var d := b(req).driver;
      && s'.callers == s.callers[c := SubmitSent(req)] && s'.log == s.log + [Dispatched(req, d)]
      && s'.approvals == s.approvals
  {
  }

  lemma FetchesImage(b: string -> Binding, s: State, c: nat, req: string, result: JobState, s': State)
    requires s' == AdvanceSubmit(b, s, c, SubmitSent(req), true, result)
    requires b(req).operation == ImageByUrl
    ensures var d := b(req).driver;
      && s'.callers == s.callers[c := SubmitFetched(req)] && s'.log == s.log + [Downloaded(req, d)]
      && s'.approvals == s.approvals
  {
  }

  lemma TakesReceipt(b: string -> Binding, s: State, c: nat, req: string, result: JobState, s': State)
    requires s' == AdvanceSubmit(b, s, c, SubmitSent(req), true, result)
    requires b(req).operation != ImageByUrl
    ensures var d := b(req).driver;
      && s'.callers == s.callers[c := Returned] && s'.log == s.log && s'.jobs == s.jobs[d := result]
      && s'.approvals == s.approvals
  {
  }

  lemma KeepsReceipt(b: string -> Binding, s: State, c: nat, req: string, result: JobState, s': State)
    requires s' == AdvanceSubmit(b, s, c, SubmitFetched(req), true, result)
    ensures var d := b(req).driver;
      && s'.callers == s.callers[c := Returned] && s'.log == s.log && s'.jobs == s.jobs[d := result]
      && s'.approvals == s.approvals
  {
  }
}
