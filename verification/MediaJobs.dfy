/**
 Concurrent submit, poll and fetch calls of governed media jobs, and prompt compilations, as the
 atomic steps between which a caller may be overtaken or die.
 */
module MediaJobs {
  import opened Prelude
  import opened Permits

  datatype Operation = Video | ImageByUrl | OtherOperation

  /** What an approval binds its request to. */
  datatype Binding = Binding(driver: string, operation: Operation)

  datatype Approval = Requested | Approved | Consumed(useId: string) | Closed

  datatype JobState =
    | InProgress | Submitted | Processing | ReadyToDownload | JobCompleted | JobFailed | Indeterminate

  /** Durable records and external effects, in the order in which they happen. */
  datatype Entry =
    | ApprovalConsumed(req: string, driver: string)
    | JobClaimed(driver: string)
    | RequestStarted(driver: string)
    | Dispatched(req: string, driver: string)
    | DownloadClaimed(driver: string)
    | Downloaded(req: string, driver: string)
    | PiClaimed(proposal: string)
    | Compiled(proposal: string)
    | ProposalRecorded(proposal: string)

  /** Where a call stands: after the named step, before the next one. */
  datatype Pc =
    | SubmitCalled(req: string) | SubmitChecked(req: string) | SubmitAdmitted(req: string)
    | SubmitClaimed(req: string) | SubmitRecorded(req: string) | SubmitSent(req: string) | SubmitFetched(req: string)
    | PollCalled(req: string) | PollRead(req: string)
    | FetchCalled(req: string) | FetchRead(req: string) | FetchClaimed(req: string) | FetchSent(req: string)
    | PiCalled(proposal: string) | PiAdmitted(proposal: string) | PiSent(proposal: string)
    | Returned

  datatype State = State(
    approvals: map<string, Approval>,
    admitted: map<string, string>,      // driver -> request: the admission key, written with the consumption
    runs: map<string, bool>,            // driver -> request_started recorded
    jobs: map<string, JobState>,        // the job receipt, keyed by driver
    downloads: set<string>,             // claimed download keys
    attempts: set<string>,              // claimed prompt-compilation keys
    callers: map<nat, Pc>,
    log: seq<Entry>)

  /** `ok` resolves what the caller cannot know beforehand: an expiry, a refused write, an I/O outcome. */
  datatype Event =
    | Call(c: nat, pc: Pc)
    | Advance(c: nat, ok: bool, result: JobState)
    | Crash(c: nat)
    | Decide(req: string, approval: Approval)
    | OtherRun(driver: string)

  predicate EntryPoint(pc: Pc) {
    pc.SubmitCalled? || pc.PollCalled? || pc.FetchCalled? || pc.PiCalled?
  }

  function At(s: State, c: nat, pc: Pc): State {
    s.(callers := s.callers[c := pc])
  }

  function Noted(s: State, e: Entry): State {
    s.(log := s.log + [e])
  }

  /** Consuming the approval and creating the run are one transaction, keyed by the driver. */
  function Admit(b: string -> Binding, s: State, c: nat, req: string, ok: bool): State {
    var d := b(req).driver;
    if d in s.admitted || req !in s.approvals || s.approvals[req] != Approved || d in s.runs || !ok
    then At(s, c, Returned)
    else
      Noted(At(s, c, SubmitAdmitted(req)), ApprovalConsumed(req, d))
      .(approvals := s.approvals[req := Consumed(d)], admitted := s.admitted[d := req], runs := s.runs[d := false])
  }

  /** The receipt of a job may only be read under its consumed approval. */
  predicate JobReadable(b: string -> Binding, s: State, req: string) {
    req in s.approvals && s.approvals[req] == Consumed(b(req).driver) && b(req).driver in s.jobs
  }

  function AdvanceSubmit(b: string -> Binding, s: State, c: nat, pc: Pc, ok: bool, result: JobState): State {
    match pc
    case SubmitCalled(req) =>
      At(s, c, if req in s.approvals && s.approvals[req] == Approved && ok then SubmitChecked(req) else Returned)
    case SubmitChecked(req) => Admit(b, s, c, req, ok)
    case SubmitAdmitted(req) =>
      // an already claimed job key with another fingerprint raises; with the same one the call goes on
      var d := b(req).driver;
      if d in s.jobs then At(s, c, if ok then SubmitClaimed(req) else Returned)
      else Noted(At(s, c, SubmitClaimed(req)), JobClaimed(d)).(jobs := s.jobs[d := InProgress])
    case SubmitClaimed(req) =>
      var d := b(req).driver;
      if d !in s.runs || s.runs[d] || !ok then At(s, c, Returned)
      else Noted(At(s, c, SubmitRecorded(req)), RequestStarted(d)).(runs := s.runs[d := true])
    case SubmitRecorded(req) =>
      var d := b(req).driver;
      if !ok then At(s, c, Returned).(jobs := s.jobs[d := Indeterminate])
      else Noted(At(s, c, SubmitSent(req)), Dispatched(req, d))
    case SubmitSent(req) =>
      var d := b(req).driver;
      if ok && b(req).operation == ImageByUrl then Noted(At(s, c, SubmitFetched(req)), Downloaded(req, d))
      else At(s, c, Returned).(jobs := s.jobs[d := result])
    case SubmitFetched(req) => At(s, c, Returned).(jobs := s.jobs[b(req).driver := result])
    case _ => s
  }

  function AdvancePoll(b: string -> Binding, s: State, c: nat, pc: Pc, ok: bool, result: JobState): State {
    match pc
    case PollCalled(req) =>
      At(s, c, if JobReadable(b, s, req) && b(req).operation == Video
                  && s.jobs[b(req).driver] in {Submitted, Processing} && ok then PollRead(req) else Returned)
    case PollRead(req) =>
      if ok && result in {Processing, JobFailed, ReadyToDownload}
      then At(s, c, Returned).(jobs := s.jobs[b(req).driver := result])
      else At(s, c, Returned)
    case _ => s
  }

  function AdvanceFetch(b: string -> Binding, s: State, c: nat, pc: Pc, ok: bool): State {
    match pc
    case FetchCalled(req) =>
      At(s, c, if JobReadable(b, s, req) && b(req).operation == Video
                  && s.jobs[b(req).driver] == ReadyToDownload && ok then FetchRead(req) else Returned)
    case FetchRead(req) =>
      var d := b(req).driver;
      if d in s.downloads then At(s, c, Returned)
      else Noted(At(s, c, FetchClaimed(req)), DownloadClaimed(d)).(downloads := s.downloads + {d})
    case FetchClaimed(req) =>
      if ok then Noted(At(s, c, FetchSent(req)), Downloaded(req, b(req).driver)) else At(s, c, Returned)
    case FetchSent(req) =>
      if ok then At(s, c, Returned).(jobs := s.jobs[b(req).driver := JobCompleted]) else At(s, c, Returned)
    case _ => s
  }

  function AdvanceCompile(s: State, c: nat, pc: Pc, ok: bool): State {
    match pc
    case PiCalled(p) =>
      if p in s.attempts then At(s, c, Returned)
      else Noted(At(s, c, PiAdmitted(p)), PiClaimed(p)).(attempts := s.attempts + {p})
    case PiAdmitted(p) => if ok then Noted(At(s, c, PiSent(p)), Compiled(p)) else At(s, c, Returned)
    case PiSent(p) => if ok then Noted(At(s, c, Returned), ProposalRecorded(p)) else At(s, c, Returned)
    case _ => s
  }

  predicate Polling(pc: Pc) { pc.PollCalled? || pc.PollRead? }

  predicate Fetching(pc: Pc) { pc.FetchCalled? || pc.FetchRead? || pc.FetchClaimed? || pc.FetchSent? }

  predicate Compiling(pc: Pc) { pc.PiCalled? || pc.PiAdmitted? || pc.PiSent? }

  function AdvanceCaller(b: string -> Binding, s: State, c: nat, pc: Pc, ok: bool, result: JobState): State {
    if Polling(pc) then AdvancePoll(b, s, c, pc, ok, result)
    else if Fetching(pc) then AdvanceFetch(b, s, c, pc, ok)
    else if Compiling(pc) then AdvanceCompile(s, c, pc, ok)
    else AdvanceSubmit(b, s, c, pc, ok, result)
  }

  function Step(b: string -> Binding, s: State, e: Event): State {
    match e
    case Call(c, pc) => if c !in s.callers && EntryPoint(pc) then At(s, c, pc) else s
    case Advance(c, ok, result) => if c in s.callers then AdvanceCaller(b, s, c, s.callers[c], ok, result) else s
    case Crash(c) => s.(callers := s.callers - {c})
    case Decide(req, approval) =>
      if approval.Consumed? || (req in s.approvals && s.approvals[req].Consumed?) then s
      else s.(approvals := s.approvals[req := approval])
    case OtherRun(d) => if d in s.runs then s else s.(runs := s.runs[d := false])
  }

  const START := State(map[], map[], map[], map[], {}, {}, map[], [])

  function Run(b: string -> Binding, events: seq<Event>): State {
    if events == [] then START else Step(b, Run(b, events[..|events|-1]), events[|events|-1])
  }

  // Permits -----------------------------------------------------------------------------------

  function HoldsDispatch(b: string -> Binding): Pc -> Option<string> {
    (pc: Pc) =>
      match pc
      case SubmitAdmitted(req) => Some(b(req).driver)
      case SubmitClaimed(req) => Some(b(req).driver)
      case SubmitRecorded(req) => Some(b(req).driver)
      case _ => None
  }

  /** An image request gets its download permit with its admission, a video request with the download claim. */
  function HoldsDownload(b: string -> Binding): Pc -> Option<string> {
    (pc: Pc) =>
      match pc
      case SubmitAdmitted(req) => if b(req).operation == ImageByUrl then Some(b(req).driver) else None
      case SubmitClaimed(req) => if b(req).operation == ImageByUrl then Some(b(req).driver) else None
      case SubmitRecorded(req) => if b(req).operation == ImageByUrl then Some(b(req).driver) else None
      case SubmitSent(req) => if b(req).operation == ImageByUrl then Some(b(req).driver) else None
      case FetchClaimed(req) => Some(b(req).driver)
      case _ => None
  }

  function HoldsCompile(): Pc -> Option<string> {
    (pc: Pc) => if pc.PiAdmitted? then Some(pc.proposal) else None
  }

  /** The keys of one kind of effect, in log order; `key` picks the kind. */
  function Effects(log: seq<Entry>, key: Entry -> Option<string>): seq<string> {
    if log == [] then []
    else
      var k := key(log[|log|-1]);
      Effects(log[..|log|-1], key) + if k.Some? then [k.value] else []
  }

  function DispatchKey(e: Entry): Option<string> { if e.Dispatched? then Some(e.driver) else None }

  function DownloadKey(e: Entry): Option<string> { if e.Downloaded? then Some(e.driver) else None }

  function CompileKey(e: Entry): Option<string> { if e.Compiled? then Some(e.proposal) else None }

  ghost function ImageAdmissions(b: string -> Binding, s: State): set<string> {
    set d | d in s.admitted && b(s.admitted[d]).operation == ImageByUrl
  }

  // Order of records and effects --------------------------------------------------------------

  predicate ClaimAfterConsumption(log: seq<Entry>, req: string, d: string) {
    exists i :: 0 <= i < |log| && log[i] == JobClaimed(d) && ApprovalConsumed(req, d) in log[..i]
  }

  predicate StartAfterClaim(log: seq<Entry>, req: string, d: string) {
    exists i :: 0 <= i < |log| && log[i] == RequestStarted(d) && ClaimAfterConsumption(log[..i], req, d)
  }

  /** What must stand in the log before an effect may follow. */
  predicate MayFollow(b: string -> Binding, log: seq<Entry>, e: Entry) {
    match e
    case Dispatched(req, d) => d == b(req).driver && StartAfterClaim(log, req, d)
    case Downloaded(req, d) =>
      d == b(req).driver && Dispatched(req, d) in log && (b(req).operation == ImageByUrl || DownloadClaimed(d) in log)
    case Compiled(p) => PiClaimed(p) in log
    case _ => true
  }

  predicate Ordered(b: string -> Binding, log: seq<Entry>) {
    log == [] || (Ordered(b, log[..|log|-1]) && MayFollow(b, log[..|log|-1], log[|log|-1]))
  }

  /** What a caller at `pc` has already made durable. */
  predicate Reached(b: string -> Binding, s: State, pc: Pc) {
    match pc
    case SubmitAdmitted(req) =>
      Owned(b, s, req) && ApprovalConsumed(req, b(req).driver) in s.log && b(req).driver !in s.jobs
    case SubmitClaimed(req) => OwnJob(b, s, req) && ClaimAfterConsumption(s.log, req, b(req).driver)
    case SubmitRecorded(req) => OwnJob(b, s, req) && StartAfterClaim(s.log, req, b(req).driver)
    case SubmitSent(req) => OwnJob(b, s, req) && Dispatched(req, b(req).driver) in s.log
    case SubmitFetched(req) => OwnJob(b, s, req) && Dispatched(req, b(req).driver) in s.log
    case PollRead(req) => OwnJob(b, s, req) && Dispatched(req, b(req).driver) in s.log
    case FetchRead(req) => OwnJob(b, s, req) && Dispatched(req, b(req).driver) in s.log && b(req).operation == Video
    case FetchClaimed(req) =>
      OwnJob(b, s, req) && Dispatched(req, b(req).driver) in s.log && DownloadClaimed(b(req).driver) in s.log
    case FetchSent(req) => OwnJob(b, s, req) && Dispatched(req, b(req).driver) in s.log
    case PiAdmitted(p) => PiClaimed(p) in s.log
    case _ => true
  }

  predicate Owned(b: string -> Binding, s: State, req: string) {
    b(req).driver in s.admitted && s.admitted[b(req).driver] == req
  }

  predicate OwnJob(b: string -> Binding, s: State, req: string) {
    Owned(b, s, req) && b(req).driver in s.jobs
  }

  ghost predicate Tables(s: State) {
    && (forall req :: req in s.approvals && s.approvals[req].Consumed? ==>
          s.approvals[req].useId in s.admitted && s.admitted[s.approvals[req].useId] == req)
    && s.jobs.Keys <= s.admitted.Keys && s.downloads <= s.admitted.Keys
    && (forall d :: d in s.jobs && s.jobs[d] !in {InProgress, Indeterminate} ==> Dispatched(s.admitted[d], d) in s.log)
  }

  ghost predicate AllReached(b: string -> Binding, s: State) {
    forall c :: c in s.callers ==> Reached(b, s, s.callers[c])
  }

  ghost predicate DispatchPermits(b: string -> Binding, s: State) {
    Exclusive(s.callers, HoldsDispatch(b), s.admitted.Keys, Effects(s.log, DispatchKey))
  }

  ghost predicate DownloadPermits(b: string -> Binding, s: State) {
    Exclusive(s.callers, HoldsDownload(b), s.downloads + ImageAdmissions(b, s), Effects(s.log, DownloadKey))
  }

  ghost predicate CompilePermits(s: State) {
    Exclusive(s.callers, HoldsCompile(), s.attempts, Effects(s.log, CompileKey))
  }

  ghost predicate Inv(b: string -> Binding, s: State) {
    && Tables(s) && Ordered(b, s.log) && AllReached(b, s)
    && DispatchPermits(b, s) && DownloadPermits(b, s) && CompilePermits(s)
  }

  // Steps -------------------------------------------------------------------------------------

  lemma LogNext(b: string -> Binding, log: seq<Entry>, e: Entry)
    ensures Effects(log + [e], DispatchKey) == Effects(log, DispatchKey) + if e.Dispatched? then [e.driver] else []
    ensures Effects(log + [e], DownloadKey) == Effects(log, DownloadKey) + if e.Downloaded? then [e.driver] else []
    ensures Effects(log + [e], CompileKey) == Effects(log, CompileKey) + if e.Compiled? then [e.proposal] else []
    ensures Ordered(b, log + [e]) <==> Ordered(b, log) && MayFollow(b, log, e)
  {
    assert (log + [e])[..|log + [e]|-1] == log;
  }

  lemma ClaimPersists(log: seq<Entry>, log': seq<Entry>, req: string, d: string)
    requires log <= log' && ClaimAfterConsumption(log, req, d)
    ensures ClaimAfterConsumption(log', req, d)
  {
    var i :| 0 <= i < |log| && log[i] == JobClaimed(d) && ApprovalConsumed(req, d) in log[..i];
    assert log'[i] == log[i] && log'[..i] == log[..i];
  }

  lemma StartPersists(log: seq<Entry>, log': seq<Entry>, req: string, d: string)
    requires log <= log' && StartAfterClaim(log, req, d)
    ensures StartAfterClaim(log', req, d)
  {
    var i :| 0 <= i < |log| && log[i] == RequestStarted(d) && ClaimAfterConsumption(log[..i], req, d);
    assert log'[i] == log[i] && log'[..i] == log[..i];
  }

  ghost predicate Grows(s: State, s': State) {
    && s.log <= s'.log && s.jobs.Keys <= s'.jobs.Keys
    && (forall d :: d in s.admitted ==> d in s'.admitted && s'.admitted[d] == s.admitted[d])
    && forall req :: req in s.approvals && s.approvals[req].Consumed? ==>
         req in s'.approvals && s'.approvals[req] == s.approvals[req]
  }

  lemma ReachedPersists(b: string -> Binding, s: State, s': State, pc: Pc)
    requires Grows(s, s') && Reached(b, s, pc)
    requires pc.SubmitAdmitted? ==> b(pc.req).driver !in s'.jobs
    ensures Reached(b, s', pc)
  {
    assert forall e :: e in s.log ==> e in s'.log;
    match pc
    case SubmitClaimed(req) => ClaimPersists(s.log, s'.log, req, b(req).driver);
    case SubmitRecorded(req) => StartPersists(s.log, s'.log, req, b(req).driver);
    case _ =>
  }

  /** The parts of the invariant that a step of caller `c` to `pc` leaves to be shown once and for all. */
  lemma OthersReached(b: string -> Binding, s: State, s': State, c: nat, pc: Pc)
    requires AllReached(b, s) && DispatchPermits(b, s) && s'.callers == s.callers[c := pc] && Grows(s, s')
    requires s'.jobs.Keys == s.jobs.Keys ||
             (c in s.callers && s.callers[c].SubmitAdmitted? &&
                 s'.jobs.Keys == s.jobs.Keys + {b(s.callers[c].req).driver})
    requires Reached(b, s', pc)
    ensures AllReached(b, s')
  {
    forall o | o in s'.callers
      ensures Reached(b, s', s'.callers[o])
    {
      if o != c {
        var other := s.callers[o];
        if other.SubmitAdmitted? && s'.jobs.Keys != s.jobs.Keys {
          assert HoldsDispatch(b)(other) == Some(b(other.req).driver);
          assert HoldsDispatch(b)(s.callers[c]) == Some(b(s.callers[c].req).driver);
        }
        ReachedPersists(b, s, s', other);
      }
    }
  }

  /** The permits `pc` holds are among those of the caller before the step. */
  predicate Keeps(b: string -> Binding, s: State, c: nat, pc: Pc) {
    && (HoldsDispatch(b)(pc).None? || (c in s.callers && HoldsDispatch(b)(pc) == HoldsDispatch(b)(s.callers[c])))
    && (HoldsDownload(b)(pc).None? || (c in s.callers && HoldsDownload(b)(pc) == HoldsDownload(b)(s.callers[c])))
    && (HoldsCompile()(pc).None? || (c in s.callers && HoldsCompile()(pc) == HoldsCompile()(s.callers[c])))
  }

  lemma DispatchKept(b: string -> Binding, s: State, s': State, c: nat, pc: Pc)
    requires DispatchPermits(b, s) && s'.callers == s.callers[c := pc] && s'.admitted == s.admitted
    requires Effects(s'.log, DispatchKey) == Effects(s.log, DispatchKey)
    requires HoldsDispatch(b)(pc).None? || (c in s.callers && HoldsDispatch(b)(pc) == HoldsDispatch(b)(s.callers[c]))
    ensures DispatchPermits(b, s')
  {
    Kept(s.callers, HoldsDispatch(b), s.admitted.Keys, s.admitted.Keys, Effects(s.log, DispatchKey), c, pc);
  }

  lemma DownloadKept(b: string -> Binding, s: State, s': State, c: nat, pc: Pc)
    requires DownloadPermits(b, s) && s'.callers == s.callers[c := pc]
    requires s'.admitted == s.admitted && s'.downloads == s.downloads
    requires Effects(s'.log, DownloadKey) == Effects(s.log, DownloadKey)
    requires HoldsDownload(b)(pc).None? || (c in s.callers && HoldsDownload(b)(pc) == HoldsDownload(b)(s.callers[c]))
    ensures DownloadPermits(b, s')
  {
    var claimed := s.downloads + ImageAdmissions(b, s);
    Kept(s.callers, HoldsDownload(b), claimed, claimed, Effects(s.log, DownloadKey), c, pc);
  }

  lemma CompileKept(b: string -> Binding, s: State, s': State, c: nat, pc: Pc)
    requires CompilePermits(s) && s'.callers == s.callers[c := pc] && s'.attempts == s.attempts
    requires Effects(s'.log, CompileKey) == Effects(s.log, CompileKey)
    requires HoldsCompile()(pc).None? || (c in s.callers && HoldsCompile()(pc) == HoldsCompile()(s.callers[c]))
    ensures CompilePermits(s')
  {
    Kept(s.callers, HoldsCompile(), s.attempts, s.attempts, Effects(s.log, CompileKey), c, pc);
  }

  /** Steps that add nothing to the log and claim nothing. */
  lemma QuietStep(b: string -> Binding, s: State, s': State, c: nat, pc: Pc)
    requires Inv(b, s) && Keeps(b, s, c, pc) && Reached(b, s', pc)
    requires s'.jobs.Keys == s.jobs.Keys && Tables(s')
    requires s' == s.(callers := s.callers[c := pc], jobs := s'.jobs)
    ensures Inv(b, s')
  {
    OthersReached(b, s, s', c, pc);
    DispatchKept(b, s, s', c, pc);
    DownloadKept(b, s, s', c, pc);
    CompileKept(b, s, s', c, pc);
  }

  /** Steps that append a durable record which is neither an effect nor a claim of a permit. */
  lemma RecordStep(b: string -> Binding, s: State, s': State, c: nat, pc: Pc, e: Entry)
    requires Inv(b, s) && Keeps(b, s, c, pc) && Reached(b, s', pc)
    requires e.JobClaimed? || e.RequestStarted? || e.ProposalRecorded?
    requires s' == s.(callers := s.callers[c := pc], log := s.log + [e], jobs := s'.jobs, runs := s'.runs)
    requires s'.jobs.Keys == s.jobs.Keys ||
             (c in s.callers && s.callers[c].SubmitAdmitted? &&
                 s'.jobs.Keys == s.jobs.Keys + {b(s.callers[c].req).driver})
    requires Tables(s')
    ensures Inv(b, s')
  {
    LogNext(b, s.log, e);
    OthersReached(b, s, s', c, pc);
    DispatchKept(b, s, s', c, pc);
    DownloadKept(b, s, s', c, pc);
    CompileKept(b, s, s', c, pc);
  }

  lemma AdmitStep(b: string -> Binding, s: State, c: nat, req: string, ok: bool)
    requires Inv(b, s) && c in s.callers && s.callers[c] == SubmitChecked(req)
    ensures Inv(b, Admit(b, s, c, req, ok))
  {
    var s' := Admit(b, s, c, req, ok);
    if s' == At(s, c, Returned) {
      QuietStep(b, s, s', c, Returned);
    } else {
      AdmittedRecords(b, s, s', c, req);
      AdmittedPermits(b, s, s', c, req);
    }
  }

  ghost predicate Admitted(b: string -> Binding, s: State, s': State, c: nat, req: string) {
    && Inv(b, s) && c in s.callers && s.callers[c] == SubmitChecked(req)
    && b(req).driver !in s.admitted && req in s.approvals && s.approvals[req] == Approved
    && s' == s.(callers := s.callers[c := SubmitAdmitted(req)], log := s.log + [ApprovalConsumed(req, b(req).driver)],
                approvals := s.approvals[req := Consumed(b(req).driver)],
                admitted := s.admitted[b(req).driver := req], runs := s.runs[b(req).driver := false])
  }

  lemma AdmittedRecords(b: string -> Binding, s: State, s': State, c: nat, req: string)
    requires Admitted(b, s, s', c, req)
    ensures Tables(s') && Ordered(b, s'.log) && AllReached(b, s')
  {
    LogNext(b, s.log, ApprovalConsumed(req, b(req).driver));
    OthersReached(b, s, s', c, SubmitAdmitted(req));
  }

  lemma AdmittedPermits(b: string -> Binding, s: State, s': State, c: nat, req: string)
    requires Admitted(b, s, s', c, req)
    ensures DispatchPermits(b, s') && DownloadPermits(b, s') && CompilePermits(s')
  {
    var d, pc := b(req).driver, SubmitAdmitted(req);
    LogNext(b, s.log, ApprovalConsumed(req, d));
    Claimed(s.callers, HoldsDispatch(b), s.admitted.Keys, s'.admitted.Keys, Effects(s.log, DispatchKey), c, pc, d);
    AdmittedDownload(b, s, s', c, req);
    CompileKept(b, s, s', c, pc);
  }

  lemma AdmittedDownload(b: string -> Binding, s: State, s': State, c: nat, req: string)
    requires DownloadPermits(b, s) && b(req).driver !in s.admitted && s.downloads <= s.admitted.Keys
    requires s'.callers == s.callers[c := SubmitAdmitted(req)] && s'.downloads == s.downloads
    requires s'.admitted == s.admitted[b(req).driver := req] &&
      Effects(s'.log, DownloadKey) == Effects(s.log, DownloadKey)
    ensures DownloadPermits(b, s')
  {
    var d, pc := b(req).driver, SubmitAdmitted(req);
    var claimed, claimed' := s.downloads + ImageAdmissions(b, s), s'.downloads + ImageAdmissions(b, s');
    if b(req).operation == ImageByUrl {
      Claimed(s.callers, HoldsDownload(b), claimed, claimed', Effects(s.log, DownloadKey), c, pc, d);
    } else {
      Kept(s.callers, HoldsDownload(b), claimed, claimed', Effects(s.log, DownloadKey), c, pc);
    }
  }

  lemma {:induction false} NoteClaim(log: seq<Entry>, req: string, d: string)
    requires ApprovalConsumed(req, d) in log
    ensures ClaimAfterConsumption(log + [JobClaimed(d)], req, d)
  {
    assert (log + [JobClaimed(d)])[|log|] == JobClaimed(d) && (log + [JobClaimed(d)])[..|log|] == log;
  }

  lemma {:induction false} NoteStart(log: seq<Entry>, req: string, d: string)
    requires ClaimAfterConsumption(log, req, d)
    ensures StartAfterClaim(log + [RequestStarted(d)], req, d)
  {
    assert (log + [RequestStarted(d)])[|log|] == RequestStarted(d) && (log + [RequestStarted(d)])[..|log|] == log;
  }

  lemma ClaimStep(b: string -> Binding, s: State, s': State, c: nat, req: string)
    requires Inv(b, s) && c in s.callers && s.callers[c] == SubmitAdmitted(req)
    requires var d := b(req).driver;
      s' == Noted(At(s, c, SubmitClaimed(req)), JobClaimed(d)).(jobs := s.jobs[d := InProgress])
    ensures Inv(b, s')
  {
    assert Reached(b, s, s.callers[c]);
    NoteClaim(s.log, req, b(req).driver);
    RecordStep(b, s, s', c, SubmitClaimed(req), JobClaimed(b(req).driver));
  }

  lemma StartStep(b: string -> Binding, s: State, s': State, c: nat, req: string)
    requires Inv(b, s) && c in s.callers && s.callers[c] == SubmitClaimed(req)
    requires s' == Noted(At(s, c, SubmitRecorded(req)), RequestStarted(b(req).driver)).(runs := s'.runs)
    ensures Inv(b, s')
  {
    assert Reached(b, s, s.callers[c]);
    NoteStart(s.log, req, b(req).driver);
    RecordStep(b, s, s', c, SubmitRecorded(req), RequestStarted(b(req).driver));
  }

  /** Sending the request spends the dispatch permit and keeps the download permit of an image request. */
  lemma DispatchStep(b: string -> Binding, s: State, s': State, c: nat, req: string)
    requires Inv(b, s) && c in s.callers && s.callers[c] == SubmitRecorded(req)
    requires s' == Noted(At(s, c, SubmitSent(req)), Dispatched(req, b(req).driver))
    ensures Inv(b, s')
  {
    assert Reached(b, s, s.callers[c]);
    LogNext(b, s.log, Dispatched(req, b(req).driver));
    OthersReached(b, s, s', c, SubmitSent(req));
    Spent(s.callers, HoldsDispatch(b), s.admitted.Keys, Effects(s.log, DispatchKey), c, SubmitSent(req));
    DownloadKept(b, s, s', c, SubmitSent(req));
    CompileKept(b, s, s', c, SubmitSent(req));
  }

  /** Downloading, of an image inside its submit call or of a claimed video, spends the download permit. */
  lemma DownloadStep(b: string -> Binding, s: State, s': State, c: nat, req: string, pc: Pc)
    requires Inv(b, s) && c in s.callers
    requires (s.callers[c] == SubmitSent(req) && b(req).operation == ImageByUrl) || s.callers[c] == FetchClaimed(req)
    requires pc == SubmitFetched(req) || pc == FetchSent(req)
    requires s' == Noted(At(s, c, pc), Downloaded(req, b(req).driver))
    ensures Inv(b, s')
  {
    assert Reached(b, s, s.callers[c]);
    LogNext(b, s.log, Downloaded(req, b(req).driver));
    OthersReached(b, s, s', c, pc);
    DispatchKept(b, s, s', c, pc);
    DownloadSpent(b, s, s', c, req, pc);
    CompileKept(b, s, s', c, pc);
  }

  lemma DownloadSpent(b: string -> Binding, s: State, s': State, c: nat, req: string, pc: Pc)
    requires DownloadPermits(b, s) && c in s.callers && HoldsDownload(b)(s.callers[c]) == Some(b(req).driver)
    requires s'.callers == s.callers[c := pc] && HoldsDownload(b)(pc).None?
    requires s'.admitted == s.admitted && s'.downloads == s.downloads
    requires Effects(s'.log, DownloadKey) == Effects(s.log, DownloadKey) + [b(req).driver]
    ensures DownloadPermits(b, s')
  {
    Spent(s.callers, HoldsDownload(b), s.downloads + ImageAdmissions(b, s), Effects(s.log, DownloadKey), c, pc);
  }

  lemma DownloadClaimStep(b: string -> Binding, s: State, s': State, c: nat, req: string)
    requires Inv(b, s) && c in s.callers && s.callers[c] == FetchRead(req) && b(req).driver !in s.downloads
    requires var d := b(req).driver;
      s' == Noted(At(s, c, FetchClaimed(req)), DownloadClaimed(d)).(downloads := s.downloads + {d})
    ensures Inv(b, s')
  {
    var d, pc := b(req).driver, FetchClaimed(req);
    assert Reached(b, s, s.callers[c]);
    LogNext(b, s.log, DownloadClaimed(d));
    OthersReached(b, s, s', c, pc);
    DispatchKept(b, s, s', c, pc);
    DownloadPermitTaken(b, s, s', c, req);
    CompileKept(b, s, s', c, pc);
  }

  lemma DownloadPermitTaken(b: string -> Binding, s: State, s': State, c: nat, req: string)
    requires Inv(b, s) && Reached(b, s, FetchRead(req)) && b(req).driver !in s.downloads
    requires s'.callers == s.callers[c := FetchClaimed(req)] && s'.admitted == s.admitted
    requires s'.downloads == s.downloads + {b(req).driver} &&
      Effects(s'.log, DownloadKey) == Effects(s.log, DownloadKey)
    ensures DownloadPermits(b, s')
  {
    var claimed, claimed' := s.downloads + ImageAdmissions(b, s), s'.downloads + ImageAdmissions(b, s');
    Claimed(s.callers, HoldsDownload(b), claimed, claimed', Effects(s.log, DownloadKey), c, FetchClaimed(req),
        b(req).driver);
  }

  lemma CompileClaimStep(b: string -> Binding, s: State, s': State, c: nat, p: string)
    requires Inv(b, s) && c in s.callers && p !in s.attempts
    requires s' == Noted(At(s, c, PiAdmitted(p)), PiClaimed(p)).(attempts := s.attempts + {p})
    ensures Inv(b, s')
  {
    var pc, claimed := PiAdmitted(p), s.downloads + ImageAdmissions(b, s);
    LogNext(b, s.log, PiClaimed(p));
    OthersReached(b, s, s', c, pc);
    DispatchKept(b, s, s', c, pc);
    DownloadKept(b, s, s', c, pc);
    Claimed(s.callers, HoldsCompile(), s.attempts, s'.attempts, Effects(s.log, CompileKey), c, pc, p);
  }

  lemma CompileStep(b: string -> Binding, s: State, s': State, c: nat, p: string)
    requires Inv(b, s) && c in s.callers && s.callers[c] == PiAdmitted(p)
    requires s' == Noted(At(s, c, PiSent(p)), Compiled(p))
    ensures Inv(b, s')
  {
    assert Reached(b, s, s.callers[c]);
    LogNext(b, s.log, Compiled(p));
    OthersReached(b, s, s', c, PiSent(p));
    DispatchKept(b, s, s', c, PiSent(p));
    DownloadKept(b, s, s', c, PiSent(p));
    Spent(s.callers, HoldsCompile(), s.attempts, Effects(s.log, CompileKey), c, PiSent(p));
  }

  /** A call that had its request sent writes what it learned to its own receipt and returns. */
  lemma ReceiptStep(b: string -> Binding, s: State, c: nat, req: string, result: JobState)
    requires Inv(b, s) && OwnJob(b, s, req) && Dispatched(req, b(req).driver) in s.log
    ensures Inv(b, At(s, c, Returned).(jobs := s.jobs[b(req).driver := result]))
  {
    QuietStep(b, s, At(s, c, Returned).(jobs := s.jobs[b(req).driver := result]), c, Returned);
  }

  /** A call that finds its job past the dispatch goes on. */
  lemma ReadStep(b: string -> Binding, s: State, c: nat, req: string, pc: Pc)
    requires Inv(b, s) && c in s.callers && JobReadable(b, s, req) && b(req).operation == Video
    requires s.jobs[b(req).driver] !in {InProgress, Indeterminate} && pc in {PollRead(req), FetchRead(req)}
    ensures Inv(b, At(s, c, pc))
  {
    assert Dispatched(s.admitted[b(req).driver], b(req).driver) in s.log;
    QuietStep(b, s, At(s, c, pc), c, pc);
  }

  lemma IndeterminateStep(b: string -> Binding, s: State, c: nat, req: string)
    requires Inv(b, s) && OwnJob(b, s, req)
    ensures Inv(b, At(s, c, Returned).(jobs := s.jobs[b(req).driver := Indeterminate]))
  {
    QuietStep(b, s, At(s, c, Returned).(jobs := s.jobs[b(req).driver := Indeterminate]), c, Returned);
  }

  lemma ReturnStep(b: string -> Binding, s: State, c: nat)
    requires Inv(b, s)
    ensures Inv(b, At(s, c, Returned))
  {
    QuietStep(b, s, At(s, c, Returned), c, Returned);
  }

  lemma SubmitKeepsInv(b: string -> Binding, s: State, c: nat, ok: bool, result: JobState)
    requires Inv(b, s) && c in s.callers
    ensures Inv(b, AdvanceSubmit(b, s, c, s.callers[c], ok, result))
  {
    var s' := AdvanceSubmit(b, s, c, s.callers[c], ok, result);
    assert Reached(b, s, s.callers[c]);
    ReturnStep(b, s, c);
    if s' != At(s, c, Returned) {
      match s.callers[c]
      case SubmitCalled(req) => QuietStep(b, s, s', c, SubmitChecked(req));
      case SubmitChecked(req) => AdmitStep(b, s, c, req, ok);
      case SubmitAdmitted(req) => ClaimStep(b, s, s', c, req);
      case SubmitClaimed(req) => StartStep(b, s, s', c, req);
      case _ => SendKeepsInv(b, s, c, ok, result);
    }
  }

  /** From the recorded request_started on. */
  lemma SendKeepsInv(b: string -> Binding, s: State, c: nat, ok: bool, result: JobState)
    requires Inv(b, s) && c in s.callers && !s.callers[c].SubmitCalled? && !s.callers[c].SubmitChecked?
    requires !s.callers[c].SubmitAdmitted? && !s.callers[c].SubmitClaimed?
    ensures Inv(b, AdvanceSubmit(b, s, c, s.callers[c], ok, result))
  {
    var s' := AdvanceSubmit(b, s, c, s.callers[c], ok, result);
    assert Reached(b, s, s.callers[c]);
    match s.callers[c]
    case SubmitRecorded(req) =>
      if ok {
        DispatchStep(b, s, s', c, req);
      } else {
        IndeterminateStep(b, s, c, req);
      }
    case SubmitSent(req) =>
      if s'.callers[c].SubmitFetched? {
        DownloadStep(b, s, s', c, req, SubmitFetched(req));
      } else {
        ReceiptStep(b, s, c, req, result);
      }
    case SubmitFetched(req) => ReceiptStep(b, s, c, req, result);
    case _ =>
  }

  lemma PollKeepsInv(b: string -> Binding, s: State, c: nat, ok: bool, result: JobState)
    requires Inv(b, s) && c in s.callers && Polling(s.callers[c])
    ensures Inv(b, AdvancePoll(b, s, c, s.callers[c], ok, result))
  {
    var s' := AdvancePoll(b, s, c, s.callers[c], ok, result);
    assert Reached(b, s, s.callers[c]);
    ReturnStep(b, s, c);
    if s' != At(s, c, Returned) {
      match s.callers[c]
      case PollCalled(req) => ReadStep(b, s, c, req, PollRead(req));
      case PollRead(req) => ReceiptStep(b, s, c, req, result);
    }
  }

  lemma FetchKeepsInv(b: string -> Binding, s: State, c: nat, ok: bool)
    requires Inv(b, s) && c in s.callers && Fetching(s.callers[c])
    ensures Inv(b, AdvanceFetch(b, s, c, s.callers[c], ok))
  {
    var s' := AdvanceFetch(b, s, c, s.callers[c], ok);
    assert Reached(b, s, s.callers[c]);
    ReturnStep(b, s, c);
    if s' != At(s, c, Returned) {
      match s.callers[c]
      case FetchCalled(req) => ReadStep(b, s, c, req, FetchRead(req));
      case FetchRead(req) => DownloadClaimStep(b, s, s', c, req);
      case FetchClaimed(req) => DownloadStep(b, s, s', c, req, FetchSent(req));
      case FetchSent(req) => ReceiptStep(b, s, c, req, JobCompleted);
    }
  }

  lemma CompileKeepsInv(b: string -> Binding, s: State, c: nat, ok: bool)
    requires Inv(b, s) && c in s.callers && Compiling(s.callers[c])
    ensures Inv(b, AdvanceCompile(s, c, s.callers[c], ok))
  {
    var s' := AdvanceCompile(s, c, s.callers[c], ok);
    ReturnStep(b, s, c);
    if s' != At(s, c, Returned) {
      match s.callers[c]
      case PiCalled(p) => CompileClaimStep(b, s, s', c, p);
      case PiAdmitted(p) => CompileStep(b, s, s', c, p);
      case PiSent(p) => RecordStep(b, s, s', c, Returned, ProposalRecorded(p));
    }
  }

  lemma AdvanceKeepsInv(b: string -> Binding, s: State, c: nat, ok: bool, result: JobState)
    requires Inv(b, s) && c in s.callers
    ensures Inv(b, AdvanceCaller(b, s, c, s.callers[c], ok, result))
  {
    if Polling(s.callers[c]) {
      PollKeepsInv(b, s, c, ok, result);
    } else if Fetching(s.callers[c]) {
      FetchKeepsInv(b, s, c, ok);
    } else if Compiling(s.callers[c]) {
      CompileKeepsInv(b, s, c, ok);
    } else {
      SubmitKeepsInv(b, s, c, ok, result);
    }
  }

  lemma CrashStep(b: string -> Binding, s: State, c: nat)
    requires Inv(b, s)
    ensures Inv(b, s.(callers := s.callers - {c}))
  {
    var s' := s.(callers := s.callers - {c});
    Crashed(s.callers, HoldsDispatch(b), s.admitted.Keys, Effects(s.log, DispatchKey), c);
    Crashed(s.callers, HoldsDownload(b), s.downloads + ImageAdmissions(b, s), Effects(s.log, DownloadKey), c);
    Crashed(s.callers, HoldsCompile(), s.attempts, Effects(s.log, CompileKey), c);
    forall o | o in s'.callers
      ensures Reached(b, s', s'.callers[o])
    {
      ReachedPersists(b, s, s', s.callers[o]);
    }
  }

  /** Approval decisions and runs of other kinds leave callers, receipts and log alone. */
  lemma OutsideStep(b: string -> Binding, s: State, s': State)
    requires Inv(b, s) && Tables(s') && Grows(s, s')
    requires s' == s.(approvals := s'.approvals, runs := s'.runs)
    ensures Inv(b, s')
  {
    forall o | o in s'.callers
      ensures Reached(b, s', s'.callers[o])
    {
      ReachedPersists(b, s, s', s.callers[o]);
    }
  }

  lemma CallStep(b: string -> Binding, s: State, c: nat, pc: Pc)
    requires Inv(b, s) && c !in s.callers && EntryPoint(pc)
    ensures Inv(b, At(s, c, pc))
  {
    QuietStep(b, s, At(s, c, pc), c, pc);
  }

  lemma DecideStep(b: string -> Binding, s: State, req: string, approval: Approval)
    requires Inv(b, s) && !approval.Consumed? && !(req in s.approvals && s.approvals[req].Consumed?)
    ensures Inv(b, s.(approvals := s.approvals[req := approval]))
  {
    OutsideStep(b, s, s.(approvals := s.approvals[req := approval]));
  }

  lemma StepKeepsInv(b: string -> Binding, s: State, e: Event)
    requires Inv(b, s)
    ensures Inv(b, Step(b, s, e))
  {
    if Step(b, s, e) != s {
      match e
      case Call(c, pc) => CallStep(b, s, c, pc);
      case Advance(c, ok, result) => AdvanceKeepsInv(b, s, c, ok, result);
      case Crash(c) => CrashStep(b, s, c);
      case Decide(req, approval) => DecideStep(b, s, req, approval);
      case OtherRun(_) => OutsideStep(b, s, Step(b, s, e));
    }
  }

  lemma {:induction false} RunKeepsInv(b: string -> Binding, events: seq<Event>)
    ensures Inv(b, Run(b, events))
  {
    if events != [] {
      RunKeepsInv(b, events[..|events|-1]);
      StepKeepsInv(b, Run(b, events[..|events|-1]), events[|events|-1]);
    }
  }

  // Main results ------------------------------------------------------------------------------

  lemma {:induction false} EffectIn(log: seq<Entry>, key: Entry -> Option<string>, i: nat)
    requires i < |log| && key(log[i]).Some?
    ensures key(log[i]).value in Effects(log, key)
  {
    if i < |log| - 1 {
      EffectIn(log[..|log|-1], key, i);
    }
  }

  lemma {:induction false} DistinctEffects(log: seq<Entry>, key: Entry -> Option<string>, i: nat, j: nat)
    requires forall x, y :: 0 <= x < y < |Effects(log, key)| ==> Effects(log, key)[x] != Effects(log, key)[y]
    requires i < j < |log| && key(log[i]).Some? && key(log[j]).Some?
    ensures key(log[i]) != key(log[j])
  {
    var front, keys := log[..|log|-1], Effects(log[..|log|-1], key);
    assert forall x :: 0 <= x < |keys| ==> Effects(log, key)[x] == keys[x];
    if j < |log| - 1 {
      DistinctEffects(front, key, i, j);
    } else {
      EffectIn(front, key, i);
      assert Effects(log, key)[|keys|] == key(log[j]).value;
    }
  }

  /** Whatever the interleaving and the crashes: one paid request and one asset download per approval. */
  lemma AtMostOneEffectPerApproval(b: string -> Binding, events: seq<Event>, i: nat, j: nat)
    requires i < j < |Run(b, events).log|
    ensures var log := Run(b, events).log;
      && (log[i].Dispatched? && log[j].Dispatched? ==> log[i].driver != log[j].driver && log[i].req != log[j].req)
      && (log[i].Downloaded? && log[j].Downloaded? ==> log[i].driver != log[j].driver && log[i].req != log[j].req)
  {
    RunKeepsInv(b, events);
    var log := Run(b, events).log;
    FollowsAt(b, log, i);
    FollowsAt(b, log, j);
    if log[i].Dispatched? && log[j].Dispatched? {
      DistinctEffects(log, DispatchKey, i, j);
    }
    if log[i].Downloaded? && log[j].Downloaded? {
      DistinctEffects(log, DownloadKey, i, j);
    }
  }

  lemma AtMostOneCompilationPerProposal(b: string -> Binding, events: seq<Event>, i: nat, j: nat)
    requires i < j < |Run(b, events).log|
    requires Run(b, events).log[i].Compiled? && Run(b, events).log[j].Compiled?
    ensures Run(b, events).log[i].proposal != Run(b, events).log[j].proposal
  {
    RunKeepsInv(b, events);
    DistinctEffects(Run(b, events).log, CompileKey, i, j);
  }

  lemma {:induction false} FollowsAt(b: string -> Binding, log: seq<Entry>, k: nat)
    requires Ordered(b, log) && k < |log|
    ensures MayFollow(b, log[..k], log[k])
  {
    var front := log[..|log|-1];
    if k < |front| {
      FollowsAt(b, front, k);
      assert front[..k] == log[..k];
    }
  }

  /**
   The log order of every run: consumption, job claim, request_started, dispatch, then at most a
   download, which for a video has its own claim; a compilation follows its claim.
   */
  lemma EveryEffectIsCovered(b: string -> Binding, events: seq<Event>, k: nat)
    requires k < |Run(b, events).log|
    ensures var log := Run(b, events).log;
      match log[k]
      case Dispatched(req, d) =>
        d == b(req).driver &&
        exists started, claimed, consumed ::
          && 0 <= consumed < claimed < started < k && log[consumed] == ApprovalConsumed(req, d)
          && log[claimed] == JobClaimed(d) && log[started] == RequestStarted(d)
      case Downloaded(req, d) =>
        && d == b(req).driver && Dispatched(req, d) in log[..k]
        && (b(req).operation == ImageByUrl || DownloadClaimed(d) in log[..k])
      case Compiled(p) => PiClaimed(p) in log[..k]
      case _ => true
  {
    RunKeepsInv(b, events);
    var log := Run(b, events).log;
    FollowsAt(b, log, k);
    if log[k].Dispatched? {
      StartIsLast(log[..k], log[k].req, log[k].driver);
    }
  }

  /** The three records in front of a dispatch, one after the other. */
  lemma StartIsLast(log: seq<Entry>, req: string, d: string)
    requires StartAfterClaim(log, req, d)
    ensures exists started, claimed, consumed ::
      && 0 <= consumed < claimed < started < |log| && log[consumed] == ApprovalConsumed(req, d)
      && log[claimed] == JobClaimed(d) && log[started] == RequestStarted(d)
  {
    var started :| 0 <= started < |log| && log[started] == RequestStarted(d) &&
        ClaimAfterConsumption(log[..started], req, d);
    var claimed, consumed := ClaimIsLast(log[..started], req, d);
    assert log[consumed] == ApprovalConsumed(req, d) && log[claimed] == JobClaimed(d);
  }

  lemma ClaimIsLast(log: seq<Entry>, req: string, d: string) returns (claimed: nat, consumed: nat)
    requires ClaimAfterConsumption(log, req, d)
    ensures consumed < claimed < |log| && log[consumed] == ApprovalConsumed(req, d) && log[claimed] == JobClaimed(d)
  {
    claimed :| 0 <= claimed < |log| && log[claimed] == JobClaimed(d) && ApprovalConsumed(req, d) in log[..claimed];
    consumed :| 0 <= consumed < claimed && log[..claimed][consumed] == ApprovalConsumed(req, d);
  }

  /** The run one event longer. */
  function Next(b: string -> Binding, events: seq<Event>, e: Event): (longer: seq<Event>)
    ensures Run(b, longer) == Step(b, Run(b, events), e)
  {
    assert (events + [e])[..|events + [e]|-1] == events;
    events + [e]
  }

  lemma AdmissionHappens(b: string -> Binding, req: string) returns (events: seq<Event>)
    ensures var s := Run(b, events);
      s.callers == map[0 := SubmitAdmitted(req)] && s.runs == map[b(req).driver := false] && s.jobs == map[]
  {
    var go := Advance(0, true, InProgress);
    events := CheckedHappens(b, req);
    events := Next(b, events, go);
  }

  lemma CheckedHappens(b: string -> Binding, req: string) returns (events: seq<Event>)
    ensures Run(b, events) == START.(approvals := map[req := Approved], callers := map[0 := SubmitChecked(req)])
  {
    var go := Advance(0, true, InProgress);
    events := Next(b, Next(b, [], Decide(req, Approved)), Call(0, SubmitCalled(req)));
    assert Run(b, events) == START.(approvals := map[req := Approved], callers := map[0 := SubmitCalled(req)]);
    events := Next(b, events, go);
    assert Run(b, events) == START.(approvals := map[req := Approved], callers := map[0 := SubmitChecked(req)]);
  }

  lemma ClaimHappens(b: string -> Binding, req: string) returns (events: seq<Event>)
    ensures Run(b, events).callers == map[0 := SubmitClaimed(req)] && Run(b, events).runs == map[b(req).driver := false]
  {
    events := AdmissionHappens(b, req);
    events := Next(b, events, Advance(0, true, InProgress));
  }

  lemma RecordHappens(b: string -> Binding, req: string) returns (events: seq<Event>)
    ensures Run(b, events).callers == map[0 := SubmitRecorded(req)]
  {
    var go := Advance(0, true, InProgress);
    events := ClaimHappens(b, req);
    events := Next(b, events, go);
  }

  /** The protocol does get its work done: an approved request can be sent. */
  lemma DispatchHappens(b: string -> Binding, req: string)
    ensures exists events :: Dispatched(req, b(req).driver) in Run(b, events).log
  {
    var before := RecordHappens(b, req);
    var events := Next(b, before, Advance(0, true, InProgress));
    assert Run(b, events).log == Run(b, before).log + [Dispatched(req, b(req).driver)];
  }
}
