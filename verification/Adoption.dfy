/**
 Adoption of a verified artifact: concurrent attempts, each in its own process, that may be overtaken,
 fail or die between any two file-system or ledger steps and are retried later.
 */
module Adoption {
  import opened Prelude

  type Bytes = seq<bv8>

  datatype Promotion = Prepared | Authorized | Adopted | Discarded

  datatype Operation = AlreadyPresentReconciled | AtomicReplace

  /** The digest function and the digest the promotion is bound to. */
  datatype Bound = Bound(digest: Bytes -> string, expected: string)

  datatype Pc =
    | Called            // nothing done yet
    | StateRead         // the promotion was read as authorized
    | Cleared           // the destination matched or the verification was still current
    | Mismatched        // inside the adoption: the destination does not hold the authorized bytes
    | SourceSeen        // the source did
    | Copying           // the temporary file is open
    | Closed            // the copy is flushed
    | TempSeen          // the temporary file holds the authorized bytes
    | Replaced
    | Receipted(operation: Operation)
    | Returned

  datatype Attempt = Attempt(pid: nat, pc: Pc)

  datatype State = State(
    destination: Option<Bytes>,
    source: Option<Bytes>,
    verified: bool,                     // a current verification with its evidence is on record
    promotion: Promotion,
    temps: map<nat, Bytes>,             // the temporary file of a process carries its pid in its name
    attempts: map<nat, Attempt>,
    receipts: seq<Operation>)           // committed adoption events

  datatype Event =
    | Begin(c: nat, pid: nat)
    | Proceed(c: nat, chunk: Option<Bytes>)   // while copying: the next chunk read, or the end of the source
    | Raise(c: nat)                           // an I/O error at the next step
    | Crash(c: nat)
    | Source(content: Option<Bytes>)          // the staged source changes or disappears
    | Verification(current: bool)
    | Authorize
    | Discard

  predicate Matches(b: Bound, file: Option<Bytes>) {
    file.Some? && b.digest(file.value) == b.expected
  }

  function At(s: State, c: nat, pc: Pc): State
    requires c in s.attempts
  {
    s.(attempts := s.attempts[c := s.attempts[c].(pc := pc)])
  }

  /** Leaving the copy, by success or by an exception, removes the temporary file. */
  function Cleaned(s: State, c: nat, pc: Pc): State
    requires c in s.attempts
  {
    At(s, c, pc).(temps := s.temps - {s.attempts[c].pid})
  }

  /** Where an attempt that only looks goes next. */
  function Look(b: Bound, s: State, pc: Pc): Pc {
    match pc
    case Called => if s.promotion.Authorized? then StateRead else Returned
    case StateRead =>
      if Matches(b, s.destination) || (s.verified && Matches(b, s.source)) then Cleared else Returned
    case Cleared => if Matches(b, s.destination) then Receipted(AlreadyPresentReconciled) else Mismatched
    case Mismatched => if Matches(b, s.source) then SourceSeen else Returned
    case Replaced => if Matches(b, s.destination) then Receipted(AtomicReplace) else Returned
    case _ => pc
  }

  /** Opening, filling, closing and checking the temporary file. */
  function Copy(b: Bound, s: State, c: nat, chunk: Option<Bytes>): State
    requires c in s.attempts
  {
    var pid := s.attempts[c].pid;
    match s.attempts[c].pc
    case SourceSeen => At(s, c, Copying).(temps := s.temps[pid := []])
    case Copying =>
      if pid !in s.temps then At(s, c, Returned)
      else if chunk.Some? then At(s, c, Copying).(temps := s.temps[pid := s.temps[pid] + chunk.value])
      else At(s, c, Closed)
    case Closed =>
      if pid in s.temps && b.digest(s.temps[pid]) == b.expected then At(s, c, TempSeen) else Cleaned(s, c, Returned)
    case _ => s
  }

  function Advance(b: Bound, s: State, c: nat, chunk: Option<Bytes>): State
    requires c in s.attempts
  {
    var pid := s.attempts[c].pid;
    match s.attempts[c].pc
    case SourceSeen => Copy(b, s, c, chunk)
    case Copying => Copy(b, s, c, chunk)
    case Closed => Copy(b, s, c, chunk)
    case TempSeen =>
      if pid in s.temps then Cleaned(s, c, Replaced).(destination := Some(s.temps[pid])) else At(s, c, Returned)
    case Receipted(operation) =>
      // the expected stream version admits the commit only while the promotion is still authorized
      if s.promotion.Authorized? then At(s, c, Returned).(promotion := Adopted, receipts := s.receipts + [operation])
      else At(s, c, Returned)
    case _ => At(s, c, Look(b, s, s.attempts[c].pc))
  }

  function Step(b: Bound, s: State, e: Event): State {
    match e
    case Begin(c, pid) => if c in s.attempts then s else s.(attempts := s.attempts[c := Attempt(pid, Called)])
    case Proceed(c, chunk) => if c in s.attempts then Advance(b, s, c, chunk) else s
    case Raise(c) =>
      if c !in s.attempts then s
      else if s.attempts[c].pc in {Copying, Closed, TempSeen, Replaced} then Cleaned(s, c, Returned)
      else At(s, c, Returned)
    case Crash(c) => s.(attempts := s.attempts - {c})
    case Source(content) => s.(source := content)
    case Verification(current) => s.(verified := current)
    case Authorize =>
      if s.promotion.Prepared? && s.verified && Matches(b, s.source) then s.(promotion := Authorized) else s
    case Discard => if s.promotion in {Prepared, Authorized} then s.(promotion := Discarded) else s
  }

  function Start(original: Option<Bytes>): State {
    State(original, None, false, Prepared, map[], map[], [])
  }

  function Run(b: Bound, original: Option<Bytes>, events: seq<Event>): State {
    if events == [] then Start(original) else Step(b, Run(b, original, events[..|events|-1]), events[|events|-1])
  }

  predicate Running(s: State, c: nat) {
    c in s.attempts && s.attempts[c].pc != Returned
  }

  /** No process runs two attempts at once; a pid may come back after its process has died. */
  ghost predicate OnePerProcess(b: Bound, original: Option<Bytes>, events: seq<Event>) {
    events == [] ||
    (OnePerProcess(b, original, events[..|events|-1]) &&
     OwnProcess(Run(b, original, events[..|events|-1]), events[|events|-1]))
  }

  ghost predicate OwnProcess(s: State, e: Event) {
    e.Begin? ==> forall c :: Running(s, c) ==> s.attempts[c].pid != e.pid
  }

  ghost predicate Inv(b: Bound, original: Option<Bytes>, s: State) {
    && (s.destination == original || Matches(b, s.destination))
    && (s.promotion.Adopted? ==> Matches(b, s.destination))
    && |s.receipts| == (if s.promotion.Adopted? then 1 else 0)
    && (forall c1, c2 :: Running(s, c1) && Running(s, c2) && c1 != c2 ==> s.attempts[c1].pid != s.attempts[c2].pid)
    && (forall c :: c in s.attempts ==> Seen(b, s, s.attempts[c]))
  }

  predicate Seen(b: Bound, s: State, a: Attempt) {
    match a.pc
    case TempSeen => a.pid in s.temps && b.digest(s.temps[a.pid]) == b.expected
    case Replaced => Matches(b, s.destination)
    case Receipted(_) => Matches(b, s.destination)
    case _ => true
  }

  /** What a step of one attempt may do to the state, apart from what it sees itself. */
  ghost predicate Local(b: Bound, s: State, s': State, c: nat) {
    && c in s.attempts && s.attempts[c].pc != Returned
    && (exists pc :: s'.attempts == s.attempts[c := s.attempts[c].(pc := pc)])
    && s'.temps - {s.attempts[c].pid} == s.temps - {s.attempts[c].pid}
    && (s'.destination == s.destination || Matches(b, s'.destination))
  }

  lemma OthersSeen(b: Bound, original: Option<Bytes>, s: State, s': State, c: nat)
    requires Inv(b, original, s) && Local(b, s, s', c) && Seen(b, s', s'.attempts[c])
    ensures forall c :: c in s'.attempts ==> Seen(b, s', s'.attempts[c])
    ensures forall c1, c2 :: Running(s', c1) && Running(s', c2) && c1 != c2 ==>
      s'.attempts[c1].pid != s'.attempts[c2].pid
  {
    var pid := s.attempts[c].pid;
    forall o | o in s'.attempts && o != c
      ensures Seen(b, s', s'.attempts[o])
    {
      var a := s.attempts[o];
      assert Seen(b, s, a);
      if a.pc.TempSeen? {
        assert Running(s, o) && Running(s, c);
        assert a.pid in s.temps - {pid} && (s.temps - {pid})[a.pid] == s.temps[a.pid];
        assert a.pid in s'.temps - {pid} && (s'.temps - {pid})[a.pid] == s'.temps[a.pid];
      }
    }
    assert forall o :: Running(s', o) ==> Running(s, o) && s'.attempts[o].pid == s.attempts[o].pid;
  }

  /** Steps that only move the attempt on, and perhaps touch its own temporary file. */
  lemma MoveKeepsInv(b: Bound, original: Option<Bytes>, s: State, s': State, c: nat, pc: Pc)
    requires Inv(b, original, s) && Running(s, c) && Seen(b, s', s.attempts[c].(pc := pc))
    requires s' == At(s, c, pc).(temps := s'.temps) && s'.temps - {s.attempts[c].pid} == s.temps - {s.attempts[c].pid}
    ensures Inv(b, original, s')
  {
    OthersSeen(b, original, s, s', c);
  }

  lemma ReplaceKeepsInv(b: Bound, original: Option<Bytes>, s: State, s': State, c: nat)
    requires Inv(b, original, s) && Running(s, c) && Matches(b, s'.destination)
    requires s' == Cleaned(s, c, Replaced).(destination := s'.destination)
    ensures Inv(b, original, s')
  {
    OthersSeen(b, original, s, s', c);
  }

  lemma CommitKeepsInv(b: Bound, original: Option<Bytes>, s: State, s': State, c: nat, operation: Operation)
    requires Inv(b, original, s) && Running(s, c) && Matches(b, s.destination) && s.promotion.Authorized?
    requires s' == At(s, c, Returned).(promotion := Adopted, receipts := s.receipts + [operation])
    ensures Inv(b, original, s')
  {
    OthersSeen(b, original, s, s', c);
  }

  lemma AdvanceKeepsInv(b: Bound, original: Option<Bytes>, s: State, c: nat, chunk: Option<Bytes>)
    requires Inv(b, original, s) && c in s.attempts
    ensures Inv(b, original, Advance(b, s, c, chunk))
    ensures Matches(b, s.destination) ==> Matches(b, Advance(b, s, c, chunk).destination)
  {
    var s' := Advance(b, s, c, chunk);
    assert Seen(b, s, s.attempts[c]);
    match s.attempts[c].pc
    case Returned =>
    case TempSeen => ReplaceKeepsInv(b, original, s, s', c);
    case Receipted(operation) =>
      if s.promotion.Authorized? {
        CommitKeepsInv(b, original, s, s', c, operation);
      } else {
        MoveKeepsInv(b, original, s, s', c, Returned);
      }
    case SourceSeen => CopyKeepsInv(b, original, s, c, chunk);
    case Copying => CopyKeepsInv(b, original, s, c, chunk);
    case Closed => CopyKeepsInv(b, original, s, c, chunk);
    case _ => MoveKeepsInv(b, original, s, s', c, Look(b, s, s.attempts[c].pc));
  }

  lemma CopyKeepsInv(b: Bound, original: Option<Bytes>, s: State, c: nat, chunk: Option<Bytes>)
    requires Inv(b, original, s) && c in s.attempts && s.attempts[c].pc in {SourceSeen, Copying, Closed}
    ensures Inv(b, original, Copy(b, s, c, chunk)) && Copy(b, s, c, chunk).destination == s.destination
  {
    var s' := Copy(b, s, c, chunk);
    MoveKeepsInv(b, original, s, s', c, s'.attempts[c].pc);
  }

  lemma RaiseKeepsInv(b: Bound, original: Option<Bytes>, s: State, c: nat)
    requires Inv(b, original, s) && Running(s, c)
    ensures Inv(b, original, Step(b, s, Raise(c)))
  {
    var s' := Step(b, s, Raise(c));
    assert s'.attempts == s.attempts[c := s.attempts[c].(pc := Returned)];
    OthersSeen(b, original, s, s', c);
  }

  lemma BeginKeepsInv(b: Bound, original: Option<Bytes>, s: State, c: nat, pid: nat)
    requires Inv(b, original, s) && OwnProcess(s, Begin(c, pid))
    ensures Inv(b, original, Step(b, s, Begin(c, pid)))
  {
    var s' := Step(b, s, Begin(c, pid));
    assert forall o :: o in s.attempts ==> Seen(b, s, s.attempts[o]) && s'.attempts[o] == s.attempts[o];
    assert forall o :: o in s.attempts ==> (Running(s', o) <==> Running(s, o));
  }

  /** Crashes and steps of the surroundings touch neither the destination nor the temporary files. */
  lemma FewerAttempts(b: Bound, original: Option<Bytes>, s: State, s': State)
    requires Inv(b, original, s) && s'.destination == s.destination && s'.temps == s.temps && s'.receipts == s.receipts
    requires s'.promotion.Adopted? <==> s.promotion.Adopted?
    requires forall c :: c in s'.attempts ==> c in s.attempts && s'.attempts[c] == s.attempts[c]
    ensures Inv(b, original, s')
  {
    assert forall c :: c in s'.attempts ==> Seen(b, s, s.attempts[c]);
    assert forall c :: Running(s', c) ==> Running(s, c);
  }

  lemma OutsideKeepsInv(b: Bound, original: Option<Bytes>, s: State, e: Event)
    requires Inv(b, original, s) && !e.Begin? && !e.Proceed? && !e.Raise?
    ensures Inv(b, original, Step(b, s, e)) && Step(b, s, e).destination == s.destination
  {
    FewerAttempts(b, original, s, Step(b, s, e));
  }

  lemma StepKeepsInv(b: Bound, original: Option<Bytes>, s: State, e: Event)
    requires Inv(b, original, s) && OwnProcess(s, e)
    ensures Inv(b, original, Step(b, s, e))
    ensures Matches(b, s.destination) ==> Matches(b, Step(b, s, e).destination)
  {
    match e
    case Proceed(c, chunk) =>
      if c in s.attempts {
        AdvanceKeepsInv(b, original, s, c, chunk);
      }
    case Raise(c) =>
      if Running(s, c) {
        RaiseKeepsInv(b, original, s, c);
      }
    case Begin(c, pid) => BeginKeepsInv(b, original, s, c, pid);
    case _ => OutsideKeepsInv(b, original, s, e);
  }

  lemma {:induction false} RunKeepsInv(b: Bound, original: Option<Bytes>, events: seq<Event>)
    requires OnePerProcess(b, original, events)
    ensures Inv(b, original, Run(b, original, events))
  {
    if events != [] {
      RunKeepsInv(b, original, events[..|events|-1]);
      StepKeepsInv(b, original, Run(b, original, events[..|events|-1]), events[|events|-1]);
    }
  }

  /** The destination is never torn: at every moment it holds its old bytes or exactly the authorized ones. */
  lemma DestinationIsOldOrAuthorized(b: Bound, original: Option<Bytes>, events: seq<Event>, authorized: Bytes)
    requires OnePerProcess(b, original, events)
    requires b.digest(authorized) == b.expected
    requires forall other :: b.digest(other) == b.expected ==> other == authorized
    ensures Run(b, original, events).destination in {original, Some(authorized)}
    ensures Run(b, original, events).promotion.Adopted? ==> Run(b, original, events).destination == Some(authorized)
    ensures |Run(b, original, events).receipts| <= 1
  {
    RunKeepsInv(b, original, events);
  }

  // Recovery ----------------------------------------------------------------------------------

  function Steps(c: nat, events: seq<Event>): nat {
    if events == [] then 0
    else Steps(c, events[..|events|-1]) +
         if events[|events|-1].Proceed? && events[|events|-1].c == c then 1 else 0
  }

  function Continue(b: Bound, s: State, events: seq<Event>): State {
    if events == [] then s else Step(b, Continue(b, s, events[..|events|-1]), events[|events|-1])
  }

  /** The way of an attempt that finds the destination done: it never looks at source or verification. */
  function Distance(pc: Pc): Option<nat> {
    match pc
    case Called => Some(0)
    case StateRead => Some(1)
    case Cleared => Some(2)
    case Receipted(_) => Some(3)
    case _ => None
  }

  /** What holds while attempt `c`, begun after the replace, runs among others. */
  ghost predicate OnItsWay(b: Bound, s: State, c: nat, steps: nat) {
    && Matches(b, s.destination)
    && (s.promotion.Adopted? ||
        (s.promotion.Authorized? && c in s.attempts && Distance(s.attempts[c].pc) == Some(steps)))
  }

  lemma StaysOnItsWay(b: Bound, s: State, c: nat, e: Event, steps: nat)
    requires OnItsWay(b, s, c, steps) && Matches(b, Step(b, s, e).destination)
    requires e != Crash(c) && e != Raise(c) && e != Discard
    ensures OnItsWay(b, Step(b, s, e), c, if e.Proceed? && e.c == c then steps + 1 else steps)
  {
    if e.Proceed? && e.c in s.attempts && s.promotion.Authorized? {
      ProceedsOnItsWay(b, s, c, e.c, e.chunk, steps);
    }
  }

  lemma ProceedsOnItsWay(b: Bound, s: State, c: nat, o: nat, chunk: Option<Bytes>, steps: nat)
    requires OnItsWay(b, s, c, steps) && c in s.attempts && o in s.attempts
    requires Matches(b, Advance(b, s, o, chunk).destination)
    ensures OnItsWay(b, Advance(b, s, o, chunk), c, if o == c then steps + 1 else steps)
  {
    OthersLeaveAlone(b, s, c, o, chunk);
  }

  lemma OthersLeaveAlone(b: Bound, s: State, c: nat, o: nat, chunk: Option<Bytes>)
    requires c in s.attempts && o in s.attempts
    ensures var s' := Advance(b, s, o, chunk);
      && (o != c ==> c in s'.attempts && s'.attempts[c] == s.attempts[c])
      && (s'.promotion == s.promotion || (s.promotion.Authorized? && s'.promotion.Adopted?))
  {
  }

  ghost predicate Undisturbed(b: Bound, s: State, c: nat, events: seq<Event>) {
    events == [] ||
    (Undisturbed(b, s, c, events[..|events|-1]) && events[|events|-1] !in {Crash(c), Raise(c), Discard} &&
     OwnProcess(Continue(b, s, events[..|events|-1]), events[|events|-1]))
  }

  lemma {:induction false} RetryProgresses(b: Bound, original: Option<Bytes>, s: State, c: nat, events: seq<Event>,
                                           now: State)
    requires Inv(b, original, s) && OnItsWay(b, s, c, 0)
    requires Undisturbed(b, s, c, events) && now == Continue(b, s, events)
    ensures Inv(b, original, now) && OnItsWay(b, now, c, Steps(c, events))
  {
    if events != [] {
      var before := Continue(b, s, events[..|events|-1]);
      RetryProgresses(b, original, s, c, events[..|events|-1], before);
      RetryStep(b, original, before, c, events[|events|-1], Steps(c, events[..|events|-1]));
    }
  }

  lemma RetryStep(b: Bound, original: Option<Bytes>, s: State, c: nat, e: Event, steps: nat)
    requires Inv(b, original, s) && OnItsWay(b, s, c, steps) && OwnProcess(s, e) && e !in {Crash(c), Raise(c), Discard}
    ensures Inv(b, original, Step(b, s, e))
    ensures OnItsWay(b, Step(b, s, e), c, if e.Proceed? && e.c == c then steps + 1 else steps)
  {
    StepKeepsInv(b, original, s, e);
    StaysOnItsWay(b, s, c, e, steps);
  }

  /**
   Once the replace has happened, an authorized promotion is committed by the fourth step of any fresh
   attempt, whatever other attempts do meanwhile and even if the source is gone and the verification lapsed.
   */
  lemma RetryCommits(b: Bound, original: Option<Bytes>, s: State, c: nat, events: seq<Event>)
    requires Inv(b, original, s) && Matches(b, s.destination) && s.promotion in {Authorized, Adopted}
    requires c in s.attempts && s.attempts[c].pc == Called
    requires Undisturbed(b, s, c, events) && Steps(c, events) >= 4
    ensures Continue(b, s, events).promotion.Adopted? && Matches(b, Continue(b, s, events).destination)
  {
    RetryProgresses(b, original, s, c, events, Continue(b, s, events));
  }

  // The adoption of one attempt, undisturbed --------------------------------------------------

  datatype AdoptionError = SourceUnavailable | SourceChanged | CopyMismatch

  const CHUNK: nat := 1024 * 1024

  function File(files: map<string, Bytes>, path: string): Option<Bytes> {
    if path in files then Some(files[path]) else None
  }

  class Workspace {
    var files: map<string, Bytes>

    constructor ()
      ensures files == map[]
    {
      files := map[];
    }

    /** Copies chunk by chunk into `temp`, then replaces the destination in one step. */
    method AtomicAdopt(b: Bound, source: string, destination: string, temp: string)
      returns (r: Result<Operation, AdoptionError>)
      requires temp != source && temp != destination
      modifies this
      ensures r.Ok? <==> Matches(b, old(File(files, destination))) || Matches(b, old(File(files, source)))
      ensures r == Ok(AlreadyPresentReconciled) <==> Matches(b, old(File(files, destination)))
      ensures r == Err(SourceUnavailable) <==> !Matches(b, old(File(files, destination))) && source !in old(files)
      ensures files == if r == Ok(AtomicReplace) then old(files)[destination := old(files)[source]] - {temp}
        else old(files)
    {
      if Matches(b, File(files, destination)) {
        return Ok(AlreadyPresentReconciled);
      }
      if source !in files {
        return Err(SourceUnavailable);
      }
      if b.digest(files[source]) != b.expected {
        return Err(SourceChanged);
      }
      files := files[temp := []];
      var read := 0;
      while read < |files[source]|
        invariant source in files && temp in files && read <= |files[source]|
        invariant files == old(files)[temp := files[source][..read]]
      {
        var end := if read + CHUNK < |files[source]| then read + CHUNK else |files[source]|;
        var chunk := files[source][read..end];
        assert files[source][..read] + chunk == files[source][..end];
        files := files[temp := files[temp] + chunk];
        read := end;
      }
      assert files[temp] == files[source];
      if b.digest(files[temp]) != b.expected {
        r := Err(CopyMismatch);
      } else {
        files := files[destination := files[temp]];
        r := Ok(AtomicReplace);
      }
      files := files - {temp};
      assert r == Ok(AtomicReplace);
    }
  }

  // Exactly when the destination is never torn --------------------------------------------------

  /** Every attempt runs in the process assigned to it. */
  ghost predicate Assigned(pidOf: nat -> nat, events: seq<Event>) {
    forall e :: e in events && e.Begin? ==> e.pid == pidOf(e.c)
  }

  ghost predicate NeverTorn(b: Bound, original: Option<Bytes>, authorized: Bytes, pidOf: nat -> nat) {
    forall events :: Assigned(pidOf, events) ==>
      Run(b, original, events).destination == original || Run(b, original, events).destination == Some(authorized)
  }

  ghost predicate OnlyDigest(b: Bound, authorized: Bytes) {
    forall bytes :: b.digest(bytes) == b.expected <==> bytes == authorized
  }

  ghost predicate InOwnProcesses(pidOf: nat -> nat, s: State) {
    forall c :: c in s.attempts ==> s.attempts[c].pid == pidOf(c)
  }

  lemma StepKeepsProcesses(b: Bound, pidOf: nat -> nat, s: State, e: Event)
    requires InOwnProcesses(pidOf, s) && (e.Begin? ==> e.pid == pidOf(e.c))
    ensures InOwnProcesses(pidOf, Step(b, s, e))
  {
  }

  lemma {:induction false} DistinctProcessesKeepInv(b: Bound, original: Option<Bytes>, pidOf: nat -> nat,
                                                    events: seq<Event>)
    requires Assigned(pidOf, events) && forall c, d :: pidOf(c) == pidOf(d) ==> c == d
    ensures Inv(b, original, Run(b, original, events)) && InOwnProcesses(pidOf, Run(b, original, events))
  {
    if events != [] {
      var before, e := Run(b, original, events[..|events|-1]), events[|events|-1];
      assert e in events;
      DistinctProcessesKeepInv(b, original, pidOf, events[..|events|-1]);
      StepKeepsProcesses(b, pidOf, before, e);
      if !(e.Begin? && e.c in before.attempts) {
        assert OwnProcess(before, e);
        StepKeepsInv(b, original, before, e);
      }
    }
  }

  /** While the destination holds the authorized bytes, no attempt comes near the copy. */
  ghost predicate Settled(b: Bound, s: State) {
    && Matches(b, s.destination)
    && forall c :: c in s.attempts ==> s.attempts[c].pc.Returned? || Distance(s.attempts[c].pc).Some?
  }

  lemma StepKeepsSettled(b: Bound, s: State, e: Event)
    requires Settled(b, s)
    ensures Settled(b, Step(b, s, e)) && Step(b, s, e).destination == s.destination
  {
    if e.Proceed? && e.c in s.attempts {
      assert s.attempts[e.c].pc.Returned? || Distance(s.attempts[e.c].pc).Some?;
    }
  }

  lemma {:induction false} MatchingStaysSettled(b: Bound, original: Option<Bytes>, events: seq<Event>)
    requires Matches(b, original)
    ensures Settled(b, Run(b, original, events)) && Run(b, original, events).destination == original
  {
    if events != [] {
      MatchingStaysSettled(b, original, events[..|events|-1]);
      StepKeepsSettled(b, Run(b, original, events[..|events|-1]), events[|events|-1]);
    }
  }

  // Two attempts in one process ---------------------------------------------------------------

  /** The run one event longer. */
  function Next(b: Bound, original: Option<Bytes>, events: seq<Event>, e: Event): (longer: seq<Event>)
    ensures Run(b, original, longer) == Step(b, Run(b, original, events), e)
    ensures longer == events + [e]
  {
    assert (events + [e])[..|events + [e]|-1] == events;
    events + [e]
  }

  /** Where two attempts of one process stand, and the one temporary file they share. */
  function Both(original: Option<Bytes>, authorized: Bytes, temps: map<nat, Bytes>, c: nat, pcC: Pc, d: nat, pcD: Pc,
                pid: nat): State
  {
    State(original, Some(authorized), true, Authorized, temps,
          map[c := Attempt(pid, pcC), d := Attempt(pid, pcD)], [])
  }

  ghost predicate BeginsOf(events: seq<Event>, c: nat, d: nat, pid: nat) {
    forall e :: e in events && e.Begin? ==> (e.c == c || e.c == d) && e.pid == pid
  }

  /** The authorized source is staged and both attempts begin. */
  lemma BothBegin(b: Bound, original: Option<Bytes>, authorized: Bytes, c: nat, d: nat, pid: nat)
    returns (events: seq<Event>)
    requires b.digest(authorized) == b.expected && c != d
    ensures Run(b, original, events) == Both(original, authorized, map[], c, Called, d, Called, pid)
    ensures BeginsOf(events, c, d, pid)
  {
    events := Next(b, original, [], Source(Some(authorized)));
    events := Next(b, original, events, Verification(true));
    events := Next(b, original, events, Authorize);
    assert Run(b, original, events)
        == Start(original).(source := Some(authorized), verified := true, promotion := Authorized);
    events := Next(b, original, Next(b, original, events, Begin(c, pid)), Begin(d, pid));
  }

  /** An attempt that finds the destination not authorized and everything else in order goes up to opening its file. */
  lemma GoesToOpen(b: Bound, original: Option<Bytes>, events: seq<Event>, c: nat) returns (longer: seq<Event>)
    requires var s := Run(b, original, events);
      && !Matches(b, s.destination) && Matches(b, s.source) && s.verified && s.promotion.Authorized?
      && c in s.attempts && s.attempts[c].pc == Called
    ensures Run(b, original, longer) == At(Run(b, original, events), c, SourceSeen)
    ensures forall e :: e in longer && e.Begin? ==> e in events
  {
    var go := Proceed(c, None);
    longer := Next(b, original, Next(b, original, events, go), go);
    longer := Next(b, original, Next(b, original, longer, go), go);
  }

  /** The first attempt copies the authorized bytes and has them checked. */
  lemma FirstCopies(b: Bound, original: Option<Bytes>, authorized: Bytes, events: seq<Event>, c: nat, d: nat, pid: nat)
    returns (longer: seq<Event>)
    requires b.digest(authorized) == b.expected && c != d
    requires Run(b, original, events) == Both(original, authorized, map[], c, SourceSeen, d, SourceSeen, pid)
    ensures Run(b, original, longer)
         == Both(original, authorized, map[pid := authorized], c, TempSeen, d, SourceSeen, pid)
    ensures forall e :: e in longer && e.Begin? ==> e in events
  {
    longer := Next(b, original, events, Proceed(c, None));
    assert Run(b, original, longer) == Both(original, authorized, map[pid := []], c, Copying, d, SourceSeen, pid);
    longer := Next(b, original, longer, Proceed(c, Some(authorized)));
    assert [] + authorized == authorized;
    assert Run(b, original, longer)
        == Both(original, authorized, map[pid := authorized], c, Copying, d, SourceSeen, pid);
    longer := FirstChecks(b, original, authorized, longer, c, d, pid);
  }

  lemma FirstChecks(b: Bound, original: Option<Bytes>, authorized: Bytes, events: seq<Event>, c: nat, d: nat, pid: nat)
    returns (longer: seq<Event>)
    requires b.digest(authorized) == b.expected && c != d
    requires Run(b, original, events)
          == Both(original, authorized, map[pid := authorized], c, Copying, d, SourceSeen, pid)
    ensures Run(b, original, longer)
         == Both(original, authorized, map[pid := authorized], c, TempSeen, d, SourceSeen, pid)
    ensures forall e :: e in longer && e.Begin? ==> e in events
  {
    longer := Next(b, original, events, Proceed(c, None));
    assert Run(b, original, longer)
        == Both(original, authorized, map[pid := authorized], c, Closed, d, SourceSeen, pid);
    longer := Next(b, original, longer, Proceed(c, None));
  }

  /** The second attempt reopens the checked file and writes; the first puts what it finds there in place. */
  lemma SecondOverwrites(b: Bound, original: Option<Bytes>, authorized: Bytes, events: seq<Event>, c: nat, d: nat,
                         pid: nat, other: Bytes)
    returns (torn: seq<Event>)
    requires c != d
    requires Run(b, original, events)
          == Both(original, authorized, map[pid := authorized], c, TempSeen, d, SourceSeen, pid)
    ensures Run(b, original, torn).destination == Some(other)
    ensures forall e :: e in torn && e.Begin? ==> e in events
  {
    torn := Next(b, original, events, Proceed(d, None));
    assert Run(b, original, torn) == Both(original, authorized, map[pid := []], c, TempSeen, d, Copying, pid);
    torn := Next(b, original, torn, Proceed(d, Some(other)));
    assert [] + other == other;
    assert Run(b, original, torn) == Both(original, authorized, map[pid := other], c, TempSeen, d, Copying, pid);
    torn := Next(b, original, torn, Proceed(c, None));
  }

  /**
   Two attempts in one process share a temporary file: any two of them can leave any bytes at all at a
   destination that does not hold the authorized ones yet.
   */
  lemma SharedTempTearsDestination(b: Bound, original: Option<Bytes>, authorized: Bytes, c: nat, d: nat, pid: nat,
                                   other: Bytes)
    returns (events: seq<Event>)
    requires b.digest(authorized) == b.expected && !Matches(b, original) && c != d
    ensures Run(b, original, events).destination == Some(other) && BeginsOf(events, c, d, pid)
  {
    events := BothBegin(b, original, authorized, c, d, pid);
    events := GoesToOpen(b, original, events, c);
    events := GoesToOpen(b, original, events, d);
    assert Run(b, original, events) == Both(original, authorized, map[], c, SourceSeen, d, SourceSeen, pid);
    events := FirstCopies(b, original, authorized, events, c, d, pid);
    events := SecondOverwrites(b, original, authorized, events, c, d, pid, other);
  }

  /** Some bytes are neither the authorized nor the old ones. */
  function Foreign(original: Option<Bytes>, authorized: Bytes): (other: Bytes)
    ensures other != authorized && Some(other) != original
  {
    if authorized != [] && original != Some([]) then []
    else if authorized != [0] && original != Some([0]) then [0]
    else [1]
  }

  /**
   The destination never holds anything but its old or the authorized bytes, whatever the attempts do,
   exactly when it holds the authorized ones from the start or no two attempts share a process.
   */
  lemma NeverTornExactly(b: Bound, original: Option<Bytes>, authorized: Bytes, pidOf: nat -> nat)
    requires OnlyDigest(b, authorized)
    ensures NeverTorn(b, original, authorized, pidOf) <==>
      original == Some(authorized) || (forall c, d :: pidOf(c) == pidOf(d) ==> c == d)
  {
    if original == Some(authorized) {
      forall events | Assigned(pidOf, events)
        ensures Run(b, original, events).destination == original
      {
        MatchingStaysSettled(b, original, events);
      }
    } else if forall c, d :: pidOf(c) == pidOf(d) ==> c == d {
      forall events | Assigned(pidOf, events)
        ensures Run(b, original, events).destination in {original, Some(authorized)}
      {
        DistinctProcessesKeepInv(b, original, pidOf, events);
      }
    } else {
      var c, d :| pidOf(c) == pidOf(d) && c != d;
      var events := SharedTempTearsDestination(b, original, authorized, c, d, pidOf(c), Foreign(original, authorized));
      assert Assigned(pidOf, events);
    }
  }
}
