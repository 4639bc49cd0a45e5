/**
 What an adoption has been through: no promotion moves, and no destination is replaced, without the checks
 in front of it; and an attempt that is left alone gets the artifact adopted.
 */
module AdoptionProgress {
  import opened Prelude
  import opened Adoption

  /** The file is there and has the digest the promotion is bound to. */
  predicate Holds(b: Bound, file: Option<Bytes>) {
    file.Some? && b.digest(file.value) == b.expected
  }

  // Promotions ----------------------------------------------------------------------------------

  /** Every way a promotion can move, and what it takes; each adoption leaves one receipt. */
  lemma PromotionMoves(b: Bound, s: State, e: Event)
    ensures var s' := Step(b, s, e);
      || (s'.promotion == s.promotion && s'.receipts == s.receipts)
      || (s.promotion == Prepared && s'.promotion == Authorized && s'.receipts == s.receipts
          && e.Authorize? && s.verified && Holds(b, s.source))
      || ((s.promotion == Prepared || s.promotion == Authorized) && s'.promotion == Discarded
          && s'.receipts == s.receipts && e.Discard?)
      || (s.promotion == Authorized && s'.promotion == Adopted && e.Proceed? && e.c in s.attempts
          && s.attempts[e.c].pc.Receipted? && s'.receipts == s.receipts + [s.attempts[e.c].pc.operation])
    ensures e.Authorize? && s.promotion == Prepared && s.verified && Holds(b, s.source) ==>
              Step(b, s, e).promotion == Authorized
    ensures e.Discard? && (s.promotion == Prepared || s.promotion == Authorized) ==>
              Step(b, s, e).promotion == Discarded
  {
    if e.Proceed? && e.c in s.attempts {
      AdvancePromotion(b, s, e.c, e.chunk);
    }
  }

  lemma AdvancePromotion(b: Bound, s: State, c: nat, chunk: Option<Bytes>)
    requires c in s.attempts
    ensures var s' := Advance(b, s, c, chunk);
      || (s'.promotion == s.promotion && s'.receipts == s.receipts)
      || (s.promotion == Authorized && s'.promotion == Adopted && s.attempts[c].pc.Receipted?
          && s'.receipts == s.receipts + [s.attempts[c].pc.operation])
  {
  }

  // What an attempt has seen --------------------------------------------------------------------

  /** The promotion may be adopted: the work is done already, or verified and its source intact. */
  predicate Clears(b: Bound, s: State) {
    Holds(b, s.destination) || (s.verified && Holds(b, s.source))
  }

  predicate PastReading(pc: Pc) { pc != Called && pc != Returned }

  predicate PastClearance(pc: Pc) { PastReading(pc) && pc != StateRead }

  predicate PastSource(pc: Pc) {
    PastClearance(pc) && pc != Cleared && pc != Mismatched && pc != Receipted(AlreadyPresentReconciled)
  }

  /** A step moves its own attempt only, and past a check only when the state passes it. */
  ghost predicate Passes(b: Bound, s: State, c: nat, s': State)
    requires c in s.attempts
  {
    && c in s'.attempts && s'.attempts == s.attempts[c := s'.attempts[c]]
    && var was, pc := s.attempts[c].pc, s'.attempts[c].pc;
    && (PastReading(pc) ==> PastReading(was) || s.promotion == Authorized)
    && (PastClearance(pc) ==> PastClearance(was) || Clears(b, s))
    && (PastSource(pc) ==> PastSource(was) || (was == Mismatched && Holds(b, s.source)))
  }

  lemma CopyPasses(b: Bound, s: State, c: nat, chunk: Option<Bytes>)
    requires c in s.attempts && s.attempts[c].pc in {SourceSeen, Copying, Closed}
    ensures Passes(b, s, c, Copy(b, s, c, chunk))
  {
  }

  lemma LookPasses(b: Bound, s: State, c: nat)
    requires c in s.attempts
    ensures Passes(b, s, c, At(s, c, Look(b, s, s.attempts[c].pc)))
  {
  }

  lemma AdvanceClears(b: Bound, s: State, c: nat, chunk: Option<Bytes>)
    requires c in s.attempts
    ensures Passes(b, s, c, Advance(b, s, c, chunk))
  {
    match s.attempts[c].pc
    case SourceSeen => CopyPasses(b, s, c, chunk);
    case Copying => CopyPasses(b, s, c, chunk);
    case Closed => CopyPasses(b, s, c, chunk);
    case TempSeen =>
    case Receipted(_) =>
    case _ => LookPasses(b, s, c);
  }

  lemma StepClears(b: Bound, s: State, e: Event, c: nat)
    requires c in Step(b, s, e).attempts
    ensures var pc := Step(b, s, e).attempts[c].pc;
      && (PastReading(pc) ==> (c in s.attempts && PastReading(s.attempts[c].pc)) || s.promotion == Authorized)
      && (PastClearance(pc) ==> (c in s.attempts && PastClearance(s.attempts[c].pc)) || Clears(b, s))
      && (PastSource(pc) ==> (c in s.attempts && PastSource(s.attempts[c].pc)) || Holds(b, s.source))
  {
    if e.Proceed? && e.c in s.attempts {
      AdvanceClears(b, s, e.c, e.chunk);
    }
  }

  /** Whoever is past a check came by in a state that passed it. */
  ghost predicate CameBy(b: Bound, original: Option<Bytes>, events: seq<Event>, pc: Pc) {
    && (PastReading(pc) ==> exists n :: 0 <= n < |events| && Run(b, original, events[..n]).promotion == Authorized)
    && (PastClearance(pc) ==> exists n :: 0 <= n < |events| && Clears(b, Run(b, original, events[..n])))
    && (PastSource(pc) ==> exists n :: 0 <= n < |events| && Holds(b, Run(b, original, events[..n]).source))
  }

  lemma CameByLonger(b: Bound, original: Option<Bytes>, events: seq<Event>, pc: Pc)
    requires events != [] && CameBy(b, original, events[..|events|-1], pc)
    ensures CameBy(b, original, events, pc)
  {
    var front := events[..|events|-1];
    forall n | 0 <= n < |front|
      ensures front[..n] == events[..n]
    {
    }
  }

  lemma {:induction false} AttemptCameBy(b: Bound, original: Option<Bytes>, events: seq<Event>, c: nat)
    requires c in Run(b, original, events).attempts
    ensures CameBy(b, original, events, Run(b, original, events).attempts[c].pc)
  {
    if events != [] {
      var front, e := events[..|events|-1], events[|events|-1];
      var s, pc := Run(b, original, front), Run(b, original, events).attempts[c].pc;
      StepClears(b, s, e, c);
      if c in s.attempts {
        AttemptCameBy(b, original, front, c);
        CameByLonger(b, original, events, s.attempts[c].pc);
      }
      assert s == Run(b, original, events[..|events|-1]);
    }
  }

  lemma DestinationStep(b: Bound, s: State, e: Event)
    requires Step(b, s, e).destination != s.destination
    ensures e.Proceed? && e.c in s.attempts && s.attempts[e.c].pc == TempSeen
  {
  }

  /** The step that changes the destination puts in place what a checked attempt has copied. */
  lemma ReplacedOnlyWhenCleared(b: Bound, original: Option<Bytes>, events: seq<Event>, e: Event)
    requires var s := Run(b, original, events); Step(b, s, e).destination != s.destination
    ensures var s := Run(b, original, events);
      && e.Proceed? && e.c in s.attempts && s.attempts[e.c].pc == TempSeen
      && CameBy(b, original, events, TempSeen)
  {
    DestinationStep(b, Run(b, original, events), e);
    AttemptCameBy(b, original, events, e.c);
  }

  /** The step that adopts the promotion is that of an attempt past all checks. */
  lemma AdoptedOnlyWhenCleared(b: Bound, original: Option<Bytes>, events: seq<Event>, e: Event)
    requires var s := Run(b, original, events); s.promotion != Adopted && Step(b, s, e).promotion == Adopted
    ensures var s := Run(b, original, events);
      && e.Proceed? && e.c in s.attempts && s.attempts[e.c].pc.Receipted?
      && CameBy(b, original, events, s.attempts[e.c].pc)
  {
    PromotionMoves(b, Run(b, original, events), e);
    AttemptCameBy(b, original, events, e.c);
  }

  // An attempt left alone -----------------------------------------------------------------------

  function Flatten(chunks: seq<Bytes>): Bytes {
    if chunks == [] then [] else Flatten(chunks[..|chunks|-1]) + chunks[|chunks|-1]
  }

  /** A fresh attempt begins, and only it goes on. */
  predicate Alone(events: seq<Event>, c: nat, pid: nat) {
    && events != [] && events[0] == Begin(c, pid)
    && forall i :: 1 <= i < |events| ==> events[i].Proceed? && events[i].c == c
  }

  /** Where the attempt stands, and everything else as it was. */
  predicate StandsAt(s: State, now: State, c: nat, pid: nat, pc: Pc, temp: Option<Bytes>) {
    && c in now.attempts && now.attempts[c] == Attempt(pid, pc)
    && now.destination == s.destination && now.source == s.source && now.verified == s.verified
    && now.promotion == s.promotion && now.receipts == s.receipts
    && (temp.Some? ==> pid in now.temps && now.temps[pid] == temp.value)
  }

  lemma Goes(b: Bound, s: State, events: seq<Event>, c: nat, pid: nat, chunk: Option<Bytes>)
    returns (longer: seq<Event>)
    requires Alone(events, c, pid) && c in Continue(b, s, events).attempts
    ensures Alone(longer, c, pid)
    ensures Continue(b, s, longer) == Advance(b, Continue(b, s, events), c, chunk)
  {
    longer := events + [Proceed(c, chunk)];
    assert longer[..|longer|-1] == events;
  }

  lemma Begins(b: Bound, s: State, c: nat, pid: nat) returns (events: seq<Event>)
    requires c !in s.attempts
    ensures Alone(events, c, pid) && StandsAt(s, Continue(b, s, events), c, pid, Called, None)
  {
    events := [Begin(c, pid)];
    assert events[..0] == [];
  }

  lemma Reads(b: Bound, s: State, c: nat, pid: nat) returns (events: seq<Event>)
    requires c !in s.attempts && s.promotion == Authorized && Clears(b, s)
    ensures Alone(events, c, pid) && StandsAt(s, Continue(b, s, events), c, pid, Cleared, None)
  {
    var e0 := Begins(b, s, c, pid);
    var e1 := Goes(b, s, e0, c, pid, None);
    assert StandsAt(s, Continue(b, s, e1), c, pid, StateRead, None);
    events := Goes(b, s, e1, c, pid, None);
  }

  /** A destination that holds the authorized bytes is only recorded as such. */
  lemma PresentIsReconciled(b: Bound, s: State, c: nat, pid: nat) returns (events: seq<Event>)
    requires c !in s.attempts && s.promotion == Authorized && Holds(b, s.destination)
    ensures Alone(events, c, pid)
    ensures var now := Continue(b, s, events);
      && now.promotion == Adopted && now.receipts == s.receipts + [AlreadyPresentReconciled]
      && now.destination == s.destination
  {
    var e2 := Reads(b, s, c, pid);
    var e3 := Goes(b, s, e2, c, pid, None);
    assert StandsAt(s, Continue(b, s, e3), c, pid, Receipted(AlreadyPresentReconciled), None);
    events := Goes(b, s, e3, c, pid, None);
  }

  lemma Opens(b: Bound, s: State, c: nat, pid: nat) returns (events: seq<Event>)
    requires c !in s.attempts && s.promotion == Authorized && !Holds(b, s.destination)
    requires s.verified && Holds(b, s.source)
    ensures Alone(events, c, pid) && StandsAt(s, Continue(b, s, events), c, pid, Copying, Some([]))
  {
    var e2 := Reads(b, s, c, pid);
    var e3 := Goes(b, s, e2, c, pid, None);
    assert StandsAt(s, Continue(b, s, e3), c, pid, Mismatched, None);
    var e4 := Goes(b, s, e3, c, pid, None);
    assert StandsAt(s, Continue(b, s, e4), c, pid, SourceSeen, None);
    events := Goes(b, s, e4, c, pid, None);
  }

  lemma {:induction false} Copies(b: Bound, s: State, c: nat, pid: nat, chunks: seq<Bytes>) returns (events: seq<Event>)
    requires c !in s.attempts && s.promotion == Authorized && !Holds(b, s.destination)
    requires s.verified && Holds(b, s.source)
    ensures Alone(events, c, pid) && StandsAt(s, Continue(b, s, events), c, pid, Copying, Some(Flatten(chunks)))
  {
    if chunks == [] {
      events := Opens(b, s, c, pid);
    } else {
      var before := Copies(b, s, c, pid, chunks[..|chunks|-1]);
      events := Goes(b, s, before, c, pid, Some(chunks[|chunks|-1]));
    }
  }

  /**
   From every state with an authorized, verified promotion, an intact source and a free attempt: read in any
   chunks, the attempt that is left alone puts the source in place and records the replacement.
   */
  lemma AttemptAdopts(b: Bound, s: State, c: nat, pid: nat, chunks: seq<Bytes>) returns (events: seq<Event>)
    requires c !in s.attempts && s.promotion == Authorized && !Holds(b, s.destination)
    requires s.verified && Holds(b, s.source) && s.source == Some(Flatten(chunks))
    ensures Alone(events, c, pid)
    ensures var now := Continue(b, s, events);
      && now.promotion == Adopted && now.receipts == s.receipts + [AtomicReplace]
      && now.destination == s.source && pid !in now.temps
  {
    var e6 := Copies(b, s, c, pid, chunks);
    var e7 := Goes(b, s, e6, c, pid, None);
    assert StandsAt(s, Continue(b, s, e7), c, pid, Closed, Some(Flatten(chunks)));
    var e8 := Goes(b, s, e7, c, pid, None);
    assert StandsAt(s, Continue(b, s, e8), c, pid, TempSeen, Some(Flatten(chunks)));
    events := Replaces(b, s, c, pid, Flatten(chunks), e8);
  }

  lemma Replaces(b: Bound, s: State, c: nat, pid: nat, bytes: Bytes, before: seq<Event>) returns (events: seq<Event>)
    requires Alone(before, c, pid) && StandsAt(s, Continue(b, s, before), c, pid, TempSeen, Some(bytes))
    requires s.promotion == Authorized && b.digest(bytes) == b.expected
    ensures Alone(events, c, pid)
    ensures var now := Continue(b, s, events);
      && now.promotion == Adopted && now.receipts == s.receipts + [AtomicReplace]
      && now.destination == Some(bytes) && pid !in now.temps
  {
    var e9 := Goes(b, s, before, c, pid, None);
    assert PutAt(s, Continue(b, s, e9), c, pid, Replaced, bytes);
    var e10 := Goes(b, s, e9, c, pid, None);
    assert PutAt(s, Continue(b, s, e10), c, pid, Receipted(AtomicReplace), bytes);
    events := Commits(b, s, c, pid, bytes, e10);
  }

  /** The attempt stands there with the bytes in place and its temporary file gone. */
  predicate PutAt(s: State, now: State, c: nat, pid: nat, pc: Pc, bytes: Bytes) {
    && c in now.attempts && now.attempts[c] == Attempt(pid, pc) && now.destination == Some(bytes)
    && now.promotion == s.promotion && now.receipts == s.receipts && pid !in now.temps
  }

  lemma Commits(b: Bound, s: State, c: nat, pid: nat, bytes: Bytes, before: seq<Event>) returns (events: seq<Event>)
    requires Alone(before, c, pid) && PutAt(s, Continue(b, s, before), c, pid, Receipted(AtomicReplace), bytes)
    requires s.promotion == Authorized
    ensures Alone(events, c, pid)
    ensures var now := Continue(b, s, events);
      && now.promotion == Adopted && now.receipts == s.receipts + [AtomicReplace]
      && now.destination == Some(bytes) && pid !in now.temps
  {
    events := Goes(b, s, before, c, pid, None);
  }
}
