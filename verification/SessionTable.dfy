/** What the session table holds, told by the requests that were accepted. */
module SessionTable {
  import opened Prelude
  import opened Session

  /** A request whose transaction was committed, and the transaction's id. */
  datatype Accepted = Accepted(id: string, request: Request, tx: string)

  /** Those of a history, in order: an event is accepted when it leaves a receipt in the journal. */
  function AcceptedIn(events: seq<Event>): seq<Accepted> {
    if events == [] then []
    else
      var front, e := events[..|events|-1], events[|events|-1];
      AcceptedIn(front) +
      if |Run(events).journal.receipts| > |Run(front).journal.receipts| then [Accepted(e.id, e.request, e.c.tx)]
      else []
  }

  predicate IsRegister(r: Request) { r.RegisterRequest? }

  predicate IsCheckpoint(r: Request) { r.CheckpointRequest? }

  predicate IsClose(r: Request) { r.CloseRequest? }

  predicate IsAny(r: Request) { true }

  /** The last accepted request of the session of that kind. */
  function Latest(accepted: seq<Accepted>, id: string, kind: Request -> bool): Option<Accepted> {
    if accepted == [] then None
    else
      var last := accepted[|accepted|-1];
      if last.id == id && kind(last.request) then Some(last) else Latest(accepted[..|accepted|-1], id, kind)
  }

  function PhaseAfter(request: Request): Phase {
    match request
    case RegisterRequest(_, _) => Active
    case ResumeRequest(_) => Active
    case CheckpointRequest(_, _) => Phase.Checkpointed
    case CloseRequest(_) => Closed
  }

  /** A session that is what the accepted requests have made of it. */
  predicate Tells(accepted: seq<Accepted>, id: string, s: Session) {
    var registered, checkpointed := Latest(accepted, id, IsRegister), Latest(accepted, id, IsCheckpoint);
    var closed, last := Latest(accepted, id, IsClose), Latest(accepted, id, IsAny);
    && registered.Some? && registered.value.request.RegisterRequest?
    && s.mission == registered.value.request.mission && s.operator == registered.value.request.operator
    && last.Some? && s.tx == Some(last.value.tx) && s.phase == PhaseAfter(last.value.request)
    && (checkpointed.None? ==> s.next == None && s.offload == None)
    && (checkpointed.Some? ==>
          && checkpointed.value.request.CheckpointRequest?
          && s.next == Some(checkpointed.value.request.next) && s.offload == checkpointed.value.request.offload)
    && (closed.None? ==> s.closeReason == None)
    && (closed.Some? ==>
          closed.value.request.CloseRequest? && s.closeReason == Some(closed.value.request.reason))
  }

  /** The sessions of the table are the registered ones that have a name, each as its requests tell. */
  ghost predicate TableTells(accepted: seq<Accepted>, table: Table) {
    forall id ::
      && (id in table <==> id != "" && Latest(accepted, id, IsRegister).Some?)
      && (id in table ==> Tells(accepted, id, table[id]))
      && (id !in table && id != "" ==> Latest(accepted, id, IsAny).None?)
  }

  // One accepted request ------------------------------------------------------------------------

  /** The effect that one accepted request must have on the table. */
  ghost predicate Took(table: Table, id: string, request: Request, tx: string, table': Table) {
    && (forall other :: other != id ==> (other in table' <==> other in table))
    && (forall other :: other != id && other in table ==> table'[other] == table[other])
    && (id == "" ==> id !in table')
    && (id != "" ==> id in table' && (id in table <==> !request.RegisterRequest?))
    && (id != "" && id in table' && (id in table <==> !request.RegisterRequest?) ==>
          Changed(if id in table then Some(table[id]) else None, request, tx, table'[id]))
  }

  /** What an accepted request makes of its session, field by field. */
  predicate Changed(was: Option<Session>, request: Request, tx: string, now: Session) {
    match request
    case RegisterRequest(mission, operator) =>
      now == Session(mission, operator, Active, Some(tx), None, None, None)
    case CheckpointRequest(next, offload) =>
      was.Some? && now == Session(was.value.mission, was.value.operator, Phase.Checkpointed, Some(tx),
                                  Some(next), offload, was.value.closeReason)
    case ResumeRequest(_) =>
      was.Some? && now == Session(was.value.mission, was.value.operator, Active, Some(tx),
                                  was.value.next, was.value.offload, was.value.closeReason)
    case CloseRequest(reason) =>
      was.Some? && now == Session(was.value.mission, was.value.operator, Closed, Some(tx),
                                  was.value.next, was.value.offload, Some(reason))
  }

  lemma LatestAfter(accepted: seq<Accepted>, a: Accepted, id: string, kind: Request -> bool)
    ensures Latest(accepted + [a], id, kind) ==
            if a.id == id && kind(a.request) then Some(a) else Latest(accepted, id, kind)
  {
    assert (accepted + [a])[..|accepted + [a]|-1] == accepted;
  }

  lemma {:induction false} LatestIsOfKind(accepted: seq<Accepted>, id: string, kind: Request -> bool)
    ensures var latest := Latest(accepted, id, kind);
      latest.Some? ==> latest.value in accepted && latest.value.id == id && kind(latest.value.request)
    ensures (forall a :: a in accepted && a.id == id ==> !kind(a.request)) ==> Latest(accepted, id, kind).None?
    ensures Latest(accepted, id, kind).None? ==> forall a :: a in accepted && a.id == id ==> !kind(a.request)
  {
    if accepted != [] {
      var front, last := accepted[..|accepted|-1], accepted[|accepted|-1];
      LatestIsOfKind(front, id, kind);
      assert accepted == front + [last];
    }
  }

  lemma AnyCoversKinds(accepted: seq<Accepted>, id: string)
    requires Latest(accepted, id, IsAny).None?
    ensures Latest(accepted, id, IsRegister).None? && Latest(accepted, id, IsCheckpoint).None?
    ensures Latest(accepted, id, IsClose).None?
  {
    LatestIsOfKind(accepted, id, IsAny);
    LatestIsOfKind(accepted, id, IsRegister);
    LatestIsOfKind(accepted, id, IsCheckpoint);
    LatestIsOfKind(accepted, id, IsClose);
  }

  lemma TookOne(accepted: seq<Accepted>, table: Table, a: Accepted, table': Table, id: string)
    requires TableTells(accepted, table) && Took(table, a.id, a.request, a.tx, table') && "" !in table
    ensures id in table' <==> id != "" && Latest(accepted + [a], id, IsRegister).Some?
    ensures id in table' ==> Tells(accepted + [a], id, table'[id])
    ensures id !in table' && id != "" ==> Latest(accepted + [a], id, IsAny).None?
  {
    LatestAfter(accepted, a, id, IsRegister);
    LatestAfter(accepted, a, id, IsCheckpoint);
    LatestAfter(accepted, a, id, IsClose);
    LatestAfter(accepted, a, id, IsAny);
    if id !in table && id != "" {
      AnyCoversKinds(accepted, id);
    }
  }

  predicate Fits(t: Transaction, id: string, request: Request) {
    && t.session == id
    && match request
       case RegisterRequest(mission, operator) => t.action == Register(mission, operator)
       case CheckpointRequest(next, offload) => t.action == Checkpoint(next, offload)
       case ResumeRequest(_) => t.action == Resume
       case CloseRequest(reason) => t.action == Close(reason)
  }

  lemma PlanFits(table: Table, j: Journal, id: string, request: Request)
    ensures var plan := Plan(table, j, id, request);
      plan.Ok? && plan.value.Some? ==>
        Fits(plan.value.value, id, request) && (id in table <==> !request.RegisterRequest?)
  {
  }

  lemma TransactGrowth(table: Table, j: Journal, t: Transaction, c: Conditions)
    ensures var j' := Transact(table, j, t, c).journal;
      if |j'.receipts| > |j.receipts| then
        t.key !in j.finalizedKeys && j' == Committed(Begun(j, c.tx, t), c.tx, t, c.now)
      else j'.receipts == j.receipts && j'.finalizedKeys == j.finalizedKeys
  {
  }

  /** What leaves a receipt: a planned transaction with a new key that nothing disturbs. */
  lemma OperateGrowth(table: Table, j: Journal, id: string, request: Request, c: Conditions)
    ensures var j', plan := Operate(table, j, id, request, c).journal, Plan(table, j, id, request);
      if |j'.receipts| > |j.receipts| then
        && plan.Ok? && plan.value.Some? && plan.value.value.key !in j.finalizedKeys
        && j' == Committed(Begun(j, c.tx, plan.value.value), c.tx, plan.value.value, c.now)
      else j'.receipts == j.receipts && j'.finalizedKeys == j.finalizedKeys
  {
    var plan := Plan(table, j, id, request);
    if plan.Ok? && plan.value.Some? {
      TransactGrowth(table, j, plan.value.value, c);
    }
  }

  lemma Growth(s: State, e: Event)
    ensures var j', plan := Step(s, e).journal, Plan(s.table, s.journal, e.id, e.request);
      if |j'.receipts| > |s.journal.receipts| then
        && plan.Ok? && plan.value.Some? && plan.value.value.key !in s.journal.finalizedKeys
        && j' == Committed(Begun(s.journal, e.c.tx, plan.value.value), e.c.tx, plan.value.value, e.c.now)
      else j'.receipts == s.journal.receipts && j'.finalizedKeys == s.journal.finalizedKeys
  {
    OperateGrowth(s.table, s.journal, e.id, e.request, e.c);
  }

  lemma AppliedTook(table: Table, t: Transaction, id: string, request: Request, tx: string)
    requires "" !in table && Fits(t, id, request) && (id in table <==> !request.RegisterRequest?)
    ensures Took(table, id, request, tx, if id == "" then table else Applied(table, id, t.action, tx))
  {
  }

  lemma GrowthTakes(s: State, e: Event)
    requires s.table == Restored(s.journal) && Sound(s.journal, e.c)
    requires |Step(s, e).journal.receipts| > |s.journal.receipts|
    ensures Took(s.table, e.id, e.request, e.c.tx, Restored(Step(s, e).journal))
  {
    Growth(s, e);
    PlanFits(s.table, s.journal, e.id, e.request);
    var t := Plan(s.table, s.journal, e.id, e.request).value.value;
    CommittedReceipts(s.journal, e.c, t);
    NamedSessions(s.journal.receipts);
    AppliedTook(s.table, t, e.id, e.request, e.c.tx);
  }

  // Whole histories -----------------------------------------------------------------------------

  /**
   After any regular history of operations, refusals, crashes and restarts: the named registered sessions
   are in the table; each has the mission and operator of its registration, the phase and transaction of
   its last accepted request, the next action and offload of its last accepted checkpoint and the reason
   of its last accepted close.
   */
  lemma {:induction false} TableTellsRequests(events: seq<Event>)
    requires Regular(events)
    ensures TableTells(AcceptedIn(events), Run(events).table)
  {
    if events != [] {
      var front, e := events[..|events|-1], events[|events|-1];
      TableTellsRequests(front);
      TableIsJournal(front);
      TableIsJournal(events);
      var s := Run(front);
      if |Run(events).journal.receipts| > |s.journal.receipts| {
        GrowthTakes(s, e);
        NamedSessions(ByTime(s.journal.receipts));
        forall id
          ensures id in Run(events).table <==> id != "" && Latest(AcceptedIn(events), id, IsRegister).Some?
          ensures id in Run(events).table ==> Tells(AcceptedIn(events), id, Run(events).table[id])
          ensures id !in Run(events).table && id != "" ==> Latest(AcceptedIn(events), id, IsAny).None?
        {
          TookOne(AcceptedIn(front), s.table, Accepted(e.id, e.request, e.c.tx), Run(events).table, id);
        }
      } else {
        Growth(s, e);
        assert AcceptedIn(events) == AcceptedIn(front);
      }
    }
  }

  /** A restart right after the history finds the same table. */
  lemma RestartTellsRequests(events: seq<Event>)
    requires Regular(events)
    ensures TableTells(AcceptedIn(events), Restored(Run(events).journal))
  {
    TableTellsRequests(events);
    TableIsJournal(events);
  }

  // Which requests are accepted -----------------------------------------------------------------

  /** The key under which the journal finalizes the transaction of a request at most once. */
  predicate IsKey(key: string, table: Table, id: string, request: Request) {
    match request
    case RegisterRequest(_, _) => key == "session-register:" + id
    case CheckpointRequest(_, offload) =>
      key == "session-checkpoint:" + id + ":" +
             (if offload.Some? && offload.value != "" then offload.value else "unknown")
    case ResumeRequest(_) =>
      id in table && key == "session-resume:" + id + ":" +
                            (if table[id].tx.Some? && table[id].tx.value != "" then table[id].tx.value else "None")
    case CloseRequest(_) =>
      id in table && key == "session-close:" + id + ":" +
                            (if table[id].tx.Some? && table[id].tx.value != "" then table[id].tx.value else "None")
  }

  /** A receipt to resume from is named and not in the journal. */
  predicate ReceiptMissing(j: Journal, receipt: Option<string>) {
    && receipt.Some? && receipt.value != ""
    && forall i :: 0 <= i < |j.receipts| ==> j.receipts[i].tx != receipt.value
  }

  /** What refuses a request before its transaction, and when none is needed. */
  predicate RefusedFirst(table: Table, j: Journal, id: string, request: Request) {
    if request.RegisterRequest? then id in table
    else id !in table || (request.ResumeRequest? && ReceiptMissing(j, request.receipt))
  }

  /** The answer to a request, for every state and every condition. */
  lemma AnsweredExactly(table: Table, j: Journal, id: string, request: Request, c: Conditions, key: string)
    requires IsKey(key, table, id, request) || RefusedFirst(table, j, id, request)
    ensures var e := Operate(table, j, id, request, c);
      && (e.error == Some(MissionMismatch) <==>
            request.RegisterRequest? && id in table && table[id].mission != request.mission)
      && (e.error == Some(NotRegistered) <==> !request.RegisterRequest? && id !in table)
      && (e.error == Some(ReceiptInvalid) <==>
            request.ResumeRequest? && id in table && ReceiptMissing(j, request.receipt))
      && (e.error == Some(KeyAlreadyFinalized) <==>
            !RefusedFirst(table, j, id, request) && key in j.finalizedKeys)
      && (|e.journal.receipts| > |j.receipts| <==>
            !RefusedFirst(table, j, id, request) && key !in j.finalizedKeys && c.fault.NoFault?)
      && (RefusedFirst(table, j, id, request) ==> e.table == table && e.journal == j)
  {
  }

  /** What a failure under an operation leaves in the live table. */
  lemma FailureLeaves(table: Table, j: Journal, id: string, request: Request, c: Conditions)
    requires "" !in table && id != ""
    ensures var e := Operate(table, j, id, request, c);
      match e.error
      case Some(JournalFailed) =>
        && e.journal.receipts == j.receipts
        && (c.fault.BeginFails? ==> e.table == table && e.journal == j)
        && (c.fault.CommitFails? ==> Took(table, id, request, c.tx, e.table))
      case Some(SubscriberFailed) =>
        && e.journal.receipts == j.receipts && c.fault.PublishFails?
        && e.table ==
           if c.fault.handled && request.RegisterRequest?
           then table[id := Session(request.mission, request.operator, Registered, None, None, None, None)]
           else table
      case None => e.table == table || Took(table, id, request, c.tx, e.table)
      case _ => e.table == table && e.journal == j
  {
    var plan := Plan(table, j, id, request);
    if plan.Ok? && plan.value.Some? {
      PlanFits(table, j, id, request);
      TransactLeaves(table, j, plan.value.value, id, request, c);
    }
  }

  lemma TransactLeaves(table: Table, j: Journal, t: Transaction, id: string, request: Request, c: Conditions)
    requires "" !in table && id != "" && Fits(t, id, request) && (id in table <==> !request.RegisterRequest?)
    ensures var e := Transact(table, j, t, c);
      match e.error
      case Some(JournalFailed) =>
        && e.journal.receipts == j.receipts
        && (c.fault.BeginFails? ==> e.table == table && e.journal == j)
        && (c.fault.CommitFails? ==> Took(table, id, request, c.tx, e.table))
      case Some(SubscriberFailed) =>
        && e.journal.receipts == j.receipts && c.fault.PublishFails?
        && e.table ==
           if c.fault.handled && request.RegisterRequest?
           then table[id := Session(request.mission, request.operator, Registered, None, None, None, None)]
           else table
      case None => Took(table, id, request, c.tx, e.table)
      case _ => e.table == table && e.journal == j
  {
    AppliedTook(table, t, id, request, c.tx);
  }

  /** The receipt an accepted request leaves: at the end, with its own transaction, time and key. */
  lemma AcceptedLeavesReceipt(table: Table, j: Journal, id: string, request: Request, c: Conditions, key: string)
    requires IsKey(key, table, id, request)
    requires |Operate(table, j, id, request, c).journal.receipts| > |j.receipts|
    ensures var j' := Operate(table, j, id, request, c).journal;
      && |j'.receipts| == |j.receipts| + 1 && j'.receipts[..|j.receipts|] == j.receipts
      && j'.receipts[|j.receipts|].tx == c.tx && j'.receipts[|j.receipts|].session == id
      && j'.receipts[|j.receipts|].finalizedAt == c.now
      && j'.finalizedKeys == j.finalizedKeys + {key}
  {
  }

  lemma RegisterKey(id: string, other: string)
    ensures ("session-register:" + id)[10] == 'g' && ("session-register:" + id)[17..] == id
    ensures ("session-checkpoint:" + other)[10] == 'e'
    ensures ("session-resume:" + other)[10] == 's'
    ensures ("session-close:" + other)[10] == 'o'
  {
  }

  ghost predicate RegisterKeys(accepted: seq<Accepted>, keys: set<string>) {
    forall id :: "session-register:" + id in keys <==> Latest(accepted, id, IsRegister).Some?
  }

  lemma KeysAfter(accepted: seq<Accepted>, s: State, e: Event)
    requires RegisterKeys(accepted, s.journal.finalizedKeys)
    requires var plan := Plan(s.table, s.journal, e.id, e.request); plan.Ok? && plan.value.Some?
    ensures var t := Plan(s.table, s.journal, e.id, e.request).value.value;
      RegisterKeys(accepted + [Accepted(e.id, e.request, e.c.tx)], s.journal.finalizedKeys + {t.key})
  {
    var t := Plan(s.table, s.journal, e.id, e.request).value.value;
    forall id
      ensures "session-register:" + id in s.journal.finalizedKeys + {t.key} <==>
              Latest(accepted + [Accepted(e.id, e.request, e.c.tx)], id, IsRegister).Some?
    {
      LatestAfter(accepted, Accepted(e.id, e.request, e.c.tx), id, IsRegister);
      NewKey(s, e, t, id);
    }
  }

  /** A registration key is finalized exactly by an accepted registration of its session. */
  lemma {:induction false} RegisteredKeys(events: seq<Event>)
    requires Regular(events)
    ensures RegisterKeys(AcceptedIn(events), Run(events).journal.finalizedKeys)
  {
    if events != [] {
      var front, e := events[..|events|-1], events[|events|-1];
      RegisteredKeys(front);
      var s := Run(front);
      if |Run(events).journal.receipts| > |s.journal.receipts| {
        Growth(s, e);
        KeysAfter(AcceptedIn(front), s, e);
      } else {
        Growth(s, e);
        assert AcceptedIn(events) == AcceptedIn(front);
      }
    }
  }

  lemma NewKey(s: State, e: Event, t: Transaction, id: string)
    requires Plan(s.table, s.journal, e.id, e.request) == Ok(Some(t))
    ensures t.key == "session-register:" + id <==> e.request.RegisterRequest? && e.id == id
  {
    match e.request
    case RegisterRequest(_, _) =>
      RegisterKey(id, "");
      RegisterKey(e.id, "");
    case CheckpointRequest(_, offload) =>
      var rest := e.id + ":" + OrElse(offload, "unknown");
      RegisterKey(id, rest);
      assert t.key == "session-checkpoint:" + rest;
    case ResumeRequest(_) =>
      var rest := e.id + ":" + OrElse(s.table[e.id].tx, "None");
      RegisterKey(id, rest);
      assert t.key == "session-resume:" + rest;
    case CloseRequest(_) =>
      var rest := e.id + ":" + OrElse(s.table[e.id].tx, "None");
      RegisterKey(id, rest);
      assert t.key == "session-close:" + rest;
  }

  /** A session that is not registered can be, whatever came before; one that is cannot be again. */
  lemma UnregisteredCanRegister(events: seq<Event>, id: string, mission: Option<string>, operator: string,
                                c: Conditions)
    requires Regular(events) && id != "" && c.fault.NoFault?
    ensures var s, request := Run(events), RegisterRequest(mission, operator);
      |Operate(s.table, s.journal, id, request, c).journal.receipts| > |s.journal.receipts| <==>
        forall a :: a in AcceptedIn(events) && a.id == id ==> !a.request.RegisterRequest?
  {
    var s, request := Run(events), RegisterRequest(mission, operator);
    TableTellsRequests(events);
    RegisteredKeys(events);
    LatestIsOfKind(AcceptedIn(events), id, IsRegister);
    AnsweredExactly(s.table, s.journal, id, request, c, "session-register:" + id);
  }

  lemma {:induction false} CheckpointKeyTaken(events: seq<Event>, id: string, next: string, offload: Option<string>,
                                              tx: string, key: string)
    requires Accepted(id, CheckpointRequest(next, offload), tx) in AcceptedIn(events)
    requires IsKey(key, map[], id, CheckpointRequest(next, offload))
    ensures key in Run(events).journal.finalizedKeys
  {
    var front, e := events[..|events|-1], events[|events|-1];
    var s := Run(front);
    Growth(s, e);
    if Accepted(id, CheckpointRequest(next, offload), tx) in AcceptedIn(front) {
      CheckpointKeyTaken(front, id, next, offload, tx, key);
    }
  }

  /** A session cannot be checkpointed twice with the same offload, nor twice without one. */
  lemma SecondCheckpointRefused(events: seq<Event>, id: string, next: string, offload: Option<string>, tx: string,
                                again: string, c: Conditions)
    requires Accepted(id, CheckpointRequest(next, offload), tx) in AcceptedIn(events)
    requires id in Run(events).table
    ensures var s := Run(events);
      Operate(s.table, s.journal, id, CheckpointRequest(again, offload), c).error == Some(KeyAlreadyFinalized)
  {
    var s := Run(events);
    var key := "session-checkpoint:" + id + ":" +
               (if offload.Some? && offload.value != "" then offload.value else "unknown");
    CheckpointKeyTaken(events, id, next, offload, tx, key);
    AnsweredExactly(s.table, s.journal, id, CheckpointRequest(again, offload), c, key);
  }
}
