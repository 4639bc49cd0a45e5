/**
 Session lifecycle: a table updated in place beside a durable transaction journal, and the table that a
 restart rebuilds from the journal's receipts.
 */
module Session {
  import opened Prelude

  datatype Phase = Registered | Active | Checkpointed | Closed

  datatype Session = Session(mission: Option<string>, operator: string, phase: Phase, tx: Option<string>,
                             next: Option<string>, offload: Option<string>, closeReason: Option<string>)

  type Table = map<string, Session>

  datatype Action =
    | Register(mission: Option<string>, operator: string)
    | Checkpoint(next: string, offload: Option<string>)
    | Resume
    | Close(reason: string)
    | Foreign                           // a transaction of another user of the journal

  datatype Transaction = Transaction(key: string, session: string, action: Action)

  datatype Receipt = Receipt(tx: string, session: string, action: Action, finalizedAt: nat)

  /** `receipts` in the order of their commits; a begun transaction without a receipt is pending. */
  datatype Journal = Journal(begun: map<string, Transaction>, receipts: seq<Receipt>, finalizedKeys: set<string>)

  datatype Error =
    | MissionMismatch | NotRegistered | ReceiptInvalid | KeyAlreadyFinalized | JournalFailed | SubscriberFailed

  // Rebuilding the table ----------------------------------------------------------------------

  /** What one committed transaction does to the table. */
  function Applied(table: Table, session: string, action: Action, tx: string): Table {
    match action
    case Register(mission, operator) => table[session := Session(mission, operator, Active, Some(tx), None, None, None)]
    case Foreign => table
    case Checkpoint(next, offload) =>
      if session !in table then table
      else table[session := table[session].(phase := Checkpointed, tx := Some(tx), next := Some(next),
          offload := offload)]
    case Resume =>
      if session !in table then table else table[session := table[session].(phase := Active, tx := Some(tx))]
    case Close(reason) =>
      if session !in table then table
      else table[session := table[session].(phase := Closed, tx := Some(tx), closeReason := Some(reason))]
  }

  function Replayed(receipts: seq<Receipt>): Table {
    if receipts == [] then map[]
    else
      var before, r := Replayed(receipts[..|receipts|-1]), receipts[|receipts|-1];
      if r.session == "" then before else Applied(before, r.session, r.action, r.tx)
  }

  /** Stable insertion by time, behind everything that is not later. */
  function Insert(sorted: seq<Receipt>, r: Receipt): seq<Receipt> {
    if sorted == [] || sorted[|sorted|-1].finalizedAt <= r.finalizedAt then sorted + [r]
    else Insert(sorted[..|sorted|-1], r) + [sorted[|sorted|-1]]
  }

  /** The order in which the journal hands its receipts out. */
  function ByTime(receipts: seq<Receipt>): seq<Receipt> {
    if receipts == [] then [] else Insert(ByTime(receipts[..|receipts|-1]), receipts[|receipts|-1])
  }

  function Restored(j: Journal): Table {
    Replayed(ByTime(j.receipts))
  }

  predicate InTimeOrder(receipts: seq<Receipt>) {
    |receipts| <= 1 ||
    (InTimeOrder(receipts[..|receipts|-1]) && receipts[|receipts|-2].finalizedAt <= receipts[|receipts|-1].finalizedAt)
  }

  lemma {:induction false} OrderedStays(receipts: seq<Receipt>)
    requires InTimeOrder(receipts)
    ensures ByTime(receipts) == receipts
  {
    if receipts != [] {
      var front := receipts[..|receipts|-1];
      OrderedStays(front);
      assert Insert(front, receipts[|receipts|-1]) == front + [receipts[|receipts|-1]];
    }
  }

  lemma {:induction false} InsertKeepsOrder(sorted: seq<Receipt>, r: Receipt)
    requires InTimeOrder(sorted)
    ensures InTimeOrder(Insert(sorted, r)) && Insert(sorted, r) != []
    ensures Insert(sorted, r)[|Insert(sorted, r)|-1] == r ||
            (sorted != [] && Insert(sorted, r)[|Insert(sorted, r)|-1] == sorted[|sorted|-1])
  {
    if sorted == [] || sorted[|sorted|-1].finalizedAt <= r.finalizedAt {
      assert (sorted + [r])[..|sorted|] == sorted;
    } else {
      var front, last := sorted[..|sorted|-1], sorted[|sorted|-1];
      InsertKeepsOrder(front, r);
      var inserted := Insert(front, r);
      assert (inserted + [last])[..|inserted|] == inserted;
    }
  }

  lemma {:induction false} ByTimeIsOrdered(receipts: seq<Receipt>)
    ensures InTimeOrder(ByTime(receipts))
  {
    if receipts != [] {
      ByTimeIsOrdered(receipts[..|receipts|-1]);
      InsertKeepsOrder(ByTime(receipts[..|receipts|-1]), receipts[|receipts|-1]);
    }
  }

  /** Sorting by time leaves the commit order exactly when the times never go back along it. */
  lemma TimeOrderIsCommitOrder(receipts: seq<Receipt>)
    ensures ByTime(receipts) == receipts <==> InTimeOrder(receipts)
  {
    ByTimeIsOrdered(receipts);
    if InTimeOrder(receipts) {
      OrderedStays(receipts);
    }
  }

  // One operation -----------------------------------------------------------------------------

  datatype Request =
    | RegisterRequest(mission: Option<string>, operator: string)
    | CheckpointRequest(next: string, offload: Option<string>)
    | ResumeRequest(receipt: Option<string>)
    | CloseRequest(reason: string)

  /** Where an operation is cut short by something that fails under it. */
  datatype Fault =
    | NoFault
    | BeginFails
    | PublishFails(handled: bool)       // a subscriber fails, after the table's own handler has run or before
    | CommitFails

  /** The transaction id drawn, the clock at the commit, and the fault. */
  datatype Conditions = Conditions(tx: string, now: nat, fault: Fault)

  function OrElse(text: Option<string>, otherwise: string): string {
    if text.None? || text.value == "" then otherwise else text.value
  }

  predicate HasReceipt(j: Journal, tx: string) {
    exists i :: 0 <= i < |j.receipts| && j.receipts[i].tx == tx
  }

  /** The transaction of a request, or why it is refused before one begins; no transaction when none is needed. */
  function Plan(table: Table, j: Journal, id: string, request: Request): Result<Option<Transaction>, Error> {
    if request.RegisterRequest? then
      if id in table then if table[id].mission == request.mission then Ok(None) else Err(MissionMismatch)
      else Ok(Some(Transaction("session-register:" + id, id, Register(request.mission, request.operator))))
    else if id !in table then Err(NotRegistered)
    else
      match request
      case CheckpointRequest(next, offload) =>
        Ok(Some(Transaction("session-checkpoint:" + id + ":" + OrElse(offload, "unknown"), id,
            Checkpoint(next, offload))))
      case ResumeRequest(receipt) =>
        if OrElse(receipt, "") != "" && !HasReceipt(j, receipt.value) then Err(ReceiptInvalid)
        else Ok(Some(Transaction("session-resume:" + id + ":" + OrElse(table[id].tx, "None"), id, Resume)))
      case CloseRequest(reason) =>
        Ok(Some(Transaction("session-close:" + id + ":" + OrElse(table[id].tx, "None"), id, Close(reason))))
  }

  function Begun(j: Journal, tx: string, t: Transaction): Journal {
    j.(begun := j.begun[tx := t])
  }

  function Committed(j: Journal, tx: string, t: Transaction, now: nat): Journal {
    j.(receipts := j.receipts + [Receipt(tx, t.session, t.action, now)], finalizedKeys := j.finalizedKeys + {t.key})
  }

  /** What the table's own bus handler does to it: it notes the registration of a named session. */
  function Published(table: Table, t: Transaction): Table {
    match t.action
    case Register(mission, operator) =>
      if t.session == "" then table
      else table[t.session := Session(mission, operator, Registered, None, None, None, None)]
    case _ => table
  }

  datatype Effect = Effect(table: Table, journal: Journal, error: Option<Error>)

  function Transact(table: Table, j: Journal, t: Transaction, c: Conditions): Effect {
    if t.key in j.finalizedKeys then Effect(table, j, Some(KeyAlreadyFinalized))
    else
      var begun := Begun(j, c.tx, t);
      match c.fault
      case BeginFails => Effect(table, j, Some(JournalFailed))
      case PublishFails(handled) =>
        Effect(if handled then Published(table, t) else table, begun, Some(SubscriberFailed))
      case CommitFails => Effect(Applied(table, t.session, t.action, c.tx), begun, Some(JournalFailed))
      case NoFault => Effect(Applied(table, t.session, t.action, c.tx), Committed(begun, c.tx, t, c.now), None)
  }

  function Operate(table: Table, j: Journal, id: string, request: Request, c: Conditions): Effect {
    var plan := Plan(table, j, id, request);
    if plan.Err? then Effect(table, j, Some(plan.error))
    else if plan.value.None? then Effect(table, j, None)
    else Transact(table, j, plan.value.value, c)
  }

  // The class ---------------------------------------------------------------------------------

  class SessionLifecycle {
    const defaultOperator: string
    var sessions: Table
    var journal: Journal

    /** A new process restores its table from the journal. */
    constructor (j: Journal, operator: Option<string>)
      ensures journal == j && sessions == Restored(j)
    {
      defaultOperator := OrElse(operator, "operator");
      journal := j;
      sessions := map[];
      new;
      var receipts := ByTime(j.receipts);
      for i := 0 to |receipts|
        invariant journal == j && sessions == Replayed(receipts[..i])
      {
        var r := receipts[i];
        assert receipts[..i+1][..i] == receipts[..i];
        if r.session != "" {
          match r.action
          case Foreign =>
          case Register(mission, op) =>
            sessions := sessions[r.session := Session(mission, op, Active, Some(r.tx), None, None, None)];
          case Checkpoint(next, offload) =>
            if r.session in sessions {
              var s := sessions[r.session].(phase := Checkpointed, tx := Some(r.tx));
              sessions := sessions[r.session := s.(next := Some(next), offload := offload)];
            }
          case Resume =>
            if r.session in sessions {
              sessions := sessions[r.session := sessions[r.session].(phase := Active, tx := Some(r.tx))];
            }
          case Close(reason) =>
            if r.session in sessions {
              var s := sessions[r.session].(phase := Closed, tx := Some(r.tx));
              sessions := sessions[r.session := s.(closeReason := Some(reason))];
            }
        }
      }
      assert receipts[..|receipts|] == receipts;
    }

    method Begin(t: Transaction, c: Conditions) returns (r: Result<(), Error>)
      modifies this`journal
      ensures r.Err? <==> t.key in old(journal).finalizedKeys || c.fault.BeginFails?
      ensures r.Err? ==> r.error == if t.key in old(journal).finalizedKeys then KeyAlreadyFinalized else JournalFailed
      ensures journal == if r.Ok? then Begun(old(journal), c.tx, t) else old(journal)
    {
      if t.key in journal.finalizedKeys {
        return Err(KeyAlreadyFinalized);
      }
      if c.fault.BeginFails? {
        return Err(JournalFailed);
      }
      journal := journal.(begun := journal.begun[c.tx := t]);
      return Ok(());
    }

    method Commit(t: Transaction, c: Conditions) returns (r: Result<(), Error>)
      modifies this`journal
      ensures r == if c.fault.CommitFails? then Err(JournalFailed) else Ok(())
      ensures journal == if r.Ok? then Committed(old(journal), c.tx, t, c.now) else old(journal)
    {
      if c.fault.CommitFails? {
        return Err(JournalFailed);
      }
      journal := Committed(journal, c.tx, t, c.now);
      return Ok(());
    }

    /** `moments` are the journals a crash after each of its steps would leave behind. */
    method RegisterSession(id: string, mission: Option<string>, operator: Option<string>, c: Conditions)
      returns (error: Option<Error>, ghost moments: seq<Journal>)
      modifies this
      ensures Effect(sessions, journal, error) ==
              Operate(old(sessions), old(journal), id, RegisterRequest(mission, OrElse(operator, defaultOperator)), c)
      ensures forall m :: m in moments ==> m.receipts in {old(journal).receipts, journal.receipts}
    {
      moments := [journal];
      var op := OrElse(operator, defaultOperator);
      if id in sessions {
        return if sessions[id].mission != mission then Some(MissionMismatch) else None, moments;
      }
      var t := Transaction("session-register:" + id, id, Register(mission, op));
      var begun := Begin(t, c);
      moments := moments + [journal];
      if begun.Err? {
        return Some(begun.error), moments;
      }
      if id != "" && !(c.fault.PublishFails? && !c.fault.handled) {
        sessions := sessions[id := Session(mission, op, Registered, None, None, None, None)];
      }
      if c.fault.PublishFails? {
        return Some(SubscriberFailed), moments;
      }
      sessions := sessions[id := Session(mission, op, Active, Some(c.tx), None, None, None)];
      var committed := Commit(t, c);
      moments := moments + [journal];
      error := if committed.Err? then Some(committed.error) else None;
    }

    method CheckpointSession(id: string, next: string, offload: Option<string>, c: Conditions)
      returns (error: Option<Error>, ghost moments: seq<Journal>)
      modifies this
      ensures Effect(sessions, journal, error) == Operate(old(sessions), old(journal), id,
        CheckpointRequest(next, offload), c)
      ensures forall m :: m in moments ==> m.receipts in {old(journal).receipts, journal.receipts}
    {
      moments := [journal];
      if id !in sessions {
        return Some(NotRegistered), moments;
      }
      var t := Transaction("session-checkpoint:" + id + ":" + OrElse(offload, "unknown"), id,
          Checkpoint(next, offload));
      var begun := Begin(t, c);
      moments := moments + [journal];
      if begun.Err? {
        return Some(begun.error), moments;
      }
      if c.fault.PublishFails? {
        return Some(SubscriberFailed), moments;
      }
      sessions := sessions[id := sessions[id].(phase := Checkpointed)];
      sessions := sessions[id := sessions[id].(tx := Some(c.tx))];
      sessions := sessions[id := sessions[id].(next := Some(next))];
      sessions := sessions[id := sessions[id].(offload := offload)];
      assert sessions == Applied(old(sessions), id, t.action, c.tx);
      var committed := Commit(t, c);
      moments := moments + [journal];
      error := if committed.Err? then Some(committed.error) else None;
    }

    method ResumeSession(id: string, receipt: Option<string>, c: Conditions)
      returns (error: Option<Error>, ghost moments: seq<Journal>)
      modifies this
      ensures Effect(sessions, journal, error) == Operate(old(sessions), old(journal), id, ResumeRequest(receipt), c)
      ensures forall m :: m in moments ==> m.receipts in {old(journal).receipts, journal.receipts}
    {
      moments := [journal];
      if id !in sessions {
        return Some(NotRegistered), moments;
      }
      if OrElse(receipt, "") != "" && !HasReceipt(journal, receipt.value) {
        return Some(ReceiptInvalid), moments;
      }
      var t := Transaction("session-resume:" + id + ":" + OrElse(sessions[id].tx, "None"), id, Resume);
      var begun := Begin(t, c);
      moments := moments + [journal];
      if begun.Err? {
        return Some(begun.error), moments;
      }
      if c.fault.PublishFails? {
        return Some(SubscriberFailed), moments;
      }
      sessions := sessions[id := sessions[id].(phase := Active)];
      sessions := sessions[id := sessions[id].(tx := Some(c.tx))];
      var committed := Commit(t, c);
      moments := moments + [journal];
      error := if committed.Err? then Some(committed.error) else None;
    }

    method CloseSession(id: string, reason: string, c: Conditions)
      returns (error: Option<Error>, ghost moments: seq<Journal>)
      modifies this
      ensures Effect(sessions, journal, error) == Operate(old(sessions), old(journal), id, CloseRequest(reason), c)
      ensures forall m :: m in moments ==> m.receipts in {old(journal).receipts, journal.receipts}
    {
      moments := [journal];
      if id !in sessions {
        return Some(NotRegistered), moments;
      }
      var t := Transaction("session-close:" + id + ":" + OrElse(sessions[id].tx, "None"), id, Close(reason));
      var begun := Begin(t, c);
      moments := moments + [journal];
      if begun.Err? {
        return Some(begun.error), moments;
      }
      if c.fault.PublishFails? {
        return Some(SubscriberFailed), moments;
      }
      sessions := sessions[id := sessions[id].(phase := Closed)];
      sessions := sessions[id := sessions[id].(closeReason := Some(reason))];
      sessions := sessions[id := sessions[id].(tx := Some(c.tx))];
      var committed := Commit(t, c);
      moments := moments + [journal];
      error := if committed.Err? then Some(committed.error) else None;
    }
  }

  // Agreement of the live table with the journal ----------------------------------------------

  /** Transaction ids are not reused, and the clock has not gone back. */
  predicate Sound(j: Journal, c: Conditions) {
    && !HasReceipt(j, c.tx)
    && InTimeOrder(j.receipts) && (j.receipts == [] || j.receipts[|j.receipts|-1].finalizedAt <= c.now)
  }

  /** The failures that leave the live table with what the journal does not record. */
  predicate Diverges(j: Journal, t: Transaction, fault: Fault) {
    && t.key !in j.finalizedKeys
    && (fault.CommitFails? ||
        (t.action.Register? && if t.session == "" then fault.NoFault? else fault.PublishFails? && fault.handled))
  }

  lemma {:induction false} TxFromReceipts(receipts: seq<Receipt>, id: string, tx: string)
    requires id in Replayed(receipts) && Replayed(receipts)[id].tx == Some(tx)
    ensures exists i :: 0 <= i < |receipts| && receipts[i].tx == tx
  {
    if receipts != [] {
      var last := receipts[|receipts|-1];
      if last.tx != tx {
        TxFromReceipts(receipts[..|receipts|-1], id, tx);
        var i :| 0 <= i < |receipts| - 1 && receipts[..|receipts|-1][i].tx == tx;
        assert receipts[i].tx == tx;
      }
    }
  }

  lemma {:induction false} NamedSessions(receipts: seq<Receipt>)
    ensures "" !in Replayed(receipts)
    ensures forall id :: id in Replayed(receipts) ==> Replayed(receipts)[id].tx.Some?
  {
    if receipts != [] {
      NamedSessions(receipts[..|receipts|-1]);
    }
  }

  lemma CommittedReceipts(j: Journal, c: Conditions, t: Transaction)
    requires Sound(j, c)
    ensures var j' := Committed(Begun(j, c.tx, t), c.tx, t, c.now);
      && Restored(j) == Replayed(j.receipts)
      && InTimeOrder(j'.receipts)
      && Restored(j') == if t.session == "" then Replayed(j.receipts)
          else Applied(Replayed(j.receipts), t.session, t.action, c.tx)
  {
    var j' := Committed(Begun(j, c.tx, t), c.tx, t, c.now);
    TimeOrderIsCommitOrder(j.receipts);
    TimeOrderIsCommitOrder(j'.receipts);
    assert j'.receipts[..|j'.receipts|-1] == j.receipts;
  }

  lemma TransactAgreement(j: Journal, t: Transaction, c: Conditions)
    requires Sound(j, c) && !t.action.Foreign? && (t.action.Register? <==> t.session !in Restored(j))
    ensures var e := Transact(Restored(j), j, t, c);
      e.table == Restored(e.journal) <==> !Diverges(j, t, c.fault)
  {
    var table := Restored(j);
    CommittedReceipts(j, c, t);
    NamedSessions(j.receipts);
    if t.session in table && table[t.session].tx == Some(c.tx) {
      TxFromReceipts(j.receipts, t.session, c.tx);
    }
    var applied := Applied(table, t.session, t.action, c.tx);
    assert t.session in applied && applied[t.session].tx == Some(c.tx);
    assert applied != table;
    assert t.action.Register? && t.session != "" ==> t.session in Published(table, t);
  }

  /** From agreement, an operation ends in agreement exactly when it does not end in one of the failures above. */
  lemma AgreementExactly(table: Table, j: Journal, id: string, request: Request, c: Conditions)
    requires table == Restored(j) && Sound(j, c)
    ensures var e, plan := Operate(table, j, id, request, c), Plan(table, j, id, request);
      e.table == Restored(e.journal) <==> !(plan.Ok? && plan.value.Some? && Diverges(j, plan.value.value, c.fault))
  {
    var plan := Plan(table, j, id, request);
    if plan.Ok? && plan.value.Some? {
      TransactAgreement(j, plan.value.value, c);
    }
  }

  /** A crash anywhere inside an operation restores the table of just before it or of just after it. */
  lemma CrashRestoresBeforeOrAfter(table: Table, j: Journal, id: string, request: Request, c: Conditions,
                                   moment: Journal)
    requires table == Restored(j) && Sound(j, c) && id != ""
    requires moment.receipts in {j.receipts, Operate(table, j, id, request, c).journal.receipts}
    ensures Restored(moment) in {table, Operate(table, j, id, request, c.(fault := NoFault)).table}
  {
    var plan := Plan(table, j, id, request);
    if plan.Ok? && plan.value.Some? {
      CrashInTransact(j, plan.value.value, c, moment);
    }
  }

  lemma CrashInTransact(j: Journal, t: Transaction, c: Conditions, moment: Journal)
    requires Sound(j, c) && t.session != ""
    requires moment.receipts in {j.receipts, Transact(Restored(j), j, t, c).journal.receipts}
    ensures Restored(moment) in {Restored(j), Transact(Restored(j), j, t, c.(fault := NoFault)).table}
  {
    if moment.receipts == j.receipts {
      assert Restored(moment) == Restored(j);
    } else {
      CommittedReceipts(j, c, t);
      CommittedIsRestored(j, t, c, moment);
    }
  }

  lemma CommittedIsRestored(j: Journal, t: Transaction, c: Conditions, moment: Journal)
    requires moment.receipts == Transact(Restored(j), j, t, c).journal.receipts != j.receipts
    ensures t.key !in j.finalizedKeys && c.fault.NoFault?
    ensures Restored(moment) == Restored(Committed(Begun(j, c.tx, t), c.tx, t, c.now))
  {
  }

  // Whole histories ---------------------------------------------------------------------------

  datatype Event =
    | Done(id: string, request: Request, c: Conditions)
    | Died(id: string, request: Request, c: Conditions, committed: bool)   // and restarted

  datatype State = State(table: Table, journal: Journal)

  const START := State(map[], Journal(map[], [], {}))

  function Step(s: State, e: Event): State {
    var effect := Operate(s.table, s.journal, e.id, e.request, e.c);
    match e
    case Done(_, _, _) => State(effect.table, effect.journal)
    case Died(_, _, _, committed) =>
      var left := if committed then effect.journal else s.journal;
      State(Restored(left), left)
  }

  function Run(events: seq<Event>): State {
    if events == [] then START else Step(Run(events[..|events|-1]), events[|events|-1])
  }

  predicate Benign(s: State, e: Event) {
    var plan := Plan(s.table, s.journal, e.id, e.request);
    e.Done? && plan.Ok? && plan.value.Some? ==> !Diverges(s.journal, plan.value.value, e.c.fault)
  }

  ghost predicate Regular(events: seq<Event>) {
    events == [] ||
    (Regular(events[..|events|-1]) && Sound(Run(events[..|events|-1]).journal, events[|events|-1].c)
     && Benign(Run(events[..|events|-1]), events[|events|-1]))
  }

  /** Through any number of operations, refusals, crashes and restarts the table is what its journal says. */
  lemma {:induction false} TableIsJournal(events: seq<Event>)
    requires Regular(events)
    ensures Run(events).table == Restored(Run(events).journal)
  {
    if events != [] {
      var before, e := Run(events[..|events|-1]), events[|events|-1];
      TableIsJournal(events[..|events|-1]);
      AgreementExactly(before.table, before.journal, e.id, e.request, e.c);
    }
  }

  /** When the clock goes back, a restart sees the checkpoint before the registration and loses it. */
  lemma ClockStepLosesCheckpoint(first: Receipt, id: string, next: string, at: nat)
    requires first.session == id != "" && first.action.Register? && at < first.finalizedAt
    ensures var j, t := Journal(map[], [first], {}), Transaction("key", id, Checkpoint(next, None));
      var live, restored := Applied(Restored(j), id, t.action, "tx"), Restored(Committed(j, "tx", t, at));
      id in live && id in restored && live[id].phase == Checkpointed && restored[id].phase == Active
  {
    var late := Receipt("tx", id, Checkpoint(next, None), at);
    assert [first][..0] == [] && ByTime([first]) == [first];
    assert ([first] + [late])[..1] == [first];
    assert ([first] + [late])[1] == late && [first][0] == first;
    assert Insert([first], late) == Insert([first][..0], late) + [first] == [late] + [first];
    assert ByTime([first] + [late]) == [late] + [first];
    assert ([late] + [first])[..1] == [late] && [late][..0] == [];
    assert Replayed([late]) == map[];
  }
}
