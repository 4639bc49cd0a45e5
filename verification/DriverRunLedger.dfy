/**
 Driver runs in the ledger: the commands that append their events, the reducer that replays these, and
 what the replayed dispatch marker says about the events of its stream.
 */
module DriverRunLedger {
  import opened Prelude
  import opened EventStore
  import opened Replay
  import D = DriverRun
  import R = Reconciliation

  /** The lifecycle of the ledger's own table, which queues a run as submitted. */
  datatype Phase = Created | Submitted | Running | Suspended | Completed | Failed | Cancelled | Lost | Reconciled

  /** `run` carries identity, approval, limit and dispatch marker; `phase` stands in for its lifecycle. */
  datatype Stored = Stored(phase: Phase, reconciliationStatus: string, run: D.Run)

  datatype Payload =
    | RunCreated(run: D.Run)
    | StateChanged(id: string, from: Phase, to: Phase)
    | BoundaryRecorded(id: string, boundary: D.Boundary, previous: D.Boundary, at: string)

  function Successors(p: Phase): set<Phase> {
    match p
    case Created => {Submitted, Cancelled, Failed}
    case Submitted => {Running, Lost, Cancelled, Failed}
    case Running => {Suspended, Completed, Failed, Lost, Cancelled}
    case Suspended => {Running, Cancelled, Failed, Lost}
    case Lost => {Reconciled, Failed}
    case _ => {}
  }

  function Fresh(run: D.Run): Stored {
    Stored(Created, "not_required",
           D.Create(run.id, run.missionId, run.taskId, run.externalRunId, run.limit, run.approvalId))
  }

  function Moved(s: Stored, to: Phase): Option<Stored> {
    if to !in Successors(s.phase) then None
    else if to == Lost then Some(s.(phase := to, reconciliationStatus := "required"))
    else if to == Reconciled then Some(s.(phase := to, reconciliationStatus := "resolved_effect_absent"))
    else Some(s.(phase := to))
  }

  function Marked(s: Stored, b: D.Boundary, at: string): Option<Stored> {
    var r := D.RecordBoundary(s.run, b, at);
    if r.Err? then None else Some(s.(run := r.value))
  }

  /** How a replay applies an event; the fold has already refused a mutation without prior state. */
  function Reduce(current: Option<Stored>, p: Payload): Option<Stored> {
    if p.RunCreated? then Some(Fresh(p.run))
    else if current.None? then None
    else
      match p
      case StateChanged(_, _, to) => Moved(current.value, to)
      case BoundaryRecorded(id, b, previous, at) =>
        if id != current.value.run.id || previous != current.value.run.boundary then None
        else Marked(current.value, b, at)
  }

  function Runs(): Reducer<Payload, Stored> {
    Reducer((p: Payload) => p.RunCreated?, Reduce)
  }

  // The commands ------------------------------------------------------------------------------

  datatype Command =
    | CreateRun(run: D.Run)
    | TransitionRun(to: Phase)
    | RecordRunBoundary(boundary: D.Boundary, at: string)

  /** The event and the new snapshot that a command appends to its stream, or its refusal. */
  function Served(current: Option<Stored>, c: Command): Option<(Payload, Stored)> {
    if c.CreateRun? then Some((RunCreated(c.run), Fresh(c.run)))
    else if current.None? then None
    else
      var s := current.value;
      var next := if c.TransitionRun? then Moved(s, c.to) else Marked(s, c.boundary, c.at);
      if next.None? then None
      else if c.TransitionRun? then Some((StateChanged(s.run.id, s.phase, c.to), next.value))
      else Some((BoundaryRecorded(s.run.id, c.boundary, s.run.boundary, c.at), next.value))
  }

  /** Replaying the event of an accepted command gives the snapshot the command stored. */
  lemma ServedIsReduced(current: Option<Stored>, c: Command)
    requires Served(current, c).Some?
    ensures var (p, s) := Served(current, c).value; Reduced(Runs(), current, p) == Ok(s)
  {
  }

  /** Every append is the work of some accepted command on the state it found. */
  ghost predicate AllServed(h: Hashing<Payload>, db: Db<Payload, Stored>,
                            appends: seq<AppendRequest<Payload, Stored>>) {
    appends == [] ||
    (var front, a := appends[..|appends|-1], appends[|appends|-1];
     && AllServed(h, db, front)
     && (AppendAll(h, db, front).Ok? ==>
           exists c :: Served(Snapshot(AppendAll(h, db, front).value, a.streamId), c) == Some((a.payload, a.state))))
  }

  lemma {:induction false} AllServedIsFaithful(h: Hashing<Payload>, db: Db<Payload, Stored>,
                                               appends: seq<AppendRequest<Payload, Stored>>)
    requires AllServed(h, db, appends)
    ensures Faithful(h, Runs(), db, appends)
  {
    if appends != [] {
      var front, a := appends[..|appends|-1], appends[|appends|-1];
      AllServedIsFaithful(h, db, front);
      if AppendAll(h, db, front).Ok? {
        var current := Snapshot(AppendAll(h, db, front).value, a.streamId);
        var c :| Served(current, c) == Some((a.payload, a.state));
        ServedIsReduced(current, c);
      }
    }
  }

  /** Whatever the commands, replaying their ledger rebuilds every run exactly as it is stored. */
  lemma ReplayRebuildsRuns(h: Hashing<Payload>, appends: seq<AppendRequest<Payload, Stored>>)
    requires AppendAll(h, Db([], map[]), appends).Ok? && AllServed(h, Db([], map[]), appends)
    ensures exists st :: Mirrors(Runs(), AppendAll(h, Db([], map[]), appends).value, st)
  {
    AllServedIsFaithful(h, Db([], map[]), appends);
    ReplayRebuildsSnapshots(h, Runs(), appends);
  }

  // What a replayed marker says ---------------------------------------------------------------

  /** The boundaries recorded since the last creation of the run. */
  function SinceCreation(payloads: seq<Payload>): seq<D.Boundary> {
    if payloads == [] then []
    else
      var front, last := payloads[..|payloads|-1], payloads[|payloads|-1];
      if last.RunCreated? then []
      else if last.BoundaryRecorded? then SinceCreation(front) + [last.boundary]
      else SinceCreation(front)
  }

  lemma {:induction false} MarkerAgrees(payloads: seq<Payload>)
    requires payloads != [] && StreamState(Runs(), payloads).Ok?
    ensures var s := StreamState(Runs(), payloads).value; s.Some? && D.Agrees(s.value.run, SinceCreation(payloads))
  {
    var front, last := payloads[..|payloads|-1], payloads[|payloads|-1];
    if !last.RunCreated? {
      assert front != [] by {
        assert front == [] ==> StreamState(Runs(), front) == Ok(None);
      }
      MarkerAgrees(front);
      MarkerStep(StreamState(Runs(), front).value.value, last, SinceCreation(front));
    }
  }

  lemma MarkerStep(s: Stored, p: Payload, recorded: seq<D.Boundary>)
    requires D.Agrees(s.run, recorded) && !p.RunCreated? && Reduce(Some(s), p).Some?
    ensures D.Agrees(Reduce(Some(s), p).value.run, recorded + if p.BoundaryRecorded? then [p.boundary] else [])
  {
    if p.BoundaryRecorded? {
      D.StepAgrees(s.run, D.Record(p.boundary, p.at), recorded);
    } else {
      assert recorded + [] == recorded;
    }
  }

  /** A record of request_started or of anything after it. */
  predicate Crossing(p: Payload) {
    p.BoundaryRecorded? && D.Crossed(p.boundary)
  }

  /** No crossing stands behind the last creation: every one of them is followed by a creation. */
  ghost predicate CrossingsForgotten(payloads: seq<Payload>) {
    forall i :: 0 <= i < |payloads| && Crossing(payloads[i]) ==>
      exists k :: i < k < |payloads| && payloads[k].RunCreated?
  }

  lemma {:induction false} SinceCreationCrosses(payloads: seq<Payload>)
    ensures (forall b :: b in SinceCreation(payloads) ==> !D.Crossed(b)) <==> CrossingsForgotten(payloads)
  {
    if payloads != [] {
      var n := |payloads| - 1;
      var front, last := payloads[..n], payloads[n];
      SinceCreationCrosses(front);
      if last.RunCreated? {
        assert forall i :: 0 <= i < |payloads| && Crossing(payloads[i]) ==> i < n && payloads[n].RunCreated?;
      } else {
        ForgottenNext(front, last);
        assert payloads == front + [last];
        assert forall b :: b in SinceCreation(payloads) <==>
          b in SinceCreation(front) || (last.BoundaryRecorded? && b == last.boundary);
      }
    }
  }

  lemma ForgottenNext(front: seq<Payload>, last: Payload)
    requires !last.RunCreated?
    ensures CrossingsForgotten(front + [last]) <==> CrossingsForgotten(front) && !Crossing(last)
  {
    var all := front + [last];
    if CrossingsForgotten(all) {
      forall i | 0 <= i < |front| && Crossing(front[i])
        ensures exists k :: i < k < |front| && front[k].RunCreated?
      {
        assert Crossing(all[i]);
        var k :| i < k < |all| && all[k].RunCreated?;
        assert front[k] == all[k];
      }
      assert all[|front|] == last;
    }
    if CrossingsForgotten(front) && !Crossing(last) {
      forall i | 0 <= i < |all| && Crossing(all[i])
        ensures exists k :: i < k < |all| && all[k].RunCreated?
      {
        assert front[i] == all[i];
        var k :| i < k < |front| && front[k].RunCreated?;
        assert all[k] == front[k];
      }
    }
  }

  /**
   A run rebuilt from any contiguous ledger is classified safe to retry exactly when every record of
   request_started or later in its stream is followed by another creation of the run.
   */
  lemma RebuiltRunIsSafeExactly(es: seq<Envelope<Payload>>, stream: string)
    requires Contiguous(es) && Fold(Runs(), Origin(), es).Ok? && PayloadsOf(es, stream) != []
    ensures var st, payloads := Fold(Runs(), Origin(), es).value, PayloadsOf(es, stream);
      && stream in st.aggregates
      && (R.ClassifyBoundary(st.aggregates[stream].run.boundary) == R.SafeToRetry <==> CrossingsForgotten(payloads))
      && (CrossingsForgotten(payloads) <==> forall b :: b in SinceCreation(payloads) ==> !D.Crossed(b))
  {
    var payloads := PayloadsOf(es, stream);
    ReplayIsPerStream(Runs(), es);
    assert Rebuilt(Runs(), es, Fold(Runs(), Origin(), es).value, stream);
    MarkerAgrees(payloads);
    var run := Fold(Runs(), Origin(), es).value.aggregates[stream].run;
    R.AgreesClassified(run, SinceCreation(payloads));
    SinceCreationCrosses(payloads);
  }

  /** With a single creation the marker never forgets: safe exactly when nothing in the stream crosses. */
  lemma CreatedOnceNeverForgets(es: seq<Envelope<Payload>>, stream: string)
    requires Contiguous(es) && Fold(Runs(), Origin(), es).Ok? && PayloadsOf(es, stream) != []
    requires forall i :: 0 < i < |PayloadsOf(es, stream)| ==> !PayloadsOf(es, stream)[i].RunCreated?
    ensures var st, payloads := Fold(Runs(), Origin(), es).value, PayloadsOf(es, stream);
      && stream in st.aggregates
      && (R.ClassifyBoundary(st.aggregates[stream].run.boundary) == R.SafeToRetry <==>
            forall i :: 0 <= i < |payloads| ==> !Crossing(payloads[i]))
  {
    RebuiltRunIsSafeExactly(es, stream);
  }

  // A ledger that forgets ---------------------------------------------------------------------

  /** Created, sent, and created again, as three accepted commands leave it. */
  function Recreated(stream: string, run: D.Run, at: string): seq<Envelope<Payload>> {
    [Envelope("e1", stream, 1, RunCreated(run)),
     Envelope("e2", stream, 2, BoundaryRecorded(run.id, D.RequestStarted, D.NotDispatched, at)),
     Envelope("e3", stream, 3, RunCreated(run))]
  }

  lemma CommandsOfRecreated(stream: string, run: D.Run, at: string)
    requires D.Limit(run).Some?
    ensures var es, sent := Recreated(stream, run, at), Marked(Fresh(run), D.RequestStarted, at);
      && sent.Some?
      && Served(None, CreateRun(run)) == Some((es[0].payload, Fresh(run)))
      && Served(Some(Fresh(run)), RecordRunBoundary(D.RequestStarted, at)) == Some((es[1].payload, sent.value))
      && Served(sent, CreateRun(run)) == Some((es[2].payload, Fresh(run)))
  {
  }

  function Rebuilding(stream: string, s: Stored, n: nat): Replayed<Stored> {
    Replayed(map[stream := s], map[stream := n], n, 0)
  }

  lemma NextApplies(stream: string, s: Stored, n: nat, e: Envelope<Payload>, next: Stored)
    requires e.streamId == stream && e.streamVersion == n + 1 && Reduced(Runs(), Some(s), e.payload) == Ok(next)
    ensures Apply(Runs(), Rebuilding(stream, s, n), e) == Ok(Rebuilding(stream, next, n + 1))
  {
    var st := Rebuilding(stream, s, n);
    assert st.aggregates[stream := next] == map[stream := next];
    assert st.versions[stream := n + 1] == map[stream := n + 1];
  }

  lemma RecreatedFolds(stream: string, run: D.Run, at: string)
    requires D.Limit(run).Some?
    ensures Fold(Runs(), Origin(), Recreated(stream, run, at)) == Ok(Rebuilding(stream, Fresh(run), 3))
  {
    var es := Recreated(stream, run, at);
    var e1, e2, e3 := es[0], es[1], es[2];
    var sent := Marked(Fresh(run), D.RequestStarted, at).value;
    assert [] + [e1] == [e1] && [e1] + [e2] == [e1, e2] && [e1, e2] + [e3] == es;
    FoldNext(Runs(), Origin(), [], e1);
    assert Fold(Runs(), Origin(), [e1]) == Ok(Rebuilding(stream, Fresh(run), 1));
    FoldNext(Runs(), Origin(), [e1], e2);
    NextApplies(stream, Fresh(run), 1, e2, sent);
    FoldNext(Runs(), Origin(), [e1, e2], e3);
    NextApplies(stream, sent, 2, e3, Fresh(run));
  }

  lemma RecreatedIsContiguous(stream: string, run: D.Run, at: string)
    ensures var es := Recreated(stream, run, at);
      Contiguous(es) && PayloadsOf(es, stream) == [es[0].payload, es[1].payload, es[2].payload]
  {
    var es := Recreated(stream, run, at);
    var e1, e2, e3 := es[0], es[1], es[2];
    assert [] + [e1] == [e1] && [e1] + [e2] == [e1, e2] && [e1, e2] + [e3] == es;
    InStream([], e1, stream);
    InStream([e1], e2, stream);
    InStream([e1, e2], e3, stream);
  }

  lemma InStream(es: seq<Envelope<Payload>>, e: Envelope<Payload>, stream: string)
    requires e.streamId == stream
    ensures PayloadsOf(es + [e], stream) == PayloadsOf(es, stream) + [e.payload]
    ensures StreamLength(es + [e], stream) == StreamLength(es, stream) + 1
    ensures Contiguous(es + [e]) <==> Contiguous(es) && e.streamVersion == StreamLength(es, stream) + 1
  {
    PayloadsNext(es, e, stream);
    StreamLengthNext(es, e, stream);
    assert (es + [e])[..|es + [e]|-1] == es;
  }

  /** The ledger records that the request went out, and the run it rebuilds is safe to retry. */
  lemma SecondCreationForgets(stream: string, run: D.Run, at: string)
    requires D.Limit(run).Some?
    ensures var es := Recreated(stream, run, at);
      && Contiguous(es) && Fold(Runs(), Origin(), es) == Ok(Rebuilding(stream, Fresh(run), 3))
      && (exists p :: p in PayloadsOf(es, stream) && Crossing(p))
      && R.ClassifyBoundary(Fresh(run).run.boundary) == R.SafeToRetry
  {
    RecreatedFolds(stream, run, at);
    RecreatedIsContiguous(stream, run, at);
    assert Crossing(PayloadsOf(Recreated(stream, run, at), stream)[1]);
  }
}
