/** Which commands the ledger accepts, and what it then holds, said on the appends themselves. */
module StoreCommits {
  import opened Prelude
  import opened EventStore

  /** How many of the appends go to the stream. */
  function CountTo<P, S>(appends: seq<AppendRequest<P, S>>, s: string): nat {
    if appends == [] then 0
    else CountTo(appends[..|appends|-1], s) + if appends[|appends|-1].streamId == s then 1 else 0
  }

  /** The append finds the stream at the length it expects, and its event id unused. */
  ghost predicate Fits<P, S>(db: Db<P, S>, appends: seq<AppendRequest<P, S>>, n: nat)
    requires n < |appends|
  {
    && appends[n].expectedVersion ==
       StreamLength(Envelopes(db.rows), appends[n].streamId) + CountTo(appends[..n], appends[n].streamId)
    && (forall i :: 0 <= i < |db.rows| ==> db.rows[i].envelope.eventId != appends[n].eventId)
    && forall m :: 0 <= m < n ==> appends[m].eventId != appends[n].eventId
  }

  /** The ledger and the streams after the appends. */
  ghost predicate Follows<P, S>(db: Db<P, S>, appends: seq<AppendRequest<P, S>>, db': Db<P, S>) {
    RowsFollow(db.rows, appends, db'.rows) && forall s :: FollowsAt(db, appends, db', s)
  }

  /** The rows before, and one row for each append in order. */
  ghost predicate RowsFollow<P, S>(rows: seq<Row<P>>, appends: seq<AppendRequest<P, S>>, rows': seq<Row<P>>) {
    && |rows'| == |rows| + |appends|
    && (forall i :: 0 <= i < |rows| ==> rows'[i] == rows[i])
    && forall n :: 0 <= n < |appends| ==>
         rows'[|rows| + n].envelope ==
         Envelope(appends[n].eventId, appends[n].streamId, appends[n].expectedVersion + 1, appends[n].payload)
  }

  /** A stream has the state of its last append, and keeps the kind it was opened with. */
  ghost predicate FollowsAt<P, S>(db: Db<P, S>, appends: seq<AppendRequest<P, S>>, db': Db<P, S>, s: string) {
    && StreamLength(Envelopes(db'.rows), s) == StreamLength(Envelopes(db.rows), s) + CountTo(appends, s)
    && (CountTo(appends, s) == 0 ==>
          (s in db'.aggregates <==> s in db.aggregates) &&
          (s in db.aggregates ==> db'.aggregates[s] == db.aggregates[s]))
    && (CountTo(appends, s) > 0 ==>
          && s in db'.aggregates
          && db'.aggregates[s].version == StreamLength(Envelopes(db'.rows), s)
          && db'.aggregates[s].state == LastTo(appends, s).state
          && db'.aggregates[s].kind == if s in db.aggregates then db.aggregates[s].kind else FirstTo(appends, s).kind)
  }

  function LastTo<P, S>(appends: seq<AppendRequest<P, S>>, s: string): (a: AppendRequest<P, S>)
    requires CountTo(appends, s) > 0
    ensures a in appends && a.streamId == s
  {
    if appends[|appends|-1].streamId == s then appends[|appends|-1] else LastTo(appends[..|appends|-1], s)
  }

  function FirstTo<P, S>(appends: seq<AppendRequest<P, S>>, s: string): (a: AppendRequest<P, S>)
    requires CountTo(appends, s) > 0
    ensures a in appends && a.streamId == s
  {
    if CountTo(appends[..|appends|-1], s) > 0 then FirstTo(appends[..|appends|-1], s) else appends[|appends|-1]
  }

  lemma FollowsNext<P(!new), S(!new)>(h: Hashing<P>, db: Db<P, S>, appends: seq<AppendRequest<P, S>>,
                                      before: Db<P, S>, after: Db<P, S>)
    requires appends != [] && Consistent(h, before) && Follows(db, appends[..|appends|-1], before)
    requires Consistent(h, db)
    requires after == AppendOne(h, before, appends[|appends|-1])
    requires CurrentVersion(before, appends[|appends|-1].streamId) == appends[|appends|-1].expectedVersion
    ensures Follows(db, appends, after)
  {
    RowsFollowNext(h, db, appends, before, after);
    var front := appends[..|appends|-1];
    forall s
      ensures FollowsAt(db, appends, after, s)
    {
      assert FollowsAt(db, front, before, s);
      LengthNext(h, before, appends[|appends|-1], s);
      FollowsAtNext(h, db, appends, before, after, s);
    }
  }

  lemma RowsFollowNext<P, S>(h: Hashing<P>, db: Db<P, S>, appends: seq<AppendRequest<P, S>>,
                             before: Db<P, S>, after: Db<P, S>)
    requires appends != [] && RowsFollow(db.rows, appends[..|appends|-1], before.rows)
    requires after == AppendOne(h, before, appends[|appends|-1])
    requires CurrentVersion(before, appends[|appends|-1].streamId) == appends[|appends|-1].expectedVersion
    ensures RowsFollow(db.rows, appends, after.rows)
  {
    var front := appends[..|appends|-1];
    forall n | 0 <= n < |appends|
      ensures after.rows[|db.rows| + n].envelope ==
              Envelope(appends[n].eventId, appends[n].streamId, appends[n].expectedVersion + 1, appends[n].payload)
    {
      if n < |front| {
        assert appends[n] == front[n];
      }
    }
  }

  lemma LengthNext<P, S>(h: Hashing<P>, before: Db<P, S>, a: AppendRequest<P, S>, s: string)
    ensures StreamLength(Envelopes(AppendOne(h, before, a).rows), s) ==
            StreamLength(Envelopes(before.rows), s) + if a.streamId == s then 1 else 0
  {
    AppendOneRow(h, before, a);
    StreamLengthNext(Envelopes(before.rows),
                     Envelope(a.eventId, a.streamId, CurrentVersion(before, a.streamId) + 1, a.payload), s);
  }

  lemma FollowsAtNext<P(!new), S(!new)>(h: Hashing<P>, db: Db<P, S>, appends: seq<AppendRequest<P, S>>,
                                        before: Db<P, S>, after: Db<P, S>, s: string)
    requires appends != [] && Consistent(h, before) && FollowsAt(db, appends[..|appends|-1], before, s)
    requires Consistent(h, db)
    requires after == AppendOne(h, before, appends[|appends|-1])
    requires StreamLength(Envelopes(after.rows), s) ==
             StreamLength(Envelopes(before.rows), s) + if appends[|appends|-1].streamId == s then 1 else 0
    ensures FollowsAt(db, appends, after, s)
  {
  }

  ghost predicate AllFit<P, S>(db: Db<P, S>, appends: seq<AppendRequest<P, S>>) {
    forall n :: 0 <= n < |appends| ==> Fits(db, appends, n)
  }

  lemma AllFitNext<P, S>(db: Db<P, S>, appends: seq<AppendRequest<P, S>>)
    requires appends != []
    ensures AllFit(db, appends) <==> AllFit(db, appends[..|appends|-1]) && Fits(db, appends, |appends| - 1)
  {
    var front := appends[..|appends|-1];
    forall n | 0 <= n < |front|
      ensures Fits(db, front, n) <==> Fits(db, appends, n)
    {
      assert front[..n] == appends[..n];
    }
  }

  /** A consistent store accepts a command exactly when each append fits, and then holds what they say. */
  lemma {:induction false} AcceptedExactly<P(!new), S(!new)>(h: Hashing<P>, db: Db<P, S>,
                                                             appends: seq<AppendRequest<P, S>>)
    requires Consistent(h, db)
    ensures AppendAll(h, db, appends).Ok? <==> AllFit(db, appends)
    ensures AppendAll(h, db, appends).Ok? ==> Follows(db, appends, AppendAll(h, db, appends).value)
  {
    if appends == [] {
      forall s
        ensures FollowsAt(db, appends, db, s)
      {
      }
    } else {
      AcceptedExactly(h, db, appends[..|appends|-1]);
      AllFitNext(db, appends);
      if AppendAll(h, db, appends[..|appends|-1]).Ok? {
        AcceptedNext(h, db, appends, AppendAll(h, db, appends[..|appends|-1]).value);
      }
    }
  }

  lemma AcceptedNext<P(!new), S(!new)>(h: Hashing<P>, db: Db<P, S>, appends: seq<AppendRequest<P, S>>, before: Db<P, S>)
    requires Consistent(h, db) && appends != [] && AppendAll(h, db, appends[..|appends|-1]) == Ok(before)
    requires Follows(db, appends[..|appends|-1], before)
    ensures AppendAll(h, db, appends).Ok? <==> Fits(db, appends, |appends| - 1)
    ensures AppendAll(h, db, appends).Ok? ==> Follows(db, appends, AppendAll(h, db, appends).value)
  {
    AppendAllConsistent(h, db, appends[..|appends|-1]);
    LastFits(h, db, appends, before);
    if AppendAll(h, db, appends).Ok? {
      FollowsNext(h, db, appends, before, AppendAll(h, db, appends).value);
    }
  }

  lemma LastFits<P(!new), S(!new)>(h: Hashing<P>, db: Db<P, S>, appends: seq<AppendRequest<P, S>>, before: Db<P, S>)
    requires appends != [] && Consistent(h, before) && Follows(db, appends[..|appends|-1], before)
    ensures var a := appends[|appends|-1];
      Fits(db, appends, |appends| - 1) <==>
        CurrentVersion(before, a.streamId) == a.expectedVersion && !EventIdTaken(before.rows, a.eventId)
  {
    assert FollowsAt(db, appends[..|appends|-1], before, appends[|appends|-1].streamId);
    IdsTaken(db.rows, appends, before.rows);
  }

  /** The event ids taken are those of the rows before and of the appends before. */
  lemma IdsTaken<P, S>(rows: seq<Row<P>>, appends: seq<AppendRequest<P, S>>, rows': seq<Row<P>>)
    requires appends != [] && RowsFollow(rows, appends[..|appends|-1], rows')
    ensures var id := appends[|appends|-1].eventId;
      EventIdTaken(rows', id) <==>
        (exists i :: 0 <= i < |rows| && rows[i].envelope.eventId == id) ||
        (exists m :: 0 <= m < |appends| - 1 && appends[m].eventId == id)
  {
    var front, id := appends[..|appends|-1], appends[|appends|-1].eventId;
    if EventIdTaken(rows', id) {
      var i :| 0 <= i < |rows'| && rows'[i].envelope.eventId == id;
      if i >= |rows| {
        assert rows'[|rows| + (i - |rows|)].envelope.eventId == front[i - |rows|].eventId;
      }
    }
    if i :| 0 <= i < |rows| && rows[i].envelope.eventId == id {
      assert rows'[i] == rows[i];
    }
    if m :| 0 <= m < |appends| - 1 && appends[m].eventId == id {
      assert rows'[|rows| + m].envelope.eventId == front[m].eventId;
    }
  }

  /** A refused command names an append whose stream, or whose event id, is not as it must be. */
  lemma {:induction false} RefusalIsTrue<P(!new), S(!new)>(h: Hashing<P>, db: Db<P, S>,
                                                           appends: seq<AppendRequest<P, S>>)
    requires Consistent(h, db)
    ensures match AppendAll(h, db, appends)
            case Ok(_) => true
            case Err(ConcurrencyConflict) => exists n :: 0 <= n < |appends| && WrongVersion(db, appends, n)
            case Err(DuplicateEventId) => exists n :: 0 <= n < |appends| && UsedId(db, appends, n)
            case Err(_) => false
  {
    if appends != [] {
      var front := appends[..|appends|-1];
      RefusalIsTrue(h, db, front);
      match AppendAll(h, db, front)
      case Ok(before) =>
        AcceptedExactly(h, db, front);
        AppendAllConsistent(h, db, front);
        RefusedLast(h, db, appends, before);
      case Err(_) =>
        forall n | 0 <= n < |front|
          ensures WrongVersion(db, front, n) ==> WrongVersion(db, appends, n)
          ensures UsedId(db, front, n) ==> UsedId(db, appends, n)
        {
          assert front[..n] == appends[..n];
        }
    }
  }

  ghost predicate WrongVersion<P, S>(db: Db<P, S>, appends: seq<AppendRequest<P, S>>, n: nat) {
    n < |appends| && appends[n].expectedVersion !=
      StreamLength(Envelopes(db.rows), appends[n].streamId) + CountTo(appends[..n], appends[n].streamId)
  }

  ghost predicate UsedId<P, S>(db: Db<P, S>, appends: seq<AppendRequest<P, S>>, n: nat) {
    && n < |appends|
    && ((exists i :: 0 <= i < |db.rows| && db.rows[i].envelope.eventId == appends[n].eventId) ||
        (exists m :: 0 <= m < n && appends[m].eventId == appends[n].eventId))
  }

  lemma RefusedLast<P(!new), S(!new)>(h: Hashing<P>, db: Db<P, S>, appends: seq<AppendRequest<P, S>>, before: Db<P, S>)
    requires appends != [] && Consistent(h, before) && Follows(db, appends[..|appends|-1], before)
    ensures var n, a := |appends| - 1, appends[|appends|-1];
      && (CurrentVersion(before, a.streamId) != a.expectedVersion ==> WrongVersion(db, appends, n))
      && (EventIdTaken(before.rows, a.eventId) ==> UsedId(db, appends, n))
  {
    assert FollowsAt(db, appends[..|appends|-1], before, appends[|appends|-1].streamId);
    IdsTaken(db.rows, appends, before.rows);
  }

  ghost predicate DistinctIds<P>(rows: seq<Row<P>>) {
    forall i, j :: 0 <= i < j < |rows| ==> rows[i].envelope.eventId != rows[j].envelope.eventId
  }

  /** No command ever records an event id twice. */
  lemma {:induction false} IdsStayDistinct<P, S>(h: Hashing<P>, db: Db<P, S>, appends: seq<AppendRequest<P, S>>)
    requires DistinctIds(db.rows) && AppendAll(h, db, appends).Ok?
    ensures DistinctIds(AppendAll(h, db, appends).value.rows)
  {
    if appends != [] {
      AppendAllStep(h, db, appends);
      IdsStayDistinct(h, db, appends[..|appends|-1]);
    }
  }

  /** The text of each link: the digest before, the payload's digest and the event id, parted by bars. */
  lemma LinkText<P>(h: Hashing<P>, es: seq<Envelope<P>>, e: Envelope<P>)
    ensures Chain(h, es + [e]) == h.sha(Chain(h, es) + "|" + h.payload(e.payload) + "|" + e.eventId)
    ensures es == [] ==> Chain(h, es) == GENESIS_CHAIN
  {
    ChainOfNext(h, es, e);
  }
}
