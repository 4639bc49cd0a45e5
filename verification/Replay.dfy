/** Deterministic state reconstruction: a fold over the ledger, with its skip and gap rules. */
module Replay {
  import opened Prelude
  import opened EventStore

  /** The reducers: which payloads may open a stream, and the next state, or `None` when refused. */
  datatype Reducer<!P, !S> = Reducer(creates: P -> bool, reduce: (Option<S>, P) -> Option<S>)

  datatype Replayed<S> = Replayed(aggregates: map<string, S>, versions: map<string, nat>, applied: nat, skipped: nat)

  datatype ReplayError = BrokenChain | TargetOutOfRange | StreamGap | NoPriorState | ReducerRefused
                       | ManifestInvalid | LedgerDigestMismatch | EventIdMismatch | VersionMismatch

  function Origin<S>(): Replayed<S> {
    Replayed(map[], map[], 0, 0)
  }

  function Version<S>(st: Replayed<S>, s: string): nat {
    if s in st.versions then st.versions[s] else 0
  }

  function Current<S>(st: Replayed<S>, s: string): Option<S> {
    if s in st.aggregates then Some(st.aggregates[s]) else None
  }

  /** The next state of one stream: a mutation of a stream without state is refused. */
  function Reduced<P, S>(r: Reducer<P, S>, current: Option<S>, payload: P): Result<S, ReplayError> {
    if !r.creates(payload) && current.None? then Err(NoPriorState)
    else
      match r.reduce(current, payload)
      case None => Err(ReducerRefused)
      case Some(next) => Ok(next)
  }

  function Apply<P, S>(r: Reducer<P, S>, st: Replayed<S>, e: Envelope<P>): Result<Replayed<S>, ReplayError> {
    if e.streamVersion <= Version(st, e.streamId) then Ok(st.(skipped := st.skipped + 1))
    else if e.streamVersion != Version(st, e.streamId) + 1 then Err(StreamGap)
    else
      match Reduced(r, Current(st, e.streamId), e.payload)
      case Err(error) => Err(error)
      case Ok(next) =>
        Ok(Replayed(st.aggregates[e.streamId := next], st.versions[e.streamId := e.streamVersion], st.applied + 1,
            st.skipped))
  }

  function Fold<P, S>(r: Reducer<P, S>, st: Replayed<S>, es: seq<Envelope<P>>): Result<Replayed<S>, ReplayError> {
    if es == [] then Ok(st)
    else
      match Fold(r, st, es[..|es|-1])
      case Err(error) => Err(error)
      case Ok(before) => Apply(r, before, es[|es|-1])
  }

  lemma FoldNext<P, S>(r: Reducer<P, S>, st: Replayed<S>, es: seq<Envelope<P>>, e: Envelope<P>)
    ensures Fold(r, st, es + [e]) ==
            match Fold(r, st, es) case Err(error) => Err(error) case Ok(before) => Apply(r, before, e)
  {
    assert (es + [e])[..|es + [e]|-1] == es;
  }

  /** Folding in two parts is folding at once; an error of the first part is the error of the whole. */
  lemma {:induction false} FoldConcat<P, S>(r: Reducer<P, S>, st: Replayed<S>, a: seq<Envelope<P>>, b: seq<Envelope<P>>)
    ensures Fold(r, st, a + b) ==
            match Fold(r, st, a) case Err(error) => Err(error) case Ok(mid) => Fold(r, mid, b)
  {
    if b == [] {
      assert a + b == a;
    } else {
      var init, last := b[..|b|-1], b[|b|-1];
      FoldConcat(r, st, a, init);
      assert a + b == (a + init) + [last];
      FoldNext(r, st, a + init, last);
    }
  }

  function FullReplay<P, S>(h: Hashing<P>, r: Reducer<P, S>, rows: seq<Row<P>>): Result<Replayed<S>, ReplayError> {
    if !Verifies(h, rows) then Err(BrokenChain) else Fold(r, Origin(), Envelopes(rows))
  }

  // The replay procedures ---------------------------------------------------------------------

  class ReplayState<P, S> {
    var aggregates: map<string, S>
    var versions: map<string, nat>
    var applied: nat
    var skipped: nat

    function View(): Replayed<S>
      reads this
    {
      Replayed(aggregates, versions, applied, skipped)
    }

    constructor ()
      ensures View() == Origin()
    {
      aggregates, versions, applied, skipped := map[], map[], 0, 0;
    }

    /** Folds one event; a refused event changes nothing. */
    method ApplyEnvelope(r: Reducer<P, S>, e: Envelope<P>) returns (outcome: Result<(), ReplayError>)
      modifies this
      ensures match Apply(r, old(View()), e)
              case Ok(st) => outcome.Ok? && View() == st
              case Err(error) => outcome == Err(error) && View() == old(View())
    {
      var currentVersion := if e.streamId in versions then versions[e.streamId] else 0;
      if e.streamVersion <= currentVersion {
        skipped := skipped + 1;
        return Ok(());
      }
      if e.streamVersion != currentVersion + 1 {
        return Err(StreamGap);
      }
      var current := if e.streamId in aggregates then Some(aggregates[e.streamId]) else None;
      if !r.creates(e.payload) && current.None? {
        return Err(NoPriorState);
      }
      var next := r.reduce(current, e.payload);
      if next.None? {
        return Err(ReducerRefused);
      }
      aggregates := aggregates[e.streamId := next.value];
      versions := versions[e.streamId := e.streamVersion];
      applied := applied + 1;
      return Ok(());
    }

    method FoldEvents(r: Reducer<P, S>, es: seq<Envelope<P>>) returns (outcome: Result<(), ReplayError>)
      modifies this
      ensures match Fold(r, old(View()), es)
              case Ok(st) => outcome.Ok? && View() == st
              case Err(error) => outcome == Err(error)
    {
      for n := 0 to |es|
        invariant Fold(r, old(View()), es[..n]) == Ok(View())
      {
        assert es[..n+1] == es[..n] + [es[n]];
        FoldNext(r, old(View()), es[..n], es[n]);
        outcome := ApplyEnvelope(r, es[n]);
        if outcome.Err? {
          assert es == es[..n+1] + es[n+1..];
          FoldConcat(r, old(View()), es[..n+1], es[n+1..]);
          return;
        }
      }
      assert es[..|es|] == es;
      return Ok(());
    }
  }

  /** Rebuilds the state exactly through `target`, after verifying the whole chain. */
  method ReplayToSequence<P(==), S>(store: Store<P, S>, r: Reducer<P, S>, target: int)
    returns (outcome: Result<(), ReplayError>, state: ReplayState<P, S>)
    ensures fresh(state)
    ensures if !Verifies(store.hashing, store.rows) then outcome == Err(BrokenChain)
            else if !(0 <= target <= |store.rows|) then outcome == Err(TargetOutOfRange)
            else match Fold(r, Origin(), Envelopes(store.rows)[..target])
                 case Ok(st) => outcome.Ok? && state.View() == st
                 case Err(error) => outcome == Err(error)
  {
    state := new ReplayState();
    var chain := store.VerifyChain();
    if chain.Err? {
      return Err(BrokenChain), state;
    }
    var head := |store.rows|;
    if target < 0 || target > head {
      return Err(TargetOutOfRange), state;
    }
    outcome := state.FoldEvents(r, Envelopes(store.rows)[..target]);
  }

  // What a fold from the origin establishes ---------------------------------------------------

  ghost predicate Tracks<P, S>(st: Replayed<S>, es: seq<Envelope<P>>) {
    && st.applied + st.skipped == |es|
    && st.versions.Keys == st.aggregates.Keys
    && (forall s :: s in st.versions ==> st.versions[s] > 0)
    && (forall e :: e in es ==> e.streamVersion <= Version(st, e.streamId))
  }

  lemma {:induction false} FoldTracks<P, S>(r: Reducer<P, S>, es: seq<Envelope<P>>)
    requires Fold(r, Origin(), es).Ok?
    ensures Tracks(Fold(r, Origin(), es).value, es)
  {
    if es != [] {
      var init, last := es[..|es|-1], es[|es|-1];
      FoldTracks(r, init);
      assert es == init + [last];
      TracksNext(r, Fold(r, Origin(), init).value, init, last);
    }
  }

  lemma TracksNext<P, S>(r: Reducer<P, S>, st: Replayed<S>, es: seq<Envelope<P>>, last: Envelope<P>)
    requires Tracks(st, es) && Apply(r, st, last).Ok?
    ensures Tracks(Apply(r, st, last).value, es + [last])
  {
    var st' := Apply(r, st, last).value;
    assert forall s :: Version(st, s) <= Version(st', s);
    assert last.streamVersion <= Version(st', last.streamId);
  }

  /** Re-delivering any event already folded changes nothing but the skip count. */
  lemma RedeliveryIsNoOp<P, S>(r: Reducer<P, S>, es: seq<Envelope<P>>, e: Envelope<P>)
    requires Fold(r, Origin(), es).Ok? && e in es
    ensures var st := Fold(r, Origin(), es).value; Apply(r, st, e) == Ok(st.(skipped := st.skipped + 1))
  {
    FoldTracks(r, es);
  }

  /** At-least-once delivery: a run of duplicates anywhere leaves every later outcome as it was. */
  lemma {:induction false} DuplicatesAbsorbed<P, S>(r: Reducer<P, S>, a: seq<Envelope<P>>, dups: seq<Envelope<P>>,
                                                    b: seq<Envelope<P>>)
    requires Fold(r, Origin(), a).Ok? && forall e :: e in dups ==> e in a
    ensures Fold(r, Origin(), a + dups + b) ==
            match Fold(r, Origin(), a + b)
            case Ok(st) => Ok(st.(skipped := st.skipped + |dups|))
            case Err(error) => Err(error)
  {
    var mid := Fold(r, Origin(), a).value;
    FoldDuplicates(r, a, mid, dups);
    FoldConcat(r, Origin(), a, dups);
    FoldConcat(r, Origin(), a + dups, b);
    FoldConcat(r, Origin(), a, b);
    SkipsDoNotMatter(r, mid, |dups|, b);
  }

  lemma {:induction false} FoldDuplicates<P, S>(r: Reducer<P, S>, a: seq<Envelope<P>>, mid: Replayed<S>,
                                                dups: seq<Envelope<P>>)
    requires Fold(r, Origin(), a) == Ok(mid) && forall e :: e in dups ==> e in a
    ensures Fold(r, mid, dups) == Ok(mid.(skipped := mid.skipped + |dups|))
  {
    if dups != [] {
      FoldDuplicates(r, a, mid, dups[..|dups|-1]);
      assert dups[|dups|-1] in a;
      FoldTracks(r, a);
    }
  }

  lemma {:induction false} SkipsDoNotMatter<P, S>(r: Reducer<P, S>, st: Replayed<S>, k: nat, es: seq<Envelope<P>>)
    ensures Fold(r, st.(skipped := st.skipped + k), es) ==
            match Fold(r, st, es)
            case Ok(end) => Ok(end.(skipped := end.skipped + k))
            case Err(error) => Err(error)
  {
    if es != [] {
      SkipsDoNotMatter(r, st, k, es[..|es|-1]);
    }
  }

  // Applied events and versions ---------------------------------------------------------------

  ghost function Sum(versions: map<string, nat>): nat
    decreases |versions|
  {
    if versions == map[] then 0
    else
      var s :| s in versions;
      versions[s] + Sum(versions - {s})
  }

  lemma {:induction false} SumWithout(versions: map<string, nat>, s: string)
    requires s in versions
    ensures Sum(versions) == versions[s] + Sum(versions - {s})
    decreases |versions|
  {
    var picked :| picked in versions && Sum(versions) == versions[picked] + Sum(versions - {picked});
    if picked != s {
      SumWithout(versions - {picked}, s);
      SumWithout(versions - {s}, picked);
      assert versions - {picked} - {s} == versions - {s} - {picked};
    }
  }

  lemma SumRaised(versions: map<string, nat>, s: string)
    ensures Sum(versions[s := (if s in versions then versions[s] else 0) + 1]) == Sum(versions) + 1
  {
    var raised := versions[s := (if s in versions then versions[s] else 0) + 1];
    SumWithout(raised, s);
    if s in versions {
      SumWithout(versions, s);
      assert raised - {s} == versions - {s};
    } else {
      assert raised - {s} == versions;
    }
  }

  /** The number of applied events is the sum of all stream versions. */
  lemma {:induction false} AppliedIsSumOfVersions<P, S>(r: Reducer<P, S>, es: seq<Envelope<P>>)
    requires Fold(r, Origin(), es).Ok?
    ensures Fold(r, Origin(), es).value.applied == Sum(Fold(r, Origin(), es).value.versions)
  {
    if es != [] {
      AppliedIsSumOfVersions(r, es[..|es|-1]);
      var before := Fold(r, Origin(), es[..|es|-1]).value;
      SumRaised(before.versions, es[|es|-1].streamId);
    }
  }

  // Streams are independent -------------------------------------------------------------------

  function PayloadsOf<P>(es: seq<Envelope<P>>, s: string): seq<P> {
    if es == [] then []
    else PayloadsOf(es[..|es|-1], s) + if es[|es|-1].streamId == s then [es[|es|-1].payload] else []
  }

  /** One more payload of a stream. */
  function StreamNext<P, S>(r: Reducer<P, S>, prior: Result<Option<S>, ReplayError>, p: P)
    : Result<Option<S>, ReplayError>
  {
    if prior.Err? then prior
    else
      var next := Reduced(r, prior.value, p);
      if next.Err? then Err(next.error) else Ok(Some(next.value))
  }

  /** One stream folded alone, without versions: the reference for what replay rebuilds. */
  function StreamState<P, S>(r: Reducer<P, S>, payloads: seq<P>): Result<Option<S>, ReplayError> {
    if payloads == [] then Ok(None)
    else StreamNext(r, StreamState(r, payloads[..|payloads|-1]), payloads[|payloads|-1])
  }

  lemma PayloadsNext<P>(es: seq<Envelope<P>>, e: Envelope<P>, s: string)
    ensures PayloadsOf(es + [e], s) == if e.streamId == s then PayloadsOf(es, s) + [e.payload] else PayloadsOf(es, s)
  {
    assert (es + [e])[..|es + [e]|-1] == es;
  }

  lemma {:induction false} PayloadsCount<P>(es: seq<Envelope<P>>, s: string)
    ensures |PayloadsOf(es, s)| == StreamLength(es, s)
  {
    if es != [] {
      PayloadsCount(es[..|es|-1], s);
    }
  }

  lemma StreamStateNext<P, S>(r: Reducer<P, S>, payloads: seq<P>, p: P)
    ensures StreamState(r, payloads + [p]) == StreamNext(r, StreamState(r, payloads), p)
  {
    assert (payloads + [p])[..|payloads + [p]|-1] == payloads;
  }

  /** What a replay of `es` must hold for stream `s`. */
  ghost predicate Rebuilt<P, S>(r: Reducer<P, S>, es: seq<Envelope<P>>, st: Replayed<S>, s: string) {
    Version(st, s) == StreamLength(es, s) && StreamState(r, PayloadsOf(es, s)) == Ok(Current(st, s))
  }

  lemma RebuiltNext<P, S>(r: Reducer<P, S>, init: seq<Envelope<P>>, e: Envelope<P>, st: Replayed<S>, s: string)
    requires e.streamVersion == StreamLength(init, e.streamId) + 1
    requires Rebuilt(r, init, st, e.streamId) && Rebuilt(r, init, st, s)
    requires Apply(r, st, e).Ok?
    ensures Rebuilt(r, init + [e], Apply(r, st, e).value, s)
  {
    var es := init + [e];
    NextOfStream(r, init, e, es, s);
    AppliedStream(r, st, e, s);
  }

  /** Length and fold of one stream, one event later. */
  lemma NextOfStream<P, S>(r: Reducer<P, S>, init: seq<Envelope<P>>, e: Envelope<P>, es: seq<Envelope<P>>, s: string)
    requires es == init + [e]
    ensures StreamLength(es, s) == StreamLength(init, s) + if e.streamId == s then 1 else 0
    ensures StreamState(r, PayloadsOf(es, s)) ==
            if e.streamId == s then StreamNext(r, StreamState(r, PayloadsOf(init, s)), e.payload)
            else StreamState(r, PayloadsOf(init, s))
  {
    StreamLengthNext(init, e, s);
    PayloadsNext(init, e, s);
    StreamStateNext(r, PayloadsOf(init, s), e.payload);
  }

  /** What an accepted event in turn does to version and state of a stream. */
  lemma AppliedStream<P, S>(r: Reducer<P, S>, st: Replayed<S>, e: Envelope<P>, s: string)
    requires e.streamVersion == Version(st, e.streamId) + 1 && Apply(r, st, e).Ok?
    ensures var st' := Apply(r, st, e).value;
      && Version(st', s) == Version(st, s) + (if s == e.streamId then 1 else 0)
      && Ok(Current(st', s)) == if s == e.streamId then StreamNext(r, Ok(Current(st, s)), e.payload)
          else Ok(Current(st, s))
  {
  }

  lemma ApplyIsStreamNext<P, S>(r: Reducer<P, S>, init: seq<Envelope<P>>, e: Envelope<P>, st: Replayed<S>)
    requires e.streamVersion == StreamLength(init, e.streamId) + 1 && Rebuilt(r, init, st, e.streamId)
    ensures Apply(r, st, e).Ok? <==> StreamState(r, PayloadsOf(init + [e], e.streamId)).Ok?
    ensures Apply(r, st, e).Ok? ==> Apply(r, st, e).value.skipped == st.skipped
  {
    PayloadsNext(init, e, e.streamId);
    StreamStateNext(r, PayloadsOf(init, e.streamId), e.payload);
  }

  lemma StreamsFoldBefore<P, S>(r: Reducer<P, S>, init: seq<Envelope<P>>, e: Envelope<P>, s: string)
    requires StreamState(r, PayloadsOf(init, s)).Err?
    ensures StreamState(r, PayloadsOf(init + [e], s)).Err?
  {
    PayloadsNext(init, e, s);
    StreamStateNext(r, PayloadsOf(init, s), e.payload);
  }

  ghost predicate AllStreamsFold<P(!new), S(!new)>(r: Reducer<P, S>, es: seq<Envelope<P>>) {
    forall s :: StreamState(r, PayloadsOf(es, s)).Ok?
  }

  ghost predicate AllRebuilt<P(!new), S(!new)>(r: Reducer<P, S>, es: seq<Envelope<P>>, st: Replayed<S>) {
    forall s :: Rebuilt(r, es, st, s)
  }

  lemma ReplayStepIsPerStream<P(!new), S(!new)>(r: Reducer<P, S>, init: seq<Envelope<P>>, e: Envelope<P>,
                                                st: Replayed<S>)
    requires e.streamVersion == StreamLength(init, e.streamId) + 1 && AllRebuilt(r, init, st)
    ensures Apply(r, st, e).Ok? <==> AllStreamsFold(r, init + [e])
    ensures Apply(r, st, e).Ok? ==> Apply(r, st, e).value.skipped == st.skipped
    ensures Apply(r, st, e).Ok? ==> AllRebuilt(r, init + [e], Apply(r, st, e).value)
  {
    assert Rebuilt(r, init, st, e.streamId);
    ApplyIsStreamNext(r, init, e, st);
    if Apply(r, st, e).Ok? {
      forall s
        ensures Rebuilt(r, init + [e], Apply(r, st, e).value, s) && StreamState(r, PayloadsOf(init + [e], s)).Ok?
      {
        assert Rebuilt(r, init, st, s);
        RebuiltNext(r, init, e, st, s);
      }
    } else {
      assert StreamState(r, PayloadsOf(init + [e], e.streamId)).Err?;
    }
  }

  /**
   Replay of a contiguous ledger succeeds exactly when every stream folds alone, nothing is skipped,
   and each stream ends in the state and version it has alone: how streams interleave is immaterial.
   */
  lemma {:induction false} ReplayIsPerStream<P(!new), S(!new)>(r: Reducer<P, S>, es: seq<Envelope<P>>)
    requires Contiguous(es)
    ensures Fold(r, Origin(), es).Ok? <==> AllStreamsFold(r, es)
    ensures Fold(r, Origin(), es).Ok? ==> Fold(r, Origin(), es).value.skipped == 0
    ensures Fold(r, Origin(), es).Ok? ==> AllRebuilt(r, es, Fold(r, Origin(), es).value)
  {
    if es != [] {
      var init, e := es[..|es|-1], es[|es|-1];
      assert es == init + [e];
      ReplayIsPerStream(r, init);
      if Fold(r, Origin(), init).Ok? {
        ReplayStepIsPerStream(r, init, e, Fold(r, Origin(), init).value);
      } else {
        var s :| StreamState(r, PayloadsOf(init, s)).Err?;
        StreamsFoldBefore(r, init, e, s);
      }
    }
  }

  lemma SameRebuilt<P(!new), S(!new)>(r: Reducer<P, S>, a: seq<Envelope<P>>, b: seq<Envelope<P>>,
                                      x: Replayed<S>, y: Replayed<S>, s: string)
    requires Rebuilt(r, a, x, s) && Rebuilt(r, b, y, s) && PayloadsOf(a, s) == PayloadsOf(b, s)
    ensures Version(x, s) == Version(y, s) && Current(x, s) == Current(y, s)
  {
    PayloadsCount(a, s);
    PayloadsCount(b, s);
  }

  lemma SameMaps<S>(x: Replayed<S>, y: Replayed<S>)
    requires forall s :: s in x.versions ==> x.versions[s] > 0
    requires forall s :: s in y.versions ==> y.versions[s] > 0
    requires forall s :: Version(x, s) == Version(y, s)
    requires forall s :: Current(x, s) == Current(y, s)
    ensures x.versions == y.versions && x.aggregates == y.aggregates
  {
    forall s
      ensures s in x.versions <==> s in y.versions
      ensures s in x.versions ==> x.versions[s] == y.versions[s]
    {
      assert Version(x, s) == Version(y, s);
    }
    forall s
      ensures s in x.aggregates <==> s in y.aggregates
      ensures s in x.aggregates ==> x.aggregates[s] == y.aggregates[s]
    {
      assert Current(x, s) == Current(y, s);
    }
  }

  /** Two contiguous ledgers with equal streams rebuild equal states, or both fail. */
  lemma InterleavingImmaterial<P(!new), S(!new)>(r: Reducer<P, S>, a: seq<Envelope<P>>, b: seq<Envelope<P>>)
    requires Contiguous(a) && Contiguous(b) && forall s :: PayloadsOf(a, s) == PayloadsOf(b, s)
    ensures Fold(r, Origin(), a).Ok? <==> Fold(r, Origin(), b).Ok?
    ensures Fold(r, Origin(), a).Ok? ==>
              && Fold(r, Origin(), a).value.aggregates == Fold(r, Origin(), b).value.aggregates
              && Fold(r, Origin(), a).value.versions == Fold(r, Origin(), b).value.versions
  {
    ReplayIsPerStream(r, a);
    ReplayIsPerStream(r, b);
    assert AllStreamsFold(r, a) <==> AllStreamsFold(r, b);
    if Fold(r, Origin(), a).Ok? {
      FoldTracks(r, a);
      FoldTracks(r, b);
      var x, y := Fold(r, Origin(), a).value, Fold(r, Origin(), b).value;
      forall s
        ensures Version(x, s) == Version(y, s) && Current(x, s) == Current(y, s)
      {
        assert Rebuilt(r, a, x, s) && Rebuilt(r, b, y, s);
        SameRebuilt(r, a, b, x, y, s);
      }
      SameMaps(x, y);
    }
  }

  // Replay rebuilds the stored snapshots ------------------------------------------------------

  function Snapshot<P, S>(db: Db<P, S>, s: string): Option<S> {
    if s in db.aggregates then Some(db.aggregates[s].state) else None
  }

  /** Every append carries, as the new snapshot, what the reducers make of its event. */
  predicate Faithful<P, S(==)>(h: Hashing<P>, r: Reducer<P, S>, db: Db<P, S>, appends: seq<AppendRequest<P, S>>) {
    appends == [] ||
    (var init, a := appends[..|appends|-1], appends[|appends|-1];
     && Faithful(h, r, db, init)
     && (AppendAll(h, db, init).Ok? ==>
           Reduced(r, Snapshot(AppendAll(h, db, init).value, a.streamId), a.payload) == Ok(a.state)))
  }

  ghost predicate Mirrors<P, S>(r: Reducer<P, S>, db: Db<P, S>, st: Replayed<S>) {
    && Fold(r, Origin(), Envelopes(db.rows)) == Ok(st)
    && forall s :: Version(st, s) == CurrentVersion(db, s) && Current(st, s) == Snapshot(db, s)
  }

  lemma MirrorNext<P, S>(h: Hashing<P>, r: Reducer<P, S>, db: Db<P, S>, st: Replayed<S>, a: AppendRequest<P, S>)
    requires Mirrors(r, db, st) && Reduced(r, Snapshot(db, a.streamId), a.payload) == Ok(a.state)
    ensures exists st' :: Mirrors(r, AppendOne(h, db, a), st')
  {
    var e := Envelope(a.eventId, a.streamId, CurrentVersion(db, a.streamId) + 1, a.payload);
    AppendOneRow(h, db, a);
    FoldNext(r, Origin(), Envelopes(db.rows), e);
    assert Version(st, a.streamId) == CurrentVersion(db, a.streamId) &&
        Current(st, a.streamId) == Snapshot(db, a.streamId);
    var st' := Apply(r, st, e).value;
    forall s
      ensures Version(st', s) == CurrentVersion(AppendOne(h, db, a), s)
      ensures Current(st', s) == Snapshot(AppendOne(h, db, a), s)
    {
      assert Version(st, s) == CurrentVersion(db, s) && Current(st, s) == Snapshot(db, s);
      AppliedSnapshot(h, r, db, st, a, e, s);
    }
    assert Mirrors(r, AppendOne(h, db, a), st');
  }

  lemma AppliedSnapshot<P, S>(h: Hashing<P>, r: Reducer<P, S>, db: Db<P, S>, st: Replayed<S>, a: AppendRequest<P, S>,
                              e: Envelope<P>, s: string)
    requires e == Envelope(a.eventId, a.streamId, CurrentVersion(db, a.streamId) + 1, a.payload)
    requires Version(st, a.streamId) == CurrentVersion(db, a.streamId) &&
      Current(st, a.streamId) == Snapshot(db, a.streamId)
    requires Version(st, s) == CurrentVersion(db, s) && Current(st, s) == Snapshot(db, s)
    requires Reduced(r, Snapshot(db, a.streamId), a.payload) == Ok(a.state)
    ensures var next, st' := AppendOne(h, db, a), Apply(r, st, e);
      st'.Ok? && Version(st'.value, s) == CurrentVersion(next, s) && Current(st'.value, s) == Snapshot(next, s)
  {
  }

  /** Full replay of a store written by faithful commands succeeds and rebuilds exactly its snapshots and versions. */
  lemma {:induction false} ReplayRebuildsSnapshots<P, S>(h: Hashing<P>, r: Reducer<P, S>,
                                                         appends: seq<AppendRequest<P, S>>)
    requires AppendAll(h, Db([], map[]), appends).Ok? && Faithful(h, r, Db([], map[]), appends)
    ensures exists st :: Mirrors(r, AppendAll(h, Db([], map[]), appends).value, st)
  {
    var empty: Db<P, S> := Db([], map[]);
    if appends == [] {
      assert Envelopes(empty.rows) == [];
      assert Mirrors(r, empty, Origin());
    } else {
      var init, a := appends[..|appends|-1], appends[|appends|-1];
      AppendAllStep(h, empty, appends);
      ReplayRebuildsSnapshots(h, r, init);
      var st :| Mirrors(r, AppendAll(h, empty, init).value, st);
      MirrorNext(h, r, AppendAll(h, empty, init).value, st, a);
    }
  }
}
