/** What replay rebuilds, stream by stream, as the trail of states its payloads lead through. */
module ReplayTrails {
  import opened Prelude
  import opened EventStore
  import opened Replay

  /** Each payload leads from one state to the next; the first must be one that may open a stream. */
  ghost predicate Leads<P, S>(r: Reducer<P, S>, payloads: seq<P>, states: seq<S>) {
    && |states| == |payloads|
    && (payloads != [] ==> r.creates(payloads[0]) && r.reduce(None, payloads[0]) == Some(states[0]))
    && forall i :: 1 <= i < |payloads| ==> r.reduce(Some(states[i - 1]), payloads[i]) == Some(states[i])
  }

  lemma {:induction false} TrailOf<P, S>(r: Reducer<P, S>, payloads: seq<P>) returns (states: seq<S>)
    requires StreamState(r, payloads).Ok?
    ensures Leads(r, payloads, states)
    ensures StreamState(r, payloads) == Ok(if states == [] then None else Some(states[|states|-1]))
  {
    if payloads == [] {
      states := [];
    } else {
      var before := TrailOf(r, payloads[..|payloads|-1]);
      states := before + [StreamState(r, payloads).value.value];
    }
  }

  lemma {:induction false} TrailFolds<P, S>(r: Reducer<P, S>, payloads: seq<P>, states: seq<S>)
    requires Leads(r, payloads, states)
    ensures StreamState(r, payloads) == Ok(if states == [] then None else Some(states[|states|-1]))
  {
    if payloads != [] {
      TrailFolds(r, payloads[..|payloads|-1], states[..|states|-1]);
    }
  }

  /** The payloads of a stream, in ledger order. */
  lemma {:induction false} PayloadAt<P>(es: seq<Envelope<P>>, i: nat)
    requires i < |es|
    ensures var s := es[i].streamId;
      && StreamLength(es[..i], s) < |PayloadsOf(es, s)| == StreamLength(es, s)
      && PayloadsOf(es, s)[StreamLength(es[..i], s)] == es[i].payload
  {
    var front, s := es[..|es|-1], es[i].streamId;
    PayloadsCount(es, s);
    PayloadsCount(front, s);
    if i < |front| {
      PayloadAt(front, i);
      assert front[..i] == es[..i];
    } else {
      assert es[..i] == front;
    }
  }

  ghost predicate HasTrail<P, S(!new)>(r: Reducer<P, S>, es: seq<Envelope<P>>, s: string) {
    exists states :: Leads(r, PayloadsOf(es, s), states)
  }

  lemma TrailExactly<P, S(!new)>(r: Reducer<P, S>, es: seq<Envelope<P>>, s: string)
    ensures HasTrail(r, es, s) <==> StreamState(r, PayloadsOf(es, s)).Ok?
  {
    if StreamState(r, PayloadsOf(es, s)).Ok? {
      var states := TrailOf(r, PayloadsOf(es, s));
    }
    if states :| Leads(r, PayloadsOf(es, s), states) {
      TrailFolds(r, PayloadsOf(es, s), states);
    }
  }

  /**
   A contiguous ledger replays exactly when the payloads of every stream lead somewhere, and then each
   stream stands where they lead: at the end of its trail, at the version that is its length.
   */
  lemma ReplayFollowsTrails<P(!new), S(!new)>(r: Reducer<P, S>, es: seq<Envelope<P>>)
    requires Contiguous(es)
    ensures Fold(r, Origin(), es).Ok? <==> forall s :: HasTrail(r, es, s)
    ensures Fold(r, Origin(), es).Ok? ==>
      forall s, states :: Leads(r, PayloadsOf(es, s), states) ==> EndsAt(Fold(r, Origin(), es).value, s, states)
  {
    ReplayIsPerStream(r, es);
    forall s
      ensures HasTrail(r, es, s) <==> StreamState(r, PayloadsOf(es, s)).Ok?
    {
      TrailExactly(r, es, s);
    }
    assert AllStreamsFold(r, es) <==> forall s :: HasTrail(r, es, s);
    if Fold(r, Origin(), es).Ok? {
      var st := Fold(r, Origin(), es).value;
      forall s, states | Leads(r, PayloadsOf(es, s), states)
        ensures EndsAt(st, s, states)
      {
        TrailFolds(r, PayloadsOf(es, s), states);
        PayloadsCount(es, s);
        assert Rebuilt(r, es, st, s);
        FoldTracks(r, es);
      }
    }
  }

  ghost predicate EndsAt<S>(st: Replayed<S>, s: string, states: seq<S>) {
    && (s in st.aggregates <==> states != []) && (s in st.versions <==> states != [])
    && (states != [] && s in st.aggregates && s in st.versions ==>
          st.aggregates[s] == states[|states|-1] && st.versions[s] == |states|)
  }

  /** After a replayed contiguous ledger: what was seen is skipped, what comes next is folded, a gap is refused. */
  lemma NextByVersion<P(!new), S(!new)>(r: Reducer<P, S>, es: seq<Envelope<P>>, e: Envelope<P>)
    requires Contiguous(es) && Fold(r, Origin(), es).Ok?
    ensures var st, seen := Fold(r, Origin(), es).value, StreamLength(es, e.streamId);
      && (e.streamVersion <= seen ==> Apply(r, st, e) == Ok(st.(skipped := st.skipped + 1)))
      && (Apply(r, st, e) == Err(StreamGap) <==> e.streamVersion > seen + 1)
      && (Apply(r, st, e) == Err(NoPriorState) ==> seen == 0 && !r.creates(e.payload))
  {
    ReplayIsPerStream(r, es);
    FoldTracks(r, es);
    assert Rebuilt(r, es, Fold(r, Origin(), es).value, e.streamId);
  }
}
