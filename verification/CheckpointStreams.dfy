/** What a manifest does not bind: a ledger of two driver runs whose stream ids are exchanged. */
module CheckpointStreams {
  import opened Prelude
  import opened EventStore
  import opened Replay
  import opened Checkpoint
  import opened DriverRunLedger
  import D = DriverRun

  function StreamOf(run: D.Run): string {
    "driverrun-" + run.id
  }

  /** What the creation of a run appends, here to `stream`. */
  function Creation(stream: string, eventId: string, run: D.Run): AppendRequest<Payload, Stored> {
    AppendRequest(stream, "driverrun", 0, eventId, RunCreated(run), Fresh(run))
  }

  function Created(stream: string, eventId: string, run: D.Run): Envelope<Payload> {
    Envelope(eventId, stream, 1, RunCreated(run))
  }

  /** The store after the creation of `x` on stream `s` and of `y` on stream `t`. */
  function TwoRuns(h: Hashing<Payload>, s: string, x: D.Run, t: string, y: D.Run): Db<Payload, Stored> {
    AppendOne(h, AppendOne(h, Db([], map[]), Creation(s, "e1", x)), Creation(t, "e2", y))
  }

  function TwoStates(s: string, x: D.Run, t: string, y: D.Run): Replayed<Stored> {
    Replayed(map[s := Fresh(x), t := Fresh(y)], map[s := 1, t := 1], 2, 0)
  }

  lemma TwoRunsStored(h: Hashing<Payload>, s: string, x: D.Run, t: string, y: D.Run)
    requires s != t
    ensures var db := TwoRuns(h, s, x, t, y);
      && Consistent(h, db) && Envelopes(db.rows) == [Created(s, "e1", x), Created(t, "e2", y)]
      && db.aggregates == map[s := Aggregate("driverrun", 1, Fresh(x)), t := Aggregate("driverrun", 1, Fresh(y))]
  {
    var empty: Db<Payload, Stored> := Db([], map[]);
    var one := AppendOne(h, empty, Creation(s, "e1", x));
    AppendKeepsConsistent(h, empty, Creation(s, "e1", x));
    AppendOneRow(h, empty, Creation(s, "e1", x));
    AppendKeepsConsistent(h, one, Creation(t, "e2", y));
    AppendOneRow(h, one, Creation(t, "e2", y));
    assert Envelopes(empty.rows) == [];
    assert [] + [Created(s, "e1", x)] == [Created(s, "e1", x)];
    assert [Created(s, "e1", x)] + [Created(t, "e2", y)] == [Created(s, "e1", x), Created(t, "e2", y)];
  }

  lemma TwoRunsFold(s: string, x: D.Run, t: string, y: D.Run)
    requires s != t
    ensures Fold(Runs(), Origin(), [Created(s, "e1", x), Created(t, "e2", y)]) == Ok(TwoStates(s, x, t, y))
  {
    var e1, e2 := Created(s, "e1", x), Created(t, "e2", y);
    FoldNext(Runs(), Origin(), [], e1);
    FoldNext(Runs(), Origin(), [e1], e2);
    assert [] + [e1] == [e1] && [e1] + [e2] == [e1, e2];
  }

  lemma ExchangedSameChain(h: Hashing<Payload>, s: string, x: D.Run, t: string, y: D.Run)
    ensures Chain(h, [Created(s, "e1", x), Created(t, "e2", y)]) == Chain(h, [Created(t, "e1", x), Created(s, "e2", y)])
  {
    TwoLinks(h, Created(s, "e1", x), Created(t, "e2", y));
    TwoLinks(h, Created(t, "e1", x), Created(s, "e2", y));
  }

  lemma TwoLinks(h: Hashing<Payload>, a: Envelope<Payload>, b: Envelope<Payload>)
    ensures Chain(h, [a, b]) == ChainNext(h, ChainNext(h, GENESIS_CHAIN, a), b)
  {
    ChainOfNext(h, [], a);
    ChainOfNext(h, [a], b);
    assert [] + [a] == [a] && [a] + [b] == [a, b];
  }

  function ManifestOf(digest: Body -> string, chain: string, s: string, t: string): Manifest {
    var listed: map<string, nat> := map[s := 1, t := 1];
    var body := Body(CONTRACT_SCHEMA_VERSION, RUNTIME_VERSION, "cp", "", 2, Some("e2"), chain,
                     map["driverRunVersions" := listed], {}, Clean, "");
    Manifest(body, digest(body))
  }

  lemma ListsTwo(s: string, x: Stored, t: string, y: Stored, listed: map<string, nat>,
                 streams: map<string, Aggregate<Stored>>)
    requires s != t && listed == map[s := 1, t := 1]
    requires streams == map[s := Aggregate("driverrun", 1, x), t := Aggregate("driverrun", 1, y)]
    ensures ListsStreams(map["driverRunVersions" := listed], streams)
  {
    assert KIND_TO_FIELD["driverrun"] == "driverRunVersions";
  }

  lemma ManifestDescribes(digest: Body -> string, h: Hashing<Payload>, s: string, x: D.Run, t: string, y: D.Run)
    requires s != t
    ensures var db := TwoRuns(h, s, x, t, y);
      Describes(digest, h, db, ManifestOf(digest, Chain(h, Envelopes(db.rows)), s, t))
  {
    TwoRunsStored(h, s, x, t, y);
    ListsTwo(s, Fresh(x), t, Fresh(y), map[s := 1, t := 1], TwoRuns(h, s, x, t, y).aggregates);
    assert HeadId([Created(s, "e1", x), Created(t, "e2", y)]) == Some("e2");
  }

  lemma ListedMatch(s: string, t: string, listed: map<string, map<string, nat>>, versions: map<string, nat>)
    requires listed == map["driverRunVersions" := map[s := 1, t := 1]]
    requires versions == map[t := 1, s := 1]
    ensures VersionsMatch(listed, versions)
  {
    assert EntriesMatch(listed["driverRunVersions"], versions);
  }

  lemma ExchangedOutcome(digest: Body -> string, h: Hashing<Payload>, s: string, x: D.Run, t: string, y: D.Run)
    requires s != t
    ensures var chain := Chain(h, [Created(s, "e1", x), Created(t, "e2", y)]);
      CheckpointOutcome(digest, h, Runs(), TwoRuns(h, t, x, s, y).rows, ManifestOf(digest, chain, s, t))
        == Ok(TwoStates(t, x, s, y))
  {
    var es := [Created(t, "e1", x), Created(s, "e2", y)];
    TwoRunsStored(h, t, x, s, y);
    TwoRunsFold(t, x, s, y);
    ExchangedSameChain(h, s, x, t, y);
    ListedMatch(s, t, map["driverRunVersions" := map[s := 1, t := 1]], map[t := 1, s := 1]);
    assert es[..2] == es && es[2..] == [] && HeadId(es) == Some("e2");
  }

  lemma DistinctStreams(x: D.Run, y: D.Run)
    requires x.id != y.id
    ensures StreamOf(x) != StreamOf(y)
  {
    assert StreamOf(x)[10..] == x.id && StreamOf(y)[10..] == y.id;
  }

  /**
   The chain does not cover stream ids: with the streams of two created runs exchanged the ledger still
   verifies, the old manifest is accepted, and each run is rebuilt under the name of the other.
   */
  lemma ExchangedStreamsAccepted(digest: Body -> string, h: Hashing<Payload>, x: D.Run, y: D.Run)
    requires x.id != y.id
    ensures var s, t := StreamOf(x), StreamOf(y);
      var taken, other := TwoRuns(h, s, x, t, y), TwoRuns(h, t, x, s, y);
      var m := ManifestOf(digest, Chain(h, Envelopes(taken.rows)), s, t);
      && Consistent(h, taken) && Describes(digest, h, taken, m)
      && FullReplay(h, Runs(), taken.rows) == Ok(TwoStates(s, x, t, y))
      && CheckpointOutcome(digest, h, Runs(), other.rows, m) == Ok(TwoStates(t, x, s, y))
      && TwoStates(s, x, t, y).aggregates[s] != TwoStates(t, x, s, y).aggregates[s]
  {
    var s, t := StreamOf(x), StreamOf(y);
    DistinctStreams(x, y);
    TwoRunsStored(h, s, x, t, y);
    TwoRunsFold(s, x, t, y);
    ManifestDescribes(digest, h, s, x, t, y);
    ExchangedOutcome(digest, h, s, x, t, y);
  }
}
