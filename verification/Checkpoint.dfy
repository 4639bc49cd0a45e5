/** Checkpoints: what a manifest records, and replay that starts by checking it against the ledger. */
module Checkpoint {
  import opened Prelude
  import opened EventStore
  import opened Replay

  datatype Recovery = Clean | AwaitingReconciliation(openReservationIds: set<string>)

  /** A manifest without its own digest. The sorted version lists are kept as maps from stream to version. */
  datatype Body = Body(
    schemaVersion: string, runtimeVersion: string, checkpointId: string, createdAt: string,
    position: nat, eventId: Option<string>, ledgerDigest: string,
    versions: map<string, map<string, nat>>,
    activeLeaseIds: set<string>, recovery: Recovery, policyBundleDigest: string)

  datatype Manifest = Manifest(body: Body, integrityDigest: string)

  /** What a checkpoint reads off capability states. */
  datatype Capabilities<!S> = Capabilities(activeLease: S -> Option<string>, unresolved: S -> set<string>)

  const CONTRACT_SCHEMA_VERSION := "1.0.0"
  const RUNTIME_VERSION := "0.1.0"

  const KIND_TO_FIELD: map<string, string> := map[
    "mission" := "missionVersions",
    "task" := "taskVersions",
    "capability" := "capabilityVersions",
    "driverrun" := "driverRunVersions",
    "claim" := "claimVersions",
    "human_approval" := "humanApprovalVersions",
    "prompt_proposal" := "promptProposalVersions",
    "artifact_promotion" := "artifactPromotionVersions",
    "cohort" := "cohortVersions",
    "council" := "councilVersions",
    "replay_fork" := "replayForkVersions",
    "tool_execution" := "toolExecutionVersions",
    "bot" := "botVersions",
    "cognitive_candidate" := "cognitiveCandidateVersions",
    "delegate_assignment" := "delegateAssignmentVersions",
    "skill_candidate" := "skillCandidateVersions",
    "lab_board" := "labBoardVersions",
    "sandbox_lease" := "sandboxLeaseVersions",
    "cloudflare_resource_binding" := "cloudflareResourceBindingVersions"]

  const FIELDS: seq<string> := [
    "missionVersions", "taskVersions", "capabilityVersions", "driverRunVersions", "claimVersions",
    "humanApprovalVersions", "promptProposalVersions", "artifactPromotionVersions", "cohortVersions",
    "councilVersions", "replayForkVersions", "toolExecutionVersions", "botVersions",
    "cognitiveCandidateVersions", "delegateAssignmentVersions", "skillCandidateVersions",
    "labBoardVersions", "sandboxLeaseVersions", "cloudflareResourceBindingVersions"]

  function HeadId<P>(es: seq<Envelope<P>>): Option<string> {
    if es == [] then None else Some(es[|es|-1].eventId)
  }

  predicate ManifestVerifies(digest: Body -> string, m: Manifest) {
    && m.body.schemaVersion == CONTRACT_SCHEMA_VERSION
    && m.body.runtimeVersion == RUNTIME_VERSION
    && digest(m.body) == m.integrityDigest
  }

  /** `versions` lists exactly the streams of the store, each under the field of its kind. */
  ghost predicate ListsStreams<S>(versions: map<string, map<string, nat>>, aggregates: map<string, Aggregate<S>>) {
    && (forall s :: s in aggregates ==>
         && aggregates[s].kind in KIND_TO_FIELD
         && KIND_TO_FIELD[aggregates[s].kind] in versions
         && s in versions[KIND_TO_FIELD[aggregates[s].kind]])
    && (forall f, s :: f in versions && s in versions[f] ==>
         && s in aggregates && aggregates[s].kind in KIND_TO_FIELD && KIND_TO_FIELD[aggregates[s].kind] == f
         && versions[f][s] == aggregates[s].version)
  }

  /** The open work of the capability streams. */
  ghost predicate ReportsOpenWork<S>(caps: Capabilities<S>, aggregates: map<string, Aggregate<S>>,
                                     leases: set<string>, open: set<string>) {
    && (forall id :: id in open <==>
         exists s :: s in aggregates && aggregates[s].kind == "capability" &&
             id in caps.unresolved(aggregates[s].state))
    && (forall id :: id in leases <==>
         exists s :: s in aggregates && aggregates[s].kind == "capability" &&
             caps.activeLease(aggregates[s].state) == Some(id))
  }

  ghost predicate Describes<P, S>(digest: Body -> string, h: Hashing<P>, db: Db<P, S>, m: Manifest) {
    && ManifestVerifies(digest, m)
    && m.body.position == |db.rows|
    && m.body.eventId == HeadId(Envelopes(db.rows))
    && m.body.ledgerDigest == Chain(h, Envelopes(db.rows))
    && ListsStreams(m.body.versions, db.aggregates)
  }

  function FieldOf(kind: string): Option<string> {
    if kind in KIND_TO_FIELD then Some(KIND_TO_FIELD[kind]) else None
  }

  function WithEntry(versions: map<string, map<string, nat>>, field: string, s: string, version: nat)
    : map<string, map<string, nat>>
    requires field in versions
  {
    var entries: map<string, nat> := versions[field];
    var more: map<string, nat> := entries[s := version];
    versions[field := more]
  }

  /**
   Builds the manifest at the present head. It fails only when the chain does not verify or some
   stream has an unknown kind; it says `clean` exactly when no capability has unresolved reservations.
   */
  method CreateCheckpoint<P(==), S>(store: Store<P, S>, caps: Capabilities<S>, digest: Body -> string,
                                    checkpointId: string, createdAt: string, policyBundleDigest: string)
    returns (r: Result<Manifest, StoreError>)
    ensures r.Ok? <==> Verifies(store.hashing, store.rows) &&
                       forall s :: s in store.aggregates ==> store.aggregates[s].kind in KIND_TO_FIELD
    ensures r.Ok? ==> Describes(digest, store.hashing, store.View(), r.value)
    ensures r.Ok? ==> exists open ::
              && ReportsOpenWork(caps, store.aggregates, r.value.body.activeLeaseIds, open)
              && r.value.body.recovery == if open == {} then Clean else AwaitingReconciliation(open)
  {
    var listed, versions, leases, open := ListAggregates(store, caps);
    if !listed {
      return Err(IntegrityViolation);
    }
    var chain := store.VerifyChain();
    if chain.Err? {
      return Err(IntegrityViolation);
    }
    var body := Body(CONTRACT_SCHEMA_VERSION, RUNTIME_VERSION, checkpointId, createdAt,
                     |store.rows|, HeadId(Envelopes(store.rows)), chain.value, versions, leases,
                     if open == {} then Clean else AwaitingReconciliation(open), policyBundleDigest);
    return Ok(Manifest(body, digest(body)));
  }

  /** Lists the streams under their fields and collects the open work, unless a stream has an unknown kind. */
  method ListAggregates<P(==), S>(store: Store<P, S>, caps: Capabilities<S>)
    returns (listed: bool, versions: map<string, map<string, nat>>, leases: set<string>, open: set<string>)
    ensures listed <==> forall s :: s in store.aggregates ==> store.aggregates[s].kind in KIND_TO_FIELD
    ensures listed ==> ListsStreams(versions, store.aggregates) && ReportsOpenWork(caps, store.aggregates, leases, open)
  {
    versions := map f | f in FIELDS :: map[];
    leases, open := {}, {};
    var todo := store.aggregates.Keys;
    ghost var done: map<string, Aggregate<S>> := map[];
    while todo != {}
      invariant todo <= store.aggregates.Keys
      invariant done == store.aggregates - todo
      invariant forall f :: f in FIELDS <==> f in versions
      invariant ListsStreams(versions, done)
      invariant ReportsOpenWork(caps, done, leases, open)
      decreases todo
    {
      var s :| s in todo;
      var a := store.aggregates[s];
      var field := FieldOf(a.kind);
      if field.None? {
        return false, versions, leases, open;
      }
      FieldsCoverKinds(a.kind);
      ListsOneMore(versions, done, s, a);
      versions := WithEntry(versions, field.value, s, a.version);
      leases, open := AddOpenWork(caps, done, leases, open, s, a);
      OneFewer(store.aggregates, todo, s);
      done := done[s := a];
      todo := todo - {s};
    }
    assert done == store.aggregates;
    listed := true;
  }

  lemma OneFewer<V>(m: map<string, V>, todo: set<string>, s: string)
    requires s in todo && todo <= m.Keys
    ensures (m - todo)[s := m[s]] == m - (todo - {s})
  {
  }

  method AddOpenWork<S>(caps: Capabilities<S>, ghost done: map<string, Aggregate<S>>, leases: set<string>,
                        open: set<string>,
                        s: string, a: Aggregate<S>)
    returns (leases': set<string>, open': set<string>)
    requires ReportsOpenWork(caps, done, leases, open) && s !in done
    ensures ReportsOpenWork(caps, done[s := a], leases', open')
  {
    var lease := if a.kind == "capability" then caps.activeLease(a.state) else None;
    var unresolved := if a.kind == "capability" then caps.unresolved(a.state) else {};
    ReportsOneMore(caps, done, leases, open, s, a, lease, unresolved);
    leases' := leases + if lease.Some? then {lease.value} else {};
    open' := open + unresolved;
  }

  lemma FieldsCoverKinds(kind: string)
    requires kind in KIND_TO_FIELD
    ensures KIND_TO_FIELD[kind] in FIELDS
  {
  }

  lemma ListsOneMore<S>(versions: map<string, map<string, nat>>, aggregates: map<string, Aggregate<S>>, s: string,
                        a: Aggregate<S>)
    requires ListsStreams(versions, aggregates) && s !in aggregates
    requires a.kind in KIND_TO_FIELD && KIND_TO_FIELD[a.kind] in versions
    ensures ListsStreams(WithEntry(versions, KIND_TO_FIELD[a.kind], s, a.version), aggregates[s := a])
  {
  }

  lemma ReportsOneMore<S>(caps: Capabilities<S>, aggregates: map<string, Aggregate<S>>, leases: set<string>,
                          open: set<string>,
                          s: string, a: Aggregate<S>, lease: Option<string>, unresolved: set<string>)
    requires ReportsOpenWork(caps, aggregates, leases, open) && s !in aggregates
    requires lease == if a.kind == "capability" then caps.activeLease(a.state) else None
    requires unresolved == if a.kind == "capability" then caps.unresolved(a.state) else {}
    ensures ReportsOpenWork(caps, aggregates[s := a],
                            leases + (if lease.Some? then {lease.value} else {}), open + unresolved)
  {
    var more := aggregates[s := a];
    assert forall t :: t in more <==> t in aggregates || t == s;
    assert forall t :: t in aggregates ==> more[t] == aggregates[t];
    assert more[s] == a;
  }

  // Replay from a checkpoint ------------------------------------------------------------------

  predicate EntriesMatch(entries: map<string, nat>, versions: map<string, nat>) {
    forall s :: s in entries ==> s in versions && versions[s] == entries[s]
  }

  predicate VersionsMatch(listed: map<string, map<string, nat>>, versions: map<string, nat>) {
    forall f :: f in FIELDS && f in listed ==> EntriesMatch(listed[f], versions)
  }

  function Accepts<P, S>(h: Hashing<P>, prefix: seq<Envelope<P>>, st: Replayed<S>, body: Body)
    : Result<(), ReplayError>
  {
    if Chain(h, prefix) != body.ledgerDigest then Err(LedgerDigestMismatch)
    else if HeadId(prefix) != body.eventId then Err(EventIdMismatch)
    else if !VersionsMatch(body.versions, st.versions) then Err(VersionMismatch)
    else Ok(())
  }

  function CheckpointOutcome<P, S>(digest: Body -> string, h: Hashing<P>, r: Reducer<P, S>, rows: seq<Row<P>>,
                                   m: Manifest)
    : Result<Replayed<S>, ReplayError>
  {
    if !ManifestVerifies(digest, m) then Err(ManifestInvalid)
    else if !Verifies(h, rows) then Err(BrokenChain)
    else if m.body.position > |rows| then Err(TargetOutOfRange)
    else
      var prefix := Envelopes(rows)[..m.body.position];
      match Fold(r, Origin(), prefix)
      case Err(error) => Err(error)
      case Ok(st) =>
        var accepted := Accepts(h, prefix, st, m.body);
        if accepted.Err? then Err(accepted.error) else Fold(r, st, Envelopes(rows)[m.body.position..])
  }

  /** The chain digest and last event id of the ledger prefix through `target`. */
  method LedgerIdentityToSequence<P(==), S>(store: Store<P, S>, target: nat)
    returns (eventId: Option<string>, chain: string)
    requires target <= |store.rows|
    ensures eventId == HeadId(Envelopes(store.rows)[..target]) &&
      chain == Chain(store.hashing, Envelopes(store.rows)[..target])
  {
    var es := Envelopes(store.rows);
    chain, eventId := GENESIS_CHAIN, None;
    for n := 0 to target
      invariant eventId == HeadId(es[..n]) && chain == Chain(store.hashing, es[..n])
    {
      assert es[..n+1] == es[..n] + [es[n]];
      ChainOfNext(store.hashing, es[..n], es[n]);
      chain := ChainNext(store.hashing, chain, es[n]);
      eventId := Some(es[n].eventId);
    }
  }

  method CheckVersions(listed: map<string, map<string, nat>>, versions: map<string, nat>) returns (ok: bool)
    ensures ok == VersionsMatch(listed, versions)
  {
    for n := 0 to |FIELDS|
      invariant forall i :: 0 <= i < n && FIELDS[i] in listed ==> EntriesMatch(listed[FIELDS[i]], versions)
    {
      if FIELDS[n] in listed {
        var entries := listed[FIELDS[n]];
        var todo := entries.Keys;
        while todo != {}
          invariant todo <= entries.Keys
          invariant forall s :: s in entries && s !in todo ==> s in versions && versions[s] == entries[s]
          decreases todo
        {
          var s :| s in todo;
          if !(s in versions && versions[s] == entries[s]) {
            assert FIELDS[n] in FIELDS && !EntriesMatch(entries, versions);
            return false;
          }
          todo := todo - {s};
        }
      }
    }
    return true;
  }

  method CheckpointReplay<P(==), S>(digest: Body -> string, store: Store<P, S>, r: Reducer<P, S>, m: Manifest)
    returns (outcome: Result<(), ReplayError>, state: ReplayState<P, S>)
    ensures fresh(state)
    ensures match CheckpointOutcome(digest, store.hashing, r, store.rows, m)
            case Ok(st) => outcome.Ok? && state.View() == st
            case Err(error) => outcome == Err(error)
  {
    if !ManifestVerifies(digest, m) {
      state := new ReplayState();
      return Err(ManifestInvalid), state;
    }
    var position := m.body.position;
    outcome, state := ReplayToSequence(store, r, position);
    if outcome.Err? {
      return;
    }
    var eventId, chain := LedgerIdentityToSequence(store, position);
    if chain != m.body.ledgerDigest {
      return Err(LedgerDigestMismatch), state;
    }
    if eventId != m.body.eventId {
      return Err(EventIdMismatch), state;
    }
    var ok := CheckVersions(m.body.versions, state.versions);
    if !ok {
      return Err(VersionMismatch), state;
    }
    outcome := state.FoldEvents(r, Envelopes(store.rows)[position..]);
  }

  // Agreement with full replay ----------------------------------------------------------------

  /** Whatever the manifest, a checkpoint replay that succeeds gives exactly the full replay. */
  lemma SuccessIsFullReplay<P, S>(digest: Body -> string, h: Hashing<P>, r: Reducer<P, S>, rows: seq<Row<P>>,
                                  m: Manifest)
    requires CheckpointOutcome(digest, h, r, rows, m).Ok?
    ensures CheckpointOutcome(digest, h, r, rows, m) == FullReplay(h, r, rows)
  {
    var es, n := Envelopes(rows), m.body.position;
    assert es == es[..n] + es[n..];
    FoldConcat(r, Origin(), es[..n], es[n..]);
  }

  lemma {:induction false} ContiguousPrefix<P>(es: seq<Envelope<P>>, n: nat)
    requires n <= |es| && Contiguous(es)
    ensures Contiguous(es[..n])
  {
    if n < |es| {
      ContiguousPrefix(es[..|es|-1], n);
      assert es[..|es|-1][..n] == es[..n];
    } else {
      assert es[..n] == es;
    }
  }

  lemma {:induction false} VerifiedIsContiguous<P>(h: Hashing<P>, rows: seq<Row<P>>)
    requires Verifies(h, rows)
    ensures Contiguous(Envelopes(rows))
  {
    if rows != [] {
      VerifiedIsContiguous(h, rows[..|rows|-1]);
      assert Envelopes(rows)[..|rows|-1] == Envelopes(rows[..|rows|-1]);
    }
  }

  /** The manifest of a store is accepted over the very ledger it was taken from. */
  lemma OwnManifestAccepted<P(!new), S(!new)>(digest: Body -> string, h: Hashing<P>, r: Reducer<P, S>, db: Db<P, S>,
                                              m: Manifest)
    requires Consistent(h, db) && Describes(digest, h, db, m) && Fold(r, Origin(), Envelopes(db.rows)).Ok?
    ensures Accepts(h, Envelopes(db.rows), Fold(r, Origin(), Envelopes(db.rows)).value, m.body).Ok?
  {
    var es := Envelopes(db.rows);
    VerifiedIsContiguous(h, db.rows);
    ReplayIsPerStream(r, es);
    var st := Fold(r, Origin(), es).value;
    forall f, s | f in m.body.versions && s in m.body.versions[f]
      ensures s in st.versions && st.versions[s] == m.body.versions[f][s]
    {
      assert Rebuilt(r, es, st, s);
    }
  }

  /**
   For every store on whose ledger full replay succeeds and every manifest made at an earlier head,
   replay from the checkpoint succeeds and rebuilds the same state.
   */
  lemma CheckpointAgreesWithFullReplay<P(!new), S(!new)>(digest: Body -> string, h: Hashing<P>, r: Reducer<P, S>,
                                                         earlier: Db<P, S>, rows: seq<Row<P>>, m: Manifest)
    requires Consistent(h, earlier) && Describes(digest, h, earlier, m)
    requires earlier.rows <= rows && FullReplay(h, r, rows).Ok?
    ensures CheckpointOutcome(digest, h, r, rows, m) == FullReplay(h, r, rows)
  {
    var es, n := Envelopes(rows), m.body.position;
    assert es == es[..n] + es[n..];
    FoldConcat(r, Origin(), es[..n], es[n..]);
    assert es[..n] == Envelopes(earlier.rows);
    OwnManifestAccepted(digest, h, r, earlier, m);
  }

  // What acceptance binds ---------------------------------------------------------------------

  /**
   A manifest is accepted only over a ledger that carries, up to its position, the event ids and
   payloads it was taken from. The prefix is the very same exactly when the stream ids agree too.
   */
  lemma AcceptanceBindsPrefix<P(!new), S(!new)>(digest: Body -> string, h: Hashing<P>, r: Reducer<P, S>,
                                                taken: Db<P, S>, rows: seq<Row<P>>, m: Manifest)
    requires FixedWidth(h) && Consistent(h, taken) && Describes(digest, h, taken, m)
    requires CheckpointOutcome(digest, h, r, rows, m).Ok?
    requires NoCollision(h, Envelopes(taken.rows), Envelopes(rows)[..m.body.position])
    ensures var prefix := Envelopes(rows)[..m.body.position];
            && SameContents(Envelopes(taken.rows), prefix)
            && (Envelopes(taken.rows) == prefix <==> SameStreams(Envelopes(taken.rows), prefix))
  {
    var original, prefix := Envelopes(taken.rows), Envelopes(rows)[..m.body.position];
    VerifiedIsContiguous(h, taken.rows);
    VerifiedIsContiguous(h, rows);
    ContiguousPrefix(Envelopes(rows), m.body.position);
    ChainBindsContents(h, original, prefix);
    PrefixIdentical(h, original, prefix);
  }

  // Acceptance, exactly -----------------------------------------------------------------------

  /** The ledger prefix has the listed number of events in every listed stream. */
  ghost predicate ListsLengths<P>(versions: map<string, map<string, nat>>, prefix: seq<Envelope<P>>) {
    forall f, s :: f in FIELDS && f in versions && s in versions[f] ==> versions[f][s] == StreamLength(prefix, s) > 0
  }

  lemma VersionsAreLengths<P(!new), S(!new)>(r: Reducer<P, S>, prefix: seq<Envelope<P>>, st: Replayed<S>,
                                             versions: map<string, map<string, nat>>)
    requires Contiguous(prefix) && Fold(r, Origin(), prefix) == Ok(st)
    ensures VersionsMatch(versions, st.versions) <==> ListsLengths(versions, prefix)
  {
    ReplayIsPerStream(r, prefix);
    FoldTracks(r, prefix);
    forall s
      ensures s in st.versions <==> StreamLength(prefix, s) > 0
      ensures s in st.versions ==> st.versions[s] == StreamLength(prefix, s)
    {
      assert Rebuilt(r, prefix, st, s);
    }
    if ListsLengths(versions, prefix) {
      forall f | f in FIELDS && f in versions
        ensures EntriesMatch(versions[f], st.versions)
      {
      }
    }
    if VersionsMatch(versions, st.versions) {
      forall f, s | f in FIELDS && f in versions && s in versions[f]
        ensures versions[f][s] == StreamLength(prefix, s) > 0
      {
        assert EntriesMatch(versions[f], st.versions);
      }
    }
  }

  /** The form of a manifest, and its digest. */
  ghost predicate WellFormed(digest: Body -> string, m: Manifest) {
    m.body.schemaVersion == "1.0.0" && m.body.runtimeVersion == "0.1.0" && digest(m.body) == m.integrityDigest
  }

  ghost predicate NamesLast<P>(eventId: Option<string>, prefix: seq<Envelope<P>>) {
    eventId == if prefix == [] then None else Some(prefix[|prefix|-1].eventId)
  }

  lemma AcceptsExactly<P(!new), S(!new)>(h: Hashing<P>, r: Reducer<P, S>, prefix: seq<Envelope<P>>, st: Replayed<S>,
                                         body: Body)
    requires Contiguous(prefix) && Fold(r, Origin(), prefix) == Ok(st)
    ensures Accepts(h, prefix, st, body).Ok? <==>
      Chain(h, prefix) == body.ledgerDigest && NamesLast(body.eventId, prefix) && ListsLengths(body.versions, prefix)
    ensures Accepts(h, prefix, st, body) == Err(LedgerDigestMismatch) ==> Chain(h, prefix) != body.ledgerDigest
    ensures Accepts(h, prefix, st, body) == Err(EventIdMismatch) ==> !NamesLast(body.eventId, prefix)
    ensures Accepts(h, prefix, st, body) == Err(VersionMismatch) ==> !ListsLengths(body.versions, prefix)
    ensures Accepts(h, prefix, st, body).Err? ==>
      Accepts(h, prefix, st, body).error in {LedgerDigestMismatch, EventIdMismatch, VersionMismatch}
  {
    VersionsAreLengths(r, prefix, st, body.versions);
  }

  lemma {:induction false} FoldErrors<P, S>(r: Reducer<P, S>, st: Replayed<S>, es: seq<Envelope<P>>)
    ensures Fold(r, st, es).Err? ==> Fold(r, st, es).error in {StreamGap, NoPriorState, ReducerRefused}
  {
    if es != [] {
      FoldErrors(r, st, es[..|es|-1]);
    }
  }

  /** Both folds of a checkpoint replay against the one of the full replay. */
  lemma TwoFolds<P(!new), S(!new)>(r: Reducer<P, S>, es: seq<Envelope<P>>, prefix: seq<Envelope<P>>, n: nat)
    requires n <= |es| && prefix == es[..n]
    ensures Fold(r, Origin(), prefix).Ok? ==>
      Fold(r, Origin(), es) == Fold(r, Fold(r, Origin(), prefix).value, es[n..])
    ensures Fold(r, Origin(), prefix).Err? ==> Fold(r, Origin(), es) == Err(Fold(r, Origin(), prefix).error)
  {
    assert es == prefix + es[n..];
    FoldConcat(r, Origin(), prefix, es[n..]);
  }

  /**
   An arbitrary manifest is accepted exactly when its form and digest are right, the ledger replays in full, and the
   prefix it names has the listed chain digest, the listed last event and the listed number of events in each stream.
   */
  lemma AcceptedExactly<P(!new), S(!new)>(digest: Body -> string, h: Hashing<P>, r: Reducer<P, S>, rows: seq<Row<P>>,
                                          m: Manifest)
    ensures CheckpointOutcome(digest, h, r, rows, m).Ok? <==>
      && WellFormed(digest, m) && FullReplay(h, r, rows).Ok? && m.body.position <= |rows|
      && var prefix := Envelopes(rows)[..m.body.position];
         Chain(h, prefix) == m.body.ledgerDigest && NamesLast(m.body.eventId, prefix)
         && ListsLengths(m.body.versions, prefix)
  {
    if Verifies(h, rows) && m.body.position <= |rows| {
      var es, prefix := Envelopes(rows), Envelopes(rows)[..m.body.position];
      VerifiedIsContiguous(h, rows);
      ContiguousPrefix(es, m.body.position);
      TwoFolds(r, es, prefix, m.body.position);
      if Fold(r, Origin(), prefix).Ok? {
        AcceptsExactly(h, r, prefix, Fold(r, Origin(), prefix).value, m.body);
      }
    }
  }

  /** A refusal names what is wrong with the manifest or the ledger. */
  lemma RefusalIsTrue<P(!new), S(!new)>(digest: Body -> string, h: Hashing<P>, r: Reducer<P, S>, rows: seq<Row<P>>,
                                        m: Manifest, error: ReplayError, prefix: seq<Envelope<P>>)
    requires CheckpointOutcome(digest, h, r, rows, m) == Err(error)
    requires m.body.position <= |rows| ==> prefix == Envelopes(rows)[..m.body.position]
    ensures error == ManifestInvalid <==> !WellFormed(digest, m)
    ensures error == BrokenChain ==> !Verifies(h, rows)
    ensures error == TargetOutOfRange ==> m.body.position > |rows|
    ensures error == LedgerDigestMismatch ==> Chain(h, prefix) != m.body.ledgerDigest
    ensures error == EventIdMismatch ==> !NamesLast(m.body.eventId, prefix)
    ensures error == VersionMismatch ==> !ListsLengths(m.body.versions, prefix)
    ensures error in {StreamGap, NoPriorState, ReducerRefused} ==> FullReplay(h, r, rows) == Err(error)
  {
    if WellFormed(digest, m) && Verifies(h, rows) && m.body.position <= |rows| {
      RefusalOfPrefix(digest, h, r, rows, m, error, prefix);
    }
  }

  lemma RefusalOfPrefix<P(!new), S(!new)>(digest: Body -> string, h: Hashing<P>, r: Reducer<P, S>, rows: seq<Row<P>>,
                                          m: Manifest, error: ReplayError, prefix: seq<Envelope<P>>)
    requires CheckpointOutcome(digest, h, r, rows, m) == Err(error)
    requires WellFormed(digest, m) && Verifies(h, rows) && m.body.position <= |rows|
    requires prefix == Envelopes(rows)[..m.body.position]
    ensures error !in {ManifestInvalid, BrokenChain, TargetOutOfRange}
    ensures error == LedgerDigestMismatch ==> Chain(h, prefix) != m.body.ledgerDigest
    ensures error == EventIdMismatch ==> !NamesLast(m.body.eventId, prefix)
    ensures error == VersionMismatch ==> !ListsLengths(m.body.versions, prefix)
    ensures error in {StreamGap, NoPriorState, ReducerRefused} ==> FullReplay(h, r, rows) == Err(error)
  {
    var es := Envelopes(rows);
    VerifiedIsContiguous(h, rows);
    ContiguousPrefix(es, m.body.position);
    TwoFolds(r, es, prefix, m.body.position);
    FoldErrors(r, Origin(), es);
    if Fold(r, Origin(), prefix).Ok? {
      AcceptsExactly(h, r, prefix, Fold(r, Origin(), prefix).value, m.body);
    }
  }
}
