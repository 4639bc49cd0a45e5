/** The append-only ledger: versioned streams, the hash chain over them, and the one write path. */
module EventStore {
  import opened Prelude

  /** An event as stored. Its global sequence number is its position in the ledger, from 1. */
  datatype Envelope<P> = Envelope(eventId: string, streamId: string, streamVersion: nat, payload: P)

  /** The digest functions; `payload` digests the canonical text of a payload. */
  datatype Hashing<!P> = Hashing(sha: string -> string, payload: P -> string)

  datatype Row<P> = Row(envelope: Envelope<P>, payloadDigest: string, chainDigest: string)

  datatype Aggregate<S> = Aggregate(kind: string, version: nat, state: S)

  datatype Db<P, S> = Db(rows: seq<Row<P>>, aggregates: map<string, Aggregate<S>>)

  datatype AppendRequest<P, S> = AppendRequest(
    streamId: string, kind: string, expectedVersion: nat, eventId: string, payload: P, state: S)

  datatype StoreError = ConcurrencyConflict | DuplicateEventId | IntegrityViolation

  const GENESIS_CHAIN: string := "sha256:0000000000000000000000000000000000000000000000000000000000000000"

  const DIGEST_WIDTH: nat := 71

  function Material(previous: string, payloadDigest: string, eventId: string): string {
    previous + "|" + payloadDigest + "|" + eventId
  }

  function ChainNext<P>(h: Hashing<P>, previous: string, e: Envelope<P>): string {
    h.sha(Material(previous, h.payload(e.payload), e.eventId))
  }

  function Chain<P>(h: Hashing<P>, es: seq<Envelope<P>>): string {
    if es == [] then GENESIS_CHAIN else ChainNext(h, Chain(h, es[..|es|-1]), es[|es|-1])
  }

  function Envelopes<P>(rows: seq<Row<P>>): (es: seq<Envelope<P>>)
    ensures |es| == |rows| && forall i :: 0 <= i < |rows| ==> es[i] == rows[i].envelope
  {
    seq(|rows|, i requires 0 <= i < |rows| => rows[i].envelope)
  }

  function StreamLength<P>(es: seq<Envelope<P>>, s: string): nat {
    if es == [] then 0
    else StreamLength(es[..|es|-1], s) + if es[|es|-1].streamId == s then 1 else 0
  }

  /** Every stream's versions count up from 1 without a gap. */
  predicate Contiguous<P>(es: seq<Envelope<P>>) {
    es == [] ||
    (Contiguous(es[..|es|-1]) &&
     es[|es|-1].streamVersion == StreamLength(es[..|es|-1], es[|es|-1].streamId) + 1)
  }

  /** Both digest columns of a row are those recomputed from the envelopes up to it. */
  predicate RowVerifies<P>(h: Hashing<P>, before: seq<Envelope<P>>, row: Row<P>) {
    && row.payloadDigest == h.payload(row.envelope.payload)
    && row.chainDigest == ChainNext(h, Chain(h, before), row.envelope)
    && row.envelope.streamVersion == StreamLength(before, row.envelope.streamId) + 1
  }

  predicate Verifies<P>(h: Hashing<P>, rows: seq<Row<P>>) {
    rows == [] ||
    (Verifies(h, rows[..|rows|-1]) && RowVerifies(h, Envelopes(rows[..|rows|-1]), rows[|rows|-1]))
  }

  /** What the write path keeps: a verifying ledger, and a version per stream equal to its length. */
  ghost predicate Consistent<P, S>(h: Hashing<P>, db: Db<P, S>) {
    && Verifies(h, db.rows)
    && forall s :: && (s in db.aggregates <==> StreamLength(Envelopes(db.rows), s) > 0)
                   && (s in db.aggregates ==> db.aggregates[s].version == StreamLength(Envelopes(db.rows), s))
  }

  lemma StreamLengthNext<P>(es: seq<Envelope<P>>, e: Envelope<P>, s: string)
    ensures StreamLength(es + [e], s) == StreamLength(es, s) + if e.streamId == s then 1 else 0
  {
    assert (es + [e])[..|es + [e]|-1] == es;
  }

  lemma ChainOfNext<P>(h: Hashing<P>, es: seq<Envelope<P>>, e: Envelope<P>)
    ensures Chain(h, es + [e]) == ChainNext(h, Chain(h, es), e)
  {
    assert (es + [e])[..|es + [e]|-1] == es;
  }

  lemma EnvelopesNext<P>(rows: seq<Row<P>>, row: Row<P>)
    ensures Envelopes(rows + [row]) == Envelopes(rows) + [row.envelope]
  {
  }

  lemma VerifiesNext<P>(h: Hashing<P>, rows: seq<Row<P>>, row: Row<P>)
    ensures Verifies(h, rows + [row]) <==> Verifies(h, rows) && RowVerifies(h, Envelopes(rows), row)
  {
    assert (rows + [row])[..|rows + [row]|-1] == rows;
  }

  lemma {:induction false} VerifiesPrefix<P>(h: Hashing<P>, rows: seq<Row<P>>, n: nat)
    requires n <= |rows| && Verifies(h, rows)
    ensures Verifies(h, rows[..n])
  {
    if n < |rows| {
      VerifiesPrefix(h, rows[..|rows|-1], n);
      assert rows[..|rows|-1][..n] == rows[..n];
    } else {
      assert rows[..n] == rows;
    }
  }

  /** What checking row `n` after the rows before it decides. */
  lemma RowNext<P>(h: Hashing<P>, rows: seq<Row<P>>, n: nat, chain: string, previous: nat)
    requires n < |rows| && Verifies(h, rows[..n]) && chain == Chain(h, Envelopes(rows[..n]))
    requires previous == StreamLength(Envelopes(rows[..n]), rows[n].envelope.streamId)
    ensures var e := rows[n].envelope;
      var good := h.payload(e.payload) == rows[n].payloadDigest && ChainNext(h, chain, e) == rows[n].chainDigest
                  && e.streamVersion == previous + 1;
      && (Verifies(h, rows[..n+1]) <==> good) && (!good ==> !Verifies(h, rows))
    ensures Chain(h, Envelopes(rows[..n+1])) == ChainNext(h, chain, rows[n].envelope)
    ensures forall s :: StreamLength(Envelopes(rows[..n+1]), s) ==
              StreamLength(Envelopes(rows[..n]), s) + if rows[n].envelope.streamId == s then 1 else 0
  {
    assert rows[..n+1] == rows[..n] + [rows[n]];
    VerifiesNext(h, rows[..n], rows[n]);
    EnvelopesNext(rows[..n], rows[n]);
    ChainOfNext(h, Envelopes(rows[..n]), rows[n].envelope);
    forall s {
      StreamLengthNext(Envelopes(rows[..n]), rows[n].envelope, s);
    }
    if Verifies(h, rows) {
      VerifiesPrefix(h, rows, n + 1);
    }
  }

  // The write path ----------------------------------------------------------------------------

  function CurrentVersion<P, S>(db: Db<P, S>, s: string): nat {
    if s in db.aggregates then db.aggregates[s].version else 0
  }

  function WriteRow<P, S>(h: Hashing<P>, db: Db<P, S>, a: AppendRequest<P, S>, e: Envelope<P>, chain: string)
    : Db<P, S>
  {
    var kind := if a.streamId in db.aggregates then db.aggregates[a.streamId].kind else a.kind;
    Db(db.rows + [Row(e, h.payload(a.payload), chain)],
       db.aggregates[a.streamId := Aggregate(kind, e.streamVersion, a.state)])
  }

  function AppendOne<P, S>(h: Hashing<P>, db: Db<P, S>, a: AppendRequest<P, S>): Db<P, S> {
    var e := Envelope(a.eventId, a.streamId, CurrentVersion(db, a.streamId) + 1, a.payload);
    WriteRow(h, db, a, e, ChainNext(h, Chain(h, Envelopes(db.rows)), e))
  }

  predicate EventIdTaken<P>(rows: seq<Row<P>>, id: string) {
    exists i :: 0 <= i < |rows| && rows[i].envelope.eventId == id
  }

  function AppendAll<P, S>(h: Hashing<P>, db: Db<P, S>, appends: seq<AppendRequest<P, S>>)
    : Result<Db<P, S>, StoreError>
  {
    if appends == [] then Ok(db)
    else
      match AppendAll(h, db, appends[..|appends|-1])
      case Err(e) => Err(e)
      case Ok(before) =>
        var a := appends[|appends|-1];
        if CurrentVersion(before, a.streamId) != a.expectedVersion then Err(ConcurrencyConflict)
        else if EventIdTaken(before.rows, a.eventId) then Err(DuplicateEventId)
        else Ok(AppendOne(h, before, a))
  }

  lemma AppendKeepsConsistent<P, S>(h: Hashing<P>, db: Db<P, S>, a: AppendRequest<P, S>)
    requires Consistent(h, db)
    ensures Consistent(h, AppendOne(h, db, a))
  {
    var db' := AppendOne(h, db, a);
    var row := db'.rows[|db.rows|];
    VerifiesNext(h, db.rows, row);
    EnvelopesNext(db.rows, row);
    forall s {
      StreamLengthNext(Envelopes(db.rows), row.envelope, s);
    }
  }

  lemma AppendOneRow<P, S>(h: Hashing<P>, db: Db<P, S>, a: AppendRequest<P, S>)
    ensures var e := Envelope(a.eventId, a.streamId, CurrentVersion(db, a.streamId) + 1, a.payload);
            && db.rows <= AppendOne(h, db, a).rows
            && Envelopes(AppendOne(h, db, a).rows) == Envelopes(db.rows) + [e]
            && Chain(h, Envelopes(AppendOne(h, db, a).rows)) == ChainNext(h, Chain(h, Envelopes(db.rows)), e)
  {
    var e := Envelope(a.eventId, a.streamId, CurrentVersion(db, a.streamId) + 1, a.payload);
    EnvelopesNext(db.rows, AppendOne(h, db, a).rows[|db.rows|]);
    ChainOfNext(h, Envelopes(db.rows), e);
  }

  /** The events of a command, with the versions its appends expect. */
  function Appended<P, S>(appends: seq<AppendRequest<P, S>>): seq<Envelope<P>> {
    if appends == [] then []
    else
      var a := appends[|appends|-1];
      Appended(appends[..|appends|-1]) + [Envelope(a.eventId, a.streamId, a.expectedVersion + 1, a.payload)]
  }

  lemma AppendAllStep<P, S>(h: Hashing<P>, db: Db<P, S>, appends: seq<AppendRequest<P, S>>)
    requires appends != [] && AppendAll(h, db, appends).Ok?
    ensures AppendAll(h, db, appends[..|appends|-1]).Ok?
    ensures var before := AppendAll(h, db, appends[..|appends|-1]).value;
            && AppendAll(h, db, appends).value == AppendOne(h, before, appends[|appends|-1])
            && CurrentVersion(before, appends[|appends|-1].streamId) == appends[|appends|-1].expectedVersion
  {
  }

  /** A command keeps the store consistent. */
  lemma {:induction false} AppendAllConsistent<P, S>(h: Hashing<P>, db: Db<P, S>, appends: seq<AppendRequest<P, S>>)
    requires Consistent(h, db) && AppendAll(h, db, appends).Ok?
    ensures Consistent(h, AppendAll(h, db, appends).value)
  {
    if appends != [] {
      AppendAllStep(h, db, appends);
      AppendAllConsistent(h, db, appends[..|appends|-1]);
      AppendKeepsConsistent(h, AppendAll(h, db, appends[..|appends|-1]).value, appends[|appends|-1]);
    }
  }

  /** A command only adds its own events to the ledger, in order and with the versions it expected. */
  lemma {:induction false} AppendAllExtends<P, S>(h: Hashing<P>, db: Db<P, S>, appends: seq<AppendRequest<P, S>>)
    requires AppendAll(h, db, appends).Ok?
    ensures db.rows <= AppendAll(h, db, appends).value.rows
    ensures Envelopes(AppendAll(h, db, appends).value.rows) == Envelopes(db.rows) + Appended(appends)
  {
    if appends != [] {
      var front, a := appends[..|appends|-1], appends[|appends|-1];
      AppendAllStep(h, db, appends);
      AppendAllExtends(h, db, front);
      var before := AppendAll(h, db, front).value;
      AppendOneRow(h, before, a);
      assert Appended(appends) == Appended(front) + [Envelope(a.eventId, a.streamId, a.expectedVersion + 1, a.payload)];
    }
  }

  lemma {:induction false} AppendAllFails<P, S>(h: Hashing<P>, db: Db<P, S>, appends: seq<AppendRequest<P, S>>, n: nat)
    requires n <= |appends| && AppendAll(h, db, appends[..n]).Err?
    ensures AppendAll(h, db, appends) == AppendAll(h, db, appends[..n])
  {
    if n < |appends| {
      assert appends[..|appends|-1][..n] == appends[..n];
      AppendAllFails(h, db, appends[..|appends|-1], n);
    } else {
      assert appends[..n] == appends;
    }
  }

  /** What the next append of a command does to it, also when that ends the command. */
  lemma AppendAllNext<P, S>(h: Hashing<P>, db: Db<P, S>, appends: seq<AppendRequest<P, S>>, n: nat, before: Db<P, S>)
    requires n < |appends| && AppendAll(h, db, appends[..n]) == Ok(before)
    ensures CurrentVersion(before, appends[n].streamId) != appends[n].expectedVersion
            ==> AppendAll(h, db, appends) == Err(ConcurrencyConflict)
    ensures CurrentVersion(before, appends[n].streamId) == appends[n].expectedVersion
            ==> if EventIdTaken(before.rows, appends[n].eventId) then AppendAll(h, db, appends) == Err(DuplicateEventId)
                else AppendAll(h, db, appends[..n+1]) == Ok(AppendOne(h, before, appends[n]))
  {
    assert appends[..n+1][..n] == appends[..n];
    if AppendAll(h, db, appends[..n+1]).Err? {
      AppendAllFails(h, db, appends, n + 1);
    }
  }

  class Store<P(==), S> {
    const hashing: Hashing<P>
    var rows: seq<Row<P>>
    var aggregates: map<string, Aggregate<S>>

    function View(): Db<P, S>
      reads this
    {
      Db(rows, aggregates)
    }

    ghost predicate Valid()
      reads this
    {
      Consistent(hashing, View())
    }

    constructor (hashing: Hashing<P>)
      ensures Valid() && rows == [] && aggregates == map[] && this.hashing == hashing
    {
      this.hashing := hashing;
      rows, aggregates := [], map[];
    }

    function HeadChain(): string
      reads this
    {
      if rows == [] then GENESIS_CHAIN else rows[|rows|-1].chainDigest
    }

    /** All appends of a command become durable together, or none does. */
    method CommitCommand(appends: seq<AppendRequest<P, S>>) returns (r: Result<(), StoreError>)
      requires Valid()
      modifies this
      ensures Valid()
      ensures match AppendAll(hashing, old(View()), appends)
              case Ok(db) => r.Ok? && View() == db
              case Err(e) => r == Err(e) && View() == old(View())
    {
      var db := View();
      var chain := HeadChain();
      HeadChainIsChain();
      for n := 0 to |appends|
        invariant View() == old(View())
        invariant AppendAll(hashing, View(), appends[..n]) == Ok(db)
        invariant chain == Chain(hashing, Envelopes(db.rows))
      {
        AppendAllNext(hashing, View(), appends, n, db);
        var next := Append(db, chain, appends[n]);
        if next.Err? {
          return Err(next.error);
        }
        db, chain := next.value.0, next.value.1;
      }
      assert appends[..|appends|] == appends;
      AppendAllConsistent(hashing, View(), appends);
      rows, aggregates := db.rows, db.aggregates;
      return Ok(());
    }

    /** One append of a command, on top of what the command has written before it. */
    method Append(db: Db<P, S>, chain: string, a: AppendRequest<P, S>)
      returns (r: Result<(Db<P, S>, string), StoreError>)
      requires chain == Chain(hashing, Envelopes(db.rows))
      ensures r.Err? <==> CurrentVersion(db, a.streamId) != a.expectedVersion || EventIdTaken(db.rows, a.eventId)
      ensures r.Err? ==> r.error == if CurrentVersion(db, a.streamId) != a.expectedVersion then ConcurrencyConflict
                                    else DuplicateEventId
      ensures r.Ok? ==> r.value.0 == AppendOne(hashing, db, a) && r.value.1 == Chain(hashing, Envelopes(r.value.0.rows))
    {
      var actual := CurrentVersion(db, a.streamId);
      if actual != a.expectedVersion {
        return Err(ConcurrencyConflict);
      }
      if EventIdTaken(db.rows, a.eventId) {
        return Err(DuplicateEventId);
      }
      AppendOneRow(hashing, db, a);
      var e := Envelope(a.eventId, a.streamId, actual + 1, a.payload);
      var next := ChainNext(hashing, chain, e);
      return Ok((WriteRow(hashing, db, a, e, next), next));
    }

    lemma HeadChainIsChain()
      requires Valid()
      ensures HeadChain() == Chain(hashing, Envelopes(rows))
    {
      if rows != [] {
        EnvelopesNext(rows[..|rows|-1], rows[|rows|-1]);
        assert rows == rows[..|rows|-1] + [rows[|rows|-1]];
        ChainOfNext(hashing, Envelopes(rows[..|rows|-1]), rows[|rows|-1].envelope);
      }
    }

    /** Recomputes everything from the stored envelopes, in whatever state the table is. */
    method VerifyChain() returns (r: Result<string, StoreError>)
      ensures r == if Verifies(hashing, rows) then Ok(Chain(hashing, Envelopes(rows))) else Err(IntegrityViolation)
    {
      var chain := GENESIS_CHAIN;
      var lastByStream: map<string, nat> := map[];
      for n := 0 to |rows|
        invariant Verifies(hashing, rows[..n])
        invariant chain == Chain(hashing, Envelopes(rows[..n]))
        invariant forall s :: StreamLength(Envelopes(rows[..n]), s) == if s in lastByStream then lastByStream[s] else 0
      {
        var row := rows[n];
        var e := row.envelope;
        var previous := if e.streamId in lastByStream then lastByStream[e.streamId] else 0;
        RowNext(hashing, rows, n, chain, previous);
        chain := ChainNext(hashing, chain, e);
        if hashing.payload(e.payload) != row.payloadDigest || chain != row.chainDigest
           || e.streamVersion != previous + 1 {
          return Err(IntegrityViolation);
        }
        lastByStream := lastByStream[e.streamId := e.streamVersion];
      }
      assert rows[..|rows|] == rows;
      return Ok(chain);
    }
  }

  // What the chain binds ----------------------------------------------------------------------

  ghost predicate FixedWidth<P(!new)>(h: Hashing<P>) {
    (forall s :: |h.sha(s)| == DIGEST_WIDTH) && (forall p :: |h.payload(p)| == DIGEST_WIDTH)
  }

  /** The text hashed at position `i` of the chain. */
  function MaterialAt<P>(h: Hashing<P>, es: seq<Envelope<P>>, i: nat): string
    requires i < |es|
  {
    Material(Chain(h, es[..i]), h.payload(es[i].payload), es[i].eventId)
  }

  /** Of the texts these two ledgers hash at equal positions, no two different ones share a digest. */
  ghost predicate NoCollision<P>(h: Hashing<P>, a: seq<Envelope<P>>, b: seq<Envelope<P>>) {
    forall i: nat :: i < |a| && i < |b| ==>
      && (h.sha(MaterialAt(h, a, i)) == h.sha(MaterialAt(h, b, i)) ==> MaterialAt(h, a, i) == MaterialAt(h, b, i))
      && (h.payload(a[i].payload) == h.payload(b[i].payload) ==> a[i].payload == b[i].payload)
  }

  ghost predicate SameContents<P>(a: seq<Envelope<P>>, b: seq<Envelope<P>>) {
    |a| == |b| && forall i :: 0 <= i < |a| ==> a[i].eventId == b[i].eventId && a[i].payload == b[i].payload
  }

  ghost predicate SameStreams<P>(a: seq<Envelope<P>>, b: seq<Envelope<P>>) {
    |a| == |b| && forall i :: 0 <= i < |a| ==> a[i].streamId == b[i].streamId
  }

  lemma MaterialInjective(p: string, d: string, id: string, p': string, d': string, id': string)
    requires |p| == |p'| && |d| == |d'| && Material(p, d, id) == Material(p', d', id')
    ensures p == p' && d == d' && id == id'
  {
    var m, m' := Material(p, d, id), Material(p', d', id');
    assert p == m[..|p|] && p' == m'[..|p|];
    assert d == m[|p| + 1..|p| + 1 + |d|] && d' == m'[|p| + 1..|p| + 1 + |d|];
    assert id == m[|p| + |d| + 2..] && id' == m'[|p| + |d| + 2..];
  }

  lemma ChainWidth<P(!new)>(h: Hashing<P>, es: seq<Envelope<P>>)
    requires FixedWidth(h)
    ensures |Chain(h, es)| == DIGEST_WIDTH
  {
  }

  lemma NoCollisionPrefix<P>(h: Hashing<P>, a: seq<Envelope<P>>, b: seq<Envelope<P>>, n: nat)
    requires NoCollision(h, a, b) && n <= |a| && n <= |b|
    ensures NoCollision(h, a[..n], b[..n])
  {
    forall i: nat | i < n
      ensures MaterialAt(h, a[..n], i) == MaterialAt(h, a, i) && MaterialAt(h, b[..n], i) == MaterialAt(h, b, i)
    {
      assert a[..n][..i] == a[..i] && b[..n][..i] == b[..i];
    }
  }

  lemma LastLinkBinds<P(!new)>(h: Hashing<P>, a: seq<Envelope<P>>, b: seq<Envelope<P>>, n: nat)
    requires FixedWidth(h) && NoCollision(h, a, b) && |a| == |b| == n + 1
    ensures Chain(h, a) == Chain(h, b) <==>
            && Chain(h, a[..n]) == Chain(h, b[..n])
            && a[n].eventId == b[n].eventId && a[n].payload == b[n].payload
  {
    ChainWidth(h, a[..n]);
    ChainWidth(h, b[..n]);
    assert Chain(h, a) == h.sha(MaterialAt(h, a, n)) && Chain(h, b) == h.sha(MaterialAt(h, b, n));
    if Chain(h, a) == Chain(h, b) {
      MaterialInjective(Chain(h, a[..n]), h.payload(a[n].payload), a[n].eventId,
                        Chain(h, b[..n]), h.payload(b[n].payload), b[n].eventId);
    }
  }

  lemma SameContentsNext<P>(a: seq<Envelope<P>>, b: seq<Envelope<P>>, n: nat)
    requires |a| == |b| == n + 1
    ensures SameContents(a, b) <==>
            SameContents(a[..n], b[..n]) && a[n].eventId == b[n].eventId && a[n].payload == b[n].payload
  {
    if SameContents(a[..n], b[..n]) {
      assert forall i :: 0 <= i < n ==> a[..n][i] == a[i] && b[..n][i] == b[i];
    }
  }

  /** Equal chain digests at one sequence mean equal event ids and payloads at every position below it. */
  lemma {:induction false} ChainBindsContents<P(!new)>(h: Hashing<P>, a: seq<Envelope<P>>, b: seq<Envelope<P>>)
    requires FixedWidth(h) && NoCollision(h, a, b) && |a| == |b|
    ensures Chain(h, a) == Chain(h, b) <==> SameContents(a, b)
  {
    if a != [] {
      var n := |a| - 1;
      NoCollisionPrefix(h, a, b, n);
      ChainBindsContents(h, a[..n], b[..n]);
      LastLinkBinds(h, a, b, n);
      SameContentsNext(a, b, n);
    }
  }

  lemma {:induction false} StreamLengthsEqual<P>(a: seq<Envelope<P>>, b: seq<Envelope<P>>, s: string)
    requires SameStreams(a, b)
    ensures StreamLength(a, s) == StreamLength(b, s)
  {
    if a != [] {
      StreamLengthsEqual(a[..|a|-1], b[..|b|-1], s);
    }
  }

  lemma {:induction false} VersionsDetermined<P>(a: seq<Envelope<P>>, b: seq<Envelope<P>>)
    requires Contiguous(a) && Contiguous(b) && SameContents(a, b) && SameStreams(a, b)
    ensures a == b
  {
    if a != [] {
      var n := |a| - 1;
      SameContentsNext(a, b, n);
      assert SameStreams(a[..n], b[..n]);
      VersionsDetermined(a[..n], b[..n]);
      assert a == a[..n] + [a[n]] && b == b[..n] + [b[n]];
    }
  }

  /** The chain alone does not bind stream ids; with them it binds the whole prefix, versions included. */
  lemma PrefixIdentical<P(!new)>(h: Hashing<P>, a: seq<Envelope<P>>, b: seq<Envelope<P>>)
    requires FixedWidth(h) && NoCollision(h, a, b) && |a| == |b| && Contiguous(a) && Contiguous(b)
    ensures a == b <==> Chain(h, a) == Chain(h, b) && SameStreams(a, b)
  {
    ChainBindsContents(h, a, b);
    if SameContents(a, b) && SameStreams(a, b) {
      VersionsDetermined(a, b);
    }
  }
}
