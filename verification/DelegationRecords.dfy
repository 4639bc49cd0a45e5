/**
 What the rows of the delegation store say: when an assignment is accepted, who may end one, and what
 every history keeps of them.
 */
module DelegationRecords {
  import opened Prelude
  import opened Delegation
  import opened DelegationForest

  // The climb to a crew bot, row by row ---------------------------------------------------------

  /** Row `n` is the only active assignment of the bot in the mission that has not expired. */
  ghost predicate OnlyRow(rows: seq<Assignment>, bot: string, mission: string, at: nat, n: nat) {
    && n < |rows|
    && forall m :: 0 <= m < |rows| ==>
         (m == n <==>
          rows[m].status == Active && at < rows[m].expiresAt && rows[m].delegate == bot && rows[m].mission == mission)
  }

  ghost predicate NoRow(rows: seq<Assignment>, bot: string, mission: string, at: nat) {
    forall m :: 0 <= m < |rows| ==>
      !(rows[m].status == Active && at < rows[m].expiresAt && rows[m].delegate == bot && rows[m].mission == mission)
  }

  lemma {:induction false} RowsRead(rows: seq<Assignment>, bot: string, mission: string, at: nat, n: nat)
    ensures LiveRows(rows, bot, mission, at) == [] <==> NoRow(rows, bot, mission, at)
    ensures OnlyRow(rows, bot, mission, at, n) ==> LiveRows(rows, bot, mission, at) == [rows[n]]
  {
    if rows != [] {
      var front := rows[..|rows|-1];
      RowsRead(front, bot, mission, at, if n < |front| then n else 0);
      if NoRow(rows, bot, mission, at) {
        assert forall m :: 0 <= m < |front| ==> front[m] == rows[m];
        assert NoRow(front, bot, mission, at);
      }
      if OnlyRow(rows, bot, mission, at, n) {
        assert forall m :: 0 <= m < |front| ==> front[m] == rows[m];
        if n < |front| {
          assert OnlyRow(front, bot, mission, at, n);
        } else {
          assert NoRow(front, bot, mission, at);
        }
      }
      if LiveRows(rows, bot, mission, at) == [] {
        assert forall m :: 0 <= m < |front| ==> front[m] == rows[m];
      }
    }
  }

  lemma {:induction false} OneLiveIsOnlyRow(rows: seq<Assignment>, bot: string, mission: string, at: nat)
    returns (n: nat)
    requires |LiveRows(rows, bot, mission, at)| == 1
    ensures OnlyRow(rows, bot, mission, at, n) && LiveRows(rows, bot, mission, at) == [rows[n]]
  {
    var front, last := rows[..|rows|-1], rows[|rows|-1];
    if LiveFor(last, bot, mission, at) {
      RowsRead(front, bot, mission, at, 0);
      n := |front|;
      assert forall m :: 0 <= m < |front| ==> front[m] == rows[m];
    } else {
      n := OneLiveIsOnlyRow(front, bot, mission, at);
      assert forall m :: 0 <= m < |front| ==> front[m] == rows[m];
    }
  }

  /** Each bot but the last has one live assignment, whose parent is the next; only the last is a crew bot. */
  ghost predicate Ladder(w: World, mission: string, at: nat, chain: seq<string>) {
    && chain != [] && chain[0] in w.bots
    && (w.bots[chain[0]].roleKind == "crew" <==> |chain| == 1)
    && (|chain| > 1 ==>
          && (exists n: nat :: OnlyRow(w.rows, chain[0], mission, at, n) && w.rows[n].parent == chain[1])
          && Ladder(w, mission, at, chain[1..]))
  }

  function LimitsOf(w: World, chain: seq<string>): seq<int> {
    seq(|chain|, i requires 0 <= i < |chain| => if chain[i] in w.bots then w.bots[chain[i]].maxSpawnDepth else 0)
  }

  lemma {:induction false} OneLadder(w: World, mission: string, at: nat, chain: seq<string>, other: seq<string>)
    requires Ladder(w, mission, at, chain) && Ladder(w, mission, at, other) && chain[0] == other[0]
    ensures chain == other
  {
    if |chain| > 1 {
      var n: nat :| OnlyRow(w.rows, chain[0], mission, at, n) && w.rows[n].parent == chain[1];
      var k: nat :| OnlyRow(w.rows, chain[0], mission, at, k) && w.rows[k].parent == other[1];
      assert n == k;
      OneLadder(w, mission, at, chain[1..], other[1..]);
      assert chain == [chain[0]] + chain[1..] && other == [other[0]] + other[1..];
    }
  }

  lemma {:induction false} LadderTail(w: World, mission: string, at: nat, chain: seq<string>, i: nat)
    requires Ladder(w, mission, at, chain) && i < |chain|
    ensures Ladder(w, mission, at, chain[i..])
  {
    if i > 0 {
      LadderTail(w, mission, at, chain[1..], i - 1);
      assert chain[1..][i - 1..] == chain[i..];
    }
  }

  /** A ladder that ends has no bot twice. */
  lemma LadderDistinct(w: World, mission: string, at: nat, chain: seq<string>, i: nat, j: nat)
    requires Ladder(w, mission, at, chain) && i < j < |chain|
    ensures chain[i] != chain[j]
  {
    if chain[i] == chain[j] {
      LadderTail(w, mission, at, chain, i);
      LadderTail(w, mission, at, chain, j);
      OneLadder(w, mission, at, chain[i..], chain[j..]);
      assert false;
    }
  }

  lemma {:induction false} WalkOfLadder(w: World, mission: string, at: nat, chain: seq<string>, seen: set<string>)
    requires Ladder(w, mission, at, chain) && forall i :: 0 <= i < |chain| ==> chain[i] !in seen
    ensures Walk(w, mission, at, chain[0], seen) == Ok(LimitsOf(w, chain))
  {
    if |chain| > 1 {
      var n: nat :| OnlyRow(w.rows, chain[0], mission, at, n) && w.rows[n].parent == chain[1];
      RowsRead(w.rows, chain[0], mission, at, n);
      forall i | 0 <= i < |chain[1..]|
        ensures chain[1..][i] !in seen + {chain[0]}
      {
        LadderDistinct(w, mission, at, chain, 0, i + 1);
      }
      WalkOfLadder(w, mission, at, chain[1..], seen + {chain[0]});
      assert LimitsOf(w, chain) == [w.bots[chain[0]].maxSpawnDepth] + LimitsOf(w, chain[1..]);
    } else {
      assert LimitsOf(w, chain) == [w.bots[chain[0]].maxSpawnDepth];
    }
  }

  lemma {:induction false} LadderOfWalk(w: World, mission: string, at: nat, ancestor: string, seen: set<string>)
    returns (chain: seq<string>)
    requires Walk(w, mission, at, ancestor, seen).Ok?
    ensures Ladder(w, mission, at, chain) && chain[0] == ancestor
    decreases w.bots.Keys - seen
  {
    if w.bots[ancestor].roleKind == "crew" {
      return [ancestor];
    }
    var n := OneLiveIsOnlyRow(w.rows, ancestor, mission, at);
    assert ancestor in w.bots.Keys - seen && ancestor !in w.bots.Keys - (seen + {ancestor});
    var above := LadderOfWalk(w, mission, at, w.rows[n].parent, seen + {ancestor});
    chain := [ancestor] + above;
    assert chain[1..] == above;
  }

  /** The depth one below the parent: one under a crew bot, else one more than the parent's own assignment. */
  ghost predicate DepthBelow(w: World, parent: string, mission: string, at: nat, depth: int) {
    && parent in w.bots
    && if w.bots[parent].roleKind == "crew" then depth == 1
       else exists n: nat :: OnlyRow(w.rows, parent, mission, at, n) && depth == w.rows[n].depth + 1
  }

  lemma LimitsOfLadder(w: World, mission: string, at: nat, chain: seq<string>, depth: int)
    requires Ladder(w, mission, at, chain) && DepthBelow(w, chain[0], mission, at, depth)
    ensures DepthAndLimits(w, chain[0], mission, at) == Ok((depth, LimitsOf(w, chain)))
  {
    if |chain| > 1 {
      var n: nat :| OnlyRow(w.rows, chain[0], mission, at, n) && w.rows[n].parent == chain[1];
      RowsRead(w.rows, chain[0], mission, at, n);
      forall i | 0 <= i < |chain[1..]|
        ensures chain[1..][i] !in {chain[0]}
      {
        LadderDistinct(w, mission, at, chain, 0, i + 1);
      }
      WalkOfLadder(w, mission, at, chain[1..], {chain[0]});
      assert LimitsOf(w, chain) == [w.bots[chain[0]].maxSpawnDepth] + LimitsOf(w, chain[1..]);
    } else {
      assert LimitsOf(w, chain) == [w.bots[chain[0]].maxSpawnDepth];
    }
  }

  lemma LadderOfLimits(w: World, parent: string, mission: string, at: nat) returns (chain: seq<string>)
    requires parent in w.bots && DepthAndLimits(w, parent, mission, at).Ok?
    ensures Ladder(w, mission, at, chain) && chain[0] == parent
    ensures DepthBelow(w, parent, mission, at, DepthAndLimits(w, parent, mission, at).value.0)
  {
    if w.bots[parent].roleKind == "crew" {
      return [parent];
    }
    var n := OneLiveIsOnlyRow(w.rows, parent, mission, at);
    var above := LadderOfWalk(w, mission, at, w.rows[n].parent, {parent});
    chain := [parent] + above;
    assert chain[1..] == above;
  }

  lemma {:induction false} MinBounds(limits: seq<int>, depth: int)
    requires limits != []
    ensures depth <= Min(limits) <==> forall i :: 0 <= i < |limits| ==> depth <= limits[i]
  {
    if |limits| > 1 {
      MinBounds(limits[1..], depth);
      assert limits == [limits[0]] + limits[1..];
      if forall i :: 0 <= i < |limits[1..]| ==> depth <= limits[1..][i] {
        assert forall i :: 1 <= i < |limits| ==> limits[i] == limits[1..][i - 1];
      } else {
        var i :| 0 <= i < |limits[1..]| && depth > limits[1..][i];
        assert limits[i + 1] == limits[1..][i];
      }
    }
  }

  // When an assignment is accepted --------------------------------------------------------------

  /** What the records other than assignments say for the row. */
  predicate Authorized(w: World, r: Assignment) {
    && r.parent in w.bots && r.delegate in w.bots && r.parent != r.delegate
    && w.bots[r.parent].mayDelegate
    && w.bots[r.delegate].roleKind == "delegate" && w.bots[r.delegate].missionId == Some(r.mission)
    && r.mission in w.missions
    && (r.taskId.Some? ==> r.taskId.value in w.tasks && w.tasks[r.taskId.value] == r.mission)
    && r.createdAt < r.expiresAt
  }

  /** Every bot of the chain allows the depth. */
  ghost predicate AllAllow(w: World, chain: seq<string>, depth: int) {
    forall i :: 0 <= i < |chain| ==> chain[i] in w.bots && depth <= w.bots[chain[i]].maxSpawnDepth
  }

  /** The parent reaches a crew bot by live assignments, and every bot on the way allows the depth. */
  ghost predicate PlaceAllowed(w: World, a: Assignment, now: nat) {
    && DepthBelow(w, a.parent, a.mission, now, a.depth)
    && exists chain :: Ladder(w, a.mission, now, chain) && chain[0] == a.parent && AllAllow(w, chain, a.depth)
  }

  lemma {:induction false} LadderBots(w: World, mission: string, at: nat, chain: seq<string>, i: nat)
    requires Ladder(w, mission, at, chain) && i < |chain|
    ensures chain[i] in w.bots
  {
    if i > 0 {
      LadderBots(w, mission, at, chain[1..], i - 1);
    }
  }

  lemma AllAllowLimits(w: World, mission: string, at: nat, chain: seq<string>, depth: int)
    requires Ladder(w, mission, at, chain)
    ensures AllAllow(w, chain, depth) <==> depth <= Min(LimitsOf(w, chain))
  {
    var limits := LimitsOf(w, chain);
    forall i | 0 <= i < |chain|
      ensures chain[i] in w.bots && limits[i] == w.bots[chain[i]].maxSpawnDepth
    {
      LadderBots(w, mission, at, chain, i);
    }
    MinBounds(limits, depth);
    if depth <= Min(limits) {
      assert forall i :: 0 <= i < |limits| ==> depth <= limits[i];
    }
    if AllAllow(w, chain, depth) {
      assert forall i :: 0 <= i < |limits| ==> depth <= limits[i];
    }
  }

  lemma PlaceExactly(w: World, a: Assignment, now: nat)
    requires a.parent in w.bots
    ensures PlaceAllowed(w, a, now) <==>
            var r := DepthAndLimits(w, a.parent, a.mission, now);
            r.Ok? && a.depth == r.value.0 && a.depth <= Min(r.value.1)
  {
    var r := DepthAndLimits(w, a.parent, a.mission, now);
    if PlaceAllowed(w, a, now) {
      var chain :| Ladder(w, a.mission, now, chain) && chain[0] == a.parent && AllAllow(w, chain, a.depth);
      LimitsOfLadder(w, a.mission, now, chain, a.depth);
      AllAllowLimits(w, a.mission, now, chain, a.depth);
    }
    if r.Ok? && a.depth == r.value.0 && a.depth <= Min(r.value.1) {
      var chain := LadderOfLimits(w, a.parent, a.mission, now);
      LimitsOfLadder(w, a.mission, now, chain, a.depth);
      AllAllowLimits(w, a.mission, now, chain, a.depth);
    }
  }

  /** In any state, which assignments are accepted, said on the rows and records themselves. */
  lemma AssignedExactly(w: World, a: Assignment, now: nat)
    ensures Assign(w, a, now).Ok? <==>
      && a.createdAt == now && a.status == Active
      && (forall i :: 0 <= i < |w.rows| ==> w.rows[i].id != a.id)
      && Authorized(w, a)
      && NoRow(w.rows, a.delegate, a.mission, now)
      && PlaceAllowed(w, a, now)
    ensures Assign(w, a, now).Ok? ==> Assign(w, a, now).value == w.(rows := w.rows + [a])
  {
    RowsRead(w.rows, a.delegate, a.mission, now, 0);
    if a.parent in w.bots {
      PlaceExactly(w, a, now);
    }
  }

  /** A refusal that names a record names one that is really missing or in the way. */
  lemma AssignRefusalIsTrue(w: World, a: Assignment, now: nat)
    ensures match Assign(w, a, now) {
      case Err(IdExists) => exists i :: 0 <= i < |w.rows| && w.rows[i].id == a.id
      case Err(MetadataMismatch) => a.createdAt != now
      case Err(ParentNotFound) => a.parent !in w.bots
      case Err(DelegateNotFound) => a.delegate !in w.bots
      case Err(SelfAssignment) => a.parent == a.delegate
      case Err(AssigneeNotDelegate) => a.delegate in w.bots && w.bots[a.delegate].roleKind != "delegate"
      case Err(ParentMayNotDelegate) => a.parent in w.bots && !w.bots[a.parent].mayDelegate
      case Err(MissionMismatch) => a.delegate in w.bots && w.bots[a.delegate].missionId != Some(a.mission)
      case Err(MissionNotFound) => a.mission !in w.missions
      case Err(AlreadyActive) => !NoRow(w.rows, a.delegate, a.mission, now)
      case Err(DepthInvalid) => !PlaceAllowed(w, a, now)
      case Err(TaskBindingInvalid) =>
        a.taskId.Some? && (a.taskId.value in w.tasks ==> w.tasks[a.taskId.value] != a.mission)
      case Err(MustStartActive) => a.status != Active
      case Err(ExpiryNotAfterCreation) => a.expiresAt <= a.createdAt
      case Err(e) => e in {Ambiguous, NotActive, Cycle, AncestorNotFound}
      case Ok(_) => true
    }
  {
    RowsRead(w.rows, a.delegate, a.mission, now, 0);
    if a.parent in w.bots {
      PlaceExactly(w, a, now);
    }
    WalkErrors(w, a, now);
  }

  lemma {:induction false} WalkFails(w: World, mission: string, at: nat, ancestor: string, seen: set<string>)
    ensures var r := Walk(w, mission, at, ancestor, seen);
      r.Err? ==> r.error in {Ambiguous, NotActive, Cycle, AncestorNotFound}
    decreases w.bots.Keys - seen
  {
    if ancestor !in seen && ancestor in w.bots {
      var live := LiveRows(w.rows, ancestor, mission, at);
      if live != [] {
        assert ancestor in w.bots.Keys - seen && ancestor !in w.bots.Keys - (seen + {ancestor});
        WalkFails(w, mission, at, live[0].parent, seen + {ancestor});
      }
    }
  }

  lemma WalkErrors(w: World, a: Assignment, now: nat)
    ensures a.parent in w.bots ==>
      var r := DepthAndLimits(w, a.parent, a.mission, now);
      r.Err? ==> r.error in {Ambiguous, NotActive, Cycle, AncestorNotFound}
  {
    if a.parent in w.bots && LiveRows(w.rows, a.parent, a.mission, now) != [] {
      WalkFails(w, a.mission, now, LiveRows(w.rows, a.parent, a.mission, now)[0].parent, {a.parent});
    }
  }

  // When an assignment ends ---------------------------------------------------------------------

  /** Who may bring the row to that end at that time. */
  predicate MayEnd(r: Assignment, to: Status, actorKind: string, now: nat) {
    && r.status == Active
    && match to
       case Active => false
       case Completed => now < r.expiresAt
       case Revoked => now < r.expiresAt && actorKind in {"human", "governance_kernel", "system"}
       case Expired => r.expiresAt <= now && actorKind in {"governance_kernel", "system"}
  }

  ghost predicate IdsDistinct(rows: seq<Assignment>) {
    forall i, j :: 0 <= i < j < |rows| ==> rows[i].id != rows[j].id
  }

  /** Exactly the named row ends, exactly when that actor may end it so at that time. */
  lemma EndedExactly(w: World, n: nat, to: Status, actorKind: string, now: nat)
    requires n < |w.rows| && IdsDistinct(w.rows)
    ensures End(w, w.rows[n].id, to, actorKind, now).Ok? <==> MayEnd(w.rows[n], to, actorKind, now)
    ensures MayEnd(w.rows[n], to, actorKind, now) ==>
              End(w, w.rows[n].id, to, actorKind, now) == Ok(w.(rows := w.rows[n := w.rows[n].(status := to)]))
  {
    var k := IndexOf(w.rows, w.rows[n].id);
    assert k == n;
  }

  lemma EndOfUnknown(w: World, id: string, to: Status, actorKind: string, now: nat)
    requires forall i :: 0 <= i < |w.rows| ==> w.rows[i].id != id
    ensures End(w, id, to, actorKind, now) == Err(NotFound)
  {
  }

  // Over every history --------------------------------------------------------------------------

  ghost predicate Records(w: World) {
    && IdsDistinct(w.rows)
    && forall i :: 0 <= i < |w.rows| ==> Authorized(w, w.rows[i])
  }

  lemma AssignKeepsRecords(w: World, a: Assignment, now: nat)
    requires Records(w)
    ensures Records(Step(w, AssignDelegate(a), now))
  {
    AssignedExactly(w, a, now);
  }

  lemma EndKeepsRecords(w: World, id: string, to: Status, actorKind: string, now: nat)
    requires Records(w)
    ensures Records(Step(w, EndAssignment(id, to, actorKind), now))
  {
    if n :| 0 <= n < |w.rows| && w.rows[n].id == id {
      EndedExactly(w, n, to, actorKind, now);
    } else {
      EndOfUnknown(w, id, to, actorKind, now);
    }
  }

  lemma StepKeepsRecords(w: World, c: Command, now: nat)
    requires Records(w)
    ensures Records(Step(w, c, now))
  {
    match c
    case AssignDelegate(a) => AssignKeepsRecords(w, a, now);
    case EndAssignment(id, to, kind) => EndKeepsRecords(w, id, to, kind, now);
    case _ =>
  }

  /** Whatever the history, every row has been authorized and still is, and no two share an identity. */
  lemma {:induction false} EveryRowIsAuthorized(h: History)
    ensures Records(Exec(h))
  {
    if h != [] {
      EveryRowIsAuthorized(h[..|h|-1]);
      StepKeepsRecords(Exec(h[..|h|-1]), h[|h|-1].0, h[|h|-1].1);
    }
  }

  /** Some command of the history created the row as it is, but for its end. */
  ghost predicate Created(h: History, r: Assignment) {
    exists k ::
      && 0 <= k < |h| && h[k].0 == AssignDelegate(r.(status := Active)) && h[k].1 == r.createdAt
  }

  /** Some command of the history ended the row, by an actor who may and at a time it may. */
  ghost predicate EndedBy(h: History, r: Assignment) {
    exists k ::
      && 0 <= k < |h| && h[k].0.EndAssignment? && h[k].0.id == r.id && h[k].0.to == r.status
      && MayEnd(r.(status := Active), r.status, h[k].0.actorKind, h[k].1)
  }

  ghost predicate Explained(h: History, r: Assignment) {
    Created(h, r) && (r.status != Active ==> EndedBy(h, r))
  }

  lemma ExplainedLonger(h: History, r: Assignment)
    requires h != [] && Explained(h[..|h|-1], r)
    ensures Explained(h, r)
  {
    var front := h[..|h|-1];
    var k :| 0 <= k < |front| && front[k].0 == AssignDelegate(r.(status := Active)) && front[k].1 == r.createdAt;
    assert h[k] == front[k];
    if r.status != Active {
      var k :|
        && 0 <= k < |front| && front[k].0.EndAssignment? && front[k].0.id == r.id && front[k].0.to == r.status
        && MayEnd(r.(status := Active), r.status, front[k].0.actorKind, front[k].1);
      assert h[k] == front[k];
    }
  }

  /** The rows after one more command: kept, appended or ended. */
  lemma RowsAfter(h: History, i: nat)
    requires h != [] && i < |Exec(h).rows|
    ensures var was := Exec(h[..|h|-1]).rows; var r := Exec(h).rows[i]; var c := h[|h|-1].0;
      || (i < |was| && r == was[i])
      || (i == |was| && c == AssignDelegate(r) && r.status == Active && r.createdAt == h[|h|-1].1)
      || (i < |was| && c.EndAssignment? && c.id == r.id && r == was[i].(status := c.to)
          && MayEnd(was[i], c.to, c.actorKind, h[|h|-1].1))
  {
    var w, c, now := Exec(h[..|h|-1]), h[|h|-1].0, h[|h|-1].1;
    EveryRowIsAuthorized(h[..|h|-1]);
    match c
    case AssignDelegate(a) =>
      AssignedExactly(w, a, now);
    case EndAssignment(id, to, kind) =>
      if n :| 0 <= n < |w.rows| && w.rows[n].id == id {
        EndedExactly(w, n, to, kind, now);
      } else {
        EndOfUnknown(w, id, to, kind, now);
      }
    case _ =>
  }

  /** Every row was assigned by a command of the history, and ended, if it is, by one entitled to end it. */
  lemma {:induction false} EveryRowIsExplained(h: History, i: nat)
    requires i < |Exec(h).rows|
    ensures Explained(h, Exec(h).rows[i])
  {
    RowsAfter(h, i);
    var front := h[..|h|-1];
    var was, r, c := Exec(front).rows, Exec(h).rows[i], h[|h|-1].0;
    if i < |was| {
      EveryRowIsExplained(front, i);
      ExplainedLonger(h, was[i]);
      if r != was[i] {
        assert was[i] == r.(status := Active);
        assert Created(h, r);
        assert EndedBy(h, r);
      }
    } else {
      assert r == r.(status := Active);
      assert h[|h|-1].0 == AssignDelegate(r.(status := Active));
    }
  }

  lemma RowsStay(h: History)
    requires h != []
    ensures |Exec(h[..|h|-1]).rows| <= |Exec(h).rows|
  {
    var w, c, now := Exec(h[..|h|-1]), h[|h|-1].0, h[|h|-1].1;
    match c
    case AssignDelegate(a) => AssignedExactly(w, a, now);
    case _ =>
  }

  /** A row that has ended never changes again, and no row is ever taken away. */
  lemma EndedIsFinal(h: History, i: nat)
    requires h != [] && i < |Exec(h[..|h|-1]).rows|
    ensures i < |Exec(h).rows|
    ensures Exec(h[..|h|-1]).rows[i].status != Active ==> Exec(h).rows[i] == Exec(h[..|h|-1]).rows[i]
  {
    RowsStay(h);
    RowsAfter(h, i);
  }
}
