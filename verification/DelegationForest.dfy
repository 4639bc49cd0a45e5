/** Over every history of commands the live assignments of a mission form a forest under crew bots. */
module DelegationForest {
  import opened Prelude
  import opened ParentMaps
  import opened Delegation

  // The live parent relation ------------------------------------------------------------------

  ghost function Parents(rows: seq<Assignment>, mission: string, at: nat): map<string, string> {
    map d | d in (set a | a in rows :: a.delegate) && LiveRows(rows, d, mission, at) != []
      :: LiveRows(rows, d, mission, at)[0].parent
  }

  lemma {:induction false} LiveRowsMembers(rows: seq<Assignment>, bot: string, mission: string, at: nat, r: Assignment)
    ensures r in LiveRows(rows, bot, mission, at) <==> r in rows && LiveFor(r, bot, mission, at)
  {
    if rows != [] {
      LiveRowsMembers(rows[..|rows|-1], bot, mission, at, r);
      assert rows == rows[..|rows|-1] + [rows[|rows|-1]];
    }
  }

  ghost predicate TwoLive(rows: seq<Assignment>, bot: string, mission: string, at: nat) {
    exists i, j :: 0 <= i < j < |rows| && LiveFor(rows[i], bot, mission, at) && LiveFor(rows[j], bot, mission, at)
  }

  lemma {:induction false} ManyLiveExactly(rows: seq<Assignment>, bot: string, mission: string, at: nat)
    ensures |LiveRows(rows, bot, mission, at)| > 1 <==> TwoLive(rows, bot, mission, at)
  {
    if rows != [] {
      var front, last := rows[..|rows|-1], rows[|rows|-1];
      ManyLiveExactly(front, bot, mission, at);
      LastLive(rows, bot, mission, at);
    }
  }

  lemma LastLive(rows: seq<Assignment>, bot: string, mission: string, at: nat)
    requires rows != []
    ensures var front, last := rows[..|rows|-1], rows[|rows|-1];
      TwoLive(rows, bot, mission, at) <==>
        TwoLive(front, bot, mission, at) ||
        (LiveFor(last, bot, mission, at) && LiveRows(front, bot, mission, at) != [])
  {
    var front, last := rows[..|rows|-1], rows[|rows|-1];
    var live := LiveRows(front, bot, mission, at);
    if live != [] {
      LiveRowsMembers(front, bot, mission, at, live[0]);
      var i :| 0 <= i < |front| && front[i] == live[0];
      assert rows[i] == live[0];
    }
    if TwoLive(front, bot, mission, at) {
      var i, j :| 0 <= i < j < |front| && LiveFor(front[i], bot, mission, at) && LiveFor(front[j], bot, mission, at);
      assert rows[i] == front[i] && rows[j] == front[j];
    }
    if TwoLive(rows, bot, mission, at) {
      var i, j :| 0 <= i < j < |rows| && LiveFor(rows[i], bot, mission, at) && LiveFor(rows[j], bot, mission, at);
      assert front[i] == rows[i];
      LiveRowsMembers(front, bot, mission, at, front[i]);
      assert j < |front| ==> front[j] == rows[j];
    }
  }

  lemma ParentsOf(rows: seq<Assignment>, bot: string, mission: string, at: nat)
    ensures bot in Parents(rows, mission, at) <==> LiveRows(rows, bot, mission, at) != []
  {
    var live := LiveRows(rows, bot, mission, at);
    if live != [] {
      LiveRowsMembers(rows, bot, mission, at, live[0]);
      assert live[0] in rows && live[0].delegate == bot;
    }
  }

  ghost predicate Static(w: World) {
    forall r :: r in w.rows ==>
      && r.delegate in w.bots && r.parent in w.bots
      && w.bots[r.delegate].roleKind == "delegate"
  }

  ghost predicate Unique(rows: seq<Assignment>, at: nat) {
    forall bot, mission :: |LiveRows(rows, bot, mission, at)| <= 1
  }

  ghost predicate Forest(rows: seq<Assignment>, at: nat) {
    forall mission :: Acyclic(Parents(rows, mission, at))
  }

  /** One live assignment per delegate and mission, and no cycle among live parents. */
  ghost predicate Inv(w: World, at: nat) {
    Static(w) && Unique(w.rows, at) && Forest(w.rows, at)
  }

  // Passing time and ending assignments only shrink the relation -------------------------------

  ghost predicate Ended(a: Assignment, b: Assignment) {
    a.status == Active && b.status != Active && b == a.(status := b.status)
  }

  ghost predicate Shrinks(rows: seq<Assignment>, at: nat, rows': seq<Assignment>, at': nat) {
    && |rows'| == |rows| && at <= at'
    && forall i :: 0 <= i < |rows| ==> rows'[i] == rows[i] || Ended(rows[i], rows'[i])
  }

  lemma {:induction false} LiveRowsShrink(rows: seq<Assignment>, at: nat, rows': seq<Assignment>, at': nat,
                                          bot: string, mission: string)
    requires Shrinks(rows, at, rows', at')
    ensures |LiveRows(rows', bot, mission, at')| <= |LiveRows(rows, bot, mission, at)|
    ensures forall r :: r in LiveRows(rows', bot, mission, at') ==> r in LiveRows(rows, bot, mission, at)
  {
    if rows != [] {
      LiveRowsShrink(rows[..|rows|-1], at, rows'[..|rows|-1], at', bot, mission);
    }
  }

  lemma ParentsShrink(rows: seq<Assignment>, at: nat, rows': seq<Assignment>, at': nat, mission: string)
    requires Shrinks(rows, at, rows', at') && Unique(rows, at)
    ensures Submap(Parents(rows', mission, at'), Parents(rows, mission, at))
  {
    forall d | d in Parents(rows', mission, at')
      ensures d in Parents(rows, mission, at) && Parents(rows, mission, at)[d] == Parents(rows', mission, at')[d]
    {
      LiveRowsShrink(rows, at, rows', at', d, mission);
      var live, live' := LiveRows(rows, d, mission, at), LiveRows(rows', d, mission, at');
      assert live'[0] in live && |live| <= 1;
      ParentsOf(rows, d, mission, at);
    }
  }

  lemma InvShrinks(w: World, at: nat, w': World, at': nat)
    requires Inv(w, at) && w'.bots == w.bots && Shrinks(w.rows, at, w'.rows, at')
    ensures Inv(w', at')
  {
    forall bot, mission
      ensures |LiveRows(w'.rows, bot, mission, at')| <= 1
    {
      LiveRowsShrink(w.rows, at, w'.rows, at', bot, mission);
    }
    forall mission
      ensures Acyclic(Parents(w'.rows, mission, at'))
    {
      ParentsShrink(w.rows, at, w'.rows, at', mission);
      AcyclicSubmap(Parents(w'.rows, mission, at'), Parents(w.rows, mission, at));
    }
    forall r | r in w'.rows
      ensures r.delegate in w.bots && r.parent in w.bots && w.bots[r.delegate].roleKind == "delegate"
    {
      var i :| 0 <= i < |w'.rows| && w'.rows[i] == r;
      assert w.rows[i] in w.rows;
    }
  }

  // The ancestor walk -------------------------------------------------------------------------

  /** `limits` lists the limits of `b` and the bots above it, up to the first crew bot. */
  ghost predicate Climbs(w: World, parents: map<string, string>, b: string, limits: seq<int>) {
    && limits != []
    && forall i: nat :: i < |limits| ==>
         && Up(parents, b, i).Some?
         && Up(parents, b, i).value in w.bots
         && w.bots[Up(parents, b, i).value].maxSpawnDepth == limits[i]
         && (w.bots[Up(parents, b, i).value].roleKind == "crew" <==> i == |limits| - 1)
  }

  lemma ClimbsFurther(w: World, parents: map<string, string>, b: string, limits: seq<int>)
    requires b in parents && b in w.bots && w.bots[b].roleKind != "crew"
    requires Climbs(w, parents, parents[b], limits)
    ensures Climbs(w, parents, b, [w.bots[b].maxSpawnDepth] + limits)
  {
    var more := [w.bots[b].maxSpawnDepth] + limits;
    forall i: nat | i < |more|
      ensures Up(parents, b, i).Some?
      ensures Up(parents, b, i).value in w.bots
      ensures w.bots[Up(parents, b, i).value].maxSpawnDepth == more[i]
      ensures w.bots[Up(parents, b, i).value].roleKind == "crew" <==> i == |more| - 1
    {
      if i > 0 {
        assert Up(parents, b, i) == Up(parents, parents[b], i - 1);
        assert more[i] == limits[i - 1];
      }
    }
  }

  lemma {:induction false} WalkClimbs(w: World, mission: string, at: nat, ancestor: string, seen: set<string>)
    requires Walk(w, mission, at, ancestor, seen).Ok?
    ensures Climbs(w, Parents(w.rows, mission, at), ancestor, Walk(w, mission, at, ancestor, seen).value)
    decreases w.bots.Keys - seen
  {
    var parents := Parents(w.rows, mission, at);
    if w.bots[ancestor].roleKind == "crew" {
      assert Up(parents, ancestor, 0) == Some(ancestor);
    } else {
      ParentsOf(w.rows, ancestor, mission, at);
      assert ancestor in w.bots.Keys - seen && ancestor !in w.bots.Keys - (seen + {ancestor});
      WalkClimbs(w, mission, at, parents[ancestor], seen + {ancestor});
      ClimbsFurther(w, parents, ancestor, Walk(w, mission, at, parents[ancestor], seen + {ancestor}).value);
    }
  }

  lemma DepthAndLimitsClimb(w: World, parent: string, mission: string, at: nat)
    requires parent in w.bots && DepthAndLimits(w, parent, mission, at).Ok?
    ensures Climbs(w, Parents(w.rows, mission, at), parent, DepthAndLimits(w, parent, mission, at).value.1)
  {
    var parents := Parents(w.rows, mission, at);
    if w.bots[parent].roleKind == "crew" {
      assert Up(parents, parent, 0) == Some(parent);
    } else {
      ParentsOf(w.rows, parent, mission, at);
      WalkClimbs(w, mission, at, parents[parent], {parent});
      ClimbsFurther(w, parents, parent, Walk(w, mission, at, parents[parent], {parent}).value);
    }
  }

  /** Every bot the walk has seen is strictly below the bot it stands on. */
  ghost predicate Below(parents: map<string, string>, seen: set<string>, b: string) {
    forall x :: x in seen ==> exists k: nat :: k > 0 && Up(parents, x, k) == Some(b)
  }

  lemma BelowNext(parents: map<string, string>, seen: set<string>, b: string)
    requires b in parents && Below(parents, seen, b)
    ensures Below(parents, seen + {b}, parents[b])
  {
    forall x | x in seen + {b}
      ensures exists k: nat :: k > 0 && Up(parents, x, k) == Some(parents[b])
    {
      assert Up(parents, b, 1) == Some(parents[b]) by { assert Up(parents, parents[b], 0) == Some(parents[b]); }
      if x != b {
        var k: nat :| k > 0 && Up(parents, x, k) == Some(b);
        UpSplit(parents, x, k, 1);
        assert Up(parents, x, k + 1) == Some(parents[b]);
      }
    }
  }

  lemma {:induction false} WalkOnlyStopsInactive(w: World, mission: string, at: nat, ancestor: string,
                                                 seen: set<string>)
    requires Inv(w, at) && ancestor in w.bots && Below(Parents(w.rows, mission, at), seen, ancestor)
    ensures Walk(w, mission, at, ancestor, seen).Ok? || Walk(w, mission, at, ancestor, seen) == Err(NotActive)
    decreases w.bots.Keys - seen
  {
    var parents := Parents(w.rows, mission, at);
    assert Acyclic(parents);
    if ancestor in seen {
      assert false;
    } else if w.bots[ancestor].roleKind != "crew" {
      var live := LiveRows(w.rows, ancestor, mission, at);
      ParentsOf(w.rows, ancestor, mission, at);
      if live != [] {
        LiveRowsMembers(w.rows, ancestor, mission, at, live[0]);
        BelowNext(parents, seen, ancestor);
        assert ancestor in w.bots.Keys - seen && ancestor !in w.bots.Keys - (seen + {ancestor});
        WalkOnlyStopsInactive(w, mission, at, parents[ancestor], seen + {ancestor});
      }
    }
  }

  /** In a state with the invariant the walk can only fail because some bot above has no live assignment. */
  lemma LimitsOnlyFailInactive(w: World, parent: string, mission: string, at: nat)
    requires Inv(w, at) && parent in w.bots
    ensures DepthAndLimits(w, parent, mission, at).Ok? || DepthAndLimits(w, parent, mission, at) == Err(NotActive)
  {
    var parents := Parents(w.rows, mission, at);
    var live := LiveRows(w.rows, parent, mission, at);
    if w.bots[parent].roleKind != "crew" && live != [] {
      ParentsOf(w.rows, parent, mission, at);
      LiveRowsMembers(w.rows, parent, mission, at, live[0]);
      BelowNext(parents, {}, parent);
      assert {} + {parent} == {parent};
      WalkOnlyStopsInactive(w, mission, at, parents[parent], {parent});
    }
  }

  // Assigning keeps the forest ----------------------------------------------------------------

  lemma LiveRowsAppend(rows: seq<Assignment>, a: Assignment, bot: string, mission: string, at: nat)
    ensures LiveRows(rows + [a], bot, mission, at) ==
            LiveRows(rows, bot, mission, at) + if LiveFor(a, bot, mission, at) then [a] else []
  {
    assert (rows + [a])[..|rows + [a]|-1] == rows;
  }

  /** The parent of one bot, read off the live rows. */
  ghost function ParentIn(rows: seq<Assignment>, d: string, mission: string, at: nat): Option<string> {
    var live := LiveRows(rows, d, mission, at);
    if live == [] then None else Some(live[0].parent)
  }

  lemma ParentsPointwise(rows: seq<Assignment>, d: string, mission: string, at: nat)
    ensures ParentIn(rows, d, mission, at) ==
            if d in Parents(rows, mission, at) then Some(Parents(rows, mission, at)[d]) else None
  {
    ParentsOf(rows, d, mission, at);
  }

  lemma ParentInAppend(rows: seq<Assignment>, a: Assignment, d: string, mission: string, at: nat)
    requires Live(a, at) && LiveRows(rows, a.delegate, a.mission, at) == []
    ensures ParentIn(rows + [a], d, mission, at) ==
            if mission == a.mission && d == a.delegate then Some(a.parent) else ParentIn(rows, d, mission, at)
  {
    LiveRowsAppend(rows, a, d, mission, at);
  }

  lemma ParentsAppend(rows: seq<Assignment>, a: Assignment, mission: string, at: nat)
    requires Live(a, at) && LiveRows(rows, a.delegate, a.mission, at) == []
    ensures Parents(rows + [a], mission, at) ==
            if mission == a.mission then Parents(rows, mission, at)[a.delegate := a.parent]
            else Parents(rows, mission, at)
  {
    var before, after := Parents(rows, mission, at), Parents(rows + [a], mission, at);
    var expected := if mission == a.mission then before[a.delegate := a.parent] else before;
    forall d
      ensures d in after <==> d in expected
      ensures d in after ==> after[d] == expected[d]
    {
      ParentInAppend(rows, a, d, mission, at);
      ParentsPointwise(rows, d, mission, at);
      ParentsPointwise(rows + [a], d, mission, at);
    }
  }

  /** What an accepted assignment has established about the bots above its delegate. */
  lemma AcceptedAssignment(w: World, a: Assignment, now: nat)
    requires Assign(w, a, now).Ok?
    ensures Assign(w, a, now).value == w.(rows := w.rows + [a])
    ensures Live(a, now) && LiveRows(w.rows, a.delegate, a.mission, now) == []
    ensures a.parent in w.bots && a.delegate in w.bots && a.parent != a.delegate
    ensures w.bots[a.delegate].roleKind == "delegate"
    ensures var r := DepthAndLimits(w, a.parent, a.mission, now);
            && r.Ok? && a.depth == r.value.0 && a.depth <= Min(r.value.1)
            && Climbs(w, Parents(w.rows, a.mission, now), a.parent, r.value.1)
  {
    DepthAndLimitsClimb(w, a.parent, a.mission, now);
  }

  lemma ClimbAvoids(w: World, at: nat, mission: string, b: string, limits: seq<int>, d: string)
    requires Static(w) && Climbs(w, Parents(w.rows, mission, at), b, limits)
    requires d in w.bots && w.bots[d].roleKind == "delegate" && LiveRows(w.rows, d, mission, at) == []
    ensures forall k: nat :: Up(Parents(w.rows, mission, at), b, k) != Some(d)
  {
    var parents := Parents(w.rows, mission, at);
    var n := |limits| - 1;
    forall k: nat
      ensures Up(parents, b, k) != Some(d)
    {
      ParentsOf(w.rows, d, mission, at);
      if k < n {
        UpSplit(parents, b, k, 1);
        assert Up(parents, b, k + 1).Some?;
      } else {
        var top := Up(parents, b, n).value;
        UpSplit(parents, b, n, k - n);
        assert top !in parents;
      }
    }
  }

  lemma AssignKeepsInv(w: World, a: Assignment, now: nat)
    requires Inv(w, now) && Assign(w, a, now).Ok?
    ensures Inv(Assign(w, a, now).value, now)
  {
    AcceptedAssignment(w, a, now);
    var limits := DepthAndLimits(w, a.parent, a.mission, now).value.1;
    ClimbAvoids(w, now, a.mission, a.parent, limits, a.delegate);
    var rows' := w.rows + [a];
    forall bot, mission
      ensures |LiveRows(rows', bot, mission, now)| <= 1
    {
      LiveRowsAppend(w.rows, a, bot, mission, now);
    }
    forall mission
      ensures Acyclic(Parents(rows', mission, now))
    {
      ParentsAppend(w.rows, a, mission, now);
      if mission == a.mission {
        ParentsOf(w.rows, a.delegate, mission, now);
        AcyclicExtended(Parents(w.rows, mission, now), a.delegate, a.parent);
      }
    }
  }

  lemma EndShrinks(w: World, id: string, to: Status, actorKind: string, now: nat)
    requires End(w, id, to, actorKind, now).Ok?
    ensures End(w, id, to, actorKind, now).value.bots == w.bots
    ensures Shrinks(w.rows, now, End(w, id, to, actorKind, now).value.rows, now)
  {
  }

  // Histories ---------------------------------------------------------------------------------

  datatype Command =
    | RegisterBot(botId: string, bot: Bot)
    | CreateMission(mission: string)
    | CreateTask(task: string, taskMission: string)
    | AssignDelegate(a: Assignment)
    | EndAssignment(id: string, to: Status, actorKind: string)
    | Read

  /** A refused command changes nothing; identities of bots, missions and tasks are never reused. */
  function Step(w: World, c: Command, now: nat): World {
    match c
    case RegisterBot(id, bot) => if id in w.bots then w else w.(bots := w.bots[id := bot])
    case CreateMission(m) => w.(missions := w.missions + {m})
    case CreateTask(t, m) => if t in w.tasks then w else w.(tasks := w.tasks[t := m])
    case AssignDelegate(a) => (match Assign(w, a, now) case Ok(next) => next case Err(_) => w)
    case EndAssignment(id, to, kind) => (match End(w, id, to, kind, now) case Ok(next) => next case Err(_) => w)
    case Read => w
  }

  type History = seq<(Command, nat)>

  const EMPTY := World(map[], {}, map[], [])

  function Exec(h: History): World {
    if h == [] then EMPTY else Step(Exec(h[..|h|-1]), h[|h|-1].0, h[|h|-1].1)
  }

  function Now(h: History): nat {
    if h == [] then 0 else h[|h|-1].1
  }

  /** Issue times never go back. */
  predicate Chronological(h: History) {
    h == [] || (Chronological(h[..|h|-1]) && Now(h[..|h|-1]) <= Now(h))
  }

  lemma StepKeepsInv(w: World, c: Command, at: nat, now: nat)
    requires Inv(w, at) && at <= now
    ensures Inv(w, now) && Inv(Step(w, c, now), now)
  {
    InvShrinks(w, at, w, now);
    match c
    case AssignDelegate(a) =>
      if Assign(w, a, now).Ok? {
        AssignKeepsInv(w, a, now);
      }
    case EndAssignment(id, to, kind) =>
      if End(w, id, to, kind, now).Ok? {
        EndShrinks(w, id, to, kind, now);
        InvShrinks(w, now, Step(w, c, now), now);
      }
    case _ =>
      assert Step(w, c, now).rows == w.rows;
  }

  /** Whatever the history, live assignments are unique per delegate and mission and acyclic. */
  lemma {:induction false} EveryHistoryIsForest(h: History)
    requires Chronological(h)
    ensures Inv(Exec(h), Now(h))
  {
    if h == [] {
      forall mission
        ensures Parents([], mission, 0) == map[]
      {
      }
    } else {
      EveryHistoryIsForest(h[..|h|-1]);
      StepKeepsInv(Exec(h[..|h|-1]), h[|h|-1].0, Now(h[..|h|-1]), Now(h));
    }
  }

  /** After any history the cycle, ambiguity and missing-ancestor errors cannot be raised, now or later. */
  lemma CycleAndAmbiguityUnreachable(h: History, parent: string, mission: string, at: nat)
    requires Chronological(h) && Now(h) <= at && parent in Exec(h).bots
    ensures var r := DepthAndLimits(Exec(h), parent, mission, at); r.Ok? || r == Err(NotActive)
    ensures ActiveAssignment(Exec(h), parent, mission, at).Ok?
  {
    EveryHistoryIsForest(h);
    StepKeepsInv(Exec(h), Read, Now(h), at);
    LimitsOnlyFailInactive(Exec(h), parent, mission, at);
  }

  /**
   A read is ambiguous exactly at times before the expiry of two active assignments of the delegate, and
   after a chronological history such a time lies before the last command.
   */
  lemma AmbiguousReadExactly(h: History, bot: string, mission: string, at: nat)
    requires Chronological(h)
    ensures ActiveAssignment(Exec(h), bot, mission, at) == Err(Ambiguous) <==>
      exists i, j ::
        && 0 <= i < j < |Exec(h).rows|
        && ActiveUntil(Exec(h).rows[i], bot, mission) > at && ActiveUntil(Exec(h).rows[j], bot, mission) > at
    ensures ActiveAssignment(Exec(h), bot, mission, at) == Err(Ambiguous) ==> at < Now(h)
  {
    ManyLiveExactly(Exec(h).rows, bot, mission, at);
    EveryHistoryIsForest(h);
    if Now(h) <= at {
      StepKeepsInv(Exec(h), Read, Now(h), at);
      assert |LiveRows(Exec(h).rows, bot, mission, at)| <= 1;
    }
  }

  /** When an active assignment of the delegate expires; zero for any other row. */
  function ActiveUntil(a: Assignment, bot: string, mission: string): nat {
    if a.status == Active && a.delegate == bot && a.mission == mission then a.expiresAt else 0
  }

  // When the walk finds a cycle ---------------------------------------------------------------

  /** The climb from `b` never ends and never meets a bot with two live assignments. */
  ghost predicate Endless(w: World, mission: string, at: nat, b: string) {
    forall n: nat ::
      && Up(Parents(w.rows, mission, at), b, n).Some?
      && |LiveRows(w.rows, Up(Parents(w.rows, mission, at), b, n).value, mission, at)| <= 1
  }

  /** One step of an endless climb. */
  lemma EndlessStep(w: World, mission: string, at: nat, b: string)
    requires Static(w)
    ensures Endless(w, mission, at, b) <==>
      && |LiveRows(w.rows, b, mission, at)| == 1
      && Endless(w, mission, at, LiveRows(w.rows, b, mission, at)[0].parent)
  {
    var parents := Parents(w.rows, mission, at);
    ParentsOf(w.rows, b, mission, at);
    if Endless(w, mission, at, b) {
      assert Up(parents, b, 0) == Some(b) && Up(parents, b, 1).Some?;
      forall n: nat
        ensures Up(parents, parents[b], n) == Up(parents, b, n + 1)
      {
      }
    }
    if |LiveRows(w.rows, b, mission, at)| == 1 && Endless(w, mission, at, parents[b]) {
      forall n: nat
        ensures n > 0 ==> Up(parents, b, n) == Up(parents, parents[b], n - 1)
      {
      }
    }
  }

  lemma LiveBotIsDelegate(w: World, mission: string, at: nat, b: string)
    requires Static(w) && LiveRows(w.rows, b, mission, at) != []
    ensures b in w.bots && w.bots[b].roleKind == "delegate"
  {
    var row := LiveRows(w.rows, b, mission, at)[0];
    LiveRowsMembers(w.rows, b, mission, at, row);
  }

  /** The bots seen so far form a chain of single live assignments that leads to `ancestor`. */
  ghost predicate Chain(w: World, mission: string, at: nat, seen: set<string>, ancestor: string) {
    forall x :: x in seen ==>
      && |LiveRows(w.rows, x, mission, at)| == 1
      && LiveRows(w.rows, x, mission, at)[0].parent in seen + {ancestor}
  }

  /** A chain that leads back into itself is climbed for ever. */
  lemma {:induction false} ClosedChainGoesOn(w: World, mission: string, at: nat, seen: set<string>, ancestor: string,
                                             b: string, n: nat)
    requires Chain(w, mission, at, seen, ancestor) && ancestor in seen && b in seen
    ensures var up := Up(Parents(w.rows, mission, at), b, n); up.Some? && up.value in seen
    decreases n
  {
    if n > 0 {
      ParentsOf(w.rows, b, mission, at);
      ClosedChainGoesOn(w, mission, at, seen, ancestor, LiveRows(w.rows, b, mission, at)[0].parent, n - 1);
    }
  }

  lemma {:induction false} WalkCycleExactly(w: World, mission: string, at: nat, ancestor: string, seen: set<string>)
    requires Static(w) && Chain(w, mission, at, seen, ancestor)
    ensures Walk(w, mission, at, ancestor, seen) == Err(Cycle) <==> Endless(w, mission, at, ancestor)
    decreases w.bots.Keys - seen
  {
    var live := LiveRows(w.rows, ancestor, mission, at);
    if ancestor in seen {
      forall n: nat
        ensures var up := Up(Parents(w.rows, mission, at), ancestor, n);
          up.Some? && |LiveRows(w.rows, up.value, mission, at)| <= 1
      {
        ClosedChainGoesOn(w, mission, at, seen, ancestor, ancestor, n);
      }
    } else {
      EndlessStep(w, mission, at, ancestor);
      if live != [] {
        LiveBotIsDelegate(w, mission, at, ancestor);
      }
      if |live| == 1 {
        WalkCycleExactly(w, mission, at, live[0].parent, seen + {ancestor});
      }
    }
  }

  /**
   A read at any time reports a cycle exactly when climbing the assignments live at that time never ends
   and is nowhere ambiguous, and after a chronological history such a time lies before the last command.
   */
  lemma CyclicReadExactly(h: History, parent: string, mission: string, at: nat)
    requires Chronological(h) && parent in Exec(h).bots
    ensures DepthAndLimits(Exec(h), parent, mission, at) == Err(Cycle) <==> Endless(Exec(h), mission, at, parent)
    ensures DepthAndLimits(Exec(h), parent, mission, at) == Err(Cycle) ==> at < Now(h)
  {
    var w := Exec(h);
    var live := LiveRows(w.rows, parent, mission, at);
    EveryHistoryIsForest(h);
    EndlessStep(w, mission, at, parent);
    if live != [] {
      LiveBotIsDelegate(w, mission, at, parent);
    }
    if |live| == 1 {
      WalkCycleExactly(w, mission, at, live[0].parent, {parent});
    }
    if Now(h) <= at {
      CycleAndAmbiguityUnreachable(h, parent, mission, at);
    }
  }
}
