/**
 Stored depths. They are fixed when an assignment is made; they stay the true distance to the crew
 bot, and inside every limit above, exactly as long as assignments end leaf first.
 */
module DelegationDepth {
  import opened Prelude
  import opened ParentMaps
  import opened Delegation
  import opened DelegationForest

  /** The crew bot is exactly `a.depth` steps above the delegate, and every bot on the way allows that depth. */
  ghost predicate TrueDepth(w: World, a: Assignment, at: nat) {
    var parents := Parents(w.rows, a.mission, at);
    && 1 <= a.depth
    && forall i: nat :: 1 <= i <= a.depth ==>
         && Up(parents, a.delegate, i).Some?
         && Up(parents, a.delegate, i).value in w.bots
         && a.depth <= w.bots[Up(parents, a.delegate, i).value].maxSpawnDepth
         && (w.bots[Up(parents, a.delegate, i).value].roleKind == "crew" <==> i == a.depth)
  }

  ghost predicate TrueDepths(w: World, at: nat) {
    forall a :: a in w.rows && Live(a, at) ==> TrueDepth(w, a, at)
  }

  /** Nothing live hangs below an assignment that stopped being live between the two moments. */
  ghost predicate EndsLeafFirst(w: World, at: nat, w': World, at': nat) {
    forall a, b ::
      && a in w.rows && Live(a, at) && !(a in w'.rows && Live(a, at'))
      && b in w'.rows && Live(b, at') && b.mission == a.mission
      ==> b.parent != a.delegate
  }

  ghost predicate LeafFirst(h: History) {
    h == [] ||
    (LeafFirst(h[..|h|-1]) && EndsLeafFirst(Exec(h[..|h|-1]), Now(h[..|h|-1]), Exec(h), Now(h)))
  }

  lemma LiveRowIsParent(w: World, a: Assignment, at: nat)
    requires Unique(w.rows, at) && a in w.rows && Live(a, at)
    ensures LiveRows(w.rows, a.delegate, a.mission, at) == [a]
    ensures a.delegate in Parents(w.rows, a.mission, at) && Parents(w.rows, a.mission, at)[a.delegate] == a.parent
  {
    LiveRowsMembers(w.rows, a.delegate, a.mission, at, a);
    ParentsOf(w.rows, a.delegate, a.mission, at);
  }

  // Time and endings --------------------------------------------------------------------------

  /** The situation across a stretch in which time passes and assignments end leaf first. */
  ghost predicate Stretch(w: World, at: nat, w': World, at': nat) {
    && Inv(w, at) && w'.bots == w.bots && Shrinks(w.rows, at, w'.rows, at')
    && EndsLeafFirst(w, at, w', at')
  }

  lemma StillLiveWasLive(w: World, at: nat, w': World, at': nat, r: Assignment)
    requires Shrinks(w.rows, at, w'.rows, at') && r in w'.rows && Live(r, at')
    ensures r in w.rows && Live(r, at)
  {
    var n :| 0 <= n < |w'.rows| && w'.rows[n] == r;
    assert w.rows[n] == r;
  }

  lemma SameParent(w: World, at: nat, w': World, at': nat, r: Assignment)
    requires Stretch(w, at, w', at') && r in w'.rows && Live(r, at')
    ensures r.delegate in Parents(w.rows, r.mission, at) && Parents(w.rows, r.mission, at)[r.delegate] == r.parent
    ensures r.delegate in Parents(w'.rows, r.mission, at') && Parents(w'.rows, r.mission, at')[r.delegate] == r.parent
  {
    StillLiveWasLive(w, at, w', at', r);
    InvShrinks(w, at, w', at');
    LiveRowIsParent(w, r, at);
    LiveRowIsParent(w', r, at');
  }

  lemma RowAboveSurvives(w: World, at: nat, w': World, at': nat, r: Assignment)
    requires Stretch(w, at, w', at') && r in w'.rows && Live(r, at')
    requires r.parent in Parents(w.rows, r.mission, at)
    ensures exists s :: s in w'.rows && LiveFor(s, r.parent, r.mission, at')
  {
    var live := LiveRows(w.rows, r.parent, r.mission, at);
    ParentsOf(w.rows, r.parent, r.mission, at);
    LiveRowsMembers(w.rows, r.parent, r.mission, at, live[0]);
    assert live[0] in w'.rows && Live(live[0], at');
    assert LiveFor(live[0], r.parent, r.mission, at');
  }

  /** Under a live row nothing above it can have ended: the climb is the same before and after. */
  lemma {:induction false} ClimbSurvives(w: World, at: nat, w': World, at': nat, r: Assignment, i: nat)
    requires Stretch(w, at, w', at') && r in w'.rows && Live(r, at')
    requires Up(Parents(w.rows, r.mission, at), r.delegate, i).Some?
    ensures Up(Parents(w'.rows, r.mission, at'), r.delegate, i) == Up(Parents(w.rows, r.mission, at), r.delegate, i)
    decreases i
  {
    SameParent(w, at, w', at', r);
    if i > 1 {
      var before := Parents(w.rows, r.mission, at);
      assert Up(before, r.delegate, i) == Up(before, r.parent, i - 1);
      RowAboveSurvives(w, at, w', at', r);
      var s :| s in w'.rows && LiveFor(s, r.parent, r.mission, at');
      ClimbSurvives(w, at, w', at', s, i - 1);
    } else if i == 1 {
      OneUp(Parents(w.rows, r.mission, at), r.delegate);
      OneUp(Parents(w'.rows, r.mission, at'), r.delegate);
    }
  }

  lemma OneUp(m: map<string, string>, b: string)
    ensures Up(m, b, 1) == if b in m then Some(m[b]) else None
  {
    if b in m {
      assert Up(m, m[b], 0) == Some(m[b]);
    }
  }

  lemma DepthsShrink(w: World, at: nat, w': World, at': nat)
    requires Stretch(w, at, w', at') && TrueDepths(w, at)
    ensures TrueDepths(w', at')
  {
    forall a | a in w'.rows && Live(a, at')
      ensures TrueDepth(w', a, at')
    {
      StillLiveWasLive(w, at, w', at', a);
      assert TrueDepth(w, a, at);
      forall i: nat | 1 <= i <= a.depth
        ensures Up(Parents(w'.rows, a.mission, at'), a.delegate, i) ==
                Up(Parents(w.rows, a.mission, at), a.delegate, i)
      {
        ClimbSurvives(w, at, w', at', a, i);
      }
    }
  }

  /** A live row of true depth that hangs under a delegate has a live row of that delegate above it. */
  lemma RowAboveTrueDepth(w: World, at: nat, r: Assignment)
    requires Inv(w, at) && r in w.rows && Live(r, at) && TrueDepth(w, r, at)
    requires r.parent in w.bots && w.bots[r.parent].roleKind == "delegate"
    ensures r.parent in Parents(w.rows, r.mission, at)
  {
    var parents := Parents(w.rows, r.mission, at);
    LiveRowIsParent(w, r, at);
    OneUp(parents, r.delegate);
    assert Up(parents, r.delegate, 1) == Some(r.parent) && r.depth != 1;
    assert Up(parents, r.delegate, 2).Some?;
    assert Up(parents, r.delegate, 2) == Up(parents, r.parent, 1);
    OneUp(parents, r.parent);
  }

  /** While an assignment is the only live one of its delegate, nothing else is live for it later. */
  lemma OnlyRowOfDelegate(w: World, at: nat, w': World, at': nat, a: Assignment)
    requires Inv(w, at) && Shrinks(w.rows, at, w'.rows, at') && a in w.rows && Live(a, at)
    requires a.delegate in Parents(w'.rows, a.mission, at')
    ensures a in w'.rows && Live(a, at')
  {
    ParentsOf(w'.rows, a.delegate, a.mission, at');
    var s := LiveRows(w'.rows, a.delegate, a.mission, at')[0];
    LiveRowsMembers(w'.rows, a.delegate, a.mission, at', s);
    StillLiveWasLive(w, at, w', at', s);
    LiveRowsMembers(w.rows, a.delegate, a.mission, at, s);
    LiveRowIsParent(w, a, at);
  }

  lemma TrueDepthsEndLeafFirst(w: World, at: nat, w': World, at': nat)
    requires Inv(w, at) && w'.bots == w.bots && Shrinks(w.rows, at, w'.rows, at') && TrueDepths(w', at')
    ensures EndsLeafFirst(w, at, w', at')
  {
    InvShrinks(w, at, w', at');
    forall a, b |
      && a in w.rows && Live(a, at) && !(a in w'.rows && Live(a, at'))
      && b in w'.rows && Live(b, at') && b.mission == a.mission
      ensures b.parent != a.delegate
    {
      if b.parent == a.delegate {
        assert TrueDepth(w', b, at');
        RowAboveTrueDepth(w', at', b);
        OnlyRowOfDelegate(w, at, w', at', a);
      }
    }
  }

  /** While time passes and assignments end, true depths stay true exactly when the endings are leaf first. */
  lemma DepthsSurviveExactly(w: World, at: nat, w': World, at': nat)
    requires Inv(w, at) && w'.bots == w.bots && Shrinks(w.rows, at, w'.rows, at') && TrueDepths(w, at)
    ensures TrueDepths(w', at') <==> EndsLeafFirst(w, at, w', at')
  {
    if EndsLeafFirst(w, at, w', at') {
      DepthsShrink(w, at, w', at');
    }
    if TrueDepths(w', at') {
      TrueDepthsEndLeafFirst(w, at, w', at');
    }
  }

  // Assigning ---------------------------------------------------------------------------------

  lemma {:induction false} MinIsLeast(s: seq<int>)
    requires s != []
    ensures Min(s) in s && forall i :: 0 <= i < |s| ==> Min(s) <= s[i]
  {
    if |s| > 1 {
      MinIsLeast(s[1..]);
      assert forall i :: 1 <= i < |s| ==> s[i] == s[1..][i - 1];
    }
  }

  /** Where stored depths are true, the walk climbs exactly as far as the depth it demands. */
  lemma DemandedDepthIsClimb(w: World, parent: string, mission: string, at: nat)
    requires Inv(w, at) && TrueDepths(w, at)
    requires parent in w.bots && DepthAndLimits(w, parent, mission, at).Ok?
    ensures var r := DepthAndLimits(w, parent, mission, at).value; r.0 == |r.1|
  {
    DepthAndLimitsClimb(w, parent, mission, at);
    var (depth, limits) := DepthAndLimits(w, parent, mission, at).value;
    var parents := Parents(w.rows, mission, at);
    assert Up(parents, parent, 0) == Some(parent);
    if w.bots[parent].roleKind == "crew" {
      assert 0 == |limits| - 1;
    } else {
      var live := LiveRows(w.rows, parent, mission, at);
      LiveRowsMembers(w.rows, parent, mission, at, live[0]);
      assert TrueDepth(w, live[0], at);
      var top: nat := |limits| - 1;
      assert Up(parents, parent, top).Some? && top > 0;
      if live[0].depth < |limits| {
        assert w.bots[Up(parents, parent, live[0].depth).value].roleKind == "crew";
      }
    }
  }

  lemma AssignKeepsDepths(w: World, a: Assignment, now: nat)
    requires Inv(w, now) && TrueDepths(w, now) && Assign(w, a, now).Ok?
    ensures TrueDepths(Assign(w, a, now).value, now)
  {
    AcceptedAssignment(w, a, now);
    DemandedDepthIsClimb(w, a.parent, a.mission, now);
    var w' := Assign(w, a, now).value;
    forall r | r in w'.rows && Live(r, now)
      ensures TrueDepth(w', r, now)
    {
      if r in w.rows {
        OldDepthSurvives(w, a, r, now);
      } else {
        NewDepthIsTrue(w, a, now);
      }
    }
  }

  lemma OldDepthSurvives(w: World, a: Assignment, r: Assignment, now: nat)
    requires Inv(w, now) && Assign(w, a, now).Ok? && r in w.rows && TrueDepth(w, r, now)
    ensures TrueDepth(Assign(w, a, now).value, r, now)
  {
    AcceptedAssignment(w, a, now);
    var parents, parents' := Parents(w.rows, r.mission, now), Parents(w.rows + [a], r.mission, now);
    ParentsAppend(w.rows, a, r.mission, now);
    ParentsOf(w.rows, a.delegate, r.mission, now);
    forall i: nat | 1 <= i <= r.depth
      ensures Up(parents', r.delegate, i) == Up(parents, r.delegate, i)
    {
      assert Submap(parents, parents');
      UpSubmap(parents, parents', r.delegate, i);
    }
  }

  lemma NewDepthIsTrue(w: World, a: Assignment, now: nat)
    requires Inv(w, now) && Assign(w, a, now).Ok?
    requires a.depth == |DepthAndLimits(w, a.parent, a.mission, now).value.1|
    ensures TrueDepth(Assign(w, a, now).value, a, now)
  {
    AcceptedAssignment(w, a, now);
    var limits := DepthAndLimits(w, a.parent, a.mission, now).value.1;
    MinIsLeast(limits);
    var parents, parents' := Parents(w.rows, a.mission, now), Parents(w.rows + [a], a.mission, now);
    ParentsAppend(w.rows, a, a.mission, now);
    ParentsOf(w.rows, a.delegate, a.mission, now);
    forall i: nat | 1 <= i <= a.depth
      ensures Up(parents', a.delegate, i) == Up(parents, a.parent, i - 1)
    {
      assert Submap(parents, parents');
      UpSubmap(parents, parents', a.parent, i - 1);
      assert Up(parents, a.parent, i - 1).Some?;
    }
  }

  // Histories ---------------------------------------------------------------------------------

  lemma StepKeepsDepths(w: World, c: Command, at: nat, now: nat)
    requires Inv(w, at) && at <= now && TrueDepths(w, at)
    requires EndsLeafFirst(w, at, Step(w, c, now), now)
    ensures TrueDepths(Step(w, c, now), now)
  {
    var w' := Step(w, c, now);
    match c
    case AssignDelegate(a) =>
      assert EndsLeafFirst(w, at, w, now) by {
        assert w'.rows == w.rows || w'.rows == w.rows + [a];
      }
      DepthsShrink(w, at, w, now);
      StepKeepsInv(w, Read, at, now);
      if Assign(w, a, now).Ok? {
        AssignKeepsDepths(w, a, now);
      }
    case EndAssignment(id, to, kind) =>
      if End(w, id, to, kind, now).Ok? {
        EndShrinks(w, id, to, kind, now);
        assert Shrinks(w.rows, at, w'.rows, now);
      }
      DepthsShrink(w, at, w', now);
    case _ =>
      assert w'.rows == w.rows;
      assert EndsLeafFirst(w, at, w, now);
      DepthsShrink(w, at, w, now);
  }

  /** In every chronological history that ends assignments leaf first, every live depth is true. */
  lemma {:induction false} LeafFirstHistoriesKeepDepths(h: History)
    requires Chronological(h) && LeafFirst(h)
    ensures TrueDepths(Exec(h), Now(h))
  {
    if h != [] {
      var before := h[..|h|-1];
      LeafFirstHistoriesKeepDepths(before);
      EveryHistoryIsForest(before);
      StepKeepsDepths(Exec(before), h[|h|-1].0, Now(before), Now(h));
    }
  }

  /** Every live depth is true whenever a command comes, before it and after it. */
  ghost predicate AlwaysTrue(h: History) {
    h == [] ||
    (AlwaysTrue(h[..|h|-1]) && TrueDepths(Exec(h[..|h|-1]), Now(h)) && TrueDepths(Exec(h), Now(h)))
  }

  /** Neither the passing of time nor a command takes an assignment away from above a live one. */
  ghost predicate LeafFirstThroughout(h: History) {
    h == [] ||
    (var before := h[..|h|-1];
     && LeafFirstThroughout(before)
     && EndsLeafFirst(Exec(before), Now(before), Exec(before), Now(h))
     && EndsLeafFirst(Exec(before), Now(h), Exec(h), Now(h)))
  }

  /** At one moment, a command keeps true depths exactly when it ends nothing above a live assignment. */
  lemma CommandKeepsDepthsExactly(w: World, c: Command, now: nat)
    requires Inv(w, now) && TrueDepths(w, now)
    ensures TrueDepths(Step(w, c, now), now) <==> EndsLeafFirst(w, now, Step(w, c, now), now)
  {
    var w' := Step(w, c, now);
    if c.EndAssignment? {
      if End(w, c.id, c.to, c.actorKind, now).Ok? {
        EndShrinks(w, c.id, c.to, c.actorKind, now);
      }
      DepthsSurviveExactly(w, now, w', now);
    } else {
      assert EndsLeafFirst(w, now, w', now) by {
        assert w'.rows == w.rows || w'.rows == w.rows + [w'.rows[|w.rows|]];
      }
      StepKeepsDepths(w, c, now, now);
    }
  }

  /**
   In a chronological history every live depth is always the hop count to the crew bot and within all
   limits above, exactly when no assignment goes while a live one hangs under it.
   */
  lemma {:induction false} AlwaysTrueExactly(h: History)
    requires Chronological(h)
    ensures AlwaysTrue(h) <==> LeafFirstThroughout(h)
    ensures AlwaysTrue(h) ==> TrueDepths(Exec(h), Now(h))
  {
    if h != [] {
      var before := h[..|h|-1];
      AlwaysTrueExactly(before);
      EveryHistoryIsForest(before);
      if AlwaysTrue(before) {
        DepthsSurviveExactly(Exec(before), Now(before), Exec(before), Now(h));
        InvShrinks(Exec(before), Now(before), Exec(before), Now(h));
        if TrueDepths(Exec(before), Now(h)) {
          CommandKeepsDepthsExactly(Exec(before), h[|h|-1].0, Now(h));
        }
      }
    }
  }

  /** The guard before an ending: true depths stay true exactly when nothing live hangs under the ended delegate. */
  lemma EndingKeepsDepthsExactly(w: World, id: string, to: Status, actorKind: string, now: nat)
    requires Inv(w, now) && TrueDepths(w, now) && End(w, id, to, actorKind, now).Ok?
    ensures var a := w.rows[IndexOf(w.rows, id)];
      TrueDepths(End(w, id, to, actorKind, now).value, now) <==>
        (Live(a, now) ==> forall b :: b in w.rows && Live(b, now) && b.mission == a.mission ==> b.parent != a.delegate)
  {
    var w', n := End(w, id, to, actorKind, now).value, IndexOf(w.rows, id);
    EndShrinks(w, id, to, actorKind, now);
    DepthsSurviveExactly(w, now, w', now);
    EndedRow(w, w', n, w.rows[n], w'.rows[n], now);
  }

  lemma EndedRow(w: World, w': World, n: nat, a: Assignment, ended: Assignment, now: nat)
    requires Inv(w, now) && n < |w.rows| && a == w.rows[n]
    requires ended.status != Active && w'.rows == w.rows[n := ended]
    ensures EndsLeafFirst(w, now, w', now) <==>
      (Live(a, now) ==> forall b :: b in w.rows && Live(b, now) && b.mission == a.mission ==> b.parent != a.delegate)
  {
    forall b | b in w.rows && b != a
      ensures b in w'.rows
    {
      var i :| 0 <= i < |w.rows| && w.rows[i] == b;
      assert w'.rows[i] == b;
    }
    assert forall b :: b in w'.rows ==> b in w.rows || b == ended;
    if Live(a, now) {
      OnlyOnce(w, n, a, ended, now);
      LiveRowIsParent(w, a, now);
      OneUp(Parents(w.rows, a.mission, now), a.delegate);
      assert a.parent != a.delegate;
    }
  }

  lemma OnlyOnce(w: World, n: nat, a: Assignment, ended: Assignment, now: nat)
    requires Unique(w.rows, now) && n < |w.rows| && a == w.rows[n] && Live(a, now) && ended != a
    ensures a !in w.rows[n := ended]
  {
    ManyLiveExactly(w.rows, a.delegate, a.mission, now);
    assert |LiveRows(w.rows, a.delegate, a.mission, now)| <= 1;
    assert LiveFor(w.rows[n], a.delegate, a.mission, now);
    forall m | 0 <= m < |w.rows| && m != n
      ensures w.rows[m] != a
    {
    }
  }
}
