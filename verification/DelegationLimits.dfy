/** Why the two hypotheses are there: concrete histories without them. */
module DelegationLimits {
  import opened Prelude
  import opened ParentMaps
  import opened Delegation
  import opened DelegationForest
  import opened DelegationDepth

  const CREW := Bot("crew", None, true, 5)
  const HELPER := Bot("delegate", Some("m"), true, 5)
  const BOTS := map["A" := CREW, "B" := HELPER, "C" := HELPER, "D" := HELPER]

  function Row(id: string, parent: string, delegate: string, depth: int, status: Status,
               created: nat, expires: nat): Assignment {
    Assignment(id, parent, delegate, "m", None, depth, status, created, expires)
  }

  lemma ExecNext(h: History, c: Command, now: nat)
    ensures Exec(h + [(c, now)]) == Step(Exec(h), c, now)
    ensures Chronological(h + [(c, now)]) <==> Chronological(h) && Now(h) <= now
    ensures Now(h + [(c, now)]) == now
  {
    assert (h + [(c, now)])[..|h + [(c, now)]|-1] == h;
  }

  /** A chronological history that sets up the mission, its crew bot A and the delegates B, C and D. */
  lemma Setup() returns (h: History)
    ensures Chronological(h) && Now(h) == 0 && Exec(h) == World(BOTS, {"m"}, map[], [])
  {
    var h0: History := [];
    var h1 := h0 + [(CreateMission("m"), 0)];
    var h2 := h1 + [(RegisterBot("A", CREW), 0)];
    var h3 := h2 + [(RegisterBot("B", HELPER), 0)];
    var h4 := h3 + [(RegisterBot("C", HELPER), 0)];
    h := h4 + [(RegisterBot("D", HELPER), 0)];
    ExecNext(h0, CreateMission("m"), 0);
    ExecNext(h1, RegisterBot("A", CREW), 0);
    ExecNext(h2, RegisterBot("B", HELPER), 0);
    ExecNext(h3, RegisterBot("C", HELPER), 0);
    ExecNext(h4, RegisterBot("D", HELPER), 0);
  }

  lemma LiveRowsOf(rows: seq<Assignment>, bot: string, at: nat)
    requires |rows| <= 4
    ensures LiveRows(rows, bot, "m", at) ==
            (if |rows| > 0 && LiveFor(rows[0], bot, "m", at) then [rows[0]] else []) +
            (if |rows| > 1 && LiveFor(rows[1], bot, "m", at) then [rows[1]] else []) +
            (if |rows| > 2 && LiveFor(rows[2], bot, "m", at) then [rows[2]] else []) +
            (if |rows| > 3 && LiveFor(rows[3], bot, "m", at) then [rows[3]] else [])
  {
    if |rows| > 0 {
      LiveRowsOf(rows[..|rows|-1], bot, at);
    }
  }

  /** Assigning under the crew bot itself. */
  lemma AssignUnderCrew(w: World, a: Assignment)
    requires w.bots == BOTS && w.missions == {"m"} && |w.rows| <= 3
    requires a == Row(a.id, "A", a.delegate, 1, Active, a.createdAt, a.expiresAt)
    requires a.delegate in {"B", "C", "D"} && a.expiresAt > a.createdAt
    requires forall r :: r in w.rows ==> r.id != a.id && !LiveFor(r, a.delegate, "m", a.createdAt)
    ensures Assign(w, a, a.createdAt) == Ok(w.(rows := w.rows + [a]))
  {
    LiveRowsOf(w.rows, a.delegate, a.createdAt);
    assert !IdTaken(w.rows, a.id);
  }

  /** Assigning under a delegate that itself hangs under the crew bot. */
  lemma AssignUnderDelegate(w: World, a: Assignment, above: Assignment)
    requires w.bots == BOTS && w.missions == {"m"} && |w.rows| <= 3
    requires a == Row(a.id, a.parent, a.delegate, 2, Active, a.createdAt, a.expiresAt)
    requires a.delegate in {"B", "C", "D"} && a.parent in {"B", "C", "D"} - {a.delegate} && a.expiresAt > a.createdAt
    requires forall r :: r in w.rows ==> r.id != a.id && !LiveFor(r, a.delegate, "m", a.createdAt)
    requires LiveRows(w.rows, a.parent, "m", a.createdAt) == [above] && above.parent == "A" && above.depth == 1
    ensures Assign(w, a, a.createdAt) == Ok(w.(rows := w.rows + [a]))
  {
    LiveRowsOf(w.rows, a.delegate, a.createdAt);
    assert !IdTaken(w.rows, a.id);
    assert Walk(w, "m", a.createdAt, "A", {a.parent}) == Ok([5]);
    assert [5] + [5] == [5, 5] && Min([5, 5]) == 5;
  }

  /** An issue time that goes back sees two live assignments of one delegate. */
  lemma GoingBackIsAmbiguous()
    ensures exists h: History, at: nat ::
      Chronological(h) && at < Now(h) && ActiveAssignment(Exec(h), "B", "m", at) == Err(Ambiguous)
  {
    var h := Setup();
    var r1, r2 := Row("1", "A", "B", 1, Active, 10, 12), Row("2", "A", "B", 1, Active, 20, 30);
    AssignUnderCrew(Exec(h), r1);
    ExecNext(h, AssignDelegate(r1), 10);
    var h1 := h + [(AssignDelegate(r1), 10)];
    AssignUnderCrew(Exec(h1), r2);
    ExecNext(h1, AssignDelegate(r2), 20);
    var h2 := h1 + [(AssignDelegate(r2), 20)];
    LiveRowsOf(Exec(h2).rows, "B", 11);
    assert ActiveAssignment(Exec(h2), "B", "m", 11) == Err(Ambiguous);
  }

  const EARLY_B := Row("1", "A", "B", 1, Active, 20, 25)
  const EARLY_C := Row("2", "B", "C", 2, Active, 20, 28)
  const LATE_C := Row("3", "A", "C", 1, Active, 30, 100)
  const LATE_B := Row("4", "C", "B", 2, Active, 30, 100)

  /** B under A and C under B. */
  lemma TwoInTurn(under: Assignment, below: Assignment) returns (h: History)
    requires under == Row("1", "A", "B", 1, Active, under.createdAt, under.expiresAt)
    requires below == Row("2", "B", "C", 2, Active, under.createdAt, below.expiresAt)
    requires under.createdAt < under.expiresAt && under.createdAt < below.expiresAt
    ensures Chronological(h) && Now(h) == under.createdAt
    ensures Exec(h) == World(BOTS, {"m"}, map[], [under, below])
  {
    var now := under.createdAt;
    var h0 := Setup();
    AssignUnderCrew(Exec(h0), under);
    ExecNext(h0, AssignDelegate(under), now);
    var h1 := h0 + [(AssignDelegate(under), now)];
    LiveRowsOf(Exec(h1).rows, "B", now);
    AssignUnderDelegate(Exec(h1), below, under);
    ExecNext(h1, AssignDelegate(below), now);
    h := h1 + [(AssignDelegate(below), now)];
  }

  /** Later C under A and B under C. */
  lemma FourInTurn() returns (h: History)
    ensures Chronological(h) && Now(h) == 30
    ensures Exec(h) == World(BOTS, {"m"}, map[], [EARLY_B, EARLY_C, LATE_C, LATE_B])
  {
    var h2 := TwoInTurn(EARLY_B, EARLY_C);
    AssignUnderCrew(Exec(h2), LATE_C);
    ExecNext(h2, AssignDelegate(LATE_C), 30);
    var h3 := h2 + [(AssignDelegate(LATE_C), 30)];
    assert Exec(h3).rows == [EARLY_B, EARLY_C, LATE_C];
    LiveRowsOf(Exec(h3).rows, "C", 30);
    AssignUnderDelegate(Exec(h3), LATE_B, LATE_C);
    ExecNext(h3, AssignDelegate(LATE_B), 30);
    h := h3 + [(AssignDelegate(LATE_B), 30)];
  }

  lemma FirstExpired() returns (h: History)
    ensures Chronological(h) && Now(h) == 30
    ensures Exec(h) == World(BOTS, {"m"}, map[], [EARLY_B.(status := Expired), EARLY_C, LATE_C, LATE_B])
  {
    var h4 := FourInTurn();
    ExecNext(h4, EndAssignment("1", Expired, "system"), 30);
    h := h4 + [(EndAssignment("1", Expired, "system"), 30)];
  }

  /** And both assignments under A are over. */
  lemma TurnedRound() returns (h: History)
    ensures Chronological(h) && Now(h) == 30
    ensures Exec(h) == World(BOTS, {"m"}, map[],
                             [EARLY_B.(status := Expired), EARLY_C, LATE_C.(status := Completed), LATE_B])
  {
    var h5 := FirstExpired();
    EndThird(Exec(h5));
    ExecNext(h5, EndAssignment("3", Completed, "human"), 30);
    h := h5 + [(EndAssignment("3", Completed, "human"), 30)];
  }

  lemma EndThird(w: World)
    requires w.rows == [EARLY_B.(status := Expired), EARLY_C, LATE_C, LATE_B]
    ensures End(w, "3", Completed, "human", 30)
         == Ok(w.(rows := [EARLY_B.(status := Expired), EARLY_C, LATE_C.(status := Completed), LATE_B]))
  {
    var rows := w.rows;
    assert IndexOf(rows, "3") == 2 by {
      assert rows[1..][1..][0] == LATE_C;
      assert IndexOf(rows[1..][1..], "3") == 0;
      assert IndexOf(rows[1..], "3") == 1;
    }
    assert rows[2 := LATE_C.(status := Completed)] ==
      [EARLY_B.(status := Expired), EARLY_C, LATE_C.(status := Completed), LATE_B];
  }

  /** An issue time that goes back can also see a cycle, with no delegate ambiguous. */
  lemma GoingBackIsCyclic()
    ensures exists h: History, at: nat ::
      Chronological(h) && at < Now(h) && "B" in Exec(h).bots && DepthAndLimits(Exec(h), "B", "m", at) == Err(Cycle)
  {
    var h := TurnedRound();
    var w := Exec(h);
    LiveRowsOf(w.rows, "B", 22);
    LiveRowsOf(w.rows, "C", 22);
    assert LiveRows(w.rows, "B", "m", 22) == [LATE_B] && LiveRows(w.rows, "C", "m", 22) == [EARLY_C];
    assert Walk(w, "m", 22, "B", {"B"} + {"C"}) == Err(Cycle);
    assert Walk(w, "m", 22, "C", {"B"}) == Err(Cycle);
    assert DepthAndLimits(w, "B", "m", 22) == Err(Cycle);
  }

  const B_UNDER_A := Row("1", "A", "B", 1, Active, 1, 99)
  const C_UNDER_B := Row("2", "B", "C", 2, Active, 1, 99)
  const D_UNDER_A := Row("3", "A", "D", 1, Active, 1, 99)
  const B_UNDER_D := Row("4", "D", "B", 2, Active, 1, 99)

  lemma ThreeAssignments() returns (h: History)
    ensures Chronological(h) && Now(h) == 1
    ensures Exec(h) == World(BOTS, {"m"}, map[], [B_UNDER_A, C_UNDER_B, D_UNDER_A])
  {
    var h2 := TwoInTurn(B_UNDER_A, C_UNDER_B);
    AssignUnderCrew(Exec(h2), D_UNDER_A);
    ExecNext(h2, AssignDelegate(D_UNDER_A), 1);
    h := h2 + [(AssignDelegate(D_UNDER_A), 1)];
  }

  lemma FirstEnded() returns (h: History)
    ensures Chronological(h) && Now(h) == 1
    ensures Exec(h) == World(BOTS, {"m"}, map[], [B_UNDER_A.(status := Completed), C_UNDER_B, D_UNDER_A])
  {
    var h3 := ThreeAssignments();
    ExecNext(h3, EndAssignment("1", Completed, "human"), 1);
    h := h3 + [(EndAssignment("1", Completed, "human"), 1)];
  }

  lemma Reparented() returns (h: History)
    ensures Chronological(h) && Now(h) == 1
    ensures Exec(h) == World(BOTS, {"m"}, map[], [B_UNDER_A.(status := Completed), C_UNDER_B, D_UNDER_A, B_UNDER_D])
  {
    var h4 := FirstEnded();
    LiveRowsOf(Exec(h4).rows, "D", 1);
    AssignUnderDelegate(Exec(h4), B_UNDER_D, D_UNDER_A);
    ExecNext(h4, AssignDelegate(B_UNDER_D), 1);
    h := h4 + [(AssignDelegate(B_UNDER_D), 1)];
  }

  /**
   Ending B's assignment while C still hangs under it, and then re-parenting B one level deeper,
   leaves C with stored depth 2 at distance 3 from the crew bot.
   */
  lemma ReparentingMakesDepthStale()
    ensures exists h: History, a ::
      Chronological(h) && a in Exec(h).rows && Live(a, Now(h)) && !TrueDepth(Exec(h), a, Now(h))
  {
    var h := Reparented();
    var rows := Exec(h).rows;
    LiveRowsOf(rows, "C", 1);
    LiveRowsOf(rows, "B", 1);
    ParentsOf(rows, "C", "m", 1);
    ParentsOf(rows, "B", "m", 1);
    var parents := Parents(rows, "m", 1);
    assert Up(parents, "C", 2) == Some("D") by {
      assert parents["C"] == "B" && parents["B"] == "D";
      assert Up(parents, "B", 1) == Up(parents, "D", 0) == Some("D");
    }
    assert C_UNDER_B in rows && Live(C_UNDER_B, 1) && !TrueDepth(Exec(h), C_UNDER_B, 1);
  }
}
