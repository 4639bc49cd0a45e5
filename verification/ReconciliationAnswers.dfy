/** Every answer of the two reconciliation procedures, said on the records they are given. */
module ReconciliationAnswers {
  import opened Prelude
  import opened DriverRun
  import opened Reconciliation

  /** A retry is safe, or forbidden, exactly in these cases. */
  lemma RetryExactly(run: Run, completion: bool, artifact: bool, lease: bool, budget: bool)
    ensures ReconcileResult(run, completion, artifact, lease, budget) == SafeToRetry <==>
            run.lifecycle == Lost && run.boundary in {NotDispatched, Prepared, BudgetRejected}
    ensures ReconcileResult(run, completion, artifact, lease, budget) == RetryForbidden <==>
            if run.lifecycle == Lost then run.boundary in {RequestStarted, ResponseStarted} else !lease || !budget
  {
  }

  /** Every answer of the event-based procedure, exactly. */
  lemma ProviderAnswersExactly(run: Run, recorded: seq<Boundary>, artifactVerified: bool)
    ensures var r := ProviderResult(run, recorded, artifactVerified);
      var persisted := artifactVerified && ResultPersisted in recorded;
      && (r.Err? <==> Count(recorded, ResponseCompleted) > Count(recorded, RequestStarted))
      && (r.Err? ==> r.error == InvalidEventSequence)
      && (r == Ok(ProviderCompleted) <==>
            r.Ok? && persisted &&
            (run.lifecycle == Completed ||
             (run.lifecycle == Lost && (run.boundary == ResponseCompleted || run.boundary == ResultPersisted))))
      && (r == Ok(SafeUnderNewApproval) <==>
            r.Ok? && run.lifecycle == Lost && RequestStarted !in recorded &&
            run.boundary in {NotDispatched, Prepared, BudgetRejected})
      && (r == Ok(RequiresVerification) <==>
            r.Ok? && run.lifecycle != Lost && !(run.lifecycle == Completed && persisted))
      && (r == Ok(Forbidden) <==>
            r.Ok? && run.lifecycle == Lost && r != Ok(ProviderCompleted) && r != Ok(SafeUnderNewApproval))
  {
    CountIsZero(recorded, ResultPersisted);
    CountIsZero(recorded, RequestStarted);
  }

  /** An identity is reported exactly when two observations carry it and differ. */
  lemma {:induction false} ConflictsNameTheContradicted(obs: seq<Observation>, id: Option<string>)
    ensures id in Conflicts(obs) <==> exists o, p :: o in obs && p in obs && o.id == p.id == id && o != p
  {
    if obs != [] {
      var before, last := obs[..|obs|-1], obs[|obs|-1];
      ConflictsNameTheContradicted(before, id);
      assert obs == before + [last];
      assert forall o :: o in obs <==> o in before || o == last;
      FirstWithExtended(before, last, last.id);
      FirstWithMember(before, last.id);
    }
  }
}
