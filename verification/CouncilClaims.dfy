/** The analysis of what the vessels of a council report about claims. */
module CouncilClaims {
  import opened Prelude
  import opened Council

  datatype Stance = Support | Dissent | Insufficient | Abstain

  datatype Status = Converged | Disputed | Minority | InsufficientEvidence | Unresolved

  datatype Observation = Observation(claim: string, text: string, cohort: string, vessel: string, stance: Stance,
                                     confidence: real, evidence: seq<string>, assumptions: seq<string>)

  /** Sorted duplicate-free tuples of the source are sets here. */
  datatype Claim = Claim(text: string, status: Status, cohorts: map<Stance, set<string>>,
                         supportVessels: set<string>, dissentVessels: set<string>,
                         evidence: set<string>, assumptions: set<string>, maxSupport: real, maxDissent: real)

  datatype Dispute = Dispute(support: set<string>, dissent: set<string>)

  datatype Analysis = Analysis(cohortCount: nat, distinctSources: nat, claims: map<string, Claim>,
                               disputes: map<string, Dispute>)

  function StatusOf(support: set<string>, dissent: set<string>, insufficient: set<string>,
                    abstain: set<string>): Status {
    if support != {} && dissent != {} then Disputed
    else if support != {} then if |insufficient| + |abstain| > |support| then Minority else Converged
    else if insufficient != {} && dissent == {} then InsufficientEvidence
    else Unresolved
  }

  // Claims as functions of the observations ---------------------------------------------------

  function Of(observations: seq<Observation>, claim: string): seq<Observation> {
    if observations == [] then []
    else
      var last := observations[|observations|-1];
      Of(observations[..|observations|-1], claim) + if last.claim == claim then [last] else []
  }

  function CohortsOf(values: seq<Observation>, stance: Stance): set<string> {
    set v | v in values && v.stance == stance :: v.cohort
  }

  function VesselsOfStance(values: seq<Observation>, stance: Stance): set<string> {
    set v | v in values && v.stance == stance :: v.vessel
  }

  /** The highest confidence among observations of a stance, zero without any. */
  function Highest(values: seq<Observation>, stance: Stance): real {
    if values == [] then 0.0
    else
      var front, last := values[..|values|-1], values[|values|-1];
      if last.stance != stance then Highest(front, stance)
      else if CohortsOf(front, stance) == {} || last.confidence > Highest(front, stance) then last.confidence
      else Highest(front, stance)
  }

  function ClaimOf(values: seq<Observation>): Claim
    requires values != []
  {
    var cohorts := map s | s in {Support, Dissent, Insufficient, Abstain} :: CohortsOf(values, s);
    Claim(values[0].text, StatusOf(cohorts[Support], cohorts[Dissent], cohorts[Insufficient], cohorts[Abstain]),
        cohorts,
          VesselsOfStance(values, Support), VesselsOfStance(values, Dissent),
          set v, e | v in values && e in v.evidence :: e, set v, a | v in values && a in v.assumptions :: a,
          Highest(values, Support), Highest(values, Dissent))
  }

  predicate SameText(values: seq<Observation>) {
    forall v :: v in values ==> v.text == values[0].text
  }

  function ClaimIds(observations: seq<Observation>): set<string> {
    set o | o in observations :: o.claim
  }

  /** The cohort of each vessel id. */
  predicate Sourced(blast: seq<Vessel>, o: Observation) {
    exists v :: v in blast && v.id == o.vessel && v.cohort.id == o.cohort
  }

  predicate Acceptable(d: Definition, observations: seq<Observation>) {
    && Valid(d) && 1 <= d.vesselsPerCohort <= MAX_VESSELS
    && (forall o :: o in observations ==> Sourced(Blast(SortedById(d.cohorts), d.vesselsPerCohort), o))
    && (forall claim :: claim in ClaimIds(observations) ==> SameText(Of(observations, claim)))
  }

  lemma {:induction false} OfMembers(observations: seq<Observation>, claim: string)
    ensures forall o :: o in Of(observations, claim) <==> o in observations && o.claim == claim
  {
    if observations != [] {
      OfMembers(observations[..|observations|-1], claim);
      assert observations == observations[..|observations|-1] + [observations[|observations|-1]];
    }
  }

  lemma NonEmptyGroup(observations: seq<Observation>, claim: string)
    requires claim in ClaimIds(observations)
    ensures Of(observations, claim) != []
  {
    OfMembers(observations, claim);
    var o :| o in observations && o.claim == claim;
    assert o in Of(observations, claim);
  }

  function ClaimsOf(observations: seq<Observation>): map<string, Claim> {
    map id | id in ClaimIds(observations) :: NonEmptyGroup(observations, id); ClaimOf(Of(observations, id))
  }

  predicate Divided(c: Claim) {
    Support in c.cohorts && Dissent in c.cohorts && c.cohorts[Support] != {} && c.cohorts[Dissent] != {}
  }

  function Sides(c: Claim): Dispute
    requires Divided(c)
  {
    Dispute(c.cohorts[Support], c.cohorts[Dissent])
  }

  lemma ClaimsAt(observations: seq<Observation>, id: string)
    ensures id in ClaimsOf(observations) <==> id in ClaimIds(observations)
    ensures id in ClaimIds(observations) ==>
      Of(observations, id) != [] && ClaimsOf(observations)[id] == ClaimOf(Of(observations, id))
  {
    if id in ClaimIds(observations) {
      NonEmptyGroup(observations, id);
    }
  }

  function DisputesOf(claims: map<string, Claim>): map<string, Dispute> {
    map id | id in claims && Divided(claims[id]) :: Sides(claims[id])
  }

  function SourcesOf(d: Definition): set<(string, string, string)> {
    set c | c in d.cohorts :: (c.provider, c.model, c.configuration)
  }

  method VesselMap(blast: seq<Vessel>) returns (cohortOf: map<string, string>)
    requires DistinctVessels(blast)
    ensures forall v :: v in blast ==> v.id in cohortOf && cohortOf[v.id] == v.cohort.id
    ensures forall id :: id in cohortOf ==> exists v :: v in blast && v.id == id
  {
    cohortOf := map[];
    for i := 0 to |blast|
      invariant forall j :: 0 <= j < i ==> blast[j].id in cohortOf && cohortOf[blast[j].id] == blast[j].cohort.id
      invariant forall id :: id in cohortOf ==> exists v :: v in blast && v.id == id
    {
      assert blast[i] in blast;
      cohortOf := cohortOf[blast[i].id := blast[i].cohort.id];
    }
  }

  /** No vessel has the observation's id, or one of another cohort. */
  ghost predicate Misattributed(error: CouncilError, blast: seq<Vessel>, o: Observation) {
    || (error == UnknownVessel && forall v :: v in blast ==> v.id != o.vessel)
    || (error == VesselCohortMismatch && exists v :: v in blast && v.id == o.vessel && v.cohort.id != o.cohort)
  }

  method CheckSource(blast: seq<Vessel>, cohortOf: map<string, string>, o: Observation)
    returns (error: Option<CouncilError>)
    requires forall v :: v in blast ==> v.id in cohortOf && cohortOf[v.id] == v.cohort.id
    requires forall id :: id in cohortOf ==> exists v :: v in blast && v.id == id
    ensures error.None? <==> Sourced(blast, o)
    ensures error.Some? ==> Misattributed(error.value, blast, o)
  {
    if o.vessel !in cohortOf {
      return Some(UnknownVessel);
    }
    ghost var v :| v in blast && v.id == o.vessel;
    if cohortOf[o.vessel] != o.cohort {
      return Some(VesselCohortMismatch);
    }
    assert v.cohort.id == o.cohort;
    return None;
  }

  ghost predicate Grouped(observations: seq<Observation>, grouped: map<string, seq<Observation>>) {
    && grouped.Keys == ClaimIds(observations)
    && forall id :: id in grouped ==> grouped[id] == Of(observations, id)
  }

  function WithObservation(grouped: map<string, seq<Observation>>, o: Observation): map<string, seq<Observation>> {
    grouped[o.claim := (if o.claim in grouped then grouped[o.claim] else []) + [o]]
  }

  lemma GroupedNext(observations: seq<Observation>, i: nat, grouped: map<string, seq<Observation>>)
    requires i < |observations| && Grouped(observations[..i], grouped)
    ensures Grouped(observations[..i + 1], WithObservation(grouped, observations[i]))
  {
    GroupStep(observations, i);
  }

  ghost predicate AllSourced(blast: seq<Vessel>, observations: seq<Observation>) {
    forall o :: o in observations ==> Sourced(blast, o)
  }

  ghost predicate SomeMisattributed(error: CouncilError, blast: seq<Vessel>, observations: seq<Observation>) {
    exists o :: o in observations && Misattributed(error, blast, o)
  }

  lemma FoundMisattributed(blast: seq<Vessel>, observations: seq<Observation>, i: nat, error: CouncilError)
    requires i < |observations| && Misattributed(error, blast, observations[i]) && !Sourced(blast, observations[i])
    ensures SomeMisattributed(error, blast, observations) && !AllSourced(blast, observations)
  {
    assert observations[i] in observations;
  }

  lemma OneMoreSourced(blast: seq<Vessel>, observations: seq<Observation>, i: nat)
    requires i < |observations| && AllSourced(blast, observations[..i]) && Sourced(blast, observations[i])
    ensures AllSourced(blast, observations[..i + 1])
  {
    assert observations[..i + 1] == observations[..i] + [observations[i]];
  }

  /** Groups the observations by claim, refusing those that no vessel of the council could have made. */
  method Group(blast: seq<Vessel>, observations: seq<Observation>)
    returns (r: Result<map<string, seq<Observation>>, CouncilError>)
    requires DistinctVessels(blast)
    ensures r.Ok? <==> AllSourced(blast, observations)
    ensures r.Ok? ==> Grouped(observations, r.value)
    ensures r.Err? ==> SomeMisattributed(r.error, blast, observations)
  {
    var cohortOf := VesselMap(blast);
    var grouped: map<string, seq<Observation>> := map[];
    for i := 0 to |observations|
      invariant AllSourced(blast, observations[..i])
      invariant Grouped(observations[..i], grouped)
    {
      var error := CheckSource(blast, cohortOf, observations[i]);
      if error.Some? {
        FoundMisattributed(blast, observations, i, error.value);
        return Err(error.value);
      }
      OneMoreSourced(blast, observations, i);
      GroupedNext(observations, i, grouped);
      grouped := WithObservation(grouped, observations[i]);
    }
    assert observations[..|observations|] == observations;
    return Ok(grouped);
  }

  lemma GroupStep(observations: seq<Observation>, i: nat)
    requires i < |observations|
    ensures ClaimIds(observations[..i + 1]) == ClaimIds(observations[..i]) + {observations[i].claim}
    ensures forall id ::
      Of(observations[..i + 1], id) ==
      Of(observations[..i], id) + if observations[i].claim == id then [observations[i]] else []
    ensures observations[i].claim !in ClaimIds(observations[..i]) ==> Of(observations[..i], observations[i].claim) == []
  {
    assert observations[..i + 1] == observations[..i] + [observations[i]];
    assert observations[..i + 1][..i] == observations[..i];
    var claim := observations[i].claim;
    OfMembers(observations[..i], claim);
    if Of(observations[..i], claim) != [] {
      assert Of(observations[..i], claim)[0] in Of(observations[..i], claim);
    }
  }

  /** The claims made so far are those of their groups. */
  ghost predicate ClaimsMade(grouped: map<string, seq<Observation>>, claims: map<string, Claim>) {
    claims.Keys <= grouped.Keys && forall id :: id in claims ==> Made(grouped[id], claims[id])
  }

  ghost predicate Made(values: seq<Observation>, claim: Claim) {
    values != [] && SameText(values) && claim == ClaimOf(values)
  }

  lemma MakeOneMore(grouped: map<string, seq<Observation>>, claims: map<string, Claim>, id: string, claim: Claim)
    requires ClaimsMade(grouped, claims) && id in grouped && Made(grouped[id], claim)
    ensures ClaimsMade(grouped, claims[id := claim])
  {
  }

  lemma AddDispute(claims: map<string, Claim>, id: string, claim: Claim)
    requires id !in claims
    ensures DisputesOf(claims[id := claim]) == if Divided(claim) then DisputesOf(claims)[id := Sides(claim)]
      else DisputesOf(claims)
  {
  }

  lemma SameMap<K, V>(a: map<K, V>, b: map<K, V>)
    requires forall k :: (k in a <==> k in b) && (k in a ==> a[k] == b[k])
    ensures a == b
  {
  }

  lemma AllMade(observations: seq<Observation>, grouped: map<string, seq<Observation>>, claims: map<string, Claim>)
    requires Grouped(observations, grouped) && claims.Keys == grouped.Keys && ClaimsMade(grouped, claims)
    ensures claims == ClaimsOf(observations)
  {
    var all := ClaimsOf(observations);
    forall id
      ensures (id in claims <==> id in all) && (id in claims ==> claims[id] == all[id])
    {
      ClaimsAt(observations, id);
      if id in claims {
        assert Made(grouped[id], claims[id]) && grouped[id] == Of(observations, id);
      }
    }
    SameMap(claims, all);
  }

  /** Turns every group into a claim, and into a dispute where it is one. */
  method Summarize(observations: seq<Observation>, grouped: map<string, seq<Observation>>)
    returns (r: Result<(map<string, Claim>, map<string, Dispute>), CouncilError>)
    requires Grouped(observations, grouped)
    ensures r.Ok? <==> forall id :: id in grouped ==> SameText(grouped[id])
    ensures r.Ok? ==> r.value == (ClaimsOf(observations), DisputesOf(ClaimsOf(observations)))
    ensures r.Err? ==> r.error == ClaimTextMismatch && exists id :: id in grouped && !SameText(grouped[id])
  {
    var claims: map<string, Claim>, disputes: map<string, Dispute> := map[], map[];
    var ids := grouped.Keys;
    while ids != {}
      invariant ids <= grouped.Keys && claims.Keys == grouped.Keys - ids
      invariant ClaimsMade(grouped, claims) && disputes == DisputesOf(claims)
    {
      var id :| id in ids;
      NonEmptyGroup(observations, id);
      if !SameText(grouped[id]) {
        return Err(ClaimTextMismatch);
      }
      var claim := ClaimOf(grouped[id]);
      MakeOneMore(grouped, claims, id, claim);
      AddDispute(claims, id, claim);
      claims := claims[id := claim];
      disputes := if Divided(claim) then disputes[id := Sides(claim)] else disputes;
      ids := ids - {id};
    }
    AllMade(observations, grouped, claims);
    return Ok((claims, disputes));
  }

  /** What the error names is found among the observations. */
  ghost predicate Refutes(error: CouncilError, d: Definition, observations: seq<Observation>)
    requires Valid(d)
  {
    if error == ClaimTextMismatch then
      exists claim :: claim in ClaimIds(observations) && !SameText(Of(observations, claim))
    else
      exists o :: o in observations && Misattributed(error, Blast(SortedById(d.cohorts), d.vesselsPerCohort), o)
  }

  /** The claims and disputes of an acceptable set of observations, and a refusal of any other. */
  method AnalyzeClaims(d: Definition, observations: seq<Observation>) returns (r: Result<Analysis, CouncilError>)
    ensures r.Ok? <==> Acceptable(d, observations)
    ensures r.Ok? ==> r.value == Analysis(|d.cohorts|, |SourcesOf(d)|, ClaimsOf(observations),
      DisputesOf(ClaimsOf(observations)))
    ensures r.Err? ==> !Valid(d) || Refutes(r.error, d, observations)
  {
    var blast := BuildLogicalBlast(d);
    if blast.Err? {
      return Err(blast.error);
    }
    ExpansionOfValid(d);
    var grouped := Group(blast.value, observations);
    if grouped.Err? {
      return Err(grouped.error);
    }
    var summary := Summarize(observations, grouped.value);
    if summary.Err? {
      return Err(summary.error);
    }
    return Ok(Analysis(|d.cohorts|, |SourcesOf(d)|, summary.value.0, summary.value.1));
  }

  // What the analysis means -------------------------------------------------------------------

  /** A dispute stands for exactly the claims marked disputed, and names their two sides. */
  lemma DisputesAreDisputedClaims(observations: seq<Observation>, id: string)
    ensures var claims := ClaimsOf(observations);
      && (id in DisputesOf(claims) <==> id in claims && claims[id].status == Disputed)
      && (id in DisputesOf(claims) ==>
            DisputesOf(claims)[id] ==
            Dispute(CohortsOf(Of(observations, id), Support), CohortsOf(Of(observations, id), Dissent)))
  {
    ClaimsAt(observations, id);
    if id in ClaimIds(observations) {
      DisputedExactly(Of(observations, id));
    }
  }

  lemma DisputedExactly(values: seq<Observation>)
    requires values != []
    ensures Divided(ClaimOf(values)) <==> ClaimOf(values).status == Disputed
    ensures Divided(ClaimOf(values)) ==>
      Sides(ClaimOf(values)) == Dispute(CohortsOf(values, Support), CohortsOf(values, Dissent))
  {
  }

  /** The highest confidence depends only on which observations there are. */
  lemma {:induction false} HighestIsMaximum(values: seq<Observation>, stance: Stance)
    ensures (forall v :: v in values ==> v.stance != stance) ==> Highest(values, stance) == 0.0
    ensures forall v :: v in values && v.stance == stance ==> v.confidence <= Highest(values, stance)
    ensures (exists v :: v in values && v.stance == stance) ==>
              exists v :: v in values && v.stance == stance && v.confidence == Highest(values, stance)
  {
    if values != [] {
      var front, last := values[..|values|-1], values[|values|-1];
      HighestIsMaximum(front, stance);
      assert values == front + [last];
      if last.stance == stance {
        if CohortsOf(front, stance) == {} {
          assert forall v :: v in front && v.stance == stance ==> v.cohort in CohortsOf(front, stance);
        }
        assert last in values;
      }
    }
  }

  lemma SameHighest(a: seq<Observation>, b: seq<Observation>, stance: Stance)
    requires forall v :: v in a <==> v in b
    ensures Highest(a, stance) == Highest(b, stance)
  {
    HighestIsMaximum(a, stance);
    HighestIsMaximum(b, stance);
  }

  lemma SameClaim(a: seq<Observation>, b: seq<Observation>)
    requires a != [] && b != [] && SameText(a) && forall v :: v in a <==> v in b
    ensures SameText(b) && ClaimOf(a) == ClaimOf(b)
  {
    SameHighest(a, b, Support);
    SameHighest(a, b, Dissent);
    SameCohorts(a, b);
    assert b[0] in b;
    var x, y := ClaimOf(a), ClaimOf(b);
    assert x.cohorts == y.cohorts;
  }

  lemma SameCohorts(a: seq<Observation>, b: seq<Observation>)
    requires forall v :: v in a <==> v in b
    ensures forall s :: CohortsOf(a, s) == CohortsOf(b, s) && VesselsOfStance(a, s) == VesselsOfStance(b, s)
  {
  }

  lemma ClaimsInAnyOrder(a: seq<Observation>, b: seq<Observation>)
    requires forall o :: o in a <==> o in b
    requires forall claim :: claim in ClaimIds(a) ==> SameText(Of(a, claim))
    ensures forall claim :: claim in ClaimIds(b) ==> SameText(Of(b, claim))
    ensures ClaimsOf(a) == ClaimsOf(b)
  {
    assert ClaimIds(a) == ClaimIds(b);
    forall claim | claim in ClaimIds(a)
      ensures SameText(Of(b, claim)) && ClaimsOf(a)[claim] == ClaimsOf(b)[claim]
    {
      NonEmptyGroup(a, claim);
      NonEmptyGroup(b, claim);
      OfMembers(a, claim);
      OfMembers(b, claim);
      SameClaim(Of(a, claim), Of(b, claim));
    }
  }

  /** Whether and how observations are analysed depends on neither their order nor that of the cohorts. */
  lemma OrderIsImmaterial(d: Definition, cohorts: seq<Cohort>, p: seq<nat>, q: seq<nat>,
                          a: seq<Observation>, b: seq<Observation>, v: seq<nat>, w: seq<nat>)
    requires Reordered(d.cohorts, cohorts, p, q) && Reordered(a, b, v, w)
    ensures Acceptable(d.(cohorts := cohorts), b) <==> Acceptable(d, a)
    ensures Acceptable(d, a) ==> ClaimsOf(b) == ClaimsOf(a) && DisputesOf(ClaimsOf(b)) == DisputesOf(ClaimsOf(a))
    ensures SourcesOf(d.(cohorts := cohorts)) == SourcesOf(d) && |cohorts| == |d.cohorts|
  {
    CohortOrderIsImmaterial(d, cohorts, p, q);
    SameMembers(d.cohorts, cohorts, p, q);
    SameMembers(a, b, v, w);
    if Acceptable(d, a) {
      ClaimsInAnyOrder(a, b);
    }
    if Acceptable(d.(cohorts := cohorts), b) {
      ClaimsInAnyOrder(b, a);
    }
  }
}
