/** What a valid council, a vessel id, an expansion and a claim are, said on the definition and the observations. */
module CouncilMeanings {
  import opened Prelude
  import opened Text
  import opened Council
  import opened CouncilClaims

  // Valid councils ------------------------------------------------------------------------------

  /** The cohorts and vessels per cohort that each tier asks for. */
  predicate Sized(tier: Tier, cohorts: nat, vessels: int) {
    match tier
    case Small => cohorts == 2 && vessels == 3
    case Medium => cohorts == 4 && vessels == 6
    case Large => cohorts == 12 && vessels == 9
    case Extreme => cohorts == 24 && 18 <= vessels <= 1000
    case Custom => 1 <= cohorts <= 24 && 1 <= vessels <= 1000
  }

  /** Some character of the text is not white space. */
  predicate Says(text: string) {
    exists c :: c in text && c !in " \t\n\U{B}\U{C}\r\U{1C}\U{1D}\U{1E}\U{1F}"
  }

  lemma SpaceExactly(c: char)
    ensures IsSpace(c) <==> c in " \t\n\U{B}\U{C}\r\U{1C}\U{1D}\U{1E}\U{1F}"
  {
    var spaces := " \t\n\U{B}\U{C}\r\U{1C}\U{1D}\U{1E}\U{1F}";
    assert spaces[0] == ' ' && spaces[1] == '\t' && spaces[2] == '\n' && spaces[3] == '\U{B}' && spaces[4] == '\U{C}';
    assert spaces[5] == '\r' && spaces[6] == '\U{1C}' && spaces[7] == '\U{1D}' && spaces[8] == '\U{1E}';
    assert spaces[9] == '\U{1F}';
    if IsSpace(c) {
      assert c in {' ', '\t', '\n', '\U{B}', '\U{C}', '\r', '\U{1C}', '\U{1D}', '\U{1E}', '\U{1F}'};
    }
  }

  lemma BlankExactly(text: string)
    ensures Blank(text) <==> !Says(text)
  {
    forall c
      ensures IsSpace(c) <==> c in " \t\n\U{B}\U{C}\r\U{1C}\U{1D}\U{1E}\U{1F}"
    {
      SpaceExactly(c);
    }
    if !Blank(text) {
      var i :| 0 <= i < |text| && !IsSpace(text[i]);
      assert text[i] in text;
    }
  }

  predicate Named(c: Cohort) {
    Says(c.id) && Says(c.provider) && Says(c.model) && Says(c.configuration)
  }

  /** The councils that are accepted, for every tier. */
  lemma ValidExactly(d: Definition)
    ensures Valid(d) <==>
      && Sized(d.tier, |d.cohorts|, d.vesselsPerCohort)
      && Says(d.id) && Says(d.synthesisPolicy) && Says(d.challengePolicy)
      && (forall c :: c in d.cohorts ==> Named(c))
      && forall i, j :: 0 <= i < |d.cohorts| && 0 <= j < |d.cohorts| && d.cohorts[i].id == d.cohorts[j].id ==> i == j
  {
    BlankExactly(d.id);
    BlankExactly(d.synthesisPolicy);
    BlankExactly(d.challengePolicy);
    forall c | c in d.cohorts
      ensures Identified(c) <==> Named(c)
    {
      BlankExactly(c.id);
      BlankExactly(c.provider);
      BlankExactly(c.model);
      BlankExactly(c.configuration);
    }
  }

  // Vessel ids ----------------------------------------------------------------------------------

  /** The number a string of digits stands for. */
  function Decimal(text: string): nat {
    if text == "" then 0
    else
      var last := text[|text|-1];
      10 * Decimal(text[..|text|-1]) + if '0' <= last <= '9' then (last - '0') as nat else 0
  }

  lemma DecimalNext(text: string, n: nat)
    requires n < 10
    ensures Decimal(text + [Digit(n)]) == 10 * Decimal(text) + n
  {
    assert (text + [Digit(n)])[..|text|] == text;
  }

  lemma PaddedReads(n: nat)
    requires n < 10000
    ensures |Padded(n)| == 4 && Decimal(Padded(n)) == n
    ensures forall i :: 0 <= i < 4 ==> '0' <= Padded(n)[i] <= '9'
  {
    var a, b, c, d := n / 1000, n / 100 % 10, n / 10 % 10, n % 10;
    DecimalNext("", a);
    DecimalNext([] + [Digit(a)], b);
    DecimalNext([Digit(a)] + [Digit(b)], c);
    DecimalNext([Digit(a), Digit(b)] + [Digit(c)], d);
    assert Padded(n) == [Digit(a), Digit(b)] + [Digit(c)] + [Digit(d)];
    assert [Digit(a), Digit(b)] + [Digit(c)] == [Digit(a)] + [Digit(b)] + [Digit(c)];
    Digits(n);
  }

  /** A vessel id is its cohort's id, a mark, and the ordinal in four digits. */
  lemma VesselIdReads(cohort: string, ordinal: nat)
    requires ordinal < 10000
    ensures var id, n := VesselId(cohort, ordinal), |cohort|;
      && |id| == n + 6 && id[..n] == cohort && id[n] == '-' && id[n + 1] == 'v'
      && Decimal(id[n + 2..]) == ordinal && forall i :: n + 2 <= i < |id| ==> '0' <= id[i] <= '9'
  {
    PaddedReads(ordinal);
    assert VesselId(cohort, ordinal)[|cohort| + 2..] == Padded(ordinal);
  }

  lemma {:induction false} VesselAt(c: Cohort, count: nat, j: nat)
    requires count < 10000 && j < count
    ensures |VesselsOf(c, count)| == count && VesselsOf(c, count)[j] == Vessel(VesselId(c.id, j + 1), c, j + 1)
  {
    VesselsLength(c, count);
    VesselsLength(c, count - 1);
    if j < count - 1 {
      VesselAt(c, count - 1, j);
    }
  }

  lemma RowBound(rows: nat, width: nat, i: nat, j: nat)
    requires i < rows && j < width
    ensures i * width + j < rows * width
    ensures i < rows - 1 ==> i * width + j < (rows - 1) * width
    ensures i == rows - 1 ==> i * width == (rows - 1) * width
  {
    assert (i + 1) * width <= rows * width;
    if i < rows - 1 {
      assert (i + 1) * width <= (rows - 1) * width;
    }
  }

  /** The expansion goes cohort by cohort, the vessels of each in the order of their ordinals. */
  lemma {:induction false} ExpansionAt(cohorts: seq<Cohort>, vessels: nat, i: nat, j: nat)
    requires vessels < 10000 && i < |cohorts| && j < vessels
    ensures var n := i * vessels + j;
      && n < |Blast(cohorts, vessels)|
      && Blast(cohorts, vessels)[n] == Vessel(VesselId(cohorts[i].id, j + 1), cohorts[i], j + 1)
  {
    var front, last := cohorts[..|cohorts|-1], cohorts[|cohorts|-1];
    RowBound(|cohorts|, vessels, i, j);
    BlastLength(cohorts, vessels);
    BlastLength(front, vessels);
    if i < |front| {
      ExpansionAt(front, vessels, i, j);
    } else {
      VesselAt(last, vessels, j);
    }
  }

  // Claims --------------------------------------------------------------------------------------

  /** Some vessel of the cohort takes the stance on the claim. */
  ghost predicate Takes(observations: seq<Observation>, claim: string, stance: Stance, cohort: string) {
    exists o :: o in observations && o.claim == claim && o.stance == stance && o.cohort == cohort
  }

  /** Each part of a claim collects what the observations of that claim say. */
  lemma ClaimCollects(observations: seq<Observation>, id: string)
    requires id in ClaimsOf(observations)
    ensures var c := ClaimsOf(observations)[id];
      && (exists o :: o in observations && o.claim == id && o.text == c.text)
      && (forall s :: s in c.cohorts)
      && (forall s, cohort :: s in c.cohorts ==> (cohort in c.cohorts[s] <==> Takes(observations, id, s, cohort)))
      && (forall v :: v in c.supportVessels <==>
            exists o :: o in observations && o.claim == id && o.stance == Support && o.vessel == v)
      && (forall v :: v in c.dissentVessels <==>
            exists o :: o in observations && o.claim == id && o.stance == Dissent && o.vessel == v)
      && (forall e :: e in c.evidence <==> exists o :: o in observations && o.claim == id && e in o.evidence)
      && (forall a :: a in c.assumptions <==> exists o :: o in observations && o.claim == id && a in o.assumptions)
  {
    var values := Of(observations, id);
    ClaimsAt(observations, id);
    OfMembers(observations, id);
    assert values[0] in values;
    CohortsAre(values);
  }

  lemma CohortsAre(values: seq<Observation>)
    requires values != []
    ensures forall s :: s in ClaimOf(values).cohorts
    ensures forall s, cohort :: s in ClaimOf(values).cohorts ==>
      (cohort in ClaimOf(values).cohorts[s] <==> exists v :: v in values && v.stance == s && v.cohort == cohort)
  {
    forall s
      ensures s in ClaimOf(values).cohorts
    {
      OneOfFour(s);
    }
  }

  lemma OneOfFour(s: Stance)
    ensures s in {Support, Dissent, Insufficient, Abstain}
  {
    match s
    case Support =>
    case Dissent =>
    case Insufficient =>
    case Abstain =>
  }

  /** Every confidence reported by a stance is at most the claim's, which one of them is, or zero without any. */
  lemma ClaimConfidence(observations: seq<Observation>, id: string)
    requires id in ClaimsOf(observations)
    ensures var c := ClaimsOf(observations)[id];
      && (forall o :: o in observations && o.claim == id && o.stance == Support ==> o.confidence <= c.maxSupport)
      && (forall o :: o in observations && o.claim == id && o.stance == Dissent ==> o.confidence <= c.maxDissent)
      && (c.maxSupport == 0.0 ||
          exists o :: o in observations && o.claim == id && o.stance == Support && o.confidence == c.maxSupport)
      && (c.maxDissent == 0.0 ||
          exists o :: o in observations && o.claim == id && o.stance == Dissent && o.confidence == c.maxDissent)
  {
    var values := Of(observations, id);
    ClaimsAt(observations, id);
    OfMembers(observations, id);
    HighestIsMaximum(values, Support);
    HighestIsMaximum(values, Dissent);
  }

  /**
   The status of a claim, by the cohorts on each side: disputed with both sides, a minority view when more
   cohorts hold back than support, insufficient when some hold back for want of evidence and none takes a side.
   */
  lemma StatusExactly(observations: seq<Observation>, id: string)
    requires id in ClaimsOf(observations)
    ensures var c := ClaimsOf(observations)[id];
      && (forall s :: s in c.cohorts)
      && var support, dissent := c.cohorts[Support], c.cohorts[Dissent];
      var holding := |c.cohorts[Insufficient]| + |c.cohorts[Abstain]|;
      && (c.status == Disputed <==> |support| >= 1 && |dissent| >= 1)
      && (c.status == Converged <==> |support| >= 1 && |dissent| == 0 && holding <= |support|)
      && (c.status == Minority <==> |support| >= 1 && |dissent| == 0 && |support| < holding)
      && (c.status == InsufficientEvidence <==>
            |support| == 0 && |dissent| == 0 && |c.cohorts[Insufficient]| >= 1)
      && (c.status == Unresolved <==>
            |support| == 0 && (|dissent| >= 1 || |c.cohorts[Insufficient]| == 0))
  {
    var values := Of(observations, id);
    ClaimsAt(observations, id);
    CohortsAre(values);
    StatusBySides(CohortsOf(values, Support), CohortsOf(values, Dissent), CohortsOf(values, Insufficient),
                  CohortsOf(values, Abstain));
  }

  lemma StatusBySides(support: set<string>, dissent: set<string>, insufficient: set<string>, abstain: set<string>)
    ensures var status, holding := StatusOf(support, dissent, insufficient, abstain), |insufficient| + |abstain|;
      && (status == Disputed <==> |support| >= 1 && |dissent| >= 1)
      && (status == Converged <==> |support| >= 1 && |dissent| == 0 && holding <= |support|)
      && (status == Minority <==> |support| >= 1 && |dissent| == 0 && |support| < holding)
      && (status == InsufficientEvidence <==> |support| == 0 && |dissent| == 0 && |insufficient| >= 1)
      && (status == Unresolved <==> |support| == 0 && (|dissent| >= 1 || |insufficient| == 0))
  {
  }

  /** There is a claim for each claim id that occurs in the observations, and for no other. */
  lemma ClaimsAreReported(observations: seq<Observation>, id: string)
    ensures id in ClaimsOf(observations) <==> exists o :: o in observations && o.claim == id
  {
    ClaimsAt(observations, id);
  }

  /** Two cohorts count as one source exactly when provider, model and configuration are the same. */
  lemma SourcesExactly(d: Definition, source: (string, string, string))
    ensures source in SourcesOf(d) <==>
      exists c :: c in d.cohorts && c.provider == source.0 && c.model == source.1 && c.configuration == source.2
  {
    if c :| c in d.cohorts && c.provider == source.0 && c.model == source.1 && c.configuration == source.2 {
      assert source == (c.provider, c.model, c.configuration);
    }
  }

  // Refused reports -----------------------------------------------------------------------------

  /** The observations that can be analysed, on the cohorts of the council themselves. */
  lemma AcceptableExactly(d: Definition, observations: seq<Observation>)
    ensures Acceptable(d, observations) <==>
      && Valid(d)
      && (forall o :: o in observations ==> SentByVessel(d, o))
      && forall o, p :: o in observations && p in observations && o.claim == p.claim ==> o.text == p.text
  {
    if Valid(d) {
      ExpansionOfValid(d);
      forall o
        ensures Sourced(Blast(SortedById(d.cohorts), d.vesselsPerCohort), o) <==> SentByVessel(d, o)
      {
        SourcedExactly(d, o);
      }
    }
    forall claim
      ensures claim in ClaimIds(observations) ==> Of(observations, claim) != []
      ensures forall o :: o in Of(observations, claim) <==> o in observations && o.claim == claim
    {
      OfMembers(observations, claim);
      if claim in ClaimIds(observations) {
        NonEmptyGroup(observations, claim);
      }
    }
    SameTexts(observations);
  }

  /** The observation names a cohort of the council and one of its vessels. */
  ghost predicate SentByVessel(d: Definition, o: Observation) {
    exists c, ordinal: nat ::
      && c in d.cohorts && c.id == o.cohort && 1 <= ordinal <= d.vesselsPerCohort && ordinal < 10000
      && o.vessel == VesselId(c.id, ordinal)
  }

  lemma SourcedExactly(d: Definition, o: Observation)
    requires Valid(d) && 1 <= d.vesselsPerCohort <= MAX_VESSELS
    ensures Sourced(Blast(SortedById(d.cohorts), d.vesselsPerCohort), o) <==> SentByVessel(d, o)
  {
    var blast := Blast(SortedById(d.cohorts), d.vesselsPerCohort);
    SortSorts(d.cohorts);
    if Sourced(blast, o) {
      var v :| v in blast && v.id == o.vessel && v.cohort.id == o.cohort;
      BlastMembers(SortedById(d.cohorts), d.vesselsPerCohort, v);
    }
    if SentByVessel(d, o) {
      var c, ordinal: nat :|
        && c in d.cohorts && c.id == o.cohort && 1 <= ordinal <= d.vesselsPerCohort && ordinal < 10000
        && o.vessel == VesselId(c.id, ordinal);
      BlastMembers(SortedById(d.cohorts), d.vesselsPerCohort, Vessel(o.vessel, c, ordinal));
    }
  }

  lemma SameTexts(observations: seq<Observation>)
    ensures (forall claim :: claim in ClaimIds(observations) ==> SameText(Of(observations, claim))) <==>
            forall o, p :: o in observations && p in observations && o.claim == p.claim ==> o.text == p.text
  {
    forall claim
      ensures claim in ClaimIds(observations) ==> Of(observations, claim) != []
      ensures forall o :: o in Of(observations, claim) <==> o in observations && o.claim == claim
    {
      OfMembers(observations, claim);
      if claim in ClaimIds(observations) {
        NonEmptyGroup(observations, claim);
      }
    }
    if forall claim :: claim in ClaimIds(observations) ==> SameText(Of(observations, claim)) {
      forall o, p | o in observations && p in observations && o.claim == p.claim
        ensures o.text == p.text
      {
        assert SameText(Of(observations, o.claim));
        assert o in Of(observations, o.claim) && p in Of(observations, o.claim);
      }
    }
    if forall o, p :: o in observations && p in observations && o.claim == p.claim ==> o.text == p.text {
      forall claim | claim in ClaimIds(observations)
        ensures SameText(Of(observations, claim))
      {
        assert Of(observations, claim)[0] in Of(observations, claim);
      }
    }
  }
}
