/** Councils: their definition, the expansion into logical vessels, and the analysis of what these report. */
module Council {
  import opened Prelude
  import opened Text

  datatype Tier = Small | Medium | Large | Extreme | Custom

  datatype Cohort = Cohort(id: string, provider: string, model: string, configuration: string)

  datatype Definition = Definition(id: string, tier: Tier, cohorts: seq<Cohort>, vesselsPerCohort: int,
                                   synthesisPolicy: string, challengePolicy: string)

  datatype CouncilError =
    | CouncilIdRequired | CohortCountRange | VesselCountRange | CohortCountMismatch | MaxLogicalVessels
    | SynthesisPolicyRequired | ChallengePolicyRequired | CohortIdentityRequired | DuplicateCohortId
    | UnknownVessel | VesselCohortMismatch | ClaimTextMismatch

  const MAX_COHORTS := 24
  const MAX_VESSELS := 1000
  const MAX_LOGICAL_VESSELS := MAX_COHORTS * MAX_VESSELS
  const EXTREME_DEFAULT_VESSELS := 18

  // Validation --------------------------------------------------------------------------------

  /** The fixed tiers prescribe both counts; the extreme one the cohorts and a range of vessels. */
  function TierError(d: Definition): Option<CouncilError> {
    var (cohorts, least, most) :=
      match d.tier
      case Small => (2, 3, 3)
      case Medium => (4, 6, 6)
      case Large => (12, 9, 9)
      case Extreme => (MAX_COHORTS, EXTREME_DEFAULT_VESSELS, MAX_VESSELS)
      case Custom => (|d.cohorts|, 1, MAX_VESSELS);
    if d.tier.Custom? && !(1 <= |d.cohorts| <= MAX_COHORTS) then Some(CohortCountRange)
    else if !(least <= d.vesselsPerCohort <= most) then Some(VesselCountRange)
    else if |d.cohorts| != cohorts then Some(CohortCountMismatch)
    else None
  }

  predicate Identified(c: Cohort) {
    !Blank(c.id) && !Blank(c.provider) && !Blank(c.model) && !Blank(c.configuration)
  }

  predicate DistinctIds(cohorts: seq<Cohort>) {
    forall i, j :: 0 <= i < j < |cohorts| ==> cohorts[i].id != cohorts[j].id
  }

  predicate Valid(d: Definition) {
    && !Blank(d.id) && TierError(d).None? && !Blank(d.synthesisPolicy) && !Blank(d.challengePolicy)
    && (forall c :: c in d.cohorts ==> Identified(c)) && DistinctIds(d.cohorts)
  }

  /** The definition really has the fault that the error names. */
  ghost predicate Justified(error: CouncilError, d: Definition) {
    match error
    case CouncilIdRequired => Blank(d.id)
    case CohortCountRange => d.tier.Custom? && (|d.cohorts| == 0 || |d.cohorts| > 24)
    case VesselCountRange =>
      (match d.tier
       case Small => d.vesselsPerCohort != 3
       case Medium => d.vesselsPerCohort != 6
       case Large => d.vesselsPerCohort != 9
       case Extreme => d.vesselsPerCohort < 18 || d.vesselsPerCohort > 1000
       case Custom => d.vesselsPerCohort < 1 || d.vesselsPerCohort > 1000)
    case CohortCountMismatch =>
      (match d.tier
       case Small => |d.cohorts| != 2
       case Medium => |d.cohorts| != 4
       case Large => |d.cohorts| != 12
       case Extreme => |d.cohorts| != 24
       case Custom => false)
    case SynthesisPolicyRequired => Blank(d.synthesisPolicy)
    case ChallengePolicyRequired => Blank(d.challengePolicy)
    case CohortIdentityRequired => exists c :: c in d.cohorts && !Identified(c)
    case DuplicateCohortId => exists i, j :: 0 <= i < j < |d.cohorts| && d.cohorts[i].id == d.cohorts[j].id
    case _ => false
  }

  /** A council is accepted exactly when it is valid; the bound on logical vessels then holds by itself. */
  method ValidateCouncil(d: Definition) returns (error: Option<CouncilError>)
    ensures error.None? <==> Valid(d)
    ensures error != Some(MaxLogicalVessels)
    ensures error.Some? ==> Justified(error.value, d)
    ensures Valid(d) ==> 1 <= |d.cohorts| * d.vesselsPerCohort <= MAX_LOGICAL_VESSELS
  {
    if Blank(d.id) {
      return Some(CouncilIdRequired);
    }
    if TierError(d).Some? {
      return TierError(d);
    }
    ProductBound(|d.cohorts|, d.vesselsPerCohort);
    if |d.cohorts| * d.vesselsPerCohort > MAX_LOGICAL_VESSELS {
      return Some(MaxLogicalVessels);
    }
    if Blank(d.synthesisPolicy) {
      return Some(SynthesisPolicyRequired);
    }
    if Blank(d.challengePolicy) {
      return Some(ChallengePolicyRequired);
    }
    var ids: set<string> := {};
    for i := 0 to |d.cohorts|
      invariant forall c :: c in d.cohorts[..i] ==> Identified(c)
      invariant DistinctIds(d.cohorts[..i])
      invariant forall id :: id in ids <==> exists j :: 0 <= j < i && d.cohorts[j].id == id
    {
      var c := d.cohorts[i];
      assert c in d.cohorts && d.cohorts[..i + 1] == d.cohorts[..i] + [c];
      if !Identified(c) {
        return Some(CohortIdentityRequired);
      }
      if c.id in ids {
        return Some(DuplicateCohortId);
      }
      ids := ids + {c.id};
    }
    assert d.cohorts[..|d.cohorts|] == d.cohorts;
    return None;
  }

  lemma ProductBound(cohorts: nat, vessels: nat)
    requires 1 <= cohorts <= MAX_COHORTS && 1 <= vessels <= MAX_VESSELS
    ensures 1 <= cohorts * vessels <= MAX_LOGICAL_VESSELS
  {
    assert cohorts * vessels <= MAX_COHORTS * vessels;
  }

  // Order of cohorts --------------------------------------------------------------------------

  function Insert(c: Cohort, sorted: seq<Cohort>): seq<Cohort> {
    if sorted == [] || Less(c.id, sorted[0].id) then [c] + sorted
    else [sorted[0]] + Insert(c, sorted[1..])
  }

  function SortedById(cohorts: seq<Cohort>): seq<Cohort> {
    if cohorts == [] then [] else Insert(cohorts[|cohorts|-1], SortedById(cohorts[..|cohorts|-1]))
  }

  predicate StrictlySorted(cohorts: seq<Cohort>) {
    forall i, j :: 0 <= i < j < |cohorts| ==> Less(cohorts[i].id, cohorts[j].id)
  }

  lemma {:induction false} InsertMembers(c: Cohort, sorted: seq<Cohort>)
    ensures forall x :: x in Insert(c, sorted) <==> x == c || x in sorted
    ensures |Insert(c, sorted)| == |sorted| + 1
  {
    if sorted != [] && !Less(c.id, sorted[0].id) {
      InsertMembers(c, sorted[1..]);
      assert sorted == [sorted[0]] + sorted[1..];
    }
  }

  lemma {:induction false} InsertSorts(c: Cohort, sorted: seq<Cohort>)
    requires StrictlySorted(sorted) && forall x :: x in sorted ==> x.id != c.id
    ensures StrictlySorted(Insert(c, sorted))
  {
    if sorted == [] {
    } else if Less(c.id, sorted[0].id) {
      forall j | 0 < j < |sorted|
        ensures Less(c.id, sorted[j].id)
      {
        LessIsTransitive(c.id, sorted[0].id, sorted[j].id);
      }
    } else {
      LessIsTotal(c.id, sorted[0].id);
      InsertSorts(c, sorted[1..]);
      InsertMembers(c, sorted[1..]);
      var rest := Insert(c, sorted[1..]);
      forall j | 0 <= j < |rest|
        ensures Less(sorted[0].id, rest[j].id)
      {
        assert rest[j] in rest;
      }
    }
  }

  lemma {:induction false} SortSorts(cohorts: seq<Cohort>)
    requires DistinctIds(cohorts)
    ensures StrictlySorted(SortedById(cohorts)) && |SortedById(cohorts)| == |cohorts|
    ensures forall x :: x in SortedById(cohorts) <==> x in cohorts
  {
    if cohorts != [] {
      var front, c := cohorts[..|cohorts|-1], cohorts[|cohorts|-1];
      SortSorts(front);
      InsertMembers(c, SortedById(front));
      InsertSorts(c, SortedById(front));
      assert cohorts == front + [c];
    }
  }

  /** Two strictly sorted listings of the same cohorts are the same listing. */
  lemma {:induction false} SortedIsUnique(a: seq<Cohort>, b: seq<Cohort>)
    requires StrictlySorted(a) && StrictlySorted(b) && forall x :: x in a <==> x in b
    ensures a == b
  {
    if b != [] {
      assert b[0] in b;
    }
    if a != [] {
      assert a[0] in b && b[0] in a;
      LessIsTotal(a[0].id, b[0].id);
      forall x
        ensures x in a[1..] <==> x in b[1..]
      {
        TailMembers(a, x);
        TailMembers(b, x);
      }
      SortedIsUnique(a[1..], b[1..]);
    }
  }

  lemma TailMembers(s: seq<Cohort>, x: Cohort)
    requires StrictlySorted(s) && s != []
    ensures x in s[1..] <==> x in s && x != s[0]
  {
    LessIsTotal(s[0].id, s[0].id);
  }

  // Expansion into vessels --------------------------------------------------------------------

  datatype Vessel = Vessel(id: string, cohort: Cohort, ordinal: nat)

  function Digit(n: nat): char
    requires n < 10
  {
    '0' + n as char
  }

  /** Four digits with leading zeros, as far as the largest council needs. */
  function Padded(n: nat): string
    requires n < 10000
  {
    [Digit(n / 1000), Digit(n / 100 % 10), Digit(n / 10 % 10), Digit(n % 10)]
  }

  function VesselId(cohort: string, ordinal: nat): string
    requires ordinal < 10000
  {
    cohort + "-v" + Padded(ordinal)
  }

  function VesselsOf(c: Cohort, count: nat): seq<Vessel>
    requires count < 10000
  {
    if count == 0 then [] else VesselsOf(c, count - 1) + [Vessel(VesselId(c.id, count), c, count)]
  }

  function Blast(cohorts: seq<Cohort>, vessels: nat): seq<Vessel>
    requires vessels < 10000
  {
    if cohorts == [] then [] else Blast(cohorts[..|cohorts|-1], vessels) + VesselsOf(cohorts[|cohorts|-1], vessels)
  }

  method BuildLogicalBlast(d: Definition) returns (r: Result<seq<Vessel>, CouncilError>)
    ensures r.Ok? <==> Valid(d)
    ensures r.Ok? ==>
      1 <= d.vesselsPerCohort <= MAX_VESSELS && r.value == Blast(SortedById(d.cohorts), d.vesselsPerCohort)
  {
    var error := ValidateCouncil(d);
    if error.Some? {
      return Err(error.value);
    }
    var intents: seq<Vessel> := [];
    var sorted := SortedById(d.cohorts);
    for i := 0 to |sorted|
      invariant intents == Blast(sorted[..i], d.vesselsPerCohort)
    {
      var vessels := ExpandCohort(sorted[i], d.vesselsPerCohort);
      intents := intents + vessels;
      assert sorted[..i + 1][..i] == sorted[..i];
    }
    assert sorted[..|sorted|] == sorted;
    return Ok(intents);
  }

  method ExpandCohort(c: Cohort, count: nat) returns (vessels: seq<Vessel>)
    requires count < 10000
    ensures vessels == VesselsOf(c, count)
  {
    vessels := [];
    for ordinal := 1 to count + 1
      invariant vessels == VesselsOf(c, ordinal - 1)
    {
      vessels := vessels + [Vessel(VesselId(c.id, ordinal), c, ordinal)];
    }
  }

  lemma DigitIsInjective(m: nat, n: nat)
    requires m < 10 && n < 10 && Digit(m) == Digit(n)
    ensures m == n
  {
  }

  lemma Digits(n: nat)
    requires n < 10000
    ensures n == n / 1000 * 1000 + n / 100 % 10 * 100 + n / 10 % 10 * 10 + n % 10
  {
    assert n / 1000 == n / 100 / 10 && n / 100 == n / 10 / 10;
  }

  lemma PaddedIsInjective(m: nat, n: nat)
    requires m < 10000 && n < 10000 && Padded(m) == Padded(n)
    ensures m == n
  {
    var p, q := Padded(m), Padded(n);
    assert p[0] == q[0] && p[1] == q[1] && p[2] == q[2] && p[3] == q[3];
    DigitIsInjective(m / 1000, n / 1000);
    DigitIsInjective(m / 100 % 10, n / 100 % 10);
    DigitIsInjective(m / 10 % 10, n / 10 % 10);
    DigitIsInjective(m % 10, n % 10);
    Digits(m);
    Digits(n);
  }

  /** The suffix has a fixed width, so an id tells cohort and ordinal whatever the cohort's id looks like. */
  lemma VesselIdIsInjective(a: string, m: nat, b: string, n: nat)
    requires m < 10000 && n < 10000 && VesselId(a, m) == VesselId(b, n)
    ensures a == b && m == n
  {
    var x, y := VesselId(a, m), VesselId(b, n);
    assert |x| == |a| + 6 && |y| == |b| + 6;
    assert x[|x|-4..] == Padded(m) && y[|y|-4..] == Padded(n);
    assert x[..|x|-6] == a && y[..|y|-6] == b;
    PaddedIsInjective(m, n);
  }

  lemma {:induction false} BlastLength(cohorts: seq<Cohort>, vessels: nat)
    requires vessels < 10000
    ensures |Blast(cohorts, vessels)| == |cohorts| * vessels
  {
    if cohorts != [] {
      BlastLength(cohorts[..|cohorts|-1], vessels);
      VesselsLength(cohorts[|cohorts|-1], vessels);
      OneMore(|cohorts|, vessels);
    }
  }

  lemma OneMore(n: nat, v: nat)
    requires n >= 1
    ensures n * v == (n - 1) * v + v
  {
  }

  lemma {:induction false} VesselsLength(c: Cohort, count: nat)
    requires count < 10000
    ensures |VesselsOf(c, count)| == count
  {
    if count > 0 {
      VesselsLength(c, count - 1);
    }
  }

  /** The blast holds exactly the vessels 1 to `vessels` of each cohort. */
  lemma {:induction false} BlastMembers(cohorts: seq<Cohort>, vessels: nat, v: Vessel)
    requires vessels < 10000
    ensures v in Blast(cohorts, vessels) <==>
            v.cohort in cohorts && 1 <= v.ordinal <= vessels && v.id == VesselId(v.cohort.id, v.ordinal)
  {
    if cohorts != [] {
      var front, c := cohorts[..|cohorts|-1], cohorts[|cohorts|-1];
      BlastMembers(front, vessels, v);
      VesselsMembers(c, vessels, v);
      assert cohorts == front + [c];
    }
  }

  lemma {:induction false} VesselsMembers(c: Cohort, count: nat, v: Vessel)
    requires count < 10000
    ensures v in VesselsOf(c, count) <==> v.cohort == c && 1 <= v.ordinal <= count && v.id == VesselId(c.id, v.ordinal)
  {
    if count > 0 {
      VesselsMembers(c, count - 1, v);
    }
  }

  predicate DistinctVessels(vessels: seq<Vessel>) {
    forall i, j :: 0 <= i < j < |vessels| ==> vessels[i].id != vessels[j].id
  }

  lemma {:induction false} VesselsAreDistinct(c: Cohort, count: nat)
    requires count < 10000
    ensures DistinctVessels(VesselsOf(c, count))
  {
    if count > 0 {
      VesselsAreDistinct(c, count - 1);
      var before := VesselsOf(c, count - 1);
      forall i | 0 <= i < |before|
        ensures before[i].id != VesselId(c.id, count)
      {
        VesselsMembers(c, count - 1, before[i]);
        if before[i].id == VesselId(c.id, count) {
          VesselIdIsInjective(c.id, before[i].ordinal, c.id, count);
        }
      }
    }
  }

  lemma {:induction false} BlastIsDistinct(cohorts: seq<Cohort>, vessels: nat)
    requires DistinctIds(cohorts) && vessels < 10000
    ensures DistinctVessels(Blast(cohorts, vessels))
  {
    if cohorts != [] {
      var front, c := cohorts[..|cohorts|-1], cohorts[|cohorts|-1];
      var before, last := Blast(front, vessels), VesselsOf(c, vessels);
      BlastIsDistinct(front, vessels);
      VesselsAreDistinct(c, vessels);
      forall i, j | 0 <= i < |before| && 0 <= j < |last|
        ensures before[i].id != last[j].id
      {
        BlastMembers(front, vessels, before[i]);
        VesselsMembers(c, vessels, last[j]);
        if before[i].id == last[j].id {
          VesselIdIsInjective(before[i].cohort.id, before[i].ordinal, c.id, last[j].ordinal);
        }
      }
    }
  }

  /** A valid council expands to cohorts times vessels intents, and no two of them share an id. */
  lemma ExpansionOfValid(d: Definition)
    requires Valid(d)
    ensures 1 <= d.vesselsPerCohort <= MAX_VESSELS
    ensures var blast := Blast(SortedById(d.cohorts), d.vesselsPerCohort);
      |blast| == |d.cohorts| * d.vesselsPerCohort && DistinctVessels(blast)
  {
    SortSorts(d.cohorts);
    forall i, j | 0 <= i < j < |d.cohorts|
      ensures SortedById(d.cohorts)[i].id != SortedById(d.cohorts)[j].id
    {
      LessIsTotal(SortedById(d.cohorts)[i].id, SortedById(d.cohorts)[j].id);
    }
    BlastLength(SortedById(d.cohorts), d.vesselsPerCohort);
    BlastIsDistinct(SortedById(d.cohorts), d.vesselsPerCohort);
  }

  // Permutations ------------------------------------------------------------------------------

  /** `b` is `a` in the order `p`, and `a` is `b` in the order `q`. */
  ghost predicate Reordered<T(!new)>(a: seq<T>, b: seq<T>, p: seq<nat>, q: seq<nat>) {
    && |a| == |b| == |p| == |q|
    && (forall i :: 0 <= i < |a| ==> p[i] < |a| && q[p[i]] == i && b[i] == a[p[i]])
    && (forall i :: 0 <= i < |a| ==> q[i] < |a| && p[q[i]] == i && a[i] == b[q[i]])
  }

  lemma SameMembers<T(!new)>(a: seq<T>, b: seq<T>, p: seq<nat>, q: seq<nat>)
    requires Reordered(a, b, p, q)
    ensures forall x :: x in a <==> x in b
  {
    forall x
      ensures x in a <==> x in b
    {
      if x in a {
        var i :| 0 <= i < |a| && a[i] == x;
        assert b[q[i]] == x;
      }
      if x in b {
        var i :| 0 <= i < |b| && b[i] == x;
        assert a[p[i]] == x;
      }
    }
  }

  lemma DistinctInAnyOrder(a: seq<Cohort>, b: seq<Cohort>, p: seq<nat>, q: seq<nat>)
    requires Reordered(a, b, p, q) && DistinctIds(a)
    ensures DistinctIds(b)
  {
    forall i, j | 0 <= i < j < |b|
      ensures b[i].id != b[j].id
    {
      assert q[p[i]] == i && q[p[j]] == j;
      assert b[i] == a[p[i]] && b[j] == a[p[j]];
      if p[i] < p[j] {
      } else {
        assert p[j] < p[i];
      }
    }
  }

  /** The order in which cohorts are given changes neither the verdict nor the sorted listing. */
  lemma CohortOrderIsImmaterial(d: Definition, cohorts: seq<Cohort>, p: seq<nat>, q: seq<nat>)
    requires Reordered(d.cohorts, cohorts, p, q)
    ensures Valid(d.(cohorts := cohorts)) <==> Valid(d)
    ensures Valid(d) ==> SortedById(cohorts) == SortedById(d.cohorts)
  {
    SameMembers(d.cohorts, cohorts, p, q);
    SameDistinct(d.cohorts, cohorts, p, q);
    if DistinctIds(d.cohorts) {
      SameSorted(d.cohorts, cohorts);
    }
  }

  lemma SameDistinct(a: seq<Cohort>, b: seq<Cohort>, p: seq<nat>, q: seq<nat>)
    requires Reordered(a, b, p, q)
    ensures DistinctIds(a) <==> DistinctIds(b)
  {
    if DistinctIds(a) {
      DistinctInAnyOrder(a, b, p, q);
    } else if DistinctIds(b) {
      DistinctInAnyOrder(b, a, q, p);
    }
  }

  lemma SameSorted(a: seq<Cohort>, b: seq<Cohort>)
    requires DistinctIds(a) && DistinctIds(b) && forall x :: x in a <==> x in b
    ensures SortedById(b) == SortedById(a)
  {
    SortSorts(a);
    SortSorts(b);
    SortedIsUnique(SortedById(b), SortedById(a));
  }
}
