/** Detection of a no-progress loop at the tail of an execution stream. */
module LoopDetector {
  import opened Prelude

  /** The state after the step is part of its identity, so a repetition that makes progress is none. */
  datatype ActionStep = ActionStep(tool: string, args: string, state: string)

  datatype Loop = Loop(period: nat, repeats: nat, first: nat)

  // What a loop is ----------------------------------------------------------------------------

  /** The last `window` steps recur after `period` steps. */
  predicate Periodic(steps: seq<ActionStep>, period: nat, window: nat) {
    && window <= |steps|
    && forall i, j :: |steps| - window <= i < |steps| - period && j == i + period ==> steps[i] == steps[j]
  }

  /** The length of `repeats` cycles of `period` steps. */
  function Span(period: nat, repeats: nat): nat {
    if repeats == 0 then 0 else period + Span(period, repeats - 1)
  }

  /** The stream ends in `repeats` copies of one cycle of `period` steps. */
  predicate Repeats(steps: seq<ActionStep>, period: nat, repeats: nat) {
    period >= 1 && Periodic(steps, period, Span(period, repeats))
  }

  predicate InRange(period: nat, minPeriod: int, maxPeriod: int) {
    1 <= period && minPeriod <= period <= maxPeriod
  }

  /** A cycle that is itself made of copies of a shorter one. */
  predicate IsPower(cycle: seq<ActionStep>, q: nat) {
    1 <= q < |cycle| && |cycle| % q == 0 && forall i, j :: 0 <= i < |cycle| - q && j == i + q ==> cycle[i] == cycle[j]
  }

  ghost predicate IsTailLoop(steps: seq<ActionStep>, minPeriod: int, maxPeriod: int, minRepeats: nat, loop: Loop) {
    && InRange(loop.period, minPeriod, maxPeriod)
    && minRepeats <= loop.repeats
    && (forall q: nat :: InRange(q, minPeriod, maxPeriod) && q < loop.period ==> !Repeats(steps, q, minRepeats))
    && (forall r: nat :: r > loop.repeats ==> !Repeats(steps, loop.period, r))
    && Repeats(steps, loop.period, loop.repeats)
    && loop.first == |steps| - loop.repeats * loop.period
  }

  // The search --------------------------------------------------------------------------------

  lemma {:induction false} SpanIsProduct(p: nat, r: nat)
    ensures Span(p, r) == r * p
  {
    if r > 0 {
      SpanIsProduct(p, r - 1);
    }
  }

  lemma {:induction false} MoreMeansLonger(p: nat, r: nat, r': nat)
    requires r <= r'
    ensures Span(p, r) <= Span(p, r')
  {
    if r < r' {
      MoreMeansLonger(p, r, r' - 1);
    }
  }

  lemma {:induction false} LongerCycles(q: nat, p: nat, r: nat)
    requires q <= p
    ensures Span(q, r) <= Span(p, r)
  {
    if r > 0 {
      LongerCycles(q, p, r - 1);
    }
  }

  lemma Scaled(m: nat, a: int, b: int)
    requires a <= b
    ensures m * a <= m * b
  {
  }

  lemma QuotientBound(n: nat, m: nat, p: nat)
    requires m >= 1
    ensures p <= n / m <==> Span(p, m) <= n
  {
    SpanIsProduct(p, m);
    var d := n / m;
    assert m * d <= n < m * d + m;
    if p <= d {
      Scaled(m, p, d);
    } else {
      Scaled(m, d + 1, p);
    }
  }

  /** Two neighbouring cycles are equal exactly when each step of the first recurs after `p` steps. */
  lemma Neighbours(steps: seq<ActionStep>, at: nat, p: nat)
    requires at + p + p <= |steps|
    ensures (steps[at..at + p] == steps[at + p..at + p + p]) <==>
      (forall j, k :: at <= j < at + p && k == j + p ==> steps[j] == steps[k])
  {
    var a, b := steps[at..at + p], steps[at + p..at + p + p];
    if a == b {
      forall j | at <= j < at + p
        ensures steps[j] == steps[j + p]
      {
        assert a[j - at] == b[j - at];
      }
    }
    if forall j, k :: at <= j < at + p && k == j + p ==> steps[j] == steps[k] {
      forall k | 0 <= k < p
        ensures a[k] == b[k]
      {
        assert steps[at + k] == steps[at + k + p];
      }
    }
  }

  /** Whether every cycle of the window equals the first one. */
  method WindowRepeats(steps: seq<ActionStep>, p: nat, m: nat) returns (all: bool)
    requires p >= 1 && m >= 1 && Span(p, m) <= |steps|
    ensures all <==> Repeats(steps, p, m)
  {
    var n := |steps|;
    var start := n - Span(p, m);
    var base := steps[start..start + p];
    var i, pos := 1, start + p;
    while i < m
      invariant 1 <= i <= m && start + p <= pos && n - pos == Span(p, m - i)
      invariant steps[pos - p..pos] == base
      invariant forall j, k :: start <= j < pos - p && k == j + p ==> steps[j] == steps[k]
    {
      Neighbours(steps, pos - p, p);
      if steps[pos..pos + p] != base {
        return false;
      }
      i, pos := i + 1, pos + p;
    }
    return true;
  }

  /** Extends the loop backward while earlier cycles stay equal. */
  method ExtendBack(steps: seq<ActionStep>, p: nat, m: nat) returns (repeats: nat)
    requires m >= 1 && Repeats(steps, p, m)
    ensures repeats >= m && Repeats(steps, p, repeats) && !Repeats(steps, p, repeats + 1)
  {
    var n := |steps|;
    var base := steps[n - Span(p, m)..n - Span(p, m) + p];
    repeats := m;
    var idx := n - Span(p, m) - p;
    while idx >= 0 && steps[idx..idx + p] == base
      invariant repeats >= m && n - (idx + p) == Span(p, repeats) && 0 <= idx + p <= n - p
      invariant steps[idx + p..idx + p + p] == base
      invariant Periodic(steps, p, n - (idx + p))
    {
      Neighbours(steps, idx, p);
      repeats := repeats + 1;
      idx := idx - p;
    }
    if idx >= 0 {
      Neighbours(steps, idx, p);
    }
  }

  /** A result exactly when some period in range repeats often enough; its parts are then determined. */
  method DetectActionLoop(steps: seq<ActionStep>, minPeriod: int, maxPeriod: int, minRepeats: int)
    returns (r: Option<Loop>)
    ensures minRepeats < 1 || steps == [] ==> r.None?
    ensures minRepeats >= 1 && steps != [] ==>
      (r.Some? <==> exists p: nat :: InRange(p, minPeriod, maxPeriod) && Repeats(steps, p, minRepeats))
    ensures r.Some? ==> IsTailLoop(steps, minPeriod, maxPeriod, minRepeats, r.value)
  {
    var n := |steps|;
    if n == 0 || minRepeats < 1 {
      return None;
    }
    var hi := if maxPeriod < n / minRepeats then maxPeriod else n / minRepeats;
    var p := if minPeriod > 1 then minPeriod else 1;
    while p <= hi
      invariant p >= 1 && p >= minPeriod
      invariant forall q: nat :: InRange(q, minPeriod, maxPeriod) && q < p ==> !Repeats(steps, q, minRepeats)
    {
      QuotientBound(n, minRepeats, p);
      var found := WindowRepeats(steps, p, minRepeats);
      if found {
        var repeats := ExtendBack(steps, p, minRepeats);
        NoneBeyond(steps, p, repeats);
        SpanIsProduct(p, repeats);
        return Some(Loop(p, repeats, n - repeats * p));
      }
      p := p + 1;
    }
    forall q: nat | InRange(q, minPeriod, maxPeriod)
      ensures !Repeats(steps, q, minRepeats)
    {
      QuotientBound(n, minRepeats, q);
    }
    return None;
  }

  lemma NoneBeyond(steps: seq<ActionStep>, p: nat, repeats: nat)
    requires !Repeats(steps, p, repeats + 1)
    ensures forall r: nat :: r > repeats ==> !Repeats(steps, p, r)
  {
    forall r: nat | r > repeats
      ensures !Repeats(steps, p, r)
    {
      MoreMeansLonger(p, repeats + 1, r);
    }
  }

  // What the specification implies ------------------------------------------------------------

  lemma LoopIsUnique(steps: seq<ActionStep>, minPeriod: int, maxPeriod: int, minRepeats: nat, a: Loop, b: Loop)
    requires minRepeats >= 1
    requires IsTailLoop(steps, minPeriod, maxPeriod, minRepeats, a)
    requires IsTailLoop(steps, minPeriod, maxPeriod, minRepeats, b)
    ensures a == b
  {
    MoreMeansLonger(a.period, minRepeats, a.repeats);
    MoreMeansLonger(b.period, minRepeats, b.repeats);
    assert Repeats(steps, a.period, minRepeats) && Repeats(steps, b.period, minRepeats);
    assert a.period == b.period;
    assert a.repeats == b.repeats;
  }

  /** The loop really is `repeats` copies of its first cycle. */
  lemma {:induction false} LoopIsCopies(steps: seq<ActionStep>, p: nat, r: nat, k: nat, j: nat)
    requires Repeats(steps, p, r) && k < r && j < p
    ensures var first := |steps| - Span(p, r);
      first + Span(p, k) + j < |steps| && steps[first + Span(p, k) + j] == steps[first + j]
  {
    MoreMeansLonger(p, k + 1, r);
    if k > 0 {
      LoopIsCopies(steps, p, r, k - 1, j);
      var first := |steps| - Span(p, r);
      assert steps[first + Span(p, k - 1) + j] == steps[first + Span(p, k - 1) + j + p];
    }
  }

  /** Unless the caller excludes short periods, the reported cycle is primitive. */
  lemma CycleIsPrimitive(steps: seq<ActionStep>, minPeriod: int, maxPeriod: int, minRepeats: nat, loop: Loop, q: nat)
    requires minPeriod <= 1 && minRepeats >= 1
    requires IsTailLoop(steps, minPeriod, maxPeriod, minRepeats, loop)
    ensures 0 <= loop.first <= loop.first + loop.period <= |steps|
    ensures !IsPower(steps[loop.first..loop.first + loop.period], q)
  {
    var p, r, n := loop.period, loop.repeats, |steps|;
    SpanIsProduct(p, r);
    MoreMeansLonger(p, 1, r);
    var cycle := steps[loop.first..loop.first + p];
    if IsPower(cycle, q) {
      PowerShifts(cycle, q);
      ShiftsStream(steps, p, r, q, loop.first);
      LongerCycles(q, p, minRepeats);
      MoreMeansLonger(p, minRepeats, r);
      assert Repeats(steps, q, minRepeats);
      assert false;
    }
  }

  function Wrap(j: nat, q: nat, p: nat): nat
    requires j < p && q < p
  {
    if j + q < p then j + q else j + q - p
  }

  /** `q` is a period of the endless repetition of the cycle. */
  predicate ShiftsBy(cycle: seq<ActionStep>, q: nat) {
    q < |cycle| && forall j, k :: 0 <= j < |cycle| && k == Wrap(j, q, |cycle|) ==> cycle[j] == cycle[k]
  }

  lemma PowerShifts(cycle: seq<ActionStep>, q: nat)
    requires IsPower(cycle, q)
    ensures ShiftsBy(cycle, q)
  {
    forall j | 0 <= j < |cycle|
      ensures cycle[j] == cycle[Wrap(j, q, |cycle|)]
    {
      if j + q >= |cycle| {
        WrapAround(cycle, q, j);
      }
    }
  }

  lemma ShiftsStream(steps: seq<ActionStep>, p: nat, r: nat, q: nat, first: nat)
    requires Repeats(steps, p, r) && first + Span(p, r) == |steps| && p <= Span(p, r)
    requires ShiftsBy(steps[first..first + p], q)
    ensures Periodic(steps, q, Span(p, r))
  {
    forall i, i' | first <= i < |steps| - q && i' == i + q
      ensures steps[i] == steps[i']
    {
      ShiftAt(steps, p, r, q, first, i);
    }
  }

  lemma ShiftAt(steps: seq<ActionStep>, p: nat, r: nat, q: nat, first: nat, i: nat)
    requires Repeats(steps, p, r) && first + Span(p, r) == |steps| && p <= Span(p, r)
    requires ShiftsBy(steps[first..first + p], q) && first <= i < |steps| - q
    ensures steps[i] == steps[i + q]
  {
    var k, j := Locate(p, r, i - first);
    ShiftInFirst(steps, first, p, q, j);
    ShiftWithin(steps, p, r, q, first, k, j, i);
  }

  lemma ShiftInFirst(steps: seq<ActionStep>, first: nat, p: nat, q: nat, j: nat)
    requires first + p <= |steps| && ShiftsBy(steps[first..first + p], q) && j < p
    ensures q < p && steps[first + j] == steps[first + Wrap(j, q, p)]
  {
    var cycle := steps[first..first + p];
    assert cycle[j] == cycle[Wrap(j, q, p)];
  }

  /** Every place of the repetition is some place `j` of some copy `k`. */
  lemma {:induction false} Locate(p: nat, r: nat, at: nat) returns (k: nat, j: nat)
    requires at < Span(p, r)
    ensures k < r && j < p && at == Span(p, k) + j
  {
    if at < Span(p, r - 1) {
      k, j := Locate(p, r - 1, at);
    } else {
      k, j := r - 1, at - Span(p, r - 1);
    }
  }

  /** A shift by `q` that is right inside the first cycle, wrapping at its end, is right in copy `k` too. */
  lemma ShiftWithin(steps: seq<ActionStep>, p: nat, r: nat, q: nat, first: nat, k: nat, j: nat, i: nat)
    requires Repeats(steps, p, r) && k < r && j < p <= Span(p, r) && q < p
    requires first + Span(p, r) == |steps| && i == first + Span(p, k) + j && i + q < |steps|
    requires steps[first + j] == steps[first + Wrap(j, q, p)]
    ensures steps[i] == steps[i + q]
  {
    LoopIsCopies(steps, p, r, k, j);
    if j + q < p {
      LoopIsCopies(steps, p, r, k, j + q);
    } else {
      ShiftIntoNext(steps, p, r, k, j + q - p);
    }
  }

  lemma ShiftIntoNext(steps: seq<ActionStep>, p: nat, r: nat, k: nat, j: nat)
    requires Repeats(steps, p, r) && k < r && j < p && Span(p, k) + p + j < Span(p, r)
    ensures var first := |steps| - Span(p, r);
      steps[first + Span(p, k) + p + j] == steps[first + j]
  {
    assert Span(p, k + 1) == p + Span(p, k);
    LoopIsCopies(steps, p, r, k + 1, j);
  }

  lemma {:induction false} WrapAround(cycle: seq<ActionStep>, q: nat, j: nat)
    requires IsPower(cycle, q) && j < |cycle| <= j + q
    ensures cycle[j] == cycle[j + q - |cycle|]
  {
    Multiple(|cycle|, q);
    BackBy(cycle, q, j, |cycle| / q - 1);
  }

  lemma Multiple(n: nat, q: nat)
    requires q >= 1 && n >= q && n % q == 0
    ensures n / q >= 1 && Span(q, n / q - 1) == n - q
  {
    var k := n / q;
    SpanIsProduct(q, k - 1);
    assert n == k * q;
    assert (k - 1) * q == k * q - q;
  }

  lemma {:induction false} BackBy(cycle: seq<ActionStep>, q: nat, j: nat, times: nat)
    requires IsPower(cycle, q) && Span(q, times) <= j < |cycle|
    ensures cycle[j] == cycle[j - Span(q, times)]
  {
    if times > 0 {
      BackBy(cycle, q, j - q, times - 1);
      assert cycle[j - q] == cycle[j - q + q];
    }
  }
}
