/**
 Claim before effect: a durable claim hands one caller the only permit for a key, the permit is
 spent by the effect, and a crash only loses permits.
 */
module Permits {
  import opened Prelude

  /**
   `holds` reads the permit of a caller off its program point; `done` lists the keys of the effects
   that have happened, in order.
   */
  ghost predicate Exclusive<Pc>(callers: map<nat, Pc>, holds: Pc -> Option<string>, claimed: set<string>,
                                done: seq<string>) {
    && (forall c1, c2 ::
          (c1 in callers && c2 in callers && holds(callers[c1]).Some? && holds(callers[c1]) == holds(callers[c2])) ==>
          c1 == c2)
    && (forall c :: c in callers && holds(callers[c]).Some? ==>
          holds(callers[c]).value in claimed && holds(callers[c]).value !in done)
    && (forall k :: k in done ==> k in claimed)
    && (forall i, j :: 0 <= i < j < |done| ==> done[i] != done[j])
  }

  /** A step of `c` that keeps or drops its permit; claims of other kinds may grow the claimed set. */
  lemma Kept<Pc>(callers: map<nat, Pc>, holds: Pc -> Option<string>, claimed: set<string>, claimed': set<string>,
                 done: seq<string>, c: nat, pc: Pc)
    requires Exclusive(callers, holds, claimed, done) && claimed <= claimed'
    requires holds(pc).None? || (c in callers && holds(pc) == holds(callers[c]))
    ensures Exclusive(callers[c := pc], holds, claimed', done)
  {
  }

  lemma Claimed<Pc>(callers: map<nat, Pc>, holds: Pc -> Option<string>, claimed: set<string>, claimed': set<string>,
                    done: seq<string>, c: nat, pc: Pc, k: string)
    requires Exclusive(callers, holds, claimed, done)
    requires k !in claimed && claimed + {k} <= claimed' && holds(pc) == Some(k)
    ensures Exclusive(callers[c := pc], holds, claimed', done)
  {
  }

  lemma Spent<Pc>(callers: map<nat, Pc>, holds: Pc -> Option<string>, claimed: set<string>, done: seq<string>,
                  c: nat, pc: Pc)
    requires Exclusive(callers, holds, claimed, done)
    requires c in callers && holds(callers[c]).Some? && holds(pc).None?
    ensures Exclusive(callers[c := pc], holds, claimed, done + [holds(callers[c]).value])
  {
  }

  lemma Crashed<Pc>(callers: map<nat, Pc>, holds: Pc -> Option<string>, claimed: set<string>, done: seq<string>, c: nat)
    requires Exclusive(callers, holds, claimed, done)
    ensures Exclusive(callers - {c}, holds, claimed, done)
  {
  }
}
