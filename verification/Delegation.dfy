/**
 Mission-scoped delegation between bots. Assignments expire, end early and are made anew; every
 check is local to one command, and together they keep a forest.
 */
module Delegation {
  import opened Prelude
  import opened ParentMaps

  datatype Bot = Bot(roleKind: string, missionId: Option<string>, mayDelegate: bool, maxSpawnDepth: int)

  datatype Status = Active | Completed | Revoked | Expired

  datatype Assignment = Assignment(
    id: string, parent: string, delegate: string, mission: string, taskId: Option<string>,
    depth: int, status: Status, createdAt: nat, expiresAt: nat)

  /** What the store holds for delegation. Bots, missions and tasks are never removed. */
  datatype World = World(
    bots: map<string, Bot>, missions: set<string>, tasks: map<string, string>, rows: seq<Assignment>)

  datatype Refusal =
    | Ambiguous | NotActive | Cycle | AncestorNotFound | IdExists | MetadataMismatch
    | ParentNotFound | DelegateNotFound | SelfAssignment | AssigneeNotDelegate | ParentMayNotDelegate
    | MissionMismatch | MissionNotFound | AlreadyActive | DepthInvalid | TaskBindingInvalid
    | MustStartActive | ExpiryNotAfterCreation | AssignmentExpired | NotYetExpired
    | IllegalTransition | NeedsAuthority | NotFound

  // Live assignments --------------------------------------------------------------------------

  predicate Live(a: Assignment, at: nat) {
    a.status == Active && a.expiresAt > at
  }

  predicate LiveFor(a: Assignment, bot: string, mission: string, at: nat) {
    Live(a, at) && a.delegate == bot && a.mission == mission
  }

  function LiveRows(rows: seq<Assignment>, bot: string, mission: string, at: nat): seq<Assignment> {
    if rows == [] then []
    else
      LiveRows(rows[..|rows|-1], bot, mission, at) +
      if LiveFor(rows[|rows|-1], bot, mission, at) then [rows[|rows|-1]] else []
  }

  function ActiveAssignment(w: World, bot: string, mission: string, at: nat): Result<Option<Assignment>, Refusal> {
    var matches := LiveRows(w.rows, bot, mission, at);
    if |matches| > 1 then Err(Ambiguous)
    else Ok(if matches == [] then None else Some(matches[0]))
  }

  /** The limits met on the way from `ancestor` up to the first crew bot. */
  function Walk(w: World, mission: string, at: nat, ancestor: string, seen: set<string>): Result<seq<int>, Refusal>
    decreases w.bots.Keys - seen
  {
    if ancestor in seen then Err(Cycle)
    else if ancestor !in w.bots then Err(AncestorNotFound)
    else if w.bots[ancestor].roleKind == "crew" then Ok([w.bots[ancestor].maxSpawnDepth])
    else
      match ActiveAssignment(w, ancestor, mission, at)
      case Err(e) => Err(e)
      case Ok(None) => Err(NotActive)
      case Ok(Some(a)) =>
        match Walk(w, mission, at, a.parent, seen + {ancestor})
        case Err(e) => Err(e)
        case Ok(above) => Ok([w.bots[ancestor].maxSpawnDepth] + above)
  }

  function Min(s: seq<int>): int
    requires s != []
  {
    if |s| == 1 then s[0] else if s[0] <= Min(s[1..]) then s[0] else Min(s[1..])
  }

  /** The depth a new assignment under `parent` must carry, and the limits of every bot above it. */
  function DepthAndLimits(w: World, parent: string, mission: string, at: nat): Result<(int, seq<int>), Refusal>
    requires parent in w.bots
  {
    var own := [w.bots[parent].maxSpawnDepth];
    if w.bots[parent].roleKind == "crew" then Ok((1, own))
    else
      match ActiveAssignment(w, parent, mission, at)
      case Err(e) => Err(e)
      case Ok(None) => Err(NotActive)
      case Ok(Some(a)) =>
        match Walk(w, mission, at, a.parent, {parent})
        case Err(e) => Err(e)
        case Ok(above) => Ok((a.depth + 1, own + above))
  }

  // Commands ----------------------------------------------------------------------------------

  predicate IdTaken(rows: seq<Assignment>, id: string) {
    exists i :: 0 <= i < |rows| && rows[i].id == id
  }

  function Assign(w: World, a: Assignment, now: nat): Result<World, Refusal> {
    if IdTaken(w.rows, a.id) then Err(IdExists)
    else if a.createdAt != now then Err(MetadataMismatch)
    else if a.parent !in w.bots then Err(ParentNotFound)
    else if a.delegate !in w.bots then Err(DelegateNotFound)
    else if a.parent == a.delegate then Err(SelfAssignment)
    else if w.bots[a.delegate].roleKind != "delegate" then Err(AssigneeNotDelegate)
    else if !w.bots[a.parent].mayDelegate then Err(ParentMayNotDelegate)
    else if w.bots[a.delegate].missionId != Some(a.mission) then Err(MissionMismatch)
    else if a.mission !in w.missions then Err(MissionNotFound)
    else
      match ActiveAssignment(w, a.delegate, a.mission, now)
      case Err(e) => Err(e)
      case Ok(Some(_)) => Err(AlreadyActive)
      case Ok(None) =>
        match DepthAndLimits(w, a.parent, a.mission, now)
        case Err(e) => Err(e)
        case Ok((depth, limits)) =>
          if a.depth != depth || a.depth > Min(limits) then Err(DepthInvalid)
          else if a.taskId.Some? && (a.taskId.value !in w.tasks || w.tasks[a.taskId.value] != a.mission)
          then Err(TaskBindingInvalid)
          else if a.status != Active then Err(MustStartActive)
          else if a.expiresAt <= a.createdAt then Err(ExpiryNotAfterCreation)
          else Ok(w.(rows := w.rows + [a]))
  }

  function IndexOf(rows: seq<Assignment>, id: string): (n: nat)
    ensures n <= |rows|
    ensures n < |rows| ==> rows[n].id == id
    ensures n == |rows| ==> !IdTaken(rows, id)
  {
    if rows == [] then 0 else if rows[0].id == id then 0
    else
      var n := 1 + IndexOf(rows[1..], id);
      assert n == |rows| ==> forall i :: 0 < i < |rows| ==> rows[i] == rows[1..][i - 1];
      n
  }

  function End(w: World, id: string, to: Status, actorKind: string, now: nat): Result<World, Refusal> {
    var n := IndexOf(w.rows, id);
    if n == |w.rows| then Err(NotFound)
    else
      var current := w.rows[n];
      if now >= current.expiresAt && to != Expired then Err(AssignmentExpired)
      else if to == Expired && now < current.expiresAt then Err(NotYetExpired)
      else if current.status != Active || to == Active then Err(IllegalTransition)
      else if to == Revoked && actorKind !in {"human", "governance_kernel", "system"} then Err(NeedsAuthority)
      else if to == Expired && actorKind !in {"governance_kernel", "system"} then Err(NeedsAuthority)
      else Ok(w.(rows := w.rows[n := current.(status := to)]))
  }

  // The service -------------------------------------------------------------------------------

  class GovernedService {
    var bots: map<string, Bot>
    var missions: set<string>
    var tasks: map<string, string>
    var rows: seq<Assignment>

    function View(): World
      reads this
    {
      World(bots, missions, tasks, rows)
    }

    constructor ()
      ensures View() == World(map[], {}, map[], [])
    {
      bots, missions, tasks, rows := map[], {}, map[], [];
    }

    method ActiveAssignmentForDelegate(bot: string, mission: string, at: nat)
      returns (r: Result<Option<Assignment>, Refusal>)
      ensures r == ActiveAssignment(View(), bot, mission, at)
    {
      var matches := [];
      for n := 0 to |rows|
        invariant matches == LiveRows(rows[..n], bot, mission, at)
      {
        assert rows[..n+1][..n] == rows[..n];
        if rows[n].status == Active && rows[n].delegate == bot && rows[n].mission == mission
           && !(rows[n].expiresAt <= at) {
          matches := matches + [rows[n]];
        }
      }
      assert rows[..|rows|] == rows;
      if |matches| > 1 {
        return Err(Ambiguous);
      }
      return Ok(if matches == [] then None else Some(matches[0]));
    }

    /** Ends in every state, also one with cyclic or dangling assignments. */
    method DelegationDepthLimit(parent: string, mission: string, at: nat) returns (r: Result<(int, int), Refusal>)
      requires parent in bots
      ensures r == match DepthAndLimits(View(), parent, mission, at)
                   case Err(e) => Err(e)
                   case Ok((depth, limits)) => Ok((depth, Min(limits)))
    {
      var limits := [bots[parent].maxSpawnDepth];
      if bots[parent].roleKind == "crew" {
        return Ok((1, Min(limits)));
      }
      var seen := {parent};
      var first := ActiveAssignmentForDelegate(parent, mission, at);
      if first.Err? {
        return Err(first.error);
      }
      if first.value.None? {
        return Err(NotActive);
      }
      var expectedDepth := first.value.value.depth + 1;
      var ancestor := first.value.value.parent;
      while true
        invariant limits != []
        invariant DepthAndLimits(View(), parent, mission, at) ==
                  match Walk(View(), mission, at, ancestor, seen)
                  case Err(e) => Err(e)
                  case Ok(above) => Ok((expectedDepth, limits + above))
        decreases bots.Keys - seen
      {
        if ancestor in seen {
          return Err(Cycle);
        }
        ghost var before := seen;
        seen := seen + {ancestor};
        if ancestor !in bots {
          return Err(AncestorNotFound);
        }
        assert ancestor in bots.Keys - before && ancestor !in bots.Keys - seen;
        ghost var prior := limits;
        limits := limits + [bots[ancestor].maxSpawnDepth];
        if bots[ancestor].roleKind == "crew" {
          break;
        }
        var next := ActiveAssignmentForDelegate(ancestor, mission, at);
        if next.Err? {
          return Err(next.error);
        }
        if next.value.None? {
          return Err(NotActive);
        }
        ghost var above := Walk(View(), mission, at, next.value.value.parent, seen);
        assert above.Ok? ==> prior + ([bots[ancestor].maxSpawnDepth] + above.value) == limits + above.value;
        ancestor := next.value.value.parent;
      }
      return Ok((expectedDepth, Min(limits)));
    }

    method AssignDelegate(a: Assignment, now: nat) returns (r: Result<(), Refusal>)
      modifies this
      ensures match Assign(old(View()), a, now)
              case Ok(w) => r.Ok? && View() == w
              case Err(e) => r == Err(e) && View() == old(View())
    {
      if IndexOf(rows, a.id) < |rows| {
        return Err(IdExists);
      }
      if a.createdAt != now {
        return Err(MetadataMismatch);
      }
      if a.parent !in bots {
        return Err(ParentNotFound);
      }
      if a.delegate !in bots {
        return Err(DelegateNotFound);
      }
      if a.parent == a.delegate {
        return Err(SelfAssignment);
      }
      if bots[a.delegate].roleKind != "delegate" {
        return Err(AssigneeNotDelegate);
      }
      if !bots[a.parent].mayDelegate {
        return Err(ParentMayNotDelegate);
      }
      if bots[a.delegate].missionId != Some(a.mission) {
        return Err(MissionMismatch);
      }
      if a.mission !in missions {
        return Err(MissionNotFound);
      }
      var existing := ActiveAssignmentForDelegate(a.delegate, a.mission, now);
      if existing.Err? {
        return Err(existing.error);
      }
      if existing.value.Some? {
        return Err(AlreadyActive);
      }
      var limit := DelegationDepthLimit(a.parent, a.mission, now);
      if limit.Err? {
        return Err(limit.error);
      }
      if a.depth != limit.value.0 || a.depth > limit.value.1 {
        return Err(DepthInvalid);
      }
      if a.taskId.Some? && (a.taskId.value !in tasks || tasks[a.taskId.value] != a.mission) {
        return Err(TaskBindingInvalid);
      }
      if a.status != Active {
        return Err(MustStartActive);
      }
      if a.expiresAt <= a.createdAt {
        return Err(ExpiryNotAfterCreation);
      }
      rows := rows + [a];
      return Ok(());
    }

    method TransitionDelegateAssignment(id: string, to: Status, actorKind: string, now: nat)
      returns (r: Result<(), Refusal>)
      modifies this
      ensures match End(old(View()), id, to, actorKind, now)
              case Ok(w) => r.Ok? && View() == w
              case Err(e) => r == Err(e) && View() == old(View())
    {
      var n := IndexOf(rows, id);
      if n == |rows| {
        return Err(NotFound);
      }
      var current := rows[n];
      if now >= current.expiresAt && to != Expired {
        return Err(AssignmentExpired);
      }
      if to == Expired && now < current.expiresAt {
        return Err(NotYetExpired);
      }
      if current.status != Active || to == Active {
        return Err(IllegalTransition);
      }
      if to == Revoked && actorKind !in {"human", "governance_kernel", "system"} {
        return Err(NeedsAuthority);
      }
      if to == Expired && actorKind !in {"governance_kernel", "system"} {
        return Err(NeedsAuthority);
      }
      rows := rows[n := current.(status := to)];
      return Ok(());
    }
  }
}
