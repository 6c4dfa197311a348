module Goals {
  // Goals and the goal list of one mind (src/evomesh/contracts.py).
  //
  // A goal is a value here: the source updates goal objects in place inside
  // the list, the model replaces the list element.

  import opened Options

  /** The short random id a goal is created with. */
  type GoalId = nat
  /** The id of a delegated work item. */
  type WorkId = nat

  datatype Status = Pending | Runnable | Active | Blocked | Stalled | Done | Failed | Cancelled

  /** `work` is the goal's `work_item_id` parameter, which only a delegated goal has. */
  datatype Goal = Goal(
    id: GoalId,
    status: Status,
    parent: Option<GoalId>,
    children: seq<GoalId>,
    deps: seq<GoalId>,
    work: Option<WorkId>,
    occurrence: nat)
  {
    predicate IsClosed() {
      status.Done? || status.Failed? || status.Cancelled?
    }

    /** Whether this goal points at `id` as dependency, child or parent. */
    predicate Names(id: GoalId) {
      id in deps || id in children || parent == Some(id)
    }

    /** A goal as a work item becomes one: no relation to any other goal. */
    predicate IsLone() {
      parent.None? && children == [] && deps == []
    }
  }

  const KEEP_CLOSED_GOALS: nat := 30

  /** The closed goals, in list order. */
  function Closed(goals: seq<Goal>): (closed: seq<Goal>)
    ensures forall g :: g in closed <==> g in goals && g.IsClosed()
  {
    if goals == [] then []
    else if goals[0].IsClosed() then [goals[0]] + Closed(goals[1..])
    else Closed(goals[1..])
  }

  /** The ids some goal that is not closed points at. */
  function Referenced(goals: seq<Goal>): (ids: set<GoalId>)
    ensures forall id :: id in ids <==> exists g :: g in goals && !g.IsClosed() && g.Names(id)
  {
    if goals == [] then {}
    else
      var rest := Referenced(goals[1..]);
      if goals[0].IsClosed() then rest
      else
        var own := (set d | d in goals[0].deps) + (set c | c in goals[0].children)
                   + (if goals[0].parent.Some? then {goals[0].parent.value} else {});
        assert forall id :: id in own <==> goals[0].Names(id);
        assert forall g :: g in goals <==> g == goals[0] || g in goals[1..];
        rest + own
  }

  /** The goals whose id is not in `forget`, in list order. */
  function Without(goals: seq<Goal>, forget: set<GoalId>): (kept: seq<Goal>)
    ensures |kept| <= |goals|
    ensures forall g :: g in kept <==> g in goals && g.id !in forget
  {
    if goals == [] then []
    else if goals[0].id in forget then Without(goals[1..], forget)
    else [goals[0]] + Without(goals[1..], forget)
  }

  /** The ids pruning forgets: closed, older than the newest 30 closed, unreferenced. */
  function Forgotten(goals: seq<Goal>): set<GoalId> {
    var closed := Closed(goals);
    if |closed| <= KEEP_CLOSED_GOALS then {}
    else
      var old_ := closed[..|closed| - KEEP_CLOSED_GOALS];
      var referenced := Referenced(goals);
      set g | g in old_ && g.id !in referenced :: g.id
  }

  /** The list after pruning. */
  function Pruned(goals: seq<Goal>): seq<Goal> {
    Without(goals, Forgotten(goals))
  }

  /** The list after `adopt_goal`: appended and pruned unless the id is already there. */
  function Adopted(goals: seq<Goal>, goal: Goal): seq<Goal> {
    if Has(goals, goal.id) then goals
    else Pruned(goals + [goal])
  }

  /** No two goals share an id. */
  predicate UniqueIds(goals: seq<Goal>) {
    goals == [] || (!Has(goals[1..], goals[0].id) && UniqueIds(goals[1..]))
  }

  /** A dependency never resolves to the goal itself or to a later one -- except
      that a closed goal's may, to one that itself depends on nothing: a goal
      recovered after it was pruned comes back at the end of the list. */
  predicate Backward(goals: seq<Goal>) {
    goals == [] ||
    ((forall g :: g in goals && g.id in goals[0].deps ==> goals[0].IsClosed() && g.deps == [])
     && Backward(goals[1..]))
  }

  predicate Has(goals: seq<Goal>, id: GoalId) {
    exists g :: g in goals && g.id == id
  }

  // ---- what the list operations keep ----

  lemma {:induction false} WithoutKeeps(goals: seq<Goal>, forget: set<GoalId>)
    ensures UniqueIds(goals) ==> UniqueIds(Without(goals, forget))
    ensures Backward(goals) ==> Backward(Without(goals, forget))
  {
    if goals != [] {
      WithoutKeeps(goals[1..], forget);
      var rest := Without(goals[1..], forget);
      assert forall g :: g in rest ==> g in goals[1..];
      if goals[0].id !in forget {
        var kept := Without(goals, forget);
        assert kept == [goals[0]] + rest && kept[1..] == rest && kept[0] == goals[0];
        assert Has(rest, goals[0].id) ==> Has(goals[1..], goals[0].id);
        assert forall g :: g in kept ==> g == goals[0] || g in rest;
      }
    }
  }

  lemma {:induction false} AppendKeeps(goals: seq<Goal>, goal: Goal)
    ensures UniqueIds(goals) && !Has(goals, goal.id) ==> UniqueIds(goals + [goal])
    ensures Backward(goals) && goal.id !in goal.deps &&
            (forall g :: g in goals && goal.id in g.deps ==> g.IsClosed() && goal.deps == []) ==>
              Backward(goals + [goal])
  {
    if goals != [] {
      var longer := goals + [goal];
      AppendKeeps(goals[1..], goal);
      assert longer[1..] == goals[1..] + [goal];
      assert forall g :: g in longer[1..] <==> g in goals[1..] || g == goal;
      assert forall g :: g in goals[1..] ==> g in goals;
      assert forall g :: g in longer <==> g in goals || g == goal;
    }
  }

  lemma {:induction false} ClosedAppend(a: seq<Goal>, b: seq<Goal>)
    ensures Closed(a + b) == Closed(a) + Closed(b)
  {
    if a == [] {
      assert a + b == b;
    } else {
      ClosedAppend(a[1..], b);
      assert a + b == [a[0]] + (a[1..] + b);
      assert (a + b)[1..] == a[1..] + b;
    }
  }

  /** Every forgotten id is the id of a closed goal that no open goal points at. */
  lemma ForgottenAreClosed(goals: seq<Goal>, id: GoalId)
    requires id in Forgotten(goals)
    ensures id !in Referenced(goals) && exists c :: c in goals && c.IsClosed() && c.id == id
  {
    var closed := Closed(goals);
    var c :| c in closed[..|closed| - KEEP_CLOSED_GOALS] && c.id !in Referenced(goals) && c.id == id;
    assert c in closed;
  }

  /** With unique ids the goal holding an id is determined by it. */
  lemma {:induction false} SameId(goals: seq<Goal>, a: Goal, b: Goal)
    requires UniqueIds(goals) && a in goals && b in goals && a.id == b.id
    ensures a == b
  {
    assert forall g :: g in goals[1..] ==> g.id != goals[0].id;
    if goals[0] != a && goals[0] != b {
      SameId(goals[1..], a, b);
    }
  }

  /** Pruning drops only closed goals nothing open points at. */
  lemma {:induction false} PrunedFacts(goals: seq<Goal>)
    requires UniqueIds(goals)
    ensures UniqueIds(Pruned(goals))
    ensures Backward(goals) ==> Backward(Pruned(goals))
    ensures forall g :: g in Pruned(goals) ==> g in goals
    ensures forall g :: g in goals && g !in Pruned(goals) ==> g.IsClosed() && g.id !in Referenced(goals)
  {
    WithoutKeeps(goals, Forgotten(goals));
    forall g | g in goals && g.id in Forgotten(goals)
      ensures g.IsClosed() && g.id !in Referenced(goals)
    {
      ForgottenAreClosed(goals, g.id);
      var c :| c in goals && c.IsClosed() && c.id == g.id;
      SameId(goals, c, g);
    }
  }

  /** `a` stands before `b` in the list. */
  ghost predicate Before(goals: seq<Goal>, a: Goal, b: Goal) {
    exists i, j :: 0 <= i < j < |goals| && goals[i] == a && goals[j] == b
  }

  lemma BeforeCons(goals: seq<Goal>, a: Goal, b: Goal)
    requires goals != []
    requires Before(goals[1..], a, b) || (goals[0] == a && b in goals[1..])
    ensures Before(goals, a, b)
  {
    if Before(goals[1..], a, b) {
      var x, y :| 0 <= x < y < |goals[1..]| && goals[1..][x] == a && goals[1..][y] == b;
      assert goals[x + 1] == a && goals[y + 1] == b;
    } else {
      var k :| 0 <= k < |goals[1..]| && goals[1..][k] == b;
      assert goals[k + 1] == b;
    }
  }

  lemma BeforeSplit(first: Goal, rest: seq<Goal>, a: Goal, b: Goal)
    requires Before([first] + rest, a, b)
    ensures Before(rest, a, b) || (first == a && b in rest)
  {
    var all := [first] + rest;
    var i, j :| 0 <= i < j < |all| && all[i] == a && all[j] == b;
    assert all[j] == rest[j - 1];
    if i > 0 {
      assert all[i] == rest[i - 1];
    }
  }

  lemma {:induction false} WithoutKeepsOrder(goals: seq<Goal>, forget: set<GoalId>, a: Goal, b: Goal)
    requires Before(Without(goals, forget), a, b)
    ensures Before(goals, a, b)
  {
    hide Before;
    if goals == [] {
      NothingBefore(a, b);
    } else {
      var rest := Without(goals[1..], forget);
      if goals[0].id !in forget {
        BeforeSplit(goals[0], rest, a, b);
      }
      if Before(rest, a, b) {
        WithoutKeepsOrder(goals[1..], forget, a, b);
      }
      BeforeCons(goals, a, b);
    }
  }

  lemma NothingBefore(a: Goal, b: Goal)
    ensures !Before([], a, b)
  {
  }

  /** Pruning leaves the goals it keeps in the order they had. */
  lemma PrunedKeepsOrder(goals: seq<Goal>, a: Goal, b: Goal)
    requires Before(Pruned(goals), a, b)
    ensures Before(goals, a, b)
  {
    WithoutKeepsOrder(goals, Forgotten(goals), a, b);
  }

  /** One of the newest 30 closed goals is never forgotten. */
  lemma NewestAreKept(goals: seq<Goal>, g: Goal)
    requires UniqueIds(goals)
    requires g in goals && |Closed(goals)| > KEEP_CLOSED_GOALS ==> g in Closed(goals)[|Closed(goals)| - KEEP_CLOSED_GOALS..]
    requires g in goals
    ensures g in Pruned(goals)
  {
    var closed := Closed(goals);
    if |closed| > KEEP_CLOSED_GOALS {
      var n := |closed| - KEEP_CLOSED_GOALS;
      ClosedUnique(goals);
      forall c | c in closed[..n] ensures c.id != g.id {
        UniqueSplit(closed, n, c, g);
      }
    }
  }

  lemma {:induction false} ClosedUnique(goals: seq<Goal>)
    requires UniqueIds(goals)
    ensures UniqueIds(Closed(goals))
  {
    if goals != [] {
      ClosedUnique(goals[1..]);
      if goals[0].IsClosed() {
        var rest := Closed(goals[1..]);
        assert Closed(goals) == [goals[0]] + rest && Closed(goals)[1..] == rest;
        assert forall g :: g in rest ==> g in goals[1..];
        assert Has(rest, goals[0].id) ==> Has(goals[1..], goals[0].id);
      }
    }
  }

  lemma {:induction false} UniqueSplit(goals: seq<Goal>, n: nat, a: Goal, b: Goal)
    requires UniqueIds(goals) && n <= |goals| && a in goals[..n] && b in goals[n..]
    ensures a.id != b.id
  {
    if goals[0] == a {
      assert b in goals[1..];
    } else {
      assert goals[1..][..n - 1] == goals[..n][1..] && goals[1..][n - 1..] == goals[n..];
      UniqueSplit(goals[1..], n - 1, a, b);
    }
  }

  /** Adopting keeps ids unique, adds at most the one goal and loses only closed ones. */
  lemma AdoptedFacts(goals: seq<Goal>, goal: Goal)
    requires UniqueIds(goals)
    ensures UniqueIds(Adopted(goals, goal))
    ensures forall g :: g in Adopted(goals, goal) ==> g in goals || g == goal
    ensures forall g :: g in goals && !g.IsClosed() ==> g in Adopted(goals, goal)
    ensures Has(Adopted(goals, goal), goal.id)
    ensures !Has(goals, goal.id) ==> goal in Adopted(goals, goal)
  {
    if !Has(goals, goal.id) {
      var longer := goals + [goal];
      AppendKeeps(goals, goal);
      PrunedFacts(longer);
      ClosedAppend(goals, [goal]);
      assert goal in longer;
      if |Closed(longer)| > KEEP_CLOSED_GOALS && goal.IsClosed() {
        assert Closed(longer)[|Closed(longer)| - 1] == goal;
        NewestAreKept(longer, goal);
      }
    }
  }

  // ---- creating a goal ----

  datatype AddError = UnknownParent | UnknownDependency
  datatype AddResult = Added(goals: seq<Goal>) | Refused(error: AddError)

  /** `goals` with `child` recorded once under its parent. */
  function WithChild(goals: seq<Goal>, parent: GoalId, child: GoalId): (r: seq<Goal>)
    ensures |r| == |goals|
  {
    if goals == [] then []
    else if goals[0].id == parent then
      [if child in goals[0].children then goals[0]
       else goals[0].(children := goals[0].children + [child])] + goals[1..]
    else [goals[0]] + WithChild(goals[1..], parent, child)
  }

  /** The list before pruning: the new goal at the end, its parent told. */
  function Appended(goals: seq<Goal>, goal: Goal): seq<Goal> {
    if goal.parent.Some? then WithChild(goals + [goal], goal.parent.value, goal.id)
    else goals + [goal]
  }

  /** `add_goal`: refused without an existing parent and existing dependencies. */
  function AddGoal(goals: seq<Goal>, id: GoalId, parent: Option<GoalId>, deps: seq<GoalId>): AddResult {
    if parent.Some? && !Has(goals, parent.value) then Refused(UnknownParent)
    else if exists d :: d in deps && !Has(goals, d) then Refused(UnknownDependency)
    else Added(Pruned(Appended(goals, Goal(id, Pending, parent, [], deps, None, 0))))
  }
}
