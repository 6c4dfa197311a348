/** The goal graph. */
module GoalGraph {
  // The goal graph of one mind over any sequence of operations
  // (src/evomesh/contracts.py, src/evomesh/goal_manager.py).

  import opened Goals
  import opened Options

  /** `issued` is every id ever created or named, so that a new id is a new id. */
  datatype Graph = Graph(goals: seq<Goal>, issued: set<GoalId>)

  datatype Op =
    | Add(id: GoalId, parent: Option<GoalId>, deps: seq<GoalId>)
    | Create(id: GoalId, parent: Option<GoalId>, deps: seq<GoalId>)
    | Adopt(goal: Goal)
    | SetStatus(id: GoalId, status: Status)

  /** What the callers of an operation respect: ids are fresh, an adopted goal is
      delegated work without relations, and a closed goal stays closed. */
  ghost predicate Allowed(g: Graph, op: Op) {
    match op
    case Add(id, _, _) => id !in g.issued
    case Create(id, _, _) => id !in g.issued
    case Adopt(goal) => goal.IsLone()
    case SetStatus(id, status) =>
      forall x :: x in g.goals && x.id == id && x.IsClosed() ==> status == x.status
  }

  function WithStatus(goals: seq<Goal>, id: GoalId, status: Status): (r: seq<Goal>)
    ensures |r| == |goals|
  {
    if goals == [] then []
    else if goals[0].id == id then [goals[0].(status := status)] + goals[1..]
    else [goals[0]] + WithStatus(goals[1..], id, status)
  }

  /** `validate_graph`: every reference of every goal resolves, closed goals included.
      Its cycle check never fires on a reachable list (NoDependencyCycle). */
  predicate Validates(goals: seq<Goal>) {
    forall g :: g in goals ==>
      && (forall d :: d in g.deps ==> Has(goals, d))
      && (forall c :: c in g.children ==> Has(goals, c))
      && (g.parent.Some? ==> Has(goals, g.parent.value))
  }

  /** `goals` without `child` among the children of this parent. */
  function WithoutChild(goals: seq<Goal>, parent: GoalId, child: GoalId): seq<Goal> {
    if goals == [] then []
    else if goals[0].id == parent then [goals[0].(children := Others(goals[0].children, child))] + goals[1..]
    else [goals[0]] + WithoutChild(goals[1..], parent, child)
  }

  function Others(ids: seq<GoalId>, id: GoalId): seq<GoalId> {
    if ids == [] then []
    else if ids[0] == id then Others(ids[1..], id)
    else [ids[0]] + Others(ids[1..], id)
  }

  /** What `create` does to a list that does not validate: the goal goes, its parent forgets it. */
  function Undone(goals: seq<Goal>, id: GoalId, parent: Option<GoalId>): seq<Goal> {
    var rest := Without(goals, {id});
    if parent.Some? then WithoutChild(rest, parent.value, id) else rest
  }

  datatype CreateResult = Kept(goals: seq<Goal>) | RolledBack(goals: seq<Goal>) | NotAdded(error: AddError)

  /** `GoalManager.create`: add the goal, check the whole graph, roll back if it fails. */
  function Created(goals: seq<Goal>, id: GoalId, parent: Option<GoalId>, deps: seq<GoalId>): CreateResult {
    match AddGoal(goals, id, parent, deps)
    case Refused(error) => NotAdded(error)
    case Added(after) => if Validates(after) then Kept(after) else RolledBack(Undone(after, id, parent))
  }

  function Step(g: Graph, op: Op): Graph {
    match op
    case Add(id, parent, deps) =>
      (match AddGoal(g.goals, id, parent, deps)
       case Added(goals) => Graph(goals, g.issued + {id})
       case Refused(_) => g)
    case Create(id, parent, deps) =>
      (match Created(g.goals, id, parent, deps)
       case Kept(goals) => Graph(goals, g.issued + {id})
       case RolledBack(goals) => Graph(goals, g.issued + {id})
       case NotAdded(_) => g)
    case Adopt(goal) => Graph(Adopted(g.goals, goal), g.issued + {goal.id})
    case SetStatus(id, status) => g.(goals := WithStatus(g.goals, id, status))
  }

  function Run(g: Graph, ops: seq<Op>): Graph
    decreases |ops|
  {
    if ops == [] then g else Run(Step(g, ops[0]), ops[1..])
  }

  ghost predicate AllAllowed(g: Graph, ops: seq<Op>)
    decreases |ops|
  {
    ops == [] || (Allowed(g, ops[0]) && AllAllowed(Step(g, ops[0]), ops[1..]))
  }

  const EMPTY := Graph([], {})

  ghost predicate Resolves(goals: seq<Goal>) {
    forall g, id :: g in goals && !g.IsClosed() && g.Names(id) ==> Has(goals, id)
  }

  ghost predicate NamesWithin(goals: seq<Goal>, issued: set<GoalId>) {
    && (forall g :: g in goals ==> g.id in issued)
    && (forall g, id :: g in goals && g.Names(id) ==> id in issued)
  }

  ghost predicate GraphOk(g: Graph) {
    UniqueIds(g.goals) && Backward(g.goals) && Resolves(g.goals) && NamesWithin(g.goals, g.issued)
  }

  // ---- each operation keeps the graph ----

  lemma PruneKeepsGraph(goals: seq<Goal>, issued: set<GoalId>)
    requires GraphOk(Graph(goals, issued))
    ensures GraphOk(Graph(Pruned(goals), issued))
  {
    PrunedFacts(goals);
    var kept := Pruned(goals);
    forall g, id | g in kept && !g.IsClosed() && g.Names(id)
      ensures Has(kept, id)
    {
      var target :| target in goals && target.id == id;
      assert id in Referenced(goals);
    }
  }

  /** Telling the parent changes its children and nothing else. */
  lemma {:induction false} WithChildFacts(goals: seq<Goal>, parent: GoalId, child: GoalId)
    ensures var r := WithChild(goals, parent, child);
      forall i :: 0 <= i < |goals| ==>
        r[i] == goals[i] || (r[i] == goals[i].(children := goals[i].children + [child]) && goals[i].id == parent)
  {
    if goals != [] && goals[0].id != parent {
      WithChildFacts(goals[1..], parent, child);
    }
  }

  /** Changing children or status in place keeps ids and dependencies where they are. */
  lemma {:induction false} InPlaceKeeps(a: seq<Goal>, b: seq<Goal>)
    requires |a| == |b|
    requires forall i :: 0 <= i < |a| ==> a[i].id == b[i].id && a[i].deps == b[i].deps && (a[i].IsClosed() ==> b[i].IsClosed())
    ensures UniqueIds(a) ==> UniqueIds(b)
    ensures Backward(a) ==> Backward(b)
    ensures forall id :: Has(a, id) <==> Has(b, id)
  {
    forall id ensures Has(a, id) <==> Has(b, id) {
      SameHas(a, b, id);
      SameHas(b, a, id);
    }
    if a != [] {
      InPlaceKeeps(a[1..], b[1..]);
      forall g | g in b && g.id in b[0].deps && Backward(a)
        ensures b[0].IsClosed() && g.deps == []
      {
        var k :| 0 <= k < |b| && b[k] == g;
        assert a[k] in a && a[k].id in a[0].deps;
      }
    }
  }

  lemma SameHas(a: seq<Goal>, b: seq<Goal>, id: GoalId)
    requires |a| == |b| && forall i :: 0 <= i < |a| ==> a[i].id == b[i].id
    ensures Has(a, id) ==> Has(b, id)
  {
    if Has(a, id) {
      var g :| g in a && g.id == id;
      var k :| 0 <= k < |a| && a[k] == g;
      assert b[k] in b;
    }
  }

  lemma HasInLonger(goals: seq<Goal>, goal: Goal, id: GoalId)
    ensures Has(goals + [goal], id) <==> Has(goals, id) || goal.id == id
  {
    assert forall x :: x in goals + [goal] <==> x in goals || x == goal;
  }

  /** What a goal of the longer list points at, its new child apart. */
  lemma AppendedNames(g: Graph, goal: Goal, k: nat, n: GoalId)
    requires GraphOk(g) && goal.children == [] && k <= |g.goals|
    requires forall d :: d in goal.deps ==> Has(g.goals, d)
    requires goal.parent.Some? ==> Has(g.goals, goal.parent.value)
    requires (g.goals + [goal])[k].Names(n)
    ensures n in g.issued
    ensures !(g.goals + [goal])[k].IsClosed() ==> Has(g.goals, n)
  {
    if k < |g.goals| {
      assert (g.goals + [goal])[k] == g.goals[k] && g.goals[k] in g.goals;
    }
  }

  lemma AppendedKeeps(g: Graph, goal: Goal)
    requires GraphOk(g) && goal.children == [] && goal.id !in g.issued
    requires forall d :: d in goal.deps ==> Has(g.goals, d)
    requires goal.parent.Some? ==> Has(g.goals, goal.parent.value)
    ensures GraphOk(Graph(Appended(g.goals, goal), g.issued + {goal.id}))
  {
    var longer, told := g.goals + [goal], Appended(g.goals, goal);
    assert forall x :: x in g.goals && goal.id in x.deps ==> x.Names(goal.id);
    AppendKeeps(g.goals, goal);
    if goal.parent.Some? {
      WithChildFacts(longer, goal.parent.value, goal.id);
    }
    InPlaceKeeps(longer, told);
    forall x | x in told
      ensures x.id in g.issued + {goal.id}
      ensures forall n :: x.Names(n) ==> n in g.issued + {goal.id} && (!x.IsClosed() ==> Has(told, n))
    {
      var k :| 0 <= k < |told| && told[k] == x;
      assert k < |g.goals| ==> longer[k] in g.goals;
      forall n | x.Names(n)
        ensures n in g.issued + {goal.id} && (!x.IsClosed() ==> Has(told, n))
      {
        HasInLonger(g.goals, goal, n);
        if longer[k].Names(n) {
          AppendedNames(g, goal, k, n);
        }
      }
    }
  }

  lemma AddKeeps(g: Graph, id: GoalId, parent: Option<GoalId>, deps: seq<GoalId>)
    requires GraphOk(g) && id !in g.issued
    ensures GraphOk(Step(g, Add(id, parent, deps)))
  {
    if AddGoal(g.goals, id, parent, deps).Added? {
      var goal := Goal(id, Pending, parent, [], deps, None, 0);
      AppendedKeeps(g, goal);
      PruneKeepsGraph(Appended(g.goals, goal), g.issued + {id});
    }
  }

  lemma AdoptKeeps(g: Graph, goal: Goal)
    requires GraphOk(g) && goal.IsLone()
    ensures GraphOk(Step(g, Adopt(goal)))
  {
    if !Has(g.goals, goal.id) {
      var longer := g.goals + [goal];
      forall x | x in g.goals && goal.id in x.deps ensures x.IsClosed() {
        assert x.Names(goal.id);
      }
      AppendKeeps(g.goals, goal);
      forall x, n | x in longer && !x.IsClosed() && x.Names(n) ensures Has(longer, n) {
        assert x in g.goals;
        var y :| y in g.goals && y.id == n;
        assert y in longer;
      }
      PruneKeepsGraph(longer, g.issued + {goal.id});
    }
  }

  lemma {:induction false} WithStatusFacts(goals: seq<Goal>, id: GoalId, status: Status)
    requires forall x :: x in goals && x.id == id && x.IsClosed() ==> status == x.status
    ensures var r := WithStatus(goals, id, status);
      forall i :: 0 <= i < |goals| ==> r[i] == goals[i].(status := r[i].status) && (goals[i].IsClosed() ==> r[i] == goals[i])
  {
    if goals != [] && goals[0].id != id {
      WithStatusFacts(goals[1..], id, status);
    }
  }

  lemma SetStatusKeeps(g: Graph, id: GoalId, status: Status)
    requires GraphOk(g) && Allowed(g, SetStatus(id, status))
    ensures GraphOk(Step(g, SetStatus(id, status)))
  {
    WithStatusFacts(g.goals, id, status);
    var after := WithStatus(g.goals, id, status);
    InPlaceKeeps(g.goals, after);
    forall x, n | x in after && x.Names(n)
      ensures n in g.issued && (!x.IsClosed() ==> Has(after, n))
    {
      var k :| 0 <= k < |after| && after[k] == x;
      assert g.goals[k] in g.goals && g.goals[k].Names(n);
    }
    forall x | x in after ensures x.id in g.issued {
      var k :| 0 <= k < |after| && after[k] == x;
      assert g.goals[k] in g.goals;
    }
  }

  // ---- creating with the check, and rolling back ----

  /** The goal `add_goal` makes. */
  function NewGoal(id: GoalId, parent: Option<GoalId>, deps: seq<GoalId>): Goal {
    Goal(id, Pending, parent, [], deps, None, 0)
  }

  lemma {:induction false} WithoutAppend(a: seq<Goal>, b: seq<Goal>, forget: set<GoalId>)
    ensures Without(a + b, forget) == Without(a, forget) + Without(b, forget)
  {
    if a == [] {
      assert a + b == b;
    } else {
      assert (a + b)[1..] == a[1..] + b;
      WithoutAppend(a[1..], b, forget);
    }
  }

  /** Forgetting an id no goal has changes nothing. */
  lemma {:induction false} WithoutStranger(goals: seq<Goal>, id: GoalId)
    requires !Has(goals, id)
    ensures Without(goals, {id}) == goals
  {
    if goals != [] {
      assert goals[0] in goals && goals[0].id != id;
      assert forall x :: x in goals[1..] ==> x in goals;
      WithoutStranger(goals[1..], id);
    }
  }

  lemma {:induction false} OthersOfAppended(ids: seq<GoalId>, id: GoalId)
    requires id !in ids
    ensures Others(ids + [id], id) == ids && Others(ids, id) == ids
  {
    if ids != [] {
      assert (ids + [id])[1..] == ids[1..] + [id];
      OthersOfAppended(ids[1..], id);
    }
  }

  lemma {:induction false} WithChildBefore(goals: seq<Goal>, last: seq<Goal>, parent: GoalId, child: GoalId)
    requires Has(goals, parent)
    ensures WithChild(goals + last, parent, child) == WithChild(goals, parent, child) + last
  {
    assert (goals + last)[1..] == goals[1..] + last;
    if goals[0].id != parent {
      var x :| x in goals && x.id == parent;
      assert x in goals[1..];
      WithChildBefore(goals[1..], last, parent, child);
    }
  }

  lemma {:induction false} NoSuchParent(goals: seq<Goal>, parent: GoalId, child: GoalId)
    requires !Has(goals, parent)
    ensures WithoutChild(goals, parent, child) == goals
  {
    if goals != [] {
      assert goals[0] in goals && forall x :: x in goals[1..] ==> x in goals;
      NoSuchParent(goals[1..], parent, child);
    }
  }

  /** Telling the parent of a child and taking it back, with others forgotten in between. */
  lemma {:induction false} ChildTakenBack(goals: seq<Goal>, forget: set<GoalId>, parent: GoalId, child: GoalId)
    requires UniqueIds(goals) && forall x :: x in goals ==> child !in x.children
    ensures WithoutChild(Without(WithChild(goals, parent, child), forget), parent, child) == Without(goals, forget)
  {
    if goals != [] {
      var first, rest := goals[0], goals[1..];
      assert first in goals && forall x :: x in rest ==> x in goals;
      if first.id == parent {
        OthersOfAppended(first.children, child);
        assert WithChild(goals, parent, child)[1..] == rest;
        assert Has(Without(rest, forget), parent) ==> Has(rest, parent);
        NoSuchParent(Without(rest, forget), parent, child);
        assert first.(children := first.children) == first;
      } else {
        assert WithChild(goals, parent, child)[1..] == WithChild(rest, parent, child);
        ChildTakenBack(rest, forget, parent, child);
      }
    }
  }

  /** Rolling back leaves the list as it was, less the goals the pruning forgot. */
  lemma UndoneIs(g: Graph, id: GoalId, parent: Option<GoalId>, deps: seq<GoalId>, forget: set<GoalId>)
    requires GraphOk(g) && id !in g.issued && (parent.Some? ==> Has(g.goals, parent.value))
    ensures Undone(Without(Appended(g.goals, NewGoal(id, parent, deps)), forget), id, parent) == Without(g.goals, forget)
  {
    hide Without, WithChild, WithoutChild, UniqueIds, Backward;
    var goal := NewGoal(id, parent, deps);
    var told := if parent.Some? then WithChild(g.goals, parent.value, id) else g.goals;
    if parent.Some? {
      WithChildBefore(g.goals, [goal], parent.value, id);
      WithChildFacts(g.goals, parent.value, id);
    }
    assert Appended(g.goals, goal) == told + [goal];
    WithoutAppend(told, [goal], forget);
    WithoutAppend(Without(told, forget), Without([goal], forget), {id});
    assert !Has(Without(told, forget), id) by {
      forall x | x in Without(told, forget) ensures x.id != id {
        var k :| 0 <= k < |told| && told[k] == x;
        assert g.goals[k] in g.goals;
      }
    }
    WithoutStranger(Without(told, forget), id);
    NothingOfIt(goal, forget);
    assert Without(told, forget) + [] == Without(told, forget);
    forall x | x in g.goals ensures id !in x.children {
      assert id in x.children ==> x.Names(id);
    }
    if parent.Some? {
      ChildTakenBack(g.goals, forget, parent.value, id);
    }
  }

  lemma NothingOfIt(goal: Goal, forget: set<GoalId>)
    ensures Without(Without([goal], forget), {goal.id}) == []
  {
    assert [goal][1..] == [];
  }

  /** Forgetting what a pruning of the longer list forgets keeps the graph. */
  lemma RollbackKeeps(g: Graph, goal: Goal)
    requires GraphOk(g) && goal.children == [] && goal.id !in g.issued
    ensures GraphOk(Graph(Without(g.goals, Forgotten(Appended(g.goals, goal))), g.issued + {goal.id}))
  {
    hide Forgotten, UniqueIds, Backward;
    var forget := Forgotten(Appended(g.goals, goal));
    var kept := Without(g.goals, forget);
    WithoutKeeps(g.goals, forget);
    forall x, n | x in kept && !x.IsClosed() && x.Names(n) ensures Has(kept, n) {
      var y :| y in g.goals && y.id == n;
      StillNamed(g.goals, goal, x, n);
      if n in forget {
        ForgottenAreClosed(Appended(g.goals, goal), n);
      }
      assert y in kept;
    }
  }

  lemma StillNamed(goals: seq<Goal>, goal: Goal, x: Goal, n: GoalId)
    requires x in goals && !x.IsClosed() && x.Names(n)
    ensures n in Referenced(Appended(goals, goal))
  {
    hide Referenced;
    var longer, told := goals + [goal], Appended(goals, goal);
    var k :| 0 <= k < |goals| && goals[k] == x;
    if goal.parent.Some? {
      WithChildFacts(longer, goal.parent.value, goal.id);
    }
    assert longer[k] == x && told[k] in told && told[k].Names(n) && !told[k].IsClosed();
  }

  lemma CreateKeeps(g: Graph, id: GoalId, parent: Option<GoalId>, deps: seq<GoalId>)
    requires GraphOk(g) && id !in g.issued
    ensures GraphOk(Step(g, Create(id, parent, deps)))
  {
    hide GraphOk, Without, Forgotten, Validates, Undone;
    AddKeeps(g, id, parent, deps);
    if Created(g.goals, id, parent, deps).RolledBack? {
      UndoneIs(g, id, parent, deps, Forgotten(Appended(g.goals, NewGoal(id, parent, deps))));
      RollbackKeeps(g, NewGoal(id, parent, deps));
    }
  }

  // ---- whole runs ----

  /** Under any sequence of creating, adopting, re-stating and pruning, ids stay
      unique and every reference of an open goal resolves. */
  lemma {:induction false} EveryRunKeepsTheGraph(g: Graph, ops: seq<Op>)
    requires GraphOk(g) && AllAllowed(g, ops)
    ensures GraphOk(Run(g, ops))
    decreases |ops|
  {
    if ops != [] {
      match ops[0] {
        case Add(id, parent, deps) => AddKeeps(g, id, parent, deps);
        case Create(id, parent, deps) => CreateKeeps(g, id, parent, deps);
        case Adopt(goal) => AdoptKeeps(g, goal);
        case SetStatus(id, status) => SetStatusKeeps(g, id, status);
      }
      EveryRunKeepsTheGraph(Step(g, ops[0]), ops[1..]);
    }
  }

  lemma {:induction false} BackwardAt(goals: seq<Goal>, i: nat, j: nat)
    requires Backward(goals) && i < |goals| && j < |goals|
    requires goals[j].id in goals[i].deps && goals[j].deps != []
    ensures j < i
  {
    assert goals[j] in goals;
    if i > 0 && j > 0 {
      BackwardAt(goals[1..], i - 1, j - 1);
    }
  }

  /** A dependency path: each goal named by the one before it. */
  ghost predicate DependencyPath(goals: seq<Goal>, path: seq<nat>) {
    && (forall k :: 0 <= k < |path| ==> path[k] < |goals|)
    && (forall k :: 0 <= k < |path| - 1 ==> goals[path[k + 1]].id in goals[path[k]].deps)
  }

  /** Along a path that goes on, positions fall strictly. */
  lemma {:induction false} PathDescends(goals: seq<Goal>, path: seq<nat>, k: nat)
    requires Backward(goals) && DependencyPath(goals, path)
    requires 0 < k < |path| && goals[path[|path| - 1]].deps != []
    ensures path[k] < path[0]
    decreases k
  {
    assert goals[path[k]].id in goals[path[k - 1]].deps;
    assert goals[path[k]].deps != [] by {
      if k < |path| - 1 {
        assert goals[path[k + 1]].id in goals[path[k]].deps;
      }
    }
    BackwardAt(goals, path[k - 1], path[k]);
    if k > 1 {
      PathDescends(goals, path, k - 1);
    }
  }

  /** In every reachable mind no dependency path comes back to where it started. */
  lemma NoDependencyCycle(ops: seq<Op>, path: seq<nat>)
    requires AllAllowed(EMPTY, ops)
    requires |path| >= 2 && DependencyPath(Run(EMPTY, ops).goals, path)
    ensures path[|path| - 1] != path[0]
  {
    EveryRunKeepsTheGraph(EMPTY, ops);
    var goals := Run(EMPTY, ops).goals;
    assert goals[path[1]].id in goals[path[0]].deps;
    if goals[path[|path| - 1]].deps != [] {
      PathDescends(goals, path, |path| - 1);
    }
  }

  /** Pruning forgets a goal only if it is closed, nothing open points at it, and
      at least 30 closed goals come after it. */
  lemma {:induction false} PruningForgetsOnlyOldClosedGoals(goals: seq<Goal>, g: Goal)
    requires UniqueIds(goals) && g in goals
    ensures g !in Pruned(goals) <==>
      && |Closed(goals)| > KEEP_CLOSED_GOALS
      && g in Closed(goals)[..|Closed(goals)| - KEEP_CLOSED_GOALS]
      && !exists open :: open in goals && !open.IsClosed() && open.Names(g.id)
  {
    var closed := Closed(goals);
    PrunedFacts(goals);
    if |closed| > KEEP_CLOSED_GOALS {
      var n := |closed| - KEEP_CLOSED_GOALS;
      if g.id in Forgotten(goals) {
        var c :| c in closed[..n] && c.id == g.id;
        assert c in closed;
        SameId(goals, c, g);
      }
    }
  }

  // ---- GoalManager.create checks closed goals too ----

  /** Read off the list before the call: with the new goal at its end and its parent told,
      some closed goal that pruning keeps names a goal that is not there or is forgotten. */
  ghost predicate Dangles(longer: seq<Goal>) {
    exists c, n :: c in longer && c.IsClosed() && c.id !in Forgotten(longer) && c.Names(n) && (!Has(longer, n) || n in Forgotten(longer))
  }

  lemma PrunedHas(goals: seq<Goal>, n: GoalId)
    ensures Has(Pruned(goals), n) <==> Has(goals, n) && n !in Forgotten(goals)
  {
    hide Forgotten;
    if x :| x in goals && x.id == n {
      assert n !in Forgotten(goals) ==> x in Pruned(goals);
    }
  }

  /** The list `add_goal` leaves fails the check exactly when a closed goal dangles. */
  lemma ValidatesExactly(longer: seq<Goal>)
    requires Resolves(Pruned(longer))
    ensures !Validates(Pruned(longer)) <==> Dangles(longer)
  {
    hide Forgotten, Pruned;
    var after := Pruned(longer);
    PrunedMembers(longer);
    if Dangles(longer) {
      var c, n :| c in longer && c.IsClosed() && c.id !in Forgotten(longer) && c.Names(n) && (!Has(longer, n) || n in Forgotten(longer));
      PrunedHas(longer, n);
      assert c in after && !Has(after, n);
    }
    if !Validates(after) {
      var g, n := FailsAt(after);
      PrunedHas(longer, n);
    }
  }

  lemma PrunedMembers(goals: seq<Goal>)
    ensures forall x :: x in Pruned(goals) <==> x in goals && x.id !in Forgotten(goals)
  {
    hide Forgotten;
  }

  lemma FailsAt(goals: seq<Goal>) returns (g: Goal, n: GoalId)
    requires !Validates(goals)
    ensures g in goals && g.Names(n) && !Has(goals, n)
  {
    hide Has;
    g :| g in goals && !((forall d :: d in g.deps ==> Has(goals, d))
                         && (forall c :: c in g.children ==> Has(goals, c))
                         && (g.parent.Some? ==> Has(goals, g.parent.value)));
    n :| g.Names(n) && !Has(goals, n);
  }

  /** In every reachable mind `create` refuses a goal `add_goal` takes exactly when, before
      the call, a closed goal dangles. The refusal leaves the list without the new goal and
      its parent without the child -- and without the goals the pruning forgot. The parent
      it has to untell is still there. */
  lemma CreateRefusesExactlyWhenAClosedGoalDangles(ops: seq<Op>, id: GoalId, parent: Option<GoalId>, deps: seq<GoalId>)
    requires AllAllowed(EMPTY, ops) && id !in Run(EMPTY, ops).issued
    requires AddGoal(Run(EMPTY, ops).goals, id, parent, deps).Added?
    ensures var goals := Run(EMPTY, ops).goals; var r := Created(goals, id, parent, deps);
      var longer := Appended(goals, NewGoal(id, parent, deps));
      && (r.RolledBack? <==> Dangles(longer))
      && (r.RolledBack? ==> r.goals == Without(goals, Forgotten(longer)))
      && (r.Kept? <==> !r.RolledBack?) && (r.Kept? ==> r.goals == Pruned(longer))
      && (parent.Some? ==> Has(Pruned(longer), parent.value))
  {
    hide GraphOk, Run, AllAllowed, Without, Forgotten, Validates, Undone, Dangles, Pruned, UniqueIds, Backward, NamesWithin;
    var g := Run(EMPTY, ops);
    EmptyOk();
    EveryRunKeepsTheGraph(EMPTY, ops);
    AddKeeps(g, id, parent, deps);
    var goal := NewGoal(id, parent, deps);
    var longer := Appended(g.goals, goal);
    AfterAdd(g, id, parent, deps);
    ValidatesExactly(longer);
    if Created(g.goals, id, parent, deps).RolledBack? {
      UndoneIs(g, id, parent, deps, Forgotten(longer));
      PrunedIs(longer);
    }
  }

  lemma PrunedIs(goals: seq<Goal>)
    ensures Pruned(goals) == Without(goals, Forgotten(goals))
  {
  }

  lemma EmptyOk()
    ensures GraphOk(EMPTY)
  {
  }

  lemma AfterAdd(g: Graph, id: GoalId, parent: Option<GoalId>, deps: seq<GoalId>)
    requires GraphOk(g) && id !in g.issued && AddGoal(g.goals, id, parent, deps).Added?
    requires GraphOk(Step(g, Add(id, parent, deps)))
    ensures var longer := Appended(g.goals, NewGoal(id, parent, deps));
      && AddGoal(g.goals, id, parent, deps) == Added(Pruned(longer)) && Resolves(Pruned(longer))
      && (parent.Some? ==> Has(Pruned(longer), parent.value))
  {
    hide Without, Forgotten, UniqueIds, Backward;
    var goal := NewGoal(id, parent, deps);
    var longer := Appended(g.goals, goal);
    AdoptedStays(g, goal);
    if parent.Some? {
      var x :| x in Pruned(longer) && x.id == id && x.parent == parent && !x.IsClosed();
      assert x.Names(parent.value);
    }
  }

  /** The new goal is there after the pruning, still naming its parent. */
  lemma AdoptedStays(g: Graph, goal: Goal)
    requires GraphOk(g) && goal.id !in g.issued && !goal.IsClosed() && goal.children == []
    requires forall d :: d in goal.deps ==> Has(g.goals, d)
    requires goal.parent.Some? ==> Has(g.goals, goal.parent.value)
    ensures exists x :: x in Pruned(Appended(g.goals, goal)) && x.id == goal.id && x.parent == goal.parent && !x.IsClosed()
  {
    hide Pruned, Referenced;
    AppendedKeeps(g, goal);
    var longer, told := g.goals + [goal], Appended(g.goals, goal);
    if goal.parent.Some? {
      WithChildFacts(longer, goal.parent.value, goal.id);
    }
    PrunedFacts(told);
    var x := told[|g.goals|];
    assert longer[|g.goals|] == goal && x in told;
  }

  function BusyDeps(i: nat): seq<GoalId> {
    if i == 1 then [0] else []
  }

  /** `n` finished goals; goal 1 depended on goal 0, the others on nothing. */
  function Busy(n: nat): (goals: seq<Goal>)
    ensures |goals| == n
    ensures forall i :: 0 <= i < n ==> goals[i] == Goal(i, Done, None, [], BusyDeps(i), None, 0)
  {
    if n == 0 then []
    else Busy(n - 1) + [Goal(n - 1, Done, None, [], BusyDeps(n - 1), None, 0)]
  }

  function BusyOps(n: nat): seq<Op> {
    if n == 0 then []
    else BusyOps(n - 1) + [Add(n - 1, None, BusyDeps(n - 1)), SetStatus(n - 1, Done)]
  }

  lemma {:induction false} RunAppend(g: Graph, a: seq<Op>, b: seq<Op>)
    ensures Run(g, a + b) == Run(Run(g, a), b)
    ensures AllAllowed(g, a) && AllAllowed(Run(g, a), b) ==> AllAllowed(g, a + b)
    decreases |a|
  {
    if a == [] {
      assert a + b == b;
    } else {
      assert (a + b)[1..] == a[1..] + b;
      RunAppend(Step(g, a[0]), a[1..], b);
    }
  }

  lemma {:induction false} ClosedOfDone(goals: seq<Goal>)
    requires forall g :: g in goals ==> g.IsClosed()
    ensures Closed(goals) == goals
  {
    if goals != [] {
      ClosedOfDone(goals[1..]);
    }
  }

  lemma {:induction false} SetLast(goals: seq<Goal>, last: Goal, status: Status)
    requires !Has(goals, last.id)
    ensures WithStatus(goals + [last], last.id, status) == goals + [last.(status := status)]
  {
    if goals != [] {
      assert goals[0] in goals && goals[0].id != last.id;
      assert (goals + [last])[1..] == goals[1..] + [last];
      SetLast(goals[1..], last, status);
    }
  }

  lemma {:induction false} WithoutNothing(goals: seq<Goal>)
    ensures Without(goals, {}) == goals
  {
    if goals != [] {
      WithoutNothing(goals[1..]);
    }
  }

  /** Adding a goal without relations while at most 30 closed goals exist prunes nothing. */
  lemma AddPrunesNothing(goals: seq<Goal>, id: GoalId, deps: seq<GoalId>)
    requires |goals| <= KEEP_CLOSED_GOALS && (forall g :: g in goals ==> g.IsClosed())
    requires forall d :: d in deps ==> Has(goals, d)
    ensures AddGoal(goals, id, None, deps) == Added(goals + [Goal(id, Pending, None, [], deps, None, 0)])
  {
    hide Without;
    var goal := Goal(id, Pending, None, [], deps, None, 0);
    ClosedOfDone(goals);
    ClosedAppend(goals, [goal]);
    assert Closed([goal]) == [];
    WithoutNothing(goals + [goal]);
  }

  lemma TwoSteps(g: Graph, a: Op, b: Op)
    requires Allowed(g, a) && Allowed(Step(g, a), b)
    ensures AllAllowed(g, [a, b]) && Run(g, [a, b]) == Step(Step(g, a), b)
  {
    assert [a, b][1..] == [b] && [b][1..] == [];
    assert Run(Step(g, a), [b]) == Run(Step(Step(g, a), b), []);
    assert AllAllowed(Step(g, a), [b]);
  }

  lemma OneMore(g: Graph, n: nat)
    requires n < KEEP_CLOSED_GOALS + 1 && g.goals == Busy(n) && forall id :: id in g.issued ==> id < n
    ensures var add, close := Add(n, None, BusyDeps(n)), SetStatus(n, Done);
      && Allowed(g, add) && Allowed(Step(g, add), close)
      && Step(Step(g, add), close) == Graph(Busy(n + 1), g.issued + {n})
  {
    var goal := Goal(n, Pending, None, [], BusyDeps(n), None, 0);
    assert !Has(Busy(n), n);
    if n == 1 {
      assert Busy(n)[0] in Busy(n);
    }
    AddPrunesNothing(Busy(n), n, BusyDeps(n));
    SetLast(Busy(n), goal, Done);
    assert Step(g, Add(n, None, BusyDeps(n))).goals == Busy(n) + [goal];
  }

  lemma NothingBusy()
    ensures AllAllowed(EMPTY, BusyOps(0)) && Run(EMPTY, BusyOps(0)) == EMPTY && EMPTY.goals == Busy(0)
  {
  }

  lemma {:induction false} BusyIsReachable(n: nat)
    requires n <= KEEP_CLOSED_GOALS + 1
    ensures AllAllowed(EMPTY, BusyOps(n))
    ensures Run(EMPTY, BusyOps(n)).goals == Busy(n)
    ensures forall id :: id in Run(EMPTY, BusyOps(n)).issued ==> id < n
  {
    hide Step, Allowed, Busy;
    if n == 0 {
      NothingBusy();
    } else {
      BusyIsReachable(n - 1);
      var g := Run(EMPTY, BusyOps(n - 1));
      OneMore(g, n - 1);
      var add, close := Add(n - 1, None, BusyDeps(n - 1)), SetStatus(n - 1, Done);
      TwoSteps(g, add, close);
      RunAppend(EMPTY, BusyOps(n - 1), [add, close]);
    }
  }

  /** Pruning with one goal opened after 31 finished ones forgets goal 0 and nothing else. */
  lemma BusyForgets(n: nat, newest: Goal)
    requires n == KEEP_CLOSED_GOALS + 1 && newest == Goal(n, Pending, None, [], [], None, 0)
    ensures forall id :: id in Forgotten(Busy(n) + [newest]) <==> id == 0
  {
    var goals := Busy(n);
    var longer := goals + [newest];
    ClosedOfDone(goals);
    ClosedAppend(goals, [newest]);
    assert Closed(longer) == goals;
    assert goals[..1] == [goals[0]];
    assert forall id :: id !in Referenced(longer);
    assert goals[0] in goals[..1];
  }

  /** A kept goal that names a forgotten one makes the list fail `validate_graph`. */
  lemma PruningLeavesDangling(goals: seq<Goal>, n: GoalId, kept: Goal, lost: GoalId)
    requires kept in goals && lost in kept.deps && kept.id != lost
    requires forall id :: id in Forgotten(goals + [Goal(n, Pending, None, [], [], None, 0)]) <==> id == lost
    ensures AddGoal(goals, n, None, []).Added? && !Validates(AddGoal(goals, n, None, []).goals)
  {
    var longer := goals + [Goal(n, Pending, None, [], [], None, 0)];
    var after := Without(longer, Forgotten(longer));
    assert kept in longer;
    assert kept in after;
    assert !Has(after, lost);
  }

  lemma BusyRefuses(n: nat)
    requires n == KEEP_CLOSED_GOALS + 1
    ensures AddGoal(Busy(n), n, None, []).Added?
    ensures !Validates(AddGoal(Busy(n), n, None, []).goals)
  {
    BusyForgets(n, Goal(n, Pending, None, [], [], None, 0));
    var one := Busy(n)[1];
    assert one in Busy(n) && one.id == 1 && one.deps == [0];
    PruningLeavesDangling(Busy(n), n, one, 0);
  }

  /** A sequence of operations after which `create` refuses a goal `add_goal` takes. */
  ghost predicate LeadsToRefusal(ops: seq<Op>, id: GoalId) {
    && AllAllowed(EMPTY, ops) && id !in Run(EMPTY, ops).issued
    && AddGoal(Run(EMPTY, ops).goals, id, None, []).Added?
    && !Validates(AddGoal(Run(EMPTY, ops).goals, id, None, []).goals)
  }

  /** There is a reachable mind in which `create` refuses an unrelated goal: goal 0 was
      pruned while goal 1, closed but recent enough to be kept, still names it. */
  lemma CreateRefusesAnUnrelatedGoal()
    ensures exists ops, id :: LeadsToRefusal(ops, id)
  {
    var n := KEEP_CLOSED_GOALS + 1;
    BusyIsReachable(n);
    BusyRefuses(n);
    assert LeadsToRefusal(BusyOps(n), n);
  }
}
