/** The mutable mind of one agent (`MindState` in src/evomesh/contracts.py): its
    methods, each against the function that specifies it. */
module MindStates {
  import GoalGraph
  import opened Goals
  import opened Mind
  import opened Options

  class MindState {
    var goals: seq<Goal>
    var beliefs: seq<Belief>
    var intentions: seq<Intention>

    constructor ()
      ensures goals == [] && beliefs == [] && intentions == []
    {
      goals, beliefs, intentions := [], [], [];
    }

    /** `_prune_closed_goals`. */
    method PruneClosedGoals()
      modifies this`goals
      ensures goals == Pruned(old(goals))
    {
      var closed := CollectClosed(goals);
      if |closed| <= KEEP_CLOSED_GOALS {
        AllKept(goals);
        assert Forgotten(goals) == {};
        return;
      }
      var referenced := CollectReferenced(goals);
      var old_ := closed[..|closed| - KEEP_CLOSED_GOALS];
      var forget := set g | g in old_ && g.id !in referenced :: g.id;
      assert forget == Forgotten(goals);
      goals := Keep(goals, forget);
    }

    /** `adopt_goal`. */
    method AdoptGoal(goal: Goal)
      modifies this`goals
      ensures goals == Adopted(old(goals), goal)
    {
      var i := 0;
      while i < |goals|
        invariant i <= |goals| && forall j :: 0 <= j < i ==> goals[j].id != goal.id
      {
        if goals[i].id == goal.id {
          assert goals[i] in goals;
          return;
        }
        i := i + 1;
      }
      goals := goals + [goal];
      PruneClosedGoals();
    }

    /** `add_goal`: the new goal, or the reason it was refused with nothing changed. */
    method AddGoal(id: GoalId, parent: Option<GoalId>, deps: seq<GoalId>) returns (error: Option<AddError>)
      modifies this`goals
      ensures match Goals.AddGoal(old(goals), id, parent, deps)
        case Added(after) => error == None && goals == after
        case Refused(e) => error == Some(e) && goals == old(goals)
    {
      if parent.Some? && !Has(goals, parent.value) {
        return Some(UnknownParent);
      }
      var known := set g | g in goals :: g.id;
      if exists d :: d in deps && d !in known {
        return Some(UnknownDependency);
      }
      goals := goals + [Goal(id, Pending, parent, [], deps, None, 0)];
      if parent.Some? {
        goals := WithChild(goals, parent.value, id);
      }
      PruneClosedGoals();
      return None;
    }

    /** `revise`: folds the percepts in one by one, then trims. */
    method Revise(percepts: seq<Belief>, clock: seq<nat>, keep: nat) returns (change: Change)
      requires |clock| == |percepts|
      modifies this`beliefs
      ensures beliefs == Revised(old(beliefs), percepts, clock, keep).beliefs
      ensures change == Revised(old(beliefs), percepts, clock, keep).change
    {
      hide IsBlank, SortedByTime;
      var added: seq<Key>, updated: seq<Key> := [], [];
      var i := 0;
      while i < |percepts|
        invariant i <= |percepts|
        invariant Revision(beliefs, Change(added, updated)) == Folded(old(beliefs), percepts[..i], clock[..i])
      {
        var percept := percepts[i];
        assert percepts[..i + 1][..i] == percepts[..i] && clock[..i + 1][..i] == clock[..i];
        if !IsBlank(percept.statement) {
          var at := Find(beliefs, percept.key);
          if at == |beliefs| {
            beliefs, added := beliefs + [percept], added + [percept.key];
          } else {
            if beliefs[at].statement != percept.statement {
              updated := updated + [percept.key];
            }
            beliefs := beliefs[at := beliefs[at].(statement := percept.statement, updated := clock[i])];
          }
        }
        i := i + 1;
      }
      assert percepts[..i] == percepts && clock[..i] == clock;
      if |beliefs| > keep {
        beliefs := Tail(SortedByTime(beliefs), keep);
      }
      change := Change(added, updated);
    }

    /** `commit`: any previous commitment is dropped, and the new one is the active one. */
    method Commit(goal: GoalId, steps: nat, contextKeys: seq<Key>, keep: nat) returns (intention: Intention)
      modifies this`intentions
      ensures intention == Intention(goal, steps, 0, contextKeys, Running)
      ensures intentions == Committed(old(intentions), intention, keep)
      ensures OneCommitment(intentions)
    {
      ghost var dropped := DropActive(intentions);
      var i := 0;
      while i < |intentions|
        invariant i <= |intentions| && |intentions| == |old(intentions)|
        invariant forall j :: 0 <= j < i ==> intentions[j] == dropped[j]
        invariant forall j :: i <= j < |intentions| ==> intentions[j] == old(intentions)[j]
      {
        if intentions[i].status.Running? {
          intentions := intentions[i := intentions[i].(status := Dropped)];
        }
        i := i + 1;
      }
      assert intentions == dropped;
      intention := Intention(goal, steps, 0, contextKeys, Running);
      intentions := Tail(intentions + [intention], keep);
      CommitKeepsOne(old(intentions), intention, keep);
    }

    /** `advance` on the active intention: the cursor moves, nothing else does. */
    method Advance(at: nat)
      requires at < |intentions|
      modifies this`intentions
      ensures intentions == old(intentions)[at := old(intentions)[at].(cursor := old(intentions)[at].cursor + 1)]
      ensures OneCommitment(old(intentions)) ==> OneCommitment(intentions)
    {
      intentions := intentions[at := intentions[at].(cursor := intentions[at].cursor + 1)];
    }

    /** `finish`: an intention that ended does not become active again. */
    method Finish(at: nat, status: IntentionStatus)
      requires at < |intentions| && !status.Running?
      modifies this`intentions
      ensures intentions == old(intentions)[at := old(intentions)[at].(status := status)]
      ensures OneCommitment(old(intentions)) ==> OneCommitment(intentions)
    {
      intentions := intentions[at := intentions[at].(status := status)];
    }

    /** `current_intention`: the first active one. Under OneCommitment it can only be the last. */
    method CurrentIntention() returns (current: Option<nat>)
      ensures current.None? ==> forall i :: 0 <= i < |intentions| ==> !intentions[i].status.Running?
      ensures current.Some? ==> current.value < |intentions| && intentions[current.value].status.Running?
      ensures current.Some? && OneCommitment(intentions) ==> current.value == |intentions| - 1
    {
      var i := 0;
      while i < |intentions|
        invariant i <= |intentions| && forall j :: 0 <= j < i ==> !intentions[j].status.Running?
      {
        if intentions[i].status.Running? {
          return Some(i);
        }
        i := i + 1;
      }
      return None;
    }
  }

  /** `GoalManager` (src/evomesh/goal_manager.py), as far as creating goals goes. */
  class GoalManager {
    const mind: MindState

    constructor (mind: MindState)
      ensures this.mind == mind
    {
      this.mind := mind;
    }

    /** `validate_graph`. */
    method ValidateGraph() returns (ok: bool)
      ensures ok == GoalGraph.Validates(mind.goals)
    {
      var goals := mind.goals;
      var ids := set g | g in goals :: g.id;
      var i := 0;
      while i < |goals|
        invariant i <= |goals|
        invariant forall j :: 0 <= j < i ==> Resolved(goals, goals[j])
      {
        var g := goals[i];
        if !((forall d :: d in g.deps ==> d in ids) && (forall c :: c in g.children ==> c in ids)) {
          assert !Resolved(goals, g) && g in goals;
          return false;
        }
        if g.parent.Some? && g.parent.value !in ids {
          assert !Resolved(goals, g) && g in goals;
          return false;
        }
        i := i + 1;
      }
      return true;
    }

    /** `create`: add the goal, check the whole graph, roll back if it fails. */
    method Create(id: GoalId, parent: Option<GoalId>, deps: seq<GoalId>) returns (created: bool)
      modifies mind`goals
      ensures match GoalGraph.Created(old(mind.goals), id, parent, deps)
        case Kept(after) => created && mind.goals == after
        case RolledBack(after) => !created && mind.goals == after
        case NotAdded(_) => !created && mind.goals == old(mind.goals)
    {
      hide GoalGraph.Validates;
      var error := mind.AddGoal(id, parent, deps);
      if error.Some? {
        return false;
      }
      var ok := ValidateGraph();
      if !ok {
        mind.goals := Keep(mind.goals, {id});
        if parent.Some? {
          mind.goals := GoalGraph.WithoutChild(mind.goals, parent.value, id);
        }
        return false;
      }
      return true;
    }
  }

  /** Every reference of the goal resolves. */
  predicate Resolved(goals: seq<Goal>, g: Goal) {
    && (forall d :: d in g.deps ==> Has(goals, d))
    && (forall c :: c in g.children ==> Has(goals, c))
    && (g.parent.Some? ==> Has(goals, g.parent.value))
  }

  method CollectClosed(goals: seq<Goal>) returns (closed: seq<Goal>)
    ensures closed == Closed(goals)
  {
    closed := [];
    for i := 0 to |goals|
      invariant closed == Closed(goals[..i])
    {
      ClosedAppend(goals[..i], [goals[i]]);
      assert goals[..i + 1] == goals[..i] + [goals[i]];
      if goals[i].IsClosed() {
        closed := closed + [goals[i]];
      }
    }
    assert goals[..|goals|] == goals;
  }

  method CollectReferenced(goals: seq<Goal>) returns (referenced: set<GoalId>)
    ensures referenced == Referenced(goals)
  {
    referenced := {};
    for i := 0 to |goals|
      invariant referenced == Referenced(goals[..i])
    {
      ReferencedNext(goals, i);
      if !goals[i].IsClosed() {
        referenced := referenced + ((set d | d in goals[i].deps) + (set c | c in goals[i].children)
          + (if goals[i].parent.Some? then {goals[i].parent.value} else {}));
      }
    }
    assert goals[..|goals|] == goals;
  }

  method Keep(goals: seq<Goal>, forget: set<GoalId>) returns (kept: seq<Goal>)
    ensures kept == Without(goals, forget)
  {
    kept := [];
    for i := 0 to |goals|
      invariant kept == Without(goals[..i], forget)
    {
      WithoutAppend(goals[..i], [goals[i]], forget);
      assert goals[..i + 1] == goals[..i] + [goals[i]];
      if goals[i].id !in forget {
        kept := kept + [goals[i]];
      }
    }
    assert goals[..|goals|] == goals;
  }

  lemma {:induction false} WithoutAppend(a: seq<Goal>, b: seq<Goal>, forget: set<GoalId>)
    ensures Without(a + b, forget) == Without(a, forget) + Without(b, forget)
  {
    if a == [] {
      assert a + b == b;
    } else {
      var ab := a + b;
      assert ab[1..] == a[1..] + b && ab[0] == a[0];
      WithoutAppend(a[1..], b, forget);
    }
  }

  lemma {:induction false} AllKept(goals: seq<Goal>)
    ensures Without(goals, {}) == goals
  {
    if goals != [] {
      AllKept(goals[1..]);
    }
  }

  lemma ReferencedNext(goals: seq<Goal>, i: nat)
    requires i < |goals|
    ensures var own := (set d | d in goals[i].deps) + (set c | c in goals[i].children)
                       + (if goals[i].parent.Some? then {goals[i].parent.value} else {});
      Referenced(goals[..i + 1]) == Referenced(goals[..i]) + (if goals[i].IsClosed() then {} else own)
  {
    assert forall g :: g in goals[..i + 1] <==> g in goals[..i] || g == goals[i];
    var own := (set d | d in goals[i].deps) + (set c | c in goals[i].children)
               + (if goals[i].parent.Some? then {goals[i].parent.value} else {});
    assert forall id :: id in own <==> goals[i].Names(id);
    forall id ensures id in Referenced(goals[..i + 1]) <==>
                        id in Referenced(goals[..i]) || (!goals[i].IsClosed() && id in own)
    {
      if id in Referenced(goals[..i]) {
        var g :| g in goals[..i] && !g.IsClosed() && g.Names(id);
        assert g in goals[..i + 1];
      }
      if !goals[i].IsClosed() && id in own {
        assert goals[i] in goals[..i + 1];
      }
    }
  }
}
