/** What each operation leaves of the goals. */
module GoalOutcomes {
  // Which goals pruning forgets, place by place, and what adding, adopting and moving a goal
  // make of every goal of the list (src/evomesh/contracts.py).

  import opened Goals
  import opened GoalGraph
  import opened Options

  const CLOSED: set<Status> := {Status.Done, Status.Failed, Status.Cancelled}

  // ---- pruning, place by place ----

  /** How many closed goals there are. */
  function ClosedAmong(goals: seq<Goal>): (n: nat) {
    if goals == [] then 0 else (if goals[0].status in CLOSED then 1 else 0) + ClosedAmong(goals[1..])
  }

  /** Some goal that is not closed has the id among its dependencies or children, or as parent. */
  ghost predicate PointedAt(goals: seq<Goal>, id: GoalId) {
    exists g :: g in goals && g.status !in CLOSED && (id in g.deps || id in g.children || g.parent == Some(id))
  }

  lemma {:induction false} ClosedSize(goals: seq<Goal>)
    ensures |Closed(goals)| == ClosedAmong(goals)
  {
    if goals != [] {
      ClosedSize(goals[1..]);
    }
  }

  lemma ClosedSplit(goals: seq<Goal>, i: nat)
    requires i < |goals|
    ensures Closed(goals) == Closed(goals[..i]) + ((if goals[i].status in CLOSED then [goals[i]] else []) + Closed(goals[i + 1..]))
  {
    hide Closed;
    assert goals == goals[..i] + ([goals[i]] + goals[i + 1..]);
    ClosedAppend(goals[..i], [goals[i]] + goals[i + 1..]);
    ClosedAppend([goals[i]], goals[i + 1..]);
    ClosedOne(goals[i]);
  }

  lemma ClosedOne(g: Goal)
    ensures Closed([g]) == if g.status in CLOSED then [g] else []
  {
    assert [g][1..] == [];
  }

  lemma {:induction false} UniqueAt(goals: seq<Goal>, i: nat, j: nat)
    requires UniqueIds(goals) && i < |goals| && j < |goals| && goals[i].id == goals[j].id
    ensures i == j
  {
    if i > 0 && j > 0 {
      UniqueAt(goals[1..], i - 1, j - 1);
    } else if i > 0 {
      UniqueHead(goals, i);
    } else if j > 0 {
      UniqueHead(goals, j);
    }
  }

  lemma UniqueHead(goals: seq<Goal>, k: nat)
    requires UniqueIds(goals) && 0 < k < |goals|
    ensures goals[k].id != goals[0].id
  {
    assert goals[1..][k - 1] == goals[k] && goals[k] in goals[1..];
  }

  lemma PointedIs(goals: seq<Goal>, id: GoalId)
    ensures PointedAt(goals, id) <==> id in Referenced(goals)
  {
    assert forall g: Goal :: g.Names(id) <==> (id in g.deps || id in g.children || g.parent == Some(id));
    assert forall g: Goal :: g.IsClosed() <==> g.status in CLOSED;
  }

  /** A goal is forgotten exactly when it is closed, thirty closed goals come after it, and no
      goal that is not closed points at it. */
  lemma PrunedExactly(goals: seq<Goal>, i: nat)
    requires UniqueIds(goals) && i < |goals|
    ensures goals[i] !in Pruned(goals) <==>
      goals[i].status in CLOSED && ClosedAmong(goals[i + 1..]) >= 30 && !PointedAt(goals, goals[i].id)
  {
    hide Referenced, PointedAt, UniqueIds;
    var g, closed := goals[i], Closed(goals);
    PruningForgetsOnlyOldClosedGoals(goals, g);
    PointedIs(goals, g.id);
    ClosedSplit(goals, i);
    ClosedSize(goals[i + 1..]);
    assert PointedAt(goals, g.id) <==> exists open :: open in goals && !open.IsClosed() && open.Names(g.id);
    if g.status in CLOSED {
      var k := |Closed(goals[..i])|;
      assert closed[k] == g && |closed| == k + 1 + ClosedAmong(goals[i + 1..]);
      if |closed| > KEEP_CLOSED_GOALS {
        var n := |closed| - KEEP_CLOSED_GOALS;
        if k < n {
          assert closed[..n][k] == g;
        } else {
          NotAmongOlder(goals, k, n);
        }
      }
    } else {
      assert g in closed ==> g.IsClosed();
      assert g !in closed;
      NotInPart(closed, g);
    }
  }

  lemma NotInPart(closed: seq<Goal>, g: Goal)
    requires g !in closed
    ensures forall n :: 0 <= n <= |closed| ==> g !in closed[..n]
  {
  }

  lemma NotAmongOlder(goals: seq<Goal>, k: nat, n: nat)
    requires UniqueIds(goals) && n <= k < |Closed(goals)|
    ensures Closed(goals)[k] !in Closed(goals)[..n]
  {
    hide UniqueIds;
    var closed := Closed(goals);
    ClosedUnique(goals);
    if closed[k] in closed[..n] {
      var j :| 0 <= j < n && closed[..n][j] == closed[k];
      UniqueAt(closed, j, k);
    }
  }

  // ---- adding, adopting, moving ----

  /** The goal under this id has one more child; nothing else is different. */
  ghost predicate Told(a: seq<Goal>, b: seq<Goal>, parent: GoalId, child: GoalId) {
    |a| == |b| && forall i :: 0 <= i < |a| ==>
      b[i] == if a[i].id == parent then a[i].(children := a[i].children + [child]) else a[i]
  }

  lemma {:induction false} WithChildTells(goals: seq<Goal>, parent: GoalId, child: GoalId)
    requires UniqueIds(goals) && forall g :: g in goals ==> child !in g.children
    ensures Told(goals, WithChild(goals, parent, child), parent, child)
  {
    if goals != [] {
      var rest, r := goals[1..], WithChild(goals, parent, child);
      if goals[0].id == parent {
        assert r == [goals[0].(children := goals[0].children + [child])] + rest;
        forall i | 0 < i < |goals| ensures goals[i].id != parent && r[i] == goals[i] {
          assert goals[i] == rest[i - 1] && rest[i - 1] in rest;
        }
      } else {
        WithChildTells(rest, parent, child);
        assert forall i :: 0 < i < |goals| ==> goals[i] == rest[i - 1] && r[i] == WithChild(rest, parent, child)[i - 1];
      }
    }
  }

  /** Adding is refused exactly for a parent that is not there or, if that is none of it, for a
      dependency that is not. Otherwise the new goal, pending and with the parent and the
      dependencies given, comes last, its parent has it as one more child, no other goal
      changes, and the list is pruned. */
  lemma AddIs(g: Graph, id: GoalId, parent: Option<GoalId>, deps: seq<GoalId>)
    requires GraphOk(g) && id !in g.issued
    ensures var r := AddGoal(g.goals, id, parent, deps); var known := set x | x in g.goals :: x.id;
      && (r == Refused(UnknownParent) <==> parent.Some? && parent.value !in known)
      && (r == Refused(UnknownDependency) <==> (parent.Some? ==> parent.value in known) && exists d :: d in deps && d !in known)
      && (r.Added? ==> exists told: seq<Goal> ::
           && r.goals == Pruned(told + [Goal(id, Pending, parent, [], deps, None, 0)])
           && (if parent.Some? then Told(g.goals, told, parent.value, id) else told == g.goals))
  {
    hide Pruned, UniqueIds, Backward, Told;
    var known := set x | x in g.goals :: x.id;
    forall n ensures n in known <==> Has(g.goals, n) {
    }
    var goal := NewGoal(id, parent, deps);
    if parent.Some? && Has(g.goals, parent.value) {
      WithChildBefore(g.goals, [goal], parent.value, id);
      forall x | x in g.goals ensures id !in x.children {
        assert id in x.children ==> x.Names(id);
      }
      WithChildTells(g.goals, parent.value, id);
    }
  }

  /** Adopting a goal whose id is there changes nothing; any other comes last, and the list
      is pruned. */
  lemma AdoptIs(goals: seq<Goal>, goal: Goal)
    ensures (exists g :: g in goals && g.id == goal.id) ==> Adopted(goals, goal) == goals
    ensures (forall g :: g in goals ==> g.id != goal.id) ==> Adopted(goals, goal) == Pruned(goals + [goal])
  {
    hide Pruned;
  }

  /** Moving a goal changes its status and nothing else. */
  lemma {:induction false} MoveIs(goals: seq<Goal>, id: GoalId, status: Status)
    requires UniqueIds(goals)
    ensures forall i :: 0 <= i < |goals| ==>
      WithStatus(goals, id, status)[i] == if goals[i].id == id then goals[i].(status := status) else goals[i]
  {
    if goals != [] {
      var rest, r := goals[1..], WithStatus(goals, id, status);
      if goals[0].id == id {
        forall i | 0 < i < |goals| ensures goals[i].id != id && r[i] == goals[i] {
          assert goals[i] == rest[i - 1] && rest[i - 1] in rest;
        }
      } else {
        MoveIs(rest, id, status);
        assert forall i :: 0 < i < |goals| ==> goals[i] == rest[i - 1] && r[i] == WithStatus(rest, id, status)[i - 1];
      }
    }
  }
}
