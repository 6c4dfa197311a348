module Admission {
  // Exactly-once admission of delegated work (src/evomesh/agents.py, src/evomesh/storage.py):
  // one agent, its durable store, its lock, and everything that may happen
  // between two awaits. A step is what runs between two awaits.

  import opened Goals
  import GoalGraph
  import opened Options

  /** Where the transaction of one admission stands. */
  datatype Tx = InFlight | Committed | AlreadyThere | Errored

  /** The agent's lock: free, or held by one admission at one of its awaits. */
  datatype Lock =
    | Free
    | Waiting(item: WorkId, staged: Goal, tx: Tx)     // for the transaction
    | Recovered(item: WorkId, goal: Goal)             // records read, nothing installed yet
    | Saving(item: WorkId, snapshot: seq<Goal>)       // installed, its own save on the way

  /** An admission cancelled while its transaction ran on. */
  datatype Detached = Detached(staged: Goal, tx: Tx)

  datatype ExecutionStatus = Running | Completed | Failed_ | Cancelled_
  datatype Execution = Execution(goal: GoalId, occurrence: nat, work: Option<WorkId>, status: ExecutionStatus)

  /** The delegating parent's operation record for an item. */
  datatype Operation = Operation(waiting: bool, mine: bool)

  /** `ledger` maps an accepted item to the goal id its entry records, which an
      entry of an older program may lack. `owner` remembers what every id ever
      created was created for; `answered` is every item ACCEPT was sent for. */
  datatype State = State(
    live: seq<Goal>,
    row: seq<Goal>,
    ledger: map<WorkId, Option<GoalId>>,
    lock: Lock,
    detached: seq<Detached>,
    saves: seq<seq<Goal>>,
    executions: seq<Execution>,
    operations: map<WorkId, Operation>,
    answered: set<WorkId>,
    owner: map<GoalId, Option<WorkId>>)

  function Staged(id: GoalId, item: WorkId): Goal {
    Goal(id, Pending, None, [], [], Some(item), 0)
  }

  predicate HasWork(goals: seq<Goal>, item: WorkId) {
    exists g :: g in goals && g.work == Some(item)
  }

  // ---- the transaction ----

  /** `accept_work` once it holds the write lock: refused if the entry exists,
      otherwise the entry and the agent as it is now plus the goal, together. */
  function Transact(s: State, staged: Goal): (State, Tx)
    requires staged.work.Some?
  {
    var item := staged.work.value;
    if item in s.ledger then (s, AlreadyThere)
    else (s.(ledger := s.ledger[item := Some(staged.id)], row := Adopted(s.live, staged)), Committed)
  }

  // ---- recovery ----

  datatype Recovery = Nothing | Install(goal: Goal) | NeedsHuman

  /** The executions recorded for one goal, oldest first. */
  function Mine(executions: seq<Execution>, id: GoalId): (mine: seq<Execution>)
    ensures forall e :: e in mine <==> e in executions && e.goal == id
  {
    if executions == [] then []
    else if executions[0].goal == id then [executions[0]] + Mine(executions[1..], id)
    else Mine(executions[1..], id)
  }

  /** The goal rebuilt with its original id, resumed or already ended. */
  function Rebuilt(staged: Goal, id: GoalId, mine: seq<Execution>): Goal {
    var goal := staged.(id := id);
    if mine == [] then goal
    else
      var latest := mine[|mine| - 1];
      var at := goal.(occurrence := latest.occurrence);
      match latest.status
      case Completed => at.(status := Done)
      case Failed_ => at.(status := Failed)
      case Cancelled_ => at.(status := Failed)
      case Running => at
  }

  /** `_recover_admission`: what the records say about an item accepted before. */
  function Recover(s: State, item: WorkId, staged: Goal): Recovery {
    if item !in s.operations then Nothing
    else if !s.operations[item].waiting || !s.operations[item].mine then Nothing
    else if item !in s.ledger || s.ledger[item].None? then NeedsHuman
    else Install(Rebuilt(staged, s.ledger[item].value, Mine(s.executions, s.ledger[item].value)))
  }

  // ---- steps ----

  datatype Event =
    | Delegate(item: WorkId, id: GoalId)          // a DELEGATE, first time or replayed
    | HolderTransacts | HolderTxFails
    | HolderCancelled                             // at whichever await it is
    | HolderResumes                               // the awaited result is there
    | HolderSaved                                 // its own save landed: ACCEPT
    | DetachedTransacts(k: nat) | DetachedTxFails(k: nat)
    | DetachedCallback(k: nat)                    // _install_committed
    | SaveBegins | SaveLands(k: nat) | SaveLost(k: nat)
    | OtherGoal(id: GoalId, parent: Option<GoalId>, deps: seq<GoalId>)
    | GoalMoves(k: nat, status: Status)
    | GoalsDropped(ids: set<GoalId>)              // by hand; pruning drops fewer
    | ExecutionStarts(k: nat) | ExecutionMoves(k: nat, ending: ExecutionStatus)
    | OperationMoves(item: WorkId, op: Operation)
    | Crash                                       // and restart from the store

  /** Whether the event can happen. A new id is one never created before. */
  predicate Enabled(s: State, e: Event) {
    match e
    case Delegate(_, id) => s.lock.Free? && id !in s.owner
    case HolderTransacts => s.lock.Waiting? && s.lock.tx.InFlight? && s.lock.staged.work.Some?
    case HolderTxFails => s.lock.Waiting? && s.lock.tx.InFlight?
    case HolderCancelled => !s.lock.Free?
    case HolderResumes => (s.lock.Waiting? && !s.lock.tx.InFlight?) || s.lock.Recovered?
    case HolderSaved => s.lock.Saving?
    case DetachedTransacts(k) => k < |s.detached| && s.detached[k].tx.InFlight? && s.detached[k].staged.work.Some?
    case DetachedTxFails(k) => k < |s.detached| && s.detached[k].tx.InFlight?
    case DetachedCallback(k) => k < |s.detached| && !s.detached[k].tx.InFlight?
    case SaveBegins => true
    case SaveLands(k) => k < |s.saves|
    case SaveLost(k) => k < |s.saves|
    case OtherGoal(id, parent, deps) => id !in s.owner && AddGoal(s.live, id, parent, deps).Added?
    case GoalMoves(k, _) => k < |s.live|
    case GoalsDropped(_) => true
    case ExecutionStarts(k) => k < |s.live| && !s.live[k].IsClosed()
    case ExecutionMoves(k, _) => k < |s.executions|
    case OperationMoves(_, _) => true
    case Crash => true
  }

  function Removed<T>(xs: seq<T>, k: nat): seq<T>
    requires k < |xs|
  {
    xs[..k] + xs[k + 1..]
  }

  function Install_(s: State, item: WorkId, goal: Goal): State {
    var live := Adopted(s.live, goal);
    s.(live := live, lock := Saving(item, live))
  }

  /** The admission goes on with the result it waited for. */
  function Resume(s: State): State
    requires Enabled(s, HolderResumes)
  {
    match s.lock
    case Waiting(item, staged, tx) =>
      (match tx
       case Committed => Install_(s, item, staged)
       case Errored => s.(lock := Free)
       case AlreadyThere =>
         (match Recover(s, item, staged)
          case Nothing => s.(lock := Free, answered := s.answered + {item})
          case NeedsHuman => s.(lock := Free)
          case Install(goal) => s.(lock := Recovered(item, goal)))
       case InFlight => s)
    case Recovered(item, goal) => Install_(s, item, goal)
    case _ => s
  }

  function Step(s: State, e: Event): State
    requires Enabled(s, e)
  {
    match e
    case Delegate(item, id) =>
      if HasWork(s.live, item) then s.(answered := s.answered + {item})
      else s.(lock := Waiting(item, Staged(id, item), InFlight), owner := s.owner[id := Some(item)])
    case HolderTransacts =>
      var (t, tx) := Transact(s, s.lock.staged);
      t.(lock := s.lock.(tx := tx))
    case HolderTxFails => s.(lock := s.lock.(tx := Errored))
    case HolderCancelled =>
      (match s.lock
       case Waiting(_, staged, tx) => s.(lock := Free, detached := s.detached + [Detached(staged, tx)])
       case Saving(_, snapshot) => s.(lock := Free, saves := s.saves + [snapshot])
       case _ => s.(lock := Free))
    case HolderResumes => Resume(s)
    case HolderSaved => s.(row := s.lock.snapshot, answered := s.answered + {s.lock.item}, lock := Free)
    case DetachedTransacts(k) =>
      var (t, tx) := Transact(s, s.detached[k].staged);
      t.(detached := s.detached[k := s.detached[k].(tx := tx)])
    case DetachedTxFails(k) => s.(detached := s.detached[k := s.detached[k].(tx := Errored)])
    case DetachedCallback(k) =>
      var rest := s.(detached := Removed(s.detached, k));
      if s.detached[k].tx.Committed? then rest.(live := Adopted(s.live, s.detached[k].staged)) else rest
    case SaveBegins => s.(saves := s.saves + [s.live])
    case SaveLands(k) => s.(row := s.saves[k], saves := Removed(s.saves, k))
    case SaveLost(k) => s.(saves := Removed(s.saves, k))
    case OtherGoal(id, parent, deps) =>
      s.(live := AddGoal(s.live, id, parent, deps).goals, owner := s.owner[id := None])
    case GoalMoves(k, status) => s.(live := s.live[k := s.live[k].(status := status)])
    case GoalsDropped(ids) => s.(live := Without(s.live, ids))
    case ExecutionStarts(k) =>
      var g := s.live[k];
      if exists x :: x in s.executions && x.goal == g.id && x.occurrence == g.occurrence && x.status.Running? then s
      else s.(executions := s.executions + [Execution(g.id, g.occurrence, g.work, Running)])
    case ExecutionMoves(k, status) => s.(executions := s.executions[k := s.executions[k].(status := status)])
    case OperationMoves(item, op) => s.(operations := s.operations[item := op])
    case Crash => s.(live := s.row, lock := Free, detached := [], saves := [])
  }

  // ---- the invariant ----

  /** `g` was created for what it says, and if it is delegated work the ledger names it. */
  ghost predicate Registered(s: State, g: Goal) {
    && g.id in s.owner && s.owner[g.id] == g.work
    && (g.work.Some? ==> g.work.value in s.ledger && s.ledger[g.work.value] == Some(g.id) && g.occurrence == 0)
  }

  ghost predicate ListOk(s: State, goals: seq<Goal>) {
    UniqueIds(goals) && forall g :: g in goals ==> Registered(s, g)
  }

  /** A staged goal is its item's; until its transaction commits no ledger entry names it. */
  ghost predicate StagedOk(s: State, staged: Goal, tx: Tx) {
    && staged.work.Some?
    && staged.id in s.owner && s.owner[staged.id] == staged.work
    && staged.occurrence == 0
    && (tx.Committed? ==> Registered(s, staged))
    && (tx.AlreadyThere? ==> staged.work.value in s.ledger)
  }

  ghost predicate LockOk(s: State) {
    match s.lock
    case Free => true
    case Waiting(item, staged, tx) => staged.work == Some(item) && StagedOk(s, staged, tx)
    case Recovered(item, goal) => goal.work == Some(item) && Registered(s, goal)
    case Saving(item, snapshot) => ListOk(s, snapshot) && item in s.ledger && HasWork(snapshot, item)
  }

  ghost predicate Inv(s: State) {
    && ListOk(s, s.live) && ListOk(s, s.row)
    && (forall k :: 0 <= k < |s.saves| ==> ListOk(s, s.saves[k]))
    && (forall k :: 0 <= k < |s.detached| ==> StagedOk(s, s.detached[k].staged, s.detached[k].tx))
    && LockOk(s)
    && (forall w :: w in s.ledger && s.ledger[w].Some? ==>
          s.ledger[w].value in s.owner && s.owner[s.ledger[w].value] == Some(w))
    && s.answered <= s.ledger.Keys
    && (forall x :: x in s.executions ==>
          && x.goal in s.owner && s.owner[x.goal] == x.work
          && (x.work.Some? ==> x.work.value in s.ledger && s.ledger[x.work.value] == Some(x.goal) && x.occurrence == 0))
  }

  /** Bookkeeping only grows and never changes its mind. */
  ghost predicate Extends(s: State, t: State) {
    && (forall w :: w in s.ledger ==> w in t.ledger && t.ledger[w] == s.ledger[w])
    && (forall id :: id in s.owner ==> id in t.owner && t.owner[id] == s.owner[id])
    && s.answered <= t.answered
  }

  // ---- every step keeps the invariant ----

  lemma ListStays(s: State, t: State, goals: seq<Goal>)
    requires Extends(s, t) && ListOk(s, goals)
    ensures ListOk(t, goals)
  {
  }

  lemma StagedStays(s: State, t: State, staged: Goal, tx: Tx)
    requires Extends(s, t) && StagedOk(s, staged, tx)
    ensures StagedOk(t, staged, tx)
  {
  }

  lemma LockStays(s: State, t: State)
    requires Extends(s, t) && LockOk(s) && t.lock == s.lock
    ensures LockOk(t)
  {
    hide UniqueIds;
  }

  lemma NoLock(s: State)
    requires s.lock.Free?
    ensures LockOk(s)
  {
  }

  lemma AdoptedOk(s: State, goals: seq<Goal>, goal: Goal)
    requires ListOk(s, goals) && Registered(s, goal)
    ensures ListOk(s, Adopted(goals, goal))
  {
    AdoptedFacts(goals, goal);
  }

  lemma PickedUnique(goals: seq<Goal>, k: nat, status: Status)
    requires k < |goals| && UniqueIds(goals)
    ensures UniqueIds(goals[k := goals[k].(status := status)])
  {
    SameIdsUnique(goals, goals[k := goals[k].(status := status)]);
  }

  lemma {:induction false} SameIdsUnique(a: seq<Goal>, b: seq<Goal>)
    requires |a| == |b| && (forall i :: 0 <= i < |a| ==> a[i].id == b[i].id) && UniqueIds(a)
    ensures UniqueIds(b)
  {
    if a != [] {
      SameIdsUnique(a[1..], b[1..]);
      forall g | g in b[1..] ensures g.id != b[0].id {
        var k :| 0 <= k < |b[1..]| && b[1..][k] == g;
        assert a[1..][k] in a[1..];
      }
    }
  }

  /** A transaction keeps what is known, and tells the truth about what it did. */
  lemma TransactOk(s: State, staged: Goal, tx: Tx)
    requires Inv(s) && StagedOk(s, staged, tx)
    ensures var (t, r) := Transact(s, staged);
      && Extends(s, t) && StagedOk(t, staged, r) && ListOk(t, t.row)
      && t == s.(ledger := t.ledger, row := t.row)
      && (forall w :: w in t.ledger && t.ledger[w].Some? ==>
            t.ledger[w].value in t.owner && t.owner[t.ledger[w].value] == Some(w))
  {
    var (t, r) := Transact(s, staged);
    if staged.work.value !in s.ledger {
      assert Registered(t, staged);
      ListStays(s, t, s.live);
      AdoptedOk(t, s.live, staged);
    }
  }

  lemma RecoverOk(s: State, item: WorkId, staged: Goal)
    requires Inv(s) && staged.work == Some(item) && staged.occurrence == 0
    ensures Recover(s, item, staged).Install? ==>
      var goal := Recover(s, item, staged).goal;
      Registered(s, goal) && goal.work == Some(item)
  {
    if Recover(s, item, staged).Install? {
      var id := s.ledger[item].value;
      var mine := Mine(s.executions, id);
      assert s.owner[id] == Some(item);
      if mine != [] {
        assert mine[|mine| - 1] in mine;
      }
    }
  }

  /** The parts of the invariant that only bookkeeping can change survive when it only grows. */
  lemma Carry(s: State, t: State)
    requires Inv(s) && Extends(s, t)
    requires t.saves == s.saves && t.detached == s.detached && t.executions == s.executions
    ensures forall k :: 0 <= k < |t.saves| ==> ListOk(t, t.saves[k])
    ensures forall k :: 0 <= k < |t.detached| ==> StagedOk(t, t.detached[k].staged, t.detached[k].tx)
    ensures ListOk(t, s.live) && ListOk(t, s.row)
    ensures t.lock == s.lock ==> LockOk(t)
    ensures forall x :: x in t.executions ==>
          && x.goal in t.owner && t.owner[x.goal] == x.work
          && (x.work.Some? ==> x.work.value in t.ledger && t.ledger[x.work.value] == Some(x.goal) && x.occurrence == 0)
  {
    forall k | 0 <= k < |t.saves| ensures ListOk(t, t.saves[k]) {
      ListStays(s, t, s.saves[k]);
    }
  }

  lemma HolderKeeps(s: State, e: Event)
    requires Inv(s) && Enabled(s, e)
    requires e.HolderTransacts? || e.HolderTxFails? || e.HolderCancelled? || e.HolderSaved?
    ensures Inv(Step(s, e)) && Extends(s, Step(s, e))
  {
    var t := Step(s, e);
    if e.HolderTransacts? {
      TransactOk(s, s.lock.staged, s.lock.tx);
      var u := Transact(s, s.lock.staged).0;
      Carry(s, u);
      assert t == u.(lock := t.lock);
    }
  }

  lemma DetachedKeeps(s: State, e: Event)
    requires Inv(s) && Enabled(s, e)
    requires e.DetachedTransacts? || e.DetachedTxFails? || e.DetachedCallback?
    ensures Inv(Step(s, e)) && Extends(s, Step(s, e))
  {
    var t := Step(s, e);
    if e.DetachedTransacts? {
      TransactOk(s, s.detached[e.k].staged, s.detached[e.k].tx);
      var u := Transact(s, s.detached[e.k].staged).0;
      Carry(s, u);
      assert t == u.(detached := t.detached);
    } else if e.DetachedCallback? && s.detached[e.k].tx.Committed? {
      AdoptedOk(s, s.live, s.detached[e.k].staged);
    }
  }

  lemma DelegateKeeps(s: State, item: WorkId, id: GoalId)
    requires Inv(s) && Enabled(s, Delegate(item, id))
    ensures Inv(Step(s, Delegate(item, id))) && Extends(s, Step(s, Delegate(item, id)))
  {
    if !HasWork(s.live, item) {
      Carry(s, s.(owner := s.owner[id := Some(item)]));
    }
  }

  /** Adopting a registered goal leaves a goal for its item in the list, whichever was there. */
  lemma AdoptedHasWork(s: State, goals: seq<Goal>, goal: Goal, item: WorkId)
    requires ListOk(s, goals) && Registered(s, goal) && goal.work == Some(item)
    ensures HasWork(Adopted(goals, goal), item)
  {
    hide Adopted, UniqueIds;
    AdoptedFacts(goals, goal);
    var x :| x in Adopted(goals, goal) && x.id == goal.id;
    assert x in goals ==> Registered(s, x);
  }

  lemma ResumeKeeps(s: State)
    requires Inv(s) && Enabled(s, HolderResumes)
    ensures Inv(Resume(s)) && Extends(s, Resume(s))
  {
    hide Adopted, HasWork, UniqueIds;
    match s.lock
    case Waiting(item, staged, tx) =>
      RecoverOk(s, item, staged);
      if tx.Committed? {
        AdoptedOk(s, s.live, staged);
        AdoptedHasWork(s, s.live, staged, item);
      }
    case Recovered(item, goal) =>
      AdoptedOk(s, s.live, goal);
      AdoptedHasWork(s, s.live, goal, item);
    case _ =>
  }

  predicate SameIdentity(a: Goal, b: Goal) {
    a.id == b.id && a.work == b.work && a.occurrence == b.occurrence
  }

  /** Adding an unrelated goal keeps identity, work and occurrence of every other. */
  lemma AddedFacts(goals: seq<Goal>, id: GoalId, parent: Option<GoalId>, deps: seq<GoalId>)
    requires UniqueIds(goals) && !Has(goals, id) && AddGoal(goals, id, parent, deps).Added?
    ensures var after := AddGoal(goals, id, parent, deps).goals;
      && UniqueIds(after)
      && forall g :: g in after ==>
           (g.id == id && g.work == None) || exists o :: o in goals && SameIdentity(o, g)
  {
    var goal := Goal(id, Pending, parent, [], deps, None, 0);
    var longer, told := goals + [goal], Appended(goals, goal);
    AppendKeeps(goals, goal);
    if parent.Some? {
      GoalGraph.WithChildFacts(longer, parent.value, id);
    }
    SameIdsUnique(longer, told);
    PrunedFacts(told);
    forall g | g in Pruned(told)
      ensures (g.id == id && g.work == None) || exists o :: o in goals && SameIdentity(o, g)
    {
      var k :| 0 <= k < |told| && told[k] == g;
      if k < |goals| {
        assert longer[k] == goals[k] && goals[k] in goals;
        assert SameIdentity(goals[k], g);
      }
    }
  }

  lemma AddedIsOk(u: State, goals: seq<Goal>, id: GoalId, parent: Option<GoalId>, deps: seq<GoalId>)
    requires ListOk(u, goals) && !Has(goals, id) && AddGoal(goals, id, parent, deps).Added?
    requires id in u.owner && u.owner[id] == None
    ensures ListOk(u, AddGoal(goals, id, parent, deps).goals)
  {
    hide AddGoal, UniqueIds;
    AddedFacts(goals, id, parent, deps);
    var after := AddGoal(goals, id, parent, deps).goals;
    forall g | g in after ensures Registered(u, g) {
      if !(g.id == id && g.work == None) {
        var o :| o in goals && SameIdentity(o, g);
        assert Registered(u, o);
      }
    }
  }

  lemma OtherGoalKeeps(s: State, id: GoalId, parent: Option<GoalId>, deps: seq<GoalId>)
    requires Inv(s) && Enabled(s, OtherGoal(id, parent, deps))
    ensures Inv(Step(s, OtherGoal(id, parent, deps)))
    ensures Extends(s, Step(s, OtherGoal(id, parent, deps)))
  {
    hide AddGoal, UniqueIds, LockOk;
    var u := s.(owner := s.owner[id := None]);
    Carry(s, u);
    assert !Has(s.live, id) by {
      assert forall g :: g in s.live ==> Registered(s, g);
    }
    AddedIsOk(u, s.live, id, parent, deps);
    LiveChanges(u, AddGoal(s.live, id, parent, deps).goals);
  }

  /** The lock's invariant does not look at the live list. */
  lemma LiveChanges(s: State, live: seq<Goal>)
    requires LockOk(s)
    ensures LockOk(s.(live := live))
  {
  }

  lemma GoalsKeep(s: State, e: Event)
    requires Inv(s) && Enabled(s, e) && (e.GoalMoves? || e.GoalsDropped?)
    ensures Inv(Step(s, e)) && Extends(s, Step(s, e))
  {
    if e.GoalMoves? {
      PickedUnique(s.live, e.k, e.status);
      assert s.live[e.k] in s.live;
      var t := Step(s, e);
      assert forall g :: g in t.live ==> g in s.live || g == s.live[e.k].(status := e.status);
    } else {
      WithoutKeeps(s.live, e.ids);
    }
  }

  lemma ExecutionsKeep(s: State, e: Event)
    requires Inv(s) && Enabled(s, e) && (e.ExecutionStarts? || e.ExecutionMoves?)
    ensures Inv(Step(s, e)) && Extends(s, Step(s, e))
  {
    var t := Step(s, e);
    if e.ExecutionStarts? {
      var g := s.live[e.k];
      assert g in s.live;
      assert forall x :: x in t.executions ==> x in s.executions || x == Execution(g.id, g.occurrence, g.work, Running);
    } else {
      assert s.executions[e.k] in s.executions;
      assert forall x :: x in t.executions ==> x in s.executions || x == s.executions[e.k].(status := e.ending);
    }
  }

  lemma SavesKeep(s: State, e: Event)
    requires Inv(s) && Enabled(s, e) && (e.SaveBegins? || e.SaveLands? || e.SaveLost? || e.OperationMoves? || e.Crash?)
    ensures Inv(Step(s, e)) && Extends(s, Step(s, e))
  {
    hide ListOk, StagedOk, LockOk, Resume, Install_, Transact;
    var t := Step(s, e);
    assert t.ledger == s.ledger && t.owner == s.owner && t.answered <= s.answered && s.answered <= t.answered;
    ListStays(s, t, s.live);
    ListStays(s, t, s.row);
    forall k | 0 <= k < |s.saves| ensures ListOk(t, s.saves[k]) {
      ListStays(s, t, s.saves[k]);
    }
    forall k | 0 <= k < |s.detached| ensures StagedOk(t, s.detached[k].staged, s.detached[k].tx) {
      StagedStays(s, t, s.detached[k].staged, s.detached[k].tx);
    }
    if e.Crash? {
      NoLock(t);
    } else {
      LockStays(s, t);
    }
  }

  /** Every step keeps the invariant, and an accepted item, a ledger entry and an
      id's owner are for good. */
  lemma StepKeeps(s: State, e: Event)
    requires Inv(s) && Enabled(s, e)
    ensures Inv(Step(s, e)) && Extends(s, Step(s, e))
  {
    match e
    case Delegate(item, id) => DelegateKeeps(s, item, id);
    case HolderTransacts => HolderKeeps(s, e);
    case HolderTxFails => HolderKeeps(s, e);
    case HolderCancelled => HolderKeeps(s, e);
    case HolderResumes => ResumeKeeps(s);
    case HolderSaved => HolderKeeps(s, e);
    case DetachedTransacts(_) => DetachedKeeps(s, e);
    case DetachedTxFails(_) => DetachedKeeps(s, e);
    case DetachedCallback(_) => DetachedKeeps(s, e);
    case OtherGoal(id, parent, deps) => OtherGoalKeeps(s, id, parent, deps);
    case GoalMoves(_, _) => GoalsKeep(s, e);
    case GoalsDropped(_) => GoalsKeep(s, e);
    case ExecutionStarts(_) => ExecutionsKeep(s, e);
    case ExecutionMoves(_, _) => ExecutionsKeep(s, e);
    case _ => SavesKeep(s, e);
  }

  // ---- whole runs ----

  /** A store nothing was delegated to by this program yet; older ledger entries record no goal. */
  ghost predicate Initial(s: State) {
    && UniqueIds(s.live) && s.row == s.live
    && (forall g :: g in s.live ==> g.work.None? && g.id in s.owner && s.owner[g.id] == None)
    && (forall w :: w in s.ledger ==> s.ledger[w].None?)
    && s.lock.Free? && s.detached == [] && s.saves == [] && s.executions == [] && s.answered == {}
  }

  /** `run[i + 1]` is what `events[i]` makes of `run[i]`. */
  ghost predicate IsRun(run: seq<State>, events: seq<Event>) {
    && |run| == |events| + 1 && Initial(run[0])
    && forall i :: 0 <= i < |events| ==> Enabled(run[i], events[i]) && run[i + 1] == Step(run[i], events[i])
  }

  lemma {:induction false} RunKeeps(run: seq<State>, events: seq<Event>, i: nat, j: nat)
    requires IsRun(run, events) && i <= j < |run|
    ensures Inv(run[j]) && Extends(run[i], run[j])
    decreases j
  {
    hide Inv, Step, Enabled, Extends, Initial;
    if j == 0 {
      InitialOk(run[0]);
    } else {
      var m := j - 1;
      RunKeeps(run, events, if i < j then i else m, m);
      StepKeeps(run[m], events[m]);
      if i < j {
        ExtendsOn(run[i], run[m], run[j]);
      } else {
        ExtendsSelf(run[j]);
      }
    }
  }

  lemma InitialOk(s: State)
    requires Initial(s)
    ensures Inv(s) && Extends(s, s)
  {
  }

  lemma ExtendsSelf(s: State)
    ensures Extends(s, s)
  {
  }

  lemma ExtendsOn(s: State, t: State, u: State)
    requires Extends(s, t) && Extends(t, u)
    ensures Extends(s, u)
  {
  }

  /** Wherever a goal of the agent is: in its mind, in its stored row, or in a save on the way. */
  ghost predicate Present(s: State, g: Goal) {
    g in s.live || g in s.row || exists k :: 0 <= k < |s.saves| && g in s.saves[k]
  }

  /** One goal per work item, ever: over every interleaving of replays, failed and
      cancelled transactions, overwriting saves, pruning and crashes, any two goals
      ever present for one item have the one id its ledger entry records. */
  lemma OneGoalPerWorkItem(run: seq<State>, events: seq<Event>, i: nat, j: nat, a: Goal, b: Goal, w: WorkId)
    requires IsRun(run, events) && i < |run| && j < |run|
    requires Present(run[i], a) && Present(run[j], b) && a.work == Some(w) && b.work == Some(w)
    ensures a.id == b.id
    ensures var last := run[|run| - 1]; w in last.ledger && last.ledger[w] == Some(a.id)
  {
    RunKeeps(run, events, i, |run| - 1);
    RunKeeps(run, events, j, |run| - 1);
    RunKeeps(run, events, i, i);
    RunKeeps(run, events, j, j);
  }

  /** The live mind never holds two goals for one item. */
  lemma NeverTwoLive(run: seq<State>, events: seq<Event>, i: nat, a: Goal, b: Goal)
    requires IsRun(run, events) && i < |run|
    requires a in run[i].live && b in run[i].live && a.work.Some? && a.work == b.work
    ensures a == b
  {
    RunKeeps(run, events, i, i);
    SameId(run[i].live, a, b);
  }

  /** An ACCEPT was never sent for an item without a ledger entry. */
  lemma AcceptIsDurable(run: seq<State>, events: seq<Event>, i: nat, w: WorkId)
    requires IsRun(run, events) && i < |run| && w in run[i].answered
    ensures forall j :: i <= j < |run| ==> w in run[j].ledger
  {
    forall j | i <= j < |run| ensures w in run[j].ledger {
      RunKeeps(run, events, i, j);
      RunKeeps(run, events, i, i);
    }
  }

  /** No run ever creates a second execution key for an item. */
  lemma OneExecutionKey(run: seq<State>, events: seq<Event>, i: nat, j: nat, x: Execution, y: Execution)
    requires IsRun(run, events) && i < |run| && j < |run|
    requires x in run[i].executions && y in run[j].executions && x.work.Some? && x.work == y.work
    ensures x.goal == y.goal && x.occurrence == y.occurrence
  {
    RunKeeps(run, events, i, |run| - 1);
    RunKeeps(run, events, j, |run| - 1);
    RunKeeps(run, events, i, i);
    RunKeeps(run, events, j, j);
  }

  // ---- what one delegation does when nothing interferes ----

  function Replay(s: State, item: WorkId, id: GoalId): (State, State)
    requires Enabled(s, Delegate(item, id)) && !HasWork(s.live, item)
  {
    var asked := Step(s, Delegate(item, id));
    var written := Step(asked, HolderTransacts);
    (written, Step(written, HolderResumes))
  }

  /** A first delegation: the entry and the stored goal appear together, so that a crash
      right after finds both, and resuming makes the same goal live. */
  lemma FirstDelegation(s: State, item: WorkId, id: GoalId)
    requires Inv(s) && Enabled(s, Delegate(item, id)) && item !in s.ledger
    ensures !HasWork(s.live, item)
    ensures var (written, resumed) := Replay(s, item, id);
      && written.ledger == s.ledger[item := Some(id)]
      && written.row == Adopted(s.live, Staged(id, item)) && Staged(id, item) in written.row
      && resumed.live == written.row && resumed.lock == Saving(item, resumed.live)
  {
    assert !Has(s.live, id);
    hide Inv;
    AdoptedFacts(s.live, Staged(id, item));
    FirstSteps(s, item, id);
  }

  lemma FirstSteps(s: State, item: WorkId, id: GoalId)
    requires Enabled(s, Delegate(item, id)) && item !in s.ledger && !HasWork(s.live, item)
    ensures var (written, resumed) := Replay(s, item, id);
      && written.ledger == s.ledger[item := Some(id)] && written.row == Adopted(s.live, Staged(id, item))
      && resumed.live == written.row && resumed.lock == Saving(item, resumed.live)
  {
    hide Recover, HasWork, Adopted;
  }

  lemma ReplayAnswers(s: State, item: WorkId, id: GoalId)
    requires Inv(s) && Enabled(s, Delegate(item, id)) && item in s.ledger && !HasWork(s.live, item)
    ensures var (written, resumed) := Replay(s, item, id);
      && written.row == s.row && written.ledger == s.ledger && resumed.live == s.live
      && (match Recover(s, item, Staged(id, item))
          case Nothing => resumed.lock.Free? && resumed.answered == s.answered + {item}
          case NeedsHuman => resumed.lock.Free? && resumed.answered == s.answered
          case Install(goal) => resumed.lock == Recovered(item, goal) && resumed.answered == s.answered)
  {
    hide Inv, Rebuilt, Mine;
  }

  /** What is rebuilt: the latest execution's occurrence, already ended if that one has. */
  lemma RebuiltFollows(staged: Goal, id: GoalId, mine: seq<Execution>)
    requires staged.status.Pending? && staged.occurrence == 0
    ensures var goal := Rebuilt(staged, id, mine);
      && goal.id == id && goal.work == staged.work
      && (mine == [] ==> goal.status.Pending? && goal.occurrence == 0)
      && (mine != [] ==>
            var latest := mine[|mine| - 1];
            && goal.occurrence == latest.occurrence
            && (goal.IsClosed() <==> !latest.status.Running?)
            && (goal.status.Done? <==> latest.status.Completed?))
  {
  }

  lemma RecoveredGoesLive(s: State, item: WorkId, goal: Goal)
    requires Inv(s) && s.lock == Recovered(item, goal) && !HasWork(s.live, item)
    ensures var t := Step(s, HolderResumes);
      goal in t.live && forall g :: g in s.live && !g.IsClosed() ==> g in t.live
  {
    forall g | g in s.live ensures g.id != goal.id {
      assert g.work != Some(item);
    }
    AdoptedFacts(s.live, goal);
  }

  /** A replay of an accepted item whose goal was lost brings a goal back exactly when the
      delegating operation still waits on this agent and the entry says which goal it was;
      the goal has the recorded id, the latest execution's occurrence, and is already
      ended if that execution is. */
  lemma ReplayRecovers(s: State, item: WorkId, id: GoalId)
    requires Inv(s) && Enabled(s, Delegate(item, id)) && item in s.ledger && !HasWork(s.live, item)
    ensures var (written, resumed) := Replay(s, item, id);
      var waits := item in s.operations && s.operations[item].waiting && s.operations[item].mine;
      && written.row == s.row && written.ledger == s.ledger && resumed.live == s.live
      && (resumed.lock.Recovered? <==> waits && s.ledger[item].Some?)
      && (item in resumed.answered && item !in s.answered ==> !waits)
    ensures var resumed := Replay(s, item, id).1;
      resumed.lock.Recovered? ==>
        var t := Step(resumed, HolderResumes);
        var goal := resumed.lock.goal;
        var mine := Mine(s.executions, s.ledger[item].value);
        && goal in t.live && goal.id == s.ledger[item].value && goal.work == Some(item)
        && (forall g :: g in s.live && !g.IsClosed() ==> g in t.live)
        && (mine == [] ==> goal.status.Pending? && goal.occurrence == 0)
        && (mine != [] ==>
              var latest := mine[|mine| - 1];
              && goal.occurrence == latest.occurrence
              && (goal.IsClosed() <==> !latest.status.Running?)
              && (goal.status.Done? <==> latest.status.Completed?))
  {
    hide Inv, Step, Mine, Rebuilt, Replay;
    ReplayAnswers(s, item, id);
    var resumed := Replay(s, item, id).1;
    if resumed.lock.Recovered? {
      ReplayKeeps(s, item, id);
      RebuiltFollows(Staged(id, item), s.ledger[item].value, Mine(s.executions, s.ledger[item].value));
      RecoveredGoesLive(resumed, item, resumed.lock.goal);
    }
  }

  lemma ReplayKeeps(s: State, item: WorkId, id: GoalId)
    requires Inv(s) && Enabled(s, Delegate(item, id)) && !HasWork(s.live, item)
    ensures Inv(Replay(s, item, id).1)
  {
    hide Inv, Extends;
    StepKeeps(s, Delegate(item, id));
    var asked := Step(s, Delegate(item, id));
    StepKeeps(asked, HolderTransacts);
    StepKeeps(Step(asked, HolderTransacts), HolderResumes);
  }
}
