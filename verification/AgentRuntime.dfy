/** The runtime's own segments of an admission, statement by statement, each
    against the step of the protocol it takes (src/evomesh/agents.py,
    src/evomesh/storage.py). A method is what runs between two awaits. */
module AgentRuntimes {
  import opened Goals
  import opened Admission
  import opened MindStates
  import opened Options

  /** The durable side: one agent's row, the acceptance ledger, typed executions and
      the delegating operations. */
  class Repository {
    var row: seq<Goal>
    var ledger: map<WorkId, Option<GoalId>>
    var executions: seq<Execution>
    var operations: map<WorkId, Operation>

    constructor ()
      ensures row == [] && ledger == map[] && executions == [] && operations == map[]
    {
      row, ledger, executions, operations := [], map[], [], map[];
    }

    /** `accept_work`: insert the entry or say it was there, and store what `mind`
        is at this moment with the goal adopted; both or neither. */
    method AcceptWork(item: WorkId, staged: Goal, mind: MindState) returns (first: bool)
      requires staged.work == Some(item)
      modifies this`row, this`ledger
      ensures first <==> item !in old(ledger)
      ensures first ==> ledger == old(ledger)[item := Some(staged.id)] && row == Adopted(mind.goals, staged)
      ensures !first ==> ledger == old(ledger) && row == old(row)
    {
      if item in ledger {
        return false;
      }
      ledger := ledger[item := Some(staged.id)];
      var copy := new MindState();
      copy.goals := mind.goals;
      copy.AdoptGoal(staged);
      row := copy.goals;
      return true;
    }
  }

  class AgentRuntime {
    const mind: MindState
    const repository: Repository
    var lock: Lock
    var detached: seq<Detached>
    ghost var saves: seq<seq<Goal>>
    ghost var answered: set<WorkId>
    ghost var owner: map<GoalId, Option<WorkId>>

    constructor (mind: MindState, repository: Repository)
      ensures this.mind == mind && this.repository == repository
      ensures View() == State(mind.goals, repository.row, repository.ledger, Free, [], [],
                              repository.executions, repository.operations, {}, map[])
    {
      this.mind, this.repository := mind, repository;
      lock, detached, saves, answered, owner := Free, [], [], {}, map[];
    }

    /** The protocol state this object, its mind and its repository stand for. */
    ghost function View(): State
      reads this, mind, repository
    {
      State(mind.goals, repository.row, repository.ledger, lock, detached, saves,
            repository.executions, repository.operations, answered, owner)
    }

    /** `_accept` up to its first await, entered with the lock free: an item some
        live goal carries is answered at once, any other gets a staged goal. */
    method Accept(item: WorkId, id: GoalId)
      requires Enabled(View(), Delegate(item, id))
      modifies this
      ensures View() == Step(old(View()), Delegate(item, id))
    {
      var i := 0;
      while i < |mind.goals|
        invariant i <= |mind.goals| && forall j :: 0 <= j < i ==> mind.goals[j].work != Some(item)
      {
        if mind.goals[i].work == Some(item) {
          assert mind.goals[i] in mind.goals;
          answered := answered + {item};
          return;
        }
        i := i + 1;
      }
      owner := owner[id := Some(item)];
      lock := Waiting(item, Goal(id, Pending, None, [], [], Some(item), 0), InFlight);
    }

    /** The transaction the lock's holder awaits takes its turn. */
    method Transact()
      requires Enabled(View(), HolderTransacts) && lock.staged.work == Some(lock.item)
      modifies this`lock, repository`row, repository`ledger
      ensures View() == Step(old(View()), HolderTransacts)
    {
      var first := repository.AcceptWork(lock.item, lock.staged, mind);
      lock := lock.(tx := if first then Committed else AlreadyThere);
    }

    /** Cancellation while the transaction runs: the future keeps running on its own. */
    method Cancel()
      requires Enabled(View(), HolderCancelled)
      modifies this
      ensures View() == Step(old(View()), HolderCancelled)
    {
      match lock {
        case Waiting(_, staged, tx) => detached := detached + [Detached(staged, tx)];
        case Saving(_, snapshot) => saves := saves + [snapshot];
        case _ =>
      }
      lock := Free;
    }

    /** `_recover_admission`. */
    method RecoverAdmission(item: WorkId, staged: Goal) returns (recovery: Recovery)
      ensures recovery == Recover(View(), item, staged)
    {
      if item !in repository.operations {
        return Nothing;
      }
      var record := repository.operations[item];
      if !record.waiting || !record.mine {
        return Nothing;
      }
      if item !in repository.ledger || repository.ledger[item].None? {
        return NeedsHuman;
      }
      var original := repository.ledger[item].value;
      var executions := repository.executions;
      var mine: seq<Execution> := [];
      for i := 0 to |executions|
        invariant mine == Mine(executions[..i], original)
      {
        MineAppend(executions[..i], [executions[i]], original);
        assert executions[..i + 1] == executions[..i] + [executions[i]];
        if executions[i].goal == original {
          mine := mine + [executions[i]];
        }
      }
      assert executions[..|executions|] == executions;
      var goal := staged.(id := original);
      if mine == [] {
        return Install(goal);
      }
      var latest := mine[|mine| - 1];
      goal := goal.(occurrence := latest.occurrence);
      match latest.status {
        case Completed => goal := goal.(status := Done);
        case Failed_ => goal := goal.(status := Failed);
        case Cancelled_ => goal := goal.(status := Failed);
        case Running =>
      }
      return Install(goal);
    }

    /** `_accept` after an await: on a first acceptance, or with what recovery rebuilt,
        the goal joins the live mind and a save of it begins. */
    method Resume()
      requires Enabled(View(), HolderResumes)
      modifies this, mind`goals
      ensures View() == Step(old(View()), HolderResumes)
    {
      if lock.Recovered? {
        mind.AdoptGoal(lock.goal);
        lock := Saving(lock.item, mind.goals);
        return;
      }
      var item, staged := lock.item, lock.staged;
      match lock.tx {
        case Errored =>
          lock := Free;
        case AlreadyThere =>
          var recovered := RecoverAdmission(item, staged);
          match recovered {
            case Nothing =>
              answered := answered + {item};
              lock := Free;
            case NeedsHuman =>
              lock := Free;
            case Install(goal) =>
              lock := Recovered(item, goal);
          }
        case Committed =>
          mind.AdoptGoal(staged);
          lock := Saving(item, mind.goals);
        case InFlight =>
      }
    }

    /** The admission's own save lands and ACCEPT goes out. */
    method Saved()
      requires Enabled(View(), HolderSaved)
      modifies this, repository`row
      ensures View() == Step(old(View()), HolderSaved)
    {
      repository.row := lock.snapshot;
      answered := answered + {lock.item};
      lock := Free;
    }

    /** `_install_committed`: the done-callback of a cancelled admission's transaction. */
    method InstallCommitted(k: nat)
      requires Enabled(View(), DetachedCallback(k))
      modifies this`detached, mind`goals
      ensures View() == Step(old(View()), DetachedCallback(k))
    {
      var done := detached[k];
      detached := detached[..k] + detached[k + 1..];
      if !done.tx.Committed? {
        return;
      }
      mind.AdoptGoal(done.staged);
    }
  }

  lemma {:induction false} MineAppend(a: seq<Execution>, b: seq<Execution>, id: GoalId)
    ensures Mine(a + b, id) == Mine(a, id) + Mine(b, id)
  {
    if a == [] {
      assert a + b == b;
    } else {
      var ab := a + b;
      assert ab[1..] == a[1..] + b && ab[0] == a[0];
      MineAppend(a[1..], b, id);
    }
  }
}
