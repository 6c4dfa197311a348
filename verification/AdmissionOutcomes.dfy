module AdmissionOutcomes {
  // What an admission comes to, told on the live list, the stored row, the ledger and the
  // answers: undisturbed from DELEGATE to ACCEPT, failed, cancelled at each await, or cut off
  // by a crash (src/evomesh/agents.py:430-577).

  import opened Admission
  import opened Goals
  import opened Options

  // ---- the admission's own save ----

  /** Whether the delegating operation still waits on this agent. */
  predicate Waits(s: State, item: WorkId) {
    item in s.operations && s.operations[item].waiting && s.operations[item].mine
  }

  /** When the admission's own save lands, the goal is in the stored row whatever was saved
      over it meanwhile, the ACCEPT goes out, and the lock is free. Nothing else changes. */
  lemma SavedPutsGoalBack(run: seq<State>, events: seq<Event>, i: nat)
    requires IsRun(run, events) && i < |events| && events[i].HolderSaved?
    ensures run[i].lock.Saving?
    ensures var s, t := run[i], run[i + 1]; var item := s.lock.item;
      && t.lock.Free? && t.answered == s.answered + {item}
      && (exists g :: g in t.row && g.work == Some(item)) && item in t.ledger
      && (forall g :: g in t.row && g.work == Some(item) ==> t.ledger[item] == Some(g.id))
      && t.live == s.live && t.ledger == s.ledger && t.detached == s.detached && t.saves == s.saves
  {
    RunKeeps(run, events, i, i);
  }

  /** ACCEPT goes out on three occasions only: the live mind holds the item already, the
      admission's own save has landed, or the entry exists and nothing waits for the goal. */
  lemma AnsweredOnlyWhen(run: seq<State>, events: seq<Event>, i: nat, item: WorkId)
    requires IsRun(run, events) && i < |events|
    requires item in run[i + 1].answered && item !in run[i].answered
    ensures var s, t := run[i], run[i + 1];
      || (events[i].Delegate? && events[i].item == item && exists g :: g in s.live && g.work == Some(item))
      || (events[i].HolderSaved? && exists g :: g in t.row && g.work == Some(item))
      || (events[i].HolderResumes? && item in s.ledger && !Waits(s, item))
  {
    hide Step, Enabled, Inv, Initial, Extends;
    AnsweredBy(run[i], events[i], item);
    if events[i].HolderSaved? {
      SavedPutsGoalBack(run, events, i);
    } else if events[i].HolderResumes? {
      RunKeeps(run, events, i, i);
      AlreadyThereIsEntered(run[i]);
    }
  }

  lemma AnsweredBy(s: State, e: Event, item: WorkId)
    requires Enabled(s, e) && item in Step(s, e).answered && item !in s.answered
    ensures || (e.Delegate? && e.item == item && HasWork(s.live, item))
            || (e.HolderSaved? && s.lock.Saving? && item == s.lock.item)
            || (e.HolderResumes? && s.lock.Waiting? && s.lock.tx.AlreadyThere? && s.lock.item == item)
    ensures e.HolderResumes? ==> item !in s.ledger || !Waits(s, item)
  {
    hide Adopted, Rebuilt, Mine, AddGoal, Without;
  }

  lemma AlreadyThereIsEntered(s: State)
    requires Inv(s)
    ensures s.lock.Waiting? && s.lock.tx.AlreadyThere? ==> s.lock.item in s.ledger
  {
  }

  // ---- undisturbed ----

  /** One admission with nothing in between: asked, written, resumed, installed, saved. */
  function Undisturbed(s: State, item: WorkId, id: GoalId): State
    requires Enabled(s, Delegate(item, id))
  {
    var asked := Step(s, Delegate(item, id));
    if asked.lock.Free? then asked
    else
      var resumed := Step(Step(asked, HolderTransacts), HolderResumes);
      var installed := if resumed.lock.Recovered? then Step(resumed, HolderResumes) else resumed;
      if installed.lock.Saving? then Step(installed, HolderSaved) else installed
  }

  /** An item whose goal is live is accepted at once, and nothing else happens. */
  lemma LiveItemIsAccepted(s: State, item: WorkId, id: GoalId)
    requires Enabled(s, Delegate(item, id)) && exists g :: g in s.live && g.work == Some(item)
    ensures Undisturbed(s, item, id) == s.(answered := s.answered + {item})
  {
  }

  /** A new item: the entry is written with the goal's id, the goal is live and stored, no open
      goal is lost, and the ACCEPT goes out. */
  lemma NewItemIsAdmitted(s: State, item: WorkId, id: GoalId)
    requires Inv(s) && Enabled(s, Delegate(item, id)) && item !in s.ledger
    ensures var t := Undisturbed(s, item, id);
      && t.ledger == s.ledger[item := Some(id)] && t.answered == s.answered + {item} && t.lock.Free?
      && Staged(id, item) in t.live && t.row == t.live
      && (forall g :: g in s.live && !g.IsClosed() ==> g in t.live)
      && (forall g :: g in t.live ==> g in s.live || g == Staged(id, item))
      && t.owner == s.owner[id := Some(item)]
      && t.detached == s.detached && t.saves == s.saves && t.executions == s.executions && t.operations == s.operations
  {
    hide Adopted, Recover, UniqueIds;
    NotLive(s, item);
    assert !Has(s.live, id);
    AdoptedFacts(s.live, Staged(id, item));
  }

  lemma NotLive(s: State, item: WorkId)
    requires Inv(s) && item !in s.ledger
    ensures !HasWork(s.live, item)
  {
  }

  /** An accepted item whose goal was lost. If nothing waits for it, it is accepted again and
      nothing else happens. If the entry does not say which goal it was, it is not accepted
      and nothing happens. Otherwise a goal with the recorded id is live and stored again, no
      open goal is lost, and the ACCEPT goes out. The ledger stays as it is in every case. */
  lemma LostItemIsSettled(s: State, item: WorkId, id: GoalId)
    requires Inv(s) && Enabled(s, Delegate(item, id)) && item in s.ledger && !HasWork(s.live, item)
    ensures var t := Undisturbed(s, item, id);
      && t.lock.Free? && t.ledger == s.ledger && t.owner == s.owner[id := Some(item)]
      && t.detached == s.detached && t.saves == s.saves && t.executions == s.executions && t.operations == s.operations
      && (!Waits(s, item) ==> t.live == s.live && t.row == s.row && t.answered == s.answered + {item})
      && (Waits(s, item) && s.ledger[item].None? ==> t.live == s.live && t.row == s.row && t.answered == s.answered)
      && (Waits(s, item) && s.ledger[item].Some? ==>
            && t.answered == s.answered + {item} && t.row == t.live
            && (exists g :: g in t.live && g.work == Some(item) && g.id == s.ledger[item].value)
            && (forall g :: g in s.live && !g.IsClosed() ==> g in t.live))
  {
    hide Inv, Mine, Rebuilt, Adopted, UniqueIds, Extends;
    ReplayAnswers(s, item, id);
    ReplayKeeps(s, item, id);
    AskedBookkeeping(s, item, id);
    var resumed := Replay(s, item, id).1;
    if resumed.lock.Recovered? {
      RebuiltFollows(Staged(id, item), s.ledger[item].value, Mine(s.executions, s.ledger[item].value));
      RecoveredGoesLive(resumed, item, resumed.lock.goal);
    }
  }

  /** Asking and reading the records leave everything but lock, owner and answers alone. */
  lemma AskedBookkeeping(s: State, item: WorkId, id: GoalId)
    requires Enabled(s, Delegate(item, id)) && item in s.ledger && !HasWork(s.live, item)
    ensures var t := Replay(s, item, id).1;
      && t.owner == s.owner[id := Some(item)] && t.ledger == s.ledger && t.row == s.row
      && t.detached == s.detached && t.saves == s.saves && t.executions == s.executions && t.operations == s.operations
    ensures !Step(s, Delegate(item, id)).lock.Free?
  {
    hide Mine, Rebuilt, HasWork;
  }

  // ---- failed ----

  /** A transaction that fails leaves the agent, its row, the ledger and the answers as they
      were, and the lock free for another try. */
  lemma FailedWriteChangesNothing(s: State, item: WorkId, id: GoalId)
    requires Enabled(s, Delegate(item, id)) && !HasWork(s.live, item)
    ensures var t := Step(Step(Step(s, Delegate(item, id)), HolderTxFails), HolderResumes);
      t == s.(owner := s.owner[id := Some(item)]) && t.lock.Free?
  {
    hide Recover, Adopted;
  }

  // ---- cancelled ----

  /** Cancelled while its transaction is under way, the admission lets go of the lock and
      answers nothing; the transaction runs on, and when it commits, the goal is stored with
      its entry and joins the live mind all the same. */
  lemma CancelledRunsOn(s: State, item: WorkId, id: GoalId)
    requires Inv(s) && Enabled(s, Delegate(item, id)) && item !in s.ledger
    ensures !HasWork(s.live, item)
    ensures var k := |s.detached|;
      var cancelled := Step(Step(s, Delegate(item, id)), HolderCancelled);
      && cancelled.lock.Free? && cancelled.answered == s.answered && cancelled.live == s.live && cancelled.ledger == s.ledger
      && Enabled(cancelled, DetachedTransacts(k))
      && var written := Step(cancelled, DetachedTransacts(k));
      && written.ledger == s.ledger[item := Some(id)] && Staged(id, item) in written.row && written.live == s.live
      && Enabled(written, DetachedCallback(k))
      && var t := Step(written, DetachedCallback(k));
      && Staged(id, item) in t.live && t.row == t.live && t.detached == s.detached
      && t.answered == s.answered && t.lock.Free? && t.ledger == written.ledger
  {
    hide Adopted, Recover, UniqueIds, Inv;
    NotLive(s, item);
    assert !Has(s.live, id) by {
      FreshIsNotLive(s, id);
    }
    InvUnique(s);
    AdoptedFacts(s.live, Staged(id, item));
    DropsLast(s.detached, Detached(Staged(id, item), InFlight), Detached(Staged(id, item), Committed));
  }

  lemma FreshIsNotLive(s: State, id: GoalId)
    requires Inv(s) && id !in s.owner
    ensures !Has(s.live, id)
  {
  }

  lemma InvUnique(s: State)
    requires Inv(s)
    ensures UniqueIds(s.live)
  {
  }

  lemma DropsLast<T>(xs: seq<T>, x: T, y: T)
    ensures (xs + [x])[|xs| := y] == xs + [y] && Removed(xs + [y], |xs|) == xs
  {
  }

  /** If it fails instead, nothing of the admission is left. */
  lemma CancelledAndFailed(s: State, item: WorkId, id: GoalId)
    requires Enabled(s, Delegate(item, id)) && !HasWork(s.live, item)
    ensures var k := |s.detached|;
      var cancelled := Step(Step(s, Delegate(item, id)), HolderCancelled);
      && Enabled(cancelled, DetachedTxFails(k))
      && var failed := Step(cancelled, DetachedTxFails(k));
      && Enabled(failed, DetachedCallback(k))
      && Step(failed, DetachedCallback(k)) == s.(owner := s.owner[id := Some(item)])
  {
    hide Recover, Adopted;
    DropsLast(s.detached, Detached(Staged(id, item), InFlight), Detached(Staged(id, item), Errored));
  }

  /** Cancelled after the commit, before it could go on: the goal still joins the live mind. */
  lemma CancelledAfterCommit(s: State, item: WorkId, id: GoalId)
    requires Inv(s) && Enabled(s, Delegate(item, id)) && item !in s.ledger
    ensures !HasWork(s.live, item)
    ensures var k := |s.detached|;
      var cancelled := Step(Step(Step(s, Delegate(item, id)), HolderTransacts), HolderCancelled);
      && cancelled.lock.Free? && cancelled.answered == s.answered
      && Enabled(cancelled, DetachedCallback(k))
      && var t := Step(cancelled, DetachedCallback(k));
      && Staged(id, item) in t.live && t.row == t.live && t.ledger == s.ledger[item := Some(id)] && t.detached == s.detached
  {
    hide Adopted, Recover, UniqueIds, Inv;
    NotLive(s, item);
    FreshIsNotLive(s, id);
    InvUnique(s);
    AdoptedFacts(s.live, Staged(id, item));
    DropsLast(s.detached, Detached(Staged(id, item), Committed), Detached(Staged(id, item), Committed));
  }

  /** Cancelled with recovered records in hand, it has installed nothing; cancelled during its
      own save, it has answered nothing, and the save under way still holds the goal. */
  lemma CancelledLater(s: State)
    requires Inv(s) && (s.lock.Recovered? || s.lock.Saving?)
    ensures var t := Step(s, HolderCancelled);
      && t.lock.Free? && t.answered == s.answered && t.live == s.live && t.row == s.row && t.ledger == s.ledger
      && t.detached == s.detached
      && (s.lock.Recovered? ==> t.saves == s.saves)
      && (s.lock.Saving? ==>
            && |t.saves| == |s.saves| + 1 && t.saves[..|s.saves|] == s.saves
            && exists g :: g in t.saves[|s.saves|] && g.work == Some(s.lock.item))
  {
  }

  // ---- crashed ----

  /** A crash right after the transaction: the restarted agent holds the goal, and a replay of
      the DELEGATE is accepted without a second goal. */
  lemma CommittedSurvivesCrash(s: State, item: WorkId, id: GoalId, again: GoalId)
    requires Inv(s) && Enabled(s, Delegate(item, id)) && item !in s.ledger && again != id && again !in s.owner
    ensures !HasWork(s.live, item)
    ensures var t := Step(Step(Step(s, Delegate(item, id)), HolderTransacts), Crash);
      && Staged(id, item) in t.live && t.ledger == s.ledger[item := Some(id)] && t.lock.Free? && t.detached == []
      && Enabled(t, Delegate(item, again))
      && Undisturbed(t, item, again) == t.(answered := s.answered + {item})
  {
    hide Adopted, Recover, UniqueIds, Inv;
    NotLive(s, item);
    FreshIsNotLive(s, id);
    InvUnique(s);
    AdoptedFacts(s.live, Staged(id, item));
    var t := Step(Step(Step(s, Delegate(item, id)), HolderTransacts), Crash);
    assert HasWork(t.live, item);
    LiveItemIsAccepted(t, item, again);
  }

  /** A crash forgets what was not stored: the live list becomes the row, locks, saves and
      admissions under way are gone, and the store itself is untouched. */
  lemma CrashForgets(s: State)
    ensures var t := Step(s, Crash);
      && t.live == s.row && t.row == s.row && t.ledger == s.ledger && t.executions == s.executions
      && t.operations == s.operations && t.lock.Free? && t.detached == [] && t.saves == []
  {
  }

  /** A save writes the list as it was when it began, however late it lands. */
  lemma SaveWritesWhatItBeganWith(s: State, live: seq<Goal>)
    ensures var begun := Step(s, SaveBegins).(live := live); var k := |s.saves|;
      && Enabled(begun, SaveLands(k)) && Enabled(begun, SaveLost(k))
      && Step(begun, SaveLands(k)).row == s.live && Step(begun, SaveLands(k)).saves == s.saves
      && Step(begun, SaveLost(k)).row == s.row && Step(begun, SaveLost(k)).saves == s.saves
  {
    DropsLast(s.saves, s.live, s.live);
  }

  /** An open goal starts at most one running execution of its occurrence. */
  lemma StartsOnce(s: State, k: nat)
    requires k < |s.live| && !s.live[k].IsClosed()
    ensures var t := Step(s, ExecutionStarts(k)); var g := s.live[k];
      && (exists x :: x in t.executions && x.goal == g.id && x.occurrence == g.occurrence && x.status.Running?)
      && (forall x :: x in t.executions ==> x in s.executions || (x.goal == g.id && x.occurrence == g.occurrence && x.work == g.work))
      && (forall x :: x in s.executions ==> x in t.executions)
      && Enabled(t, ExecutionStarts(k)) && Step(t, ExecutionStarts(k)) == t
  {
    var t, g := Step(s, ExecutionStarts(k)), s.live[k];
    if t != s {
      assert t.executions[|s.executions|] == Execution(g.id, g.occurrence, g.work, Running);
    }
  }
}
