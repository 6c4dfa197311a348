/** The Evolver's stages as they rewrite the persisted pipeline state
    (src/evomesh/behaviors.py), each proved to take the step the stage machine takes. */
module EvolverBehaviors {
  import opened Evolver
  import opened Options

  class EvolverBehavior {
    const cfg: Config
    /** The persisted pipeline state and what goes with it. */
    var state: State
    /** Every state so far, and what the world answered in between. */
    ghost var run: seq<State>
    ghost var inputs: seq<Input>

    ghost predicate Valid()
      reads this
    {
      IsRun(cfg, run, inputs) && run[|inputs|] == state
    }

    constructor (cfg: Config)
      ensures Valid() && this.cfg == cfg && state == START
    {
      this.cfg := cfg;
      state := START;
      run := [START];
      inputs := [];
    }

    /** The history after one more step. */
    twostate predicate Took(i: Input)
      reads this
    {
      && Enabled(cfg, old(state), i)
      && state == Step(cfg, old(state), i)
      && run == old(run) + [state] && inputs == old(inputs) + [i]
    }

    ghost method Record(i: Input, before: State)
      requires IsRun(cfg, run, inputs) && run[|inputs|] == before
      requires Enabled(cfg, before, i) && state == Step(cfg, before, i)
      modifies this`run, this`inputs
      ensures Valid() && run == old(run) + [state] && inputs == old(inputs) + [i]
    {
      hide Step, Enabled, START;
      run, inputs := run + [state], inputs + [i];
    }

    /** The pick of a new objective: a fresh candidate, nothing of the last one kept. */
    method Open(generation: nat, pick: Pick)
      requires Valid() && Enabled(cfg, state, Opens(generation, pick))
      modifies this
      ensures Valid() && Took(Opens(generation, pick))
    {
      ghost var before := state;
      ResetPipeline();
      state := state.(stage := Propose, generation := generation, pick := pick);
      state := state.(content := 0, validated := None, reviewed := None, excused := None, free := 0);
      Record(Opens(generation, pick), before);
    }

    /** `reset_pipeline`. */
    method ResetPipeline()
      modifies this`state
      ensures state == Reset(old(state))
    {
      state := state.(stage := Plan, pick := Other, passed := None, repairs := 0, digest := "");
      state := state.(reviewAttempts := 0, reviewFailed := false, parked := false, reviewing := None);
    }

    /** `_decide`: the policy acts on a verdict, which the pick may still overrule. */
    method DecideCandidate(verdict: bool, d: Decision)
      modifies this`state
      ensures state == Decide(cfg, old(state), verdict, d)
    {
      var passed := verdict;
      if passed && state.pick.TestOnly? {
        if d.sourceChanged == Some(true) {
          passed := false;
        }
      }
      if passed && (state.pick.Source? || state.pick.Preview?) {
        if d.sourceChanged == Some(false) {
          passed := false;
        }
      }
      if passed && !d.landing.Landed? {
        if cfg.autoPromote && !d.landing.HumanWorkInTheWay? {
          ResetPipeline();
          return;
        }
        state := state.(stage := AwaitHuman, parked := true);
        return;
      }
      if passed {
        var promotion := Promotion(state.generation, state.pick, state.content, state.validated, state.reviewed, state.excused);
        state := state.(promotions := state.promotions + [promotion]);
      }
      ResetPipeline();
    }

    /** `_discard_no_op_or_report`, after the stage was set to report with no verdict. */
    method DiscardNoOp(d: Decision)
      modifies this`state
      ensures state == NothingToValidate(cfg, old(state), d)
    {
      state := state.(stage := Report, passed := None);
      if cfg.autoPromote {
        DecideCandidate(false, d);
      }
    }

    /** `_through_harness`: a job polled over cycles. What a finished change leads to is the
        caller's: another stage, and what else it sets. */
    method ThroughHarness(job: JobOutcome, next: Stage, spends: bool, d: Decision)
      modifies this`state
      ensures state ==
        match job
        case HarnessOff => old(state)
        case JobOpen(wrote) => Wrote(old(state), wrote)
        case JobChanged =>
          var changed := old(state).(content := old(state).content + 1, stage := next);
          if spends then changed.(repairs := changed.repairs + 1, reviewFailed := false) else changed
        case JobNoOp(wrote) => NothingToValidate(cfg, Wrote(old(state), wrote), d)
    {
      if job.HarnessOff? {
        return;
      }
      if job.JobChanged? || job.wrote {
        state := state.(content := state.content + 1);
      }
      if job.JobOpen? {
        return;
      }
      if job.JobNoOp? {
        DiscardNoOp(d);
        return;
      }
      state := state.(stage := next);
      if spends {
        state := state.(repairs := state.repairs + 1, reviewFailed := false);
      }
    }

    /** `_propose`: one harness job authors the change. */
    method ProposeStage(job: JobOutcome, d: Decision)
      requires Valid() && state.stage.Propose?
      modifies this
      ensures Valid() && Took(Proposes(job, d))
    {
      ghost var before := state;
      ThroughHarness(job, if cfg.autoValidate then Validate else Report, false, d);
      Record(Proposes(job, d), before);
    }

    /** `_propose` on an idea a human approved after seeing this very change. */
    method ApplyApprovedPatch()
      requires Valid() && state.stage.Propose?
      modifies this
      ensures Valid() && Took(TakesApprovedPatch)
    {
      ghost var before := state;
      state := state.(content := state.content + 1);
      state := state.(stage := if cfg.autoValidate then Validate else Report);
      Record(TakesApprovedPatch, before);
    }

    /** `_validate`: begin the suite or poll it, and take its result once it has ended. */
    method ValidateStage(ended: Option<Verdict>)
      requires Valid() && state.stage.Validate?
      requires ended.Some? && ended.value.Failed? ==> ended.value.digest != ""
      modifies this
      ensures Valid() && Took(if ended.Some? then ValidationEnds(ended.value) else ValidationRuns)
    {
      ghost var before := state;
      if state.run.None? || state.run.value.generation != state.generation {
        state := state.(run := Some(ValidationRun(state.generation, state.content)));
      }
      if ended.None? {
        Record(ValidationRuns, before);
        return;
      }
      var result := ended.value;
      var validatedContent := state.run.value.content;
      state := state.(run := None, recorded := result);
      var repairs := state.repairs;
      var digest := if result.Failed? then result.digest else "";
      var stalled := digest != "" && digest == state.digest;
      var free := cfg.maxRepairs > 0 && result.Failed? && result.fixable;
      var exhausted := repairs >= cfg.maxRepairs && !free;
      var blocker := result.Failed? && result.blocked;
      var repairing := !result.Passed? && !blocker && !stalled && !exhausted;
      var nextStage := if repairing then Repair else Report;
      if nextStage == Report && result.Passed? && cfg.review && !blocker {
        nextStage := Review;
      }
      state := state.(stage := nextStage, passed := if blocker then None else Some(result.Passed?), digest := digest);
      if result.Passed? {
        state := state.(validated := Some(validatedContent));
      }
      Record(ValidationEnds(result), before);
    }

    /** What the repair stage finds to do. */
    function RepairInput(job: JobOutcome, undid: bool, d: Decision): Input
      reads this
    {
      if !state.reviewFailed && state.recorded.Passed? then FindsNothingToRepair
      else if LinterTakesIt(state) then RepairsByLinter(undid, d)
      else RepairsByModel(job, d)
    }

    /** `_repair`: a review's finding or the recorded failure, by the linter if it can. */
    method RepairStage(job: JobOutcome, undid: bool, d: Decision)
      requires Valid() && state.stage.Repair?
      modifies this
      ensures Valid() && Took(old(RepairInput(job, undid, d)))
    {
      ghost var before := state;
      ghost var i := RepairInput(job, undid, d);
      if !state.reviewFailed && state.recorded.Passed? {
        state := state.(stage := Report);
      } else if state.reviewFailed || !state.recorded.fixable {
        ThroughHarness(job, Validate, true, d);
      } else {
        state := state.(content := state.content + 1);
        if undid {
          DiscardNoOp(d);
        } else {
          state := state.(stage := Validate, free := state.free + 1);
        }
      }
      Record(i, before);
    }

    /** `_review`: a read-only job judges the change against its objective. */
    method ReviewStage(outcome: ReviewOutcome)
      requires Valid() && state.stage.Review?
      modifies this
      ensures Valid() && Took(Reviews(outcome))
    {
      ghost var before := state;
      if outcome.NoHarness? {
        state := state.(stage := Report, excused := Some(state.content));
        Record(Reviews(outcome), before);
        return;
      }
      if state.reviewing.None? {
        state := state.(reviewing := Some(state.content));
      }
      if outcome.ReviewOpen? {
        Record(Reviews(outcome), before);
        return;
      }
      var read := state.reviewing;
      state := state.(reviewing := None);
      if outcome.Complete? {
        state := state.(stage := Report, reviewed := read);
      } else if outcome.NoVerdict? {
        var attempts := state.reviewAttempts + 1;
        if attempts < REVIEW_ATTEMPTS {
          state := state.(reviewAttempts := attempts);
        } else {
          state := state.(stage := Report, passed := Some(false));
        }
      } else if state.repairs < cfg.maxRepairs {
        state := state.(stage := Repair, reviewAttempts := 0, reviewFailed := true);
      } else {
        state := state.(stage := Report, passed := Some(false));
      }
      Record(Reviews(outcome), before);
    }

    /** `_report` and `_finish_preview`. */
    method ReportStage(d: Decision)
      requires Valid() && state.stage.Report?
      modifies this
      ensures Valid() && Took(Reports(d))
    {
      ghost var before := state;
      if state.pick.Preview? {
        ResetPipeline();
      } else if cfg.autoPromote && state.passed.Some? {
        DecideCandidate(state.passed.value, d);
      } else {
        state := state.(stage := AwaitHuman);
      }
      Record(Reports(d), before);
    }

    /** A parked promotion is tried again under the policy. */
    method RetryStage(d: Decision)
      requires Valid() && Enabled(cfg, state, RetriesPromotion(d))
      modifies this
      ensures Valid() && Took(RetriesPromotion(d))
    {
      ghost var before := state;
      DecideCandidate(state.passed.value, d);
      Record(RetriesPromotion(d), before);
    }

    /** A stage that raises sends the pipeline back to plan, whatever it had written. */
    method FailStage(wrote: bool)
      requires Valid() && !state.stage.AwaitHuman?
      modifies this
      ensures Valid() && Took(Raises(wrote))
    {
      ghost var before := state;
      if wrote && (state.stage.Propose? || state.stage.Repair?) {
        state := state.(content := state.content + 1);
      }
      state := state.(stage := Plan);
      Record(Raises(wrote), before);
    }

    /** The object never promotes but on a verdict: whatever the report stage promotes had
        its validation, and its review where review is on, with no change since. */
    lemma EveryPromotionWasEarned(at: nat)
      requires Valid() && at < |inputs| && run[at + 1].promotions != run[at].promotions
      ensures !run[at].pick.Preview? && cfg.autoPromote
      ensures exists k: nat :: k < at && ValidatedAt(run, inputs, k, at)
      ensures cfg.review ==> exists k: nat :: k < at && ReviewedAt(run, inputs, k, at)
    {
      PromotionIsEarned(cfg, run, inputs, at);
    }
  }
}
