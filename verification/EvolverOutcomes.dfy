module EvolverOutcomes {
  // What each cycle of the pipeline comes to, told on the state before it and on what the
  // world answered: when a candidate is promoted, parked, discarded, repaired or reviewed
  // (src/evomesh/behaviors.py:1237-2126).

  import opened Evolver
  import opened Options

  // ---- deciding ----

  /** The pick disagrees with what the candidate is known to have changed: a test that changed
      the code under test, or work on the code that left it as it was. */
  predicate Overruled(pick: Pick, sourceChanged: Option<bool>) {
    match pick
    case TestOnly => sourceChanged == Some(true)
    case Source => sourceChanged == Some(false)
    case Preview => sourceChanged == Some(false)
    case Other => false
  }

  /** A cycle in which a verdict may be acted on: a report that is no preview, under the
      policy and with a verdict, or a parked promotion tried again. */
  predicate Deciding(cfg: Config, s: State, i: Input) {
    match i
    case Reports(_) => cfg.autoPromote && !s.pick.Preview? && s.passed.Some?
    case RetriesPromotion(_) => true
    case _ => false
  }

  /** The promotion of the candidate as it stands. */
  function AsItStands(s: State): Promotion {
    Promotion(s.generation, s.pick, s.content, s.validated, s.reviewed, s.excused)
  }

  /** Over every input: exactly one promotion is recorded, of the candidate as it stands, if a
      verdict may be acted on, it is a pass, the pick does not overrule it, and the tree takes
      the change; otherwise none is. */
  lemma PromotesExactly(cfg: Config, s: State, i: Input)
    requires Enabled(cfg, s, i)
    ensures Step(cfg, s, i).promotions ==
      if Deciding(cfg, s, i) && s.passed == Some(true) && !Overruled(s.pick, i.decision.sourceChanged) && i.decision.landing.Landed?
      then s.promotions + [AsItStands(s)]
      else s.promotions
  {
    hide SameMarks, Validated, Reviewed;
    if !i.Reports? && !i.RetriesPromotion? {
      PromotesNothing(cfg, s, i);
    }
  }

  /** Deciding, the candidate is parked -- the same candidate, with its verdict -- exactly when
      it passes and only a human's own work is in the way; else the pipeline is free for the
      next objective and nothing of this one is left in it. */
  lemma ParksExactly(cfg: Config, s: State, i: Input)
    requires Inv(cfg, s) && Enabled(cfg, s, i) && Deciding(cfg, s, i)
    ensures var t := Step(cfg, s, i);
      if s.passed == Some(true) && !Overruled(s.pick, i.decision.sourceChanged) && i.decision.landing.HumanWorkInTheWay?
      then t == s.(stage := AwaitHuman, parked := true)
      else t.stage.Plan? && Forgotten(t)
  {
    hide SameMarks, SafePromotion, NoneAhead, Validated, Reviewed;
  }

  /** Nothing of a candidate's work is left in the pipeline state. */
  predicate Forgotten(s: State) {
    && s.pick == Other && s.passed == None && s.repairs == 0 && s.digest == "" && s.reviewAttempts == 0
    && !s.reviewFailed && !s.parked && s.reviewing == None
  }

  /** A report that decides nothing: a preview is dropped, anything else waits for a human,
      not parked, so that it is not tried again. */
  lemma ReportsOtherwise(cfg: Config, s: State, d: Decision)
    requires s.stage.Report? && !Deciding(cfg, s, Reports(d))
    ensures var t := Step(cfg, s, Reports(d));
      if s.pick.Preview? then t.stage.Plan? && Forgotten(t) && t.promotions == s.promotions
      else t == s.(stage := AwaitHuman)
  {
  }

  // ---- proposing ----

  lemma ProposalOutcomes(cfg: Config, s: State, job: JobOutcome, d: Decision)
    requires s.stage.Propose?
    ensures var t := Step(cfg, s, Proposes(job, d));
      && t.promotions == s.promotions
      && (job.HarnessOff? ==> t == s)
      && (job.JobOpen? ==> t == s.(content := if job.wrote then s.content + 1 else s.content))
      && (job.JobChanged? ==> t == s.(content := s.content + 1, stage := if cfg.autoValidate then Validate else Report))
      && (job.JobNoOp? && cfg.autoPromote ==> t.stage.Plan? && Forgotten(t))
      && (job.JobNoOp? && !cfg.autoPromote ==> t.stage.Report? && t.passed == None)
    ensures Step(cfg, s, TakesApprovedPatch) == s.(content := s.content + 1, stage := if cfg.autoValidate then Validate else Report)
  {
  }

  /** Opening starts a candidate from nothing. */
  lemma OpensFresh(cfg: Config, s: State, generation: nat, pick: Pick)
    requires Enabled(cfg, s, Opens(generation, pick))
    ensures var t := Step(cfg, s, Opens(generation, pick));
      && t.stage.Propose? && t.generation == generation && t.pick == pick
      && Forgotten(t.(pick := Other)) && t.content == 0 && t.free == 0 && t.validated == None && t.reviewed == None && t.excused == None
      && t.promotions == s.promotions && t.run == s.run
  {
  }

  // ---- validating ----

  /** A suite is started once for the candidate and then waited for. */
  lemma StartsOneSuite(cfg: Config, s: State)
    requires s.stage.Validate?
    ensures var t := Step(cfg, s, ValidationRuns);
      && t.run.Some? && t.run.value.generation == s.generation && t == s.(run := t.run)
      && (s.run.None? || s.run.value.generation != s.generation ==> t.run == Some(ValidationRun(s.generation, s.content)))
      && Step(cfg, t, ValidationRuns) == t
  {
  }

  /** A failed validation is repaired exactly when this machine is not to blame, it is not the
      failure of the validation before it, and there is a repair left for it: one of the
      model's, or the linter's, which is free while self-repair is on at all. A passing one
      goes to review, if review is on. Everything else is reported. */
  lemma ValidationDecides(cfg: Config, s: State, v: Verdict)
    requires s.stage.Validate? && (v.Failed? ==> v.digest != "")
    ensures var t := Step(cfg, s, ValidationEnds(v));
      && (t.stage.Repair? <==>
            v.Failed? && !v.blocked && v.digest != s.digest && (s.repairs < cfg.maxRepairs || (v.fixable && cfg.maxRepairs > 0)))
      && (t.stage.Review? <==> v.Passed? && cfg.review)
      && (t.stage.Repair? || t.stage.Review? || t.stage.Report?)
      && (t.passed == Some(true) <==> v.Passed?) && (t.passed == None <==> v.Failed? && v.blocked)
      && t.recorded == v && t.run == None && t.digest == (if v.Failed? then v.digest else "")
      && t.content == s.content && t.generation == s.generation && t.pick == s.pick && t.repairs == s.repairs
      && t.reviewAttempts == s.reviewAttempts && t.promotions == s.promotions
  {
  }

  // ---- reviewing ----

  /** COMPLETE, or no harness, goes to the report with the passing verdict. Twice no verdict, or
      INCOMPLETE with no repair left, goes there as a failure; the first time no verdict asks
      again, and INCOMPLETE with a repair left goes to repair as the review's failure. */
  lemma ReviewDecides(cfg: Config, s: State, outcome: ReviewOutcome)
    requires Inv(cfg, s) && s.stage.Review?
    ensures var t := Step(cfg, s, Reviews(outcome));
      && t.content == s.content && t.repairs == s.repairs && t.pick == s.pick && t.promotions == s.promotions
      && (t.stage.Report? && t.passed == Some(true) <==> outcome.Complete? || outcome.NoHarness?)
      && (t.stage.Report? && t.passed == Some(false) <==>
            (outcome.NoVerdict? && s.reviewAttempts + 1 == REVIEW_ATTEMPTS) || (outcome.Incomplete? && s.repairs == cfg.maxRepairs))
      && (t.stage.Repair? <==> outcome.Incomplete? && s.repairs < cfg.maxRepairs)
      && (t.stage.Repair? ==> t.reviewFailed && t.reviewAttempts == 0)
      && (t.stage.Review? <==> outcome.ReviewOpen? || (outcome.NoVerdict? && s.reviewAttempts + 1 < REVIEW_ATTEMPTS))
      && (outcome.NoVerdict? && t.stage.Review? ==> t.reviewAttempts == s.reviewAttempts + 1)
      && (outcome.ReviewOpen? ==> t.reviewing == Some(s.content) && t == s.(reviewing := t.reviewing))
      && (outcome.Complete? ==> t.reviewed == Some(s.content))
  {
    hide SafePromotion, NoneAhead, Validated, Decide, SameMarks;
  }

  // ---- repairing ----

  /** A repair that changed the candidate sends it back to validation: the model's costs one of
      its repairs and settles a review's finding, the linter's costs nothing. One that leaves
      nothing to validate ends without a verdict, and under the policy at once. */
  lemma RepairOutcomes(cfg: Config, s: State, job: JobOutcome, undid: bool, d: Decision)
    requires s.stage.Repair?
    ensures Enabled(cfg, s, RepairsByModel(job, d)) ==>
      var t := Step(cfg, s, RepairsByModel(job, d));
      && t.promotions == s.promotions
      && (job.HarnessOff? ==> t == s)
      && (job.JobOpen? ==> t == s.(content := if job.wrote then s.content + 1 else s.content))
      && (job.JobChanged? ==> t == s.(content := s.content + 1, stage := Validate, repairs := s.repairs + 1, reviewFailed := false))
      && (job.JobNoOp? && cfg.autoPromote ==> t.stage.Plan? && Forgotten(t))
      && (job.JobNoOp? && !cfg.autoPromote ==> t.stage.Report? && t.passed == None)
    ensures Enabled(cfg, s, RepairsByLinter(undid, d)) ==>
      var t := Step(cfg, s, RepairsByLinter(undid, d));
      && t.promotions == s.promotions
      && (!undid ==> t == s.(content := s.content + 1, stage := Validate, free := s.free + 1))
      && (undid && cfg.autoPromote ==> t.stage.Plan? && Forgotten(t))
      && (undid && !cfg.autoPromote ==> t.stage.Report? && t.passed == None)
    ensures Enabled(cfg, s, FindsNothingToRepair) ==> Step(cfg, s, FindsNothingToRepair) == s.(stage := Report)
  {
  }

  /** A stage that raises goes back to plan; a decision by hand forgets the candidate; a
      restart loses the running suite and nothing else. */
  lemma OutsideOutcomes(cfg: Config, s: State, wrote: bool)
    ensures Enabled(cfg, s, Raises(wrote)) ==>
      var t := Step(cfg, s, Raises(wrote)); t.stage.Plan? && t == s.(stage := Plan, content := t.content) && t.promotions == s.promotions
    ensures var t := Step(cfg, s, DecidedOutside); t.stage.Plan? && Forgotten(t) && t.promotions == s.promotions
    ensures Step(cfg, s, Restarts) == s.(run := None)
  {
  }

  // ---- good work lands ----

  /** The inputs of a generation whose failures are repaired one by one until the suite passes,
      the review is COMPLETE and the tree takes the change. */
  function Repairs(failures: seq<string>, changed: Option<bool>): seq<Input> {
    if failures == [] then [ValidationEnds(Passed), Reviews(Complete), Reports(Decision(changed, Landed))]
    else
      [ValidationEnds(Failed(failures[0], false, false)), RepairsByModel(JobChanged, Decision(None, Landed))] +
      Repairs(failures[1..], changed)
  }

  /** Fingerprints of failures none of which is the one before it. */
  predicate Distinct(failures: seq<string>) {
    (forall k :: 0 <= k < |failures| ==> failures[k] != "") && forall k :: 0 < k < |failures| ==> failures[k] != failures[k - 1]
  }

  function RunOf(cfg: Config, s: State, inputs: seq<Input>): State
    requires Possible(cfg, s, inputs)
    decreases |inputs|
  {
    if inputs == [] then s else RunOf(cfg, Step(cfg, s, inputs[0]), inputs[1..])
  }

  predicate Possible(cfg: Config, s: State, inputs: seq<Input>)
    decreases |inputs|
  {
    inputs == [] || (Enabled(cfg, s, inputs[0]) && Possible(cfg, Step(cfg, s, inputs[0]), inputs[1..]))
  }

  lemma TwoInputs(cfg: Config, s: State, a: Input, b: Input, rest: seq<Input>)
    requires Enabled(cfg, s, a) && Enabled(cfg, Step(cfg, s, a), b)
    requires Possible(cfg, Step(cfg, Step(cfg, s, a), b), rest)
    ensures Possible(cfg, s, [a, b] + rest)
    ensures RunOf(cfg, s, [a, b] + rest) == RunOf(cfg, Step(cfg, Step(cfg, s, a), b), rest)
  {
    hide Step, Enabled;
    var all := [a, b] + rest;
    assert all[1..] == [b] + rest && ([b] + rest)[1..] == rest;
    var t := Step(cfg, s, a);
    assert Possible(cfg, t, [b] + rest);
    assert RunOf(cfg, t, [b] + rest) == RunOf(cfg, Step(cfg, t, b), rest);
  }

  /** Validating, with enough repairs left and no failure the same as the one before it, the
      candidate is promoted in the end. */
  lemma {:induction false} RepairedWorkLands(cfg: Config, s: State, failures: seq<string>, changed: Option<bool>)
    requires cfg.autoPromote && cfg.review && s.stage.Validate? && !s.reviewFailed
    requires s.repairs + |failures| <= cfg.maxRepairs && s.reviewing == None && !s.pick.Preview? && !Overruled(s.pick, changed)
    requires Distinct(failures) && (failures != [] ==> failures[0] != s.digest)
    ensures Possible(cfg, s, Repairs(failures, changed))
    ensures var t := RunOf(cfg, s, Repairs(failures, changed));
      && t.stage.Plan? && |t.promotions| == |s.promotions| + 1 && t.promotions[..|s.promotions|] == s.promotions
      && var p := t.promotions[|s.promotions|];
      && p.generation == s.generation && p.pick == s.pick
      && p.content == s.content + |failures| && p.reviewed == Some(p.content)
    decreases |failures|
  {
    hide Possible, RunOf, SameMarks;
    if failures == [] {
      PassingWorkLands(cfg, s, changed);
    } else {
      var failed := ValidationEnds(Failed(failures[0], false, false));
      var repaired := RepairsByModel(JobChanged, Decision(None, Landed));
      FailureIsRepaired(cfg, s, failures[0]);
      var t := Step(cfg, Step(cfg, s, failed), repaired);
      RepairedWorkLands(cfg, t, failures[1..], changed);
      TwoInputs(cfg, s, failed, repaired, Repairs(failures[1..], changed));
    }
  }

  lemma FailureIsRepaired(cfg: Config, s: State, digest: string)
    requires s.stage.Validate? && !s.reviewFailed && s.repairs < cfg.maxRepairs && s.reviewing == None
    requires digest != "" && digest != s.digest
    ensures var failed, repaired := ValidationEnds(Failed(digest, false, false)), RepairsByModel(JobChanged, Decision(None, Landed));
      && Enabled(cfg, s, failed) && Enabled(cfg, Step(cfg, s, failed), repaired)
      && var t := Step(cfg, Step(cfg, s, failed), repaired);
      && t.stage.Validate? && !t.reviewFailed && t.repairs == s.repairs + 1 && t.digest == digest && t.reviewing == None
      && t.content == s.content + 1 && t.pick == s.pick && t.generation == s.generation && t.promotions == s.promotions
  {
  }

  lemma PassingWorkLands(cfg: Config, s: State, changed: Option<bool>)
    requires cfg.autoPromote && cfg.review && s.stage.Validate? && s.reviewing == None && !s.pick.Preview? && !Overruled(s.pick, changed)
    ensures Possible(cfg, s, Repairs([], changed))
    ensures var t := RunOf(cfg, s, Repairs([], changed));
      && t.stage.Plan? && |t.promotions| == |s.promotions| + 1 && t.promotions[..|s.promotions|] == s.promotions
      && var p := t.promotions[|s.promotions|];
      && p.generation == s.generation && p.pick == s.pick && p.content == s.content && p.reviewed == Some(p.content)
  {
    hide Possible, RunOf, SameMarks;
    var passed, complete, reports := ValidationEnds(Passed), Reviews(Complete), Reports(Decision(changed, Landed));
    var reviewed := Step(cfg, Step(cfg, s, passed), complete);
    assert reviewed.stage.Report? && reviewed.passed == Some(true) && reviewed.promotions == s.promotions;
    OneInput(cfg, reviewed, reports);
    TwoInputs(cfg, s, passed, complete, [reports]);
    assert [passed, complete] + [reports] == Repairs([], changed);
    PromotesExactly(cfg, reviewed, reports);
  }

  lemma OneInput(cfg: Config, s: State, a: Input)
    requires Enabled(cfg, s, a)
    ensures Possible(cfg, s, [a]) && RunOf(cfg, s, [a]) == Step(cfg, s, a)
  {
    hide Step, Enabled;
    assert [a][1..] == [];
    assert Possible(cfg, Step(cfg, s, a), []) && RunOf(cfg, Step(cfg, s, a), []) == Step(cfg, s, a);
  }

  /** A generation proposed and handed to validation lands after any number of distinct
      failures within the repair budget. */
  lemma GoodWorkLands(cfg: Config, s: State, generation: nat, pick: Pick, failures: seq<string>, changed: Option<bool>)
    requires Enabled(cfg, s, Opens(generation, pick))
    requires cfg.autoValidate && cfg.autoPromote && cfg.review && |failures| <= cfg.maxRepairs
    requires !pick.Preview? && !Overruled(pick, changed)
    requires Distinct(failures)
    ensures var inputs := [Opens(generation, pick), Proposes(JobChanged, Decision(None, Landed))] + Repairs(failures, changed);
      && Possible(cfg, s, inputs)
      && var t := RunOf(cfg, s, inputs);
      && t.stage.Plan? && |t.promotions| == |s.promotions| + 1 && t.promotions[..|s.promotions|] == s.promotions
      && t.promotions[|s.promotions|].generation == generation && t.promotions[|s.promotions|].pick == pick
  {
    hide Possible, RunOf, Repairs;
    var opens, proposes := Opens(generation, pick), Proposes(JobChanged, Decision(None, Landed));
    OpensFresh(cfg, s, generation, pick);
    var begun := Step(cfg, s, opens);
    ProposalOutcomes(cfg, begun, JobChanged, Decision(None, Landed));
    var proposed := Step(cfg, begun, proposes);
    RepairedWorkLands(cfg, proposed, failures, changed);
    TwoInputs(cfg, s, opens, proposes, Repairs(failures, changed));
  }
}
