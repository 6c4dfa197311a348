module Evolver {
  // The Evolver's candidate pipeline without `auto_plan` (src/evomesh/behaviors.py):
  // the persisted stage machine, the validation lane beside it, and what may
  // happen to either between two cycles.

  import opened Options

  datatype Config = Config(autoValidate: bool, autoPromote: bool, review: bool, maxRepairs: nat)

  const REVIEW_ATTEMPTS: nat := 2

  datatype Stage = Plan | Propose | Validate | Repair | Review | Report | AwaitHuman

  /** What the objective asks for, as far as the pipeline treats it differently. */
  datatype Pick = Preview | TestOnly | Source | Other

  /** A verdict of the suite. A failure has a fingerprint, may be one the linter can fix,
      and may be this machine's fault rather than the candidate's. */
  datatype Verdict = Passed | Failed(digest: string, fixable: bool, blocked: bool)

  /** The suite running on one generation, started when its content was `content`. */
  datatype ValidationRun = ValidationRun(generation: nat, content: nat)

  /** A promotion, with what stood behind it at that moment. */
  datatype Promotion = Promotion(generation: nat, pick: Pick, content: nat,
                                 validated: Option<nat>, reviewed: Option<nat>, excused: Option<nat>)

  /** The first group is the persisted pipeline state. `content` counts the changes made to
      the open candidate (ticking the backlog aside); `validated`, `reviewed` and `excused`
      are the content the last passing validation ran on, the content the last COMPLETE
      verdict was about, and the content when a review was skipped for want of a harness;
      `reviewing` is what an open review job was handed. `free` counts linter repairs. */
  datatype State = State(
    stage: Stage,
    generation: nat,
    pick: Pick,
    passed: Option<bool>,
    repairs: nat,
    digest: string,
    reviewAttempts: nat,
    reviewFailed: bool,
    parked: bool,
    run: Option<ValidationRun>,
    reviewing: Option<nat>,
    recorded: Verdict,
    content: nat,
    validated: Option<nat>,
    reviewed: Option<nat>,
    excused: Option<nat>,
    free: nat,
    promotions: seq<Promotion>)

  // ---- inputs: what the world answers in one cycle ----

  /** How a promotion or discard comes out. A discard always lands. */
  datatype Landing = Landed | HumanWorkInTheWay | DoesNotApply

  /** Whether git says `src/evomesh/` still differs, when it can say. */
  datatype Decision = Decision(sourceChanged: Option<bool>, landing: Landing)

  datatype JobOutcome =
    | HarnessOff
    | JobOpen(wrote: bool)            // still working, possibly writing already
    | JobChanged                      // finished with an accepted change
    | JobNoOp(wrote: bool)            // finished with nothing, or with something refused

  datatype ReviewOutcome = NoHarness | ReviewOpen | Complete | Incomplete | NoVerdict

  datatype Input =
    | Opens(generation: nat, pick: Pick)
    | Proposes(job: JobOutcome, decision: Decision)
    | TakesApprovedPatch
    | ValidationRuns                                       // begun or still going
    | ValidationEnds(verdict: Verdict)
    | RepairsByLinter(undidEverything: bool, decision: Decision)
    | RepairsByModel(job: JobOutcome, decision: Decision)
    | FindsNothingToRepair
    | Reviews(outcome: ReviewOutcome)
    | Reports(decision: Decision)
    | RetriesPromotion(decision: Decision)
    | Raises(wrote: bool)                                  // a stage failed: back to plan
    | DecidedOutside                                       // promoted or dropped by hand
    | Restarts                                             // the process, not the pipeline

  /** The same candidate with the same content, the same marks on it, and the same linter repairs. */
  predicate SameMarks(s: State, t: State) {
    && t.generation == s.generation && t.content == s.content && t.free == s.free
    && t.validated == s.validated && t.reviewed == s.reviewed && t.excused == s.excused
  }

  /** `decide`: promote on a passing verdict the pick still agrees with, otherwise discard. */
  function Decide(cfg: Config, s: State, verdict: bool, d: Decision): (t: State)
    ensures SameMarks(s, t) && (t.stage.Plan? || (t.stage.AwaitHuman? && t.parked))
  {
    var bent := s.pick.TestOnly? && d.sourceChanged == Some(true);
    var hollow := (s.pick.Source? || s.pick.Preview?) && d.sourceChanged == Some(false);
    var passed := verdict && !bent && !hollow;
    if !passed then Reset(s)
    else
      match d.landing
      case Landed => Reset(s.(promotions := s.promotions +
          [Promotion(s.generation, s.pick, s.content, s.validated, s.reviewed, s.excused)]))
      case DoesNotApply => if cfg.autoPromote then Reset(s) else s.(stage := AwaitHuman, parked := true)
      case HumanWorkInTheWay => s.(stage := AwaitHuman, parked := true)
  }

  /** `reset_pipeline`: everything but the stage is forgotten. */
  function Reset(s: State): (t: State)
    ensures SameMarks(s, t)
  {
    s.(stage := Plan, pick := Other, passed := None, repairs := 0, digest := "", reviewAttempts := 0,
       reviewFailed := false, parked := false, reviewing := None)
  }

  function Wrote(s: State, wrote: bool): State {
    if wrote then s.(content := s.content + 1) else s
  }

  /** A candidate with no diff at all: no verdict, and under a promotion policy discarded at once. */
  function NothingToValidate(cfg: Config, s: State, d: Decision): (t: State)
    ensures SameMarks(s, t) && (t.stage.Plan? || t.stage.Report?)
    ensures t.promotions == s.promotions
  {
    var t := s.(stage := Report, passed := None);
    if cfg.autoPromote then Decide(cfg, t, false, d) else t
  }

  function Proposed(cfg: Config, s: State): State {
    s.(content := s.content + 1, stage := if cfg.autoValidate then Validate else Report)
  }

  /** The linter may be tried for free unless self-repair is off. */
  function Free(cfg: Config, v: Verdict): bool {
    cfg.maxRepairs > 0 && v.Failed? && v.fixable
  }

  function Exhausted(cfg: Config, s: State, v: Verdict): bool {
    s.repairs >= cfg.maxRepairs && !Free(cfg, v)
  }

  /** `_validate` once the verdict is there. */
  function Validated(cfg: Config, s: State, v: Verdict): State {
    var ran := if s.run.Some? && s.run.value.generation == s.generation then s.run.value.content else s.content;
    var digest := if v.Passed? then "" else v.digest;
    var stalled := digest != "" && digest == s.digest;
    var blocked := v.Failed? && v.blocked;
    var repairing := !v.Passed? && !blocked && !stalled && !Exhausted(cfg, s, v);
    var stage := if repairing then Repair else if v.Passed? && cfg.review then Review else Report;
    s.(stage := stage,
       passed := if blocked then None else Some(v.Passed?),
       digest := digest,
       run := None,
       recorded := v,
       validated := if v.Passed? then Some(ran) else s.validated)
  }

  function Reviewed(cfg: Config, s: State, outcome: ReviewOutcome): State {
    var read := if s.reviewing.Some? then s.reviewing.value else s.content;
    var moved := s.(reviewing := None);
    match outcome
    case NoHarness => s.(stage := Report, excused := Some(s.content))
    case ReviewOpen => s.(reviewing := Some(read))
    case Complete => moved.(stage := Report, reviewed := Some(read))
    case NoVerdict =>
      if s.reviewAttempts + 1 < REVIEW_ATTEMPTS then moved.(reviewAttempts := s.reviewAttempts + 1)
      else moved.(stage := Report, passed := Some(false))
    case Incomplete =>
      if s.repairs < cfg.maxRepairs then moved.(stage := Repair, reviewAttempts := 0, reviewFailed := true)
      else moved.(stage := Report, passed := Some(false))
  }

  /** `_report`: a preview is filed and dropped, a verdict is acted on under a policy,
      anything else waits for a human. */
  function Reported(cfg: Config, s: State, d: Decision): State {
    if s.pick.Preview? then Reset(s)
    else if cfg.autoPromote && s.passed.Some? then Decide(cfg, s, s.passed.value, d)
    else s.(stage := AwaitHuman)
  }

  /** The failure the repair stage works on can be fixed by the linter: a review's
      finding never can, a validation failure says so itself. */
  predicate LinterTakesIt(s: State) {
    !s.reviewFailed && s.recorded.Failed? && s.recorded.fixable
  }

  predicate Enabled(cfg: Config, s: State, i: Input) {
    match i
    case Opens(generation, _) =>
      s.stage.Plan? && generation > s.generation && (s.run.Some? ==> generation > s.run.value.generation)
    case Proposes(_, _) => s.stage.Propose?
    case TakesApprovedPatch => s.stage.Propose?
    case ValidationRuns => s.stage.Validate?
    case ValidationEnds(v) => s.stage.Validate? && (v.Failed? ==> v.digest != "")
    case RepairsByLinter(_, _) => s.stage.Repair? && LinterTakesIt(s)
    case RepairsByModel(_, _) => s.stage.Repair? && !LinterTakesIt(s) && (s.reviewFailed || s.recorded.Failed?)
    case FindsNothingToRepair => s.stage.Repair? && !s.reviewFailed && s.recorded.Passed?
    case Reviews(_) => s.stage.Review?
    case Reports(_) => s.stage.Report?
    case RetriesPromotion(_) => s.stage.AwaitHuman? && cfg.autoPromote && s.parked && s.passed.Some?
    case Raises(_) => !s.stage.AwaitHuman?
    case DecidedOutside => true
    case Restarts => true
  }

  function Step(cfg: Config, s: State, i: Input): State
    requires Enabled(cfg, s, i)
  {
    match i
    case Opens(generation, pick) =>
      Reset(s).(stage := Propose, generation := generation, pick := pick, content := 0,
                validated := None, reviewed := None, excused := None, free := 0)
    case Proposes(job, d) =>
      (match job
       case HarnessOff => s
       case JobOpen(wrote) => Wrote(s, wrote)
       case JobChanged => Proposed(cfg, s)
       case JobNoOp(wrote) => NothingToValidate(cfg, Wrote(s, wrote), d))
    case TakesApprovedPatch => Proposed(cfg, s)
    case ValidationRuns =>
      if s.run.Some? && s.run.value.generation == s.generation then s
      else s.(run := Some(ValidationRun(s.generation, s.content)))
    case ValidationEnds(v) => Validated(cfg, s, v)
    case RepairsByLinter(undid, d) =>
      var fixed := Wrote(s, true);
      if undid then NothingToValidate(cfg, fixed, d)
      else fixed.(stage := Validate, free := s.free + 1)
    case RepairsByModel(job, d) =>
      (match job
       case HarnessOff => s
       case JobOpen(wrote) => Wrote(s, wrote)
       case JobChanged => Wrote(s, true).(stage := Validate, repairs := s.repairs + 1, reviewFailed := false)
       case JobNoOp(wrote) => NothingToValidate(cfg, Wrote(s, wrote), d))
    case FindsNothingToRepair => s.(stage := Report)
    case Reviews(outcome) => Reviewed(cfg, s, outcome)
    case Reports(d) => Reported(cfg, s, d)
    case RetriesPromotion(d) => Decide(cfg, s, s.passed.value, d)
    case Raises(wrote) => Wrote(s, wrote && (s.stage.Propose? || s.stage.Repair?)).(stage := Plan)
    case DecidedOutside => Reset(s)
    case Restarts => s.(run := None)
  }

  // ---- promotion safety ----

  /** The candidate as it stands passed validation and, where review is on, was judged
      COMPLETE or met no harness to judge it. */
  ghost predicate Cleared(cfg: Config, s: State) {
    && s.validated == Some(s.content)
    && (cfg.review ==> s.reviewed == Some(s.content) || s.excused == Some(s.content))
  }

  ghost predicate SafePromotion(cfg: Config, p: Promotion) {
    && p.validated == Some(p.content)
    && (cfg.review ==> p.reviewed == Some(p.content) || p.excused == Some(p.content))
    && !p.pick.Preview?
  }

  /** A linter repair is only chosen for what the linter can fix, a model repair only within budget. */
  ghost predicate RepairOk(cfg: Config, s: State) {
    if s.reviewFailed then s.repairs < cfg.maxRepairs
    else s.recorded.Failed? && (s.recorded.fixable || s.repairs < cfg.maxRepairs)
  }

  ghost predicate Inv(cfg: Config, s: State) {
    && s.repairs <= cfg.maxRepairs
    && s.reviewAttempts < REVIEW_ATTEMPTS
    && (s.stage.Review? ==> s.passed == Some(true) && s.validated == Some(s.content))
    && (s.stage.Report? && s.passed == Some(true) ==> Cleared(cfg, s))
    && (s.stage.AwaitHuman? && s.parked && s.passed == Some(true) ==> Cleared(cfg, s))
    && (s.stage.AwaitHuman? && s.parked ==> !s.pick.Preview?)
    && (!s.stage.AwaitHuman? && !s.stage.Plan? ==> !s.parked)
    && (s.stage.Repair? ==> RepairOk(cfg, s))
    && (s.stage.Propose? ==> s.passed.None?)
    && (s.stage.Propose? || s.stage.Validate? ==> !s.reviewFailed)
    && (s.reviewing.Some? && !s.stage.Plan? ==> (s.stage.Review? && s.reviewing == Some(s.content)) || s.stage.Report? || s.stage.AwaitHuman?)
    && (s.run.Some? ==> s.run.value.generation <= s.generation)
    && (s.run.Some? && s.run.value.generation == s.generation ==> s.stage.Validate? || s.stage.Plan?)
    && (s.run.Some? && s.run.value.generation == s.generation && s.stage.Validate? ==> s.run.value.content == s.content)
    && NoneAhead(s)
    && (forall p :: p in s.promotions ==> SafePromotion(cfg, p))
  }

  /** Nothing was validated or reviewed that has not been written yet. */
  ghost predicate NoneAhead(s: State) {
    && (s.validated.Some? ==> s.validated.value <= s.content)
    && (s.reviewed.Some? ==> s.reviewed.value <= s.content)
    && (s.excused.Some? ==> s.excused.value <= s.content)
  }

  lemma DecideKeeps(cfg: Config, s: State, verdict: bool, d: Decision)
    requires Inv(cfg, s) && !s.stage.Validate? && !s.stage.Plan?
    requires verdict ==> Cleared(cfg, s) && !s.pick.Preview? && s.passed == Some(true)
    ensures Inv(cfg, Decide(cfg, s, verdict, d))
  {
    var t := Decide(cfg, s, verdict, d);
    var next := Promotion(s.generation, s.pick, s.content, s.validated, s.reviewed, s.excused);
    assert forall p :: p in t.promotions ==> p in s.promotions || p == next;
  }

  lemma ProposeKeeps(cfg: Config, s: State, i: Input)
    requires Inv(cfg, s) && Enabled(cfg, s, i) && (i.Opens? || i.Proposes? || i.TakesApprovedPatch?)
    ensures Inv(cfg, Step(cfg, s, i))
  {
    if i.Proposes? && i.job.JobNoOp? {
      NothingKeeps(cfg, s, i.job.wrote, i.decision);
    }
  }

  lemma ValidateKeeps(cfg: Config, s: State, i: Input)
    requires Inv(cfg, s) && Enabled(cfg, s, i) && (i.ValidationRuns? || i.ValidationEnds?)
    ensures Inv(cfg, Step(cfg, s, i))
  {
  }

  lemma NothingKeeps(cfg: Config, s: State, wrote: bool, d: Decision)
    requires Inv(cfg, s) && (s.stage.Propose? || s.stage.Repair?)
    ensures Inv(cfg, NothingToValidate(cfg, Wrote(s, wrote), d))
  {
    DecideKeeps(cfg, Wrote(s, wrote).(stage := Report, passed := None), false, d);
  }

  lemma LinterKeeps(cfg: Config, s: State, i: Input)
    requires Inv(cfg, s) && Enabled(cfg, s, i) && i.RepairsByLinter?
    ensures Inv(cfg, Step(cfg, s, i))
  {
    if i.undidEverything {
      NothingKeeps(cfg, s, true, i.decision);
    }
  }

  lemma ModelKeeps(cfg: Config, s: State, i: Input)
    requires Inv(cfg, s) && Enabled(cfg, s, i) && (i.RepairsByModel? || i.FindsNothingToRepair?)
    ensures Inv(cfg, Step(cfg, s, i))
  {
    if i.RepairsByModel? && i.job.JobNoOp? {
      NothingKeeps(cfg, s, i.job.wrote, i.decision);
    }
  }

  lemma ReportKeeps(cfg: Config, s: State, i: Input)
    requires Inv(cfg, s) && Enabled(cfg, s, i) && (i.Reports? || i.RetriesPromotion?)
    ensures Inv(cfg, Step(cfg, s, i))
  {
    if i.RetriesPromotion? {
      DecideKeeps(cfg, s, s.passed.value, i.decision);
    } else if !s.pick.Preview? && cfg.autoPromote && s.passed.Some? {
      DecideKeeps(cfg, s, s.passed.value, i.decision);
    }
  }

  lemma ReviewKeeps(cfg: Config, s: State, outcome: ReviewOutcome)
    requires Inv(cfg, s) && s.stage.Review?
    ensures Inv(cfg, Reviewed(cfg, s, outcome))
  {
    hide SafePromotion, SameMarks;
  }

  lemma OutsideKeeps(cfg: Config, s: State, i: Input)
    requires Inv(cfg, s) && Enabled(cfg, s, i) && (i.Raises? || i.DecidedOutside? || i.Restarts?)
    ensures Inv(cfg, Step(cfg, s, i))
  {
  }

  /** Every cycle keeps the invariant, whatever the world answers. */
  lemma StepKeeps(cfg: Config, s: State, i: Input)
    requires Inv(cfg, s) && Enabled(cfg, s, i)
    ensures Inv(cfg, Step(cfg, s, i))
  {
    match i
    case Opens(_, _) => ProposeKeeps(cfg, s, i);
    case Proposes(_, _) => ProposeKeeps(cfg, s, i);
    case TakesApprovedPatch => ProposeKeeps(cfg, s, i);
    case ValidationRuns => ValidateKeeps(cfg, s, i);
    case ValidationEnds(_) => ValidateKeeps(cfg, s, i);
    case RepairsByLinter(_, _) => LinterKeeps(cfg, s, i);
    case RepairsByModel(_, _) => ModelKeeps(cfg, s, i);
    case FindsNothingToRepair => ModelKeeps(cfg, s, i);
    case Reviews(outcome) => ReviewKeeps(cfg, s, outcome);
    case Reports(_) => ReportKeeps(cfg, s, i);
    case RetriesPromotion(_) => ReportKeeps(cfg, s, i);
    case _ => OutsideKeeps(cfg, s, i);
  }

  // ---- whole runs ----

  const START := State(Plan, 0, Other, None, 0, "", 0, false, false, None, None, Passed, 0, None, None, None, 0, [])

  /** `run[k + 1]` is what `inputs[k]` makes of `run[k]`, from a pipeline never used before. */
  ghost predicate IsRun(cfg: Config, run: seq<State>, inputs: seq<Input>) {
    && |run| == |inputs| + 1 && run[0] == START
    && forall k :: 0 <= k < |inputs| ==> Enabled(cfg, run[k], inputs[k]) && run[k + 1] == Step(cfg, run[k], inputs[k])
  }

  lemma {:induction false} RunKeeps(cfg: Config, run: seq<State>, inputs: seq<Input>, k: nat)
    requires IsRun(cfg, run, inputs) && k < |run|
    ensures Inv(cfg, run[k])
  {
    if k > 0 {
      RunKeeps(cfg, run, inputs, k - 1);
      StepKeeps(cfg, run[k - 1], inputs[k - 1]);
    }
  }

  /** From state `from` to state `to` the candidate is the same one with the same content. */
  ghost predicate Untouched(run: seq<State>, from: nat, end: nat) {
    from <= end < |run| &&
    forall j :: from <= j <= end ==> run[j].generation == run[end].generation && run[j].content == run[end].content
  }

  /** What `validated`, `reviewed` and `excused` stand for in the run itself. */
  ghost predicate ValidatedAt(run: seq<State>, inputs: seq<Input>, k: nat, end: nat) {
    k < |inputs| && inputs[k] == ValidationEnds(Passed) && Untouched(run, k, end)
  }

  ghost predicate ReviewedAt(run: seq<State>, inputs: seq<Input>, k: nat, end: nat) {
    k < |inputs| && (inputs[k] == Reviews(Complete) || inputs[k] == Reviews(NoHarness)) && Untouched(run, k, end)
  }

  /** A mark on the present content is old, with nothing touched, or was set by this very step. */
  ghost predicate MarksMoved(s: State, i: Input, t: State) {
    var same := t.generation == s.generation && t.content == s.content;
    && (t.validated == Some(t.content) ==> same && (s.validated == Some(s.content) || i == ValidationEnds(Passed)))
    && (t.reviewed == Some(t.content) ==> same && (s.reviewed == Some(s.content) || i == Reviews(Complete)))
    && (t.excused == Some(t.content) ==> same && (s.excused == Some(s.content) || i == Reviews(NoHarness)))
  }

  lemma MarksMoveWhileWriting(cfg: Config, s: State, i: Input)
    requires NoneAhead(s) && Enabled(cfg, s, i)
    requires i.Opens? || i.Proposes? || i.TakesApprovedPatch? || i.RepairsByLinter? || i.RepairsByModel? || i.Raises?
    ensures MarksMoved(s, i, Step(cfg, s, i))
  {
    if !i.Opens? {
      KeepsOrWrites(cfg, s, i);
    }
  }

  /** These steps leave the marks alone, and the content too unless something is written. */
  lemma KeepsOrWrites(cfg: Config, s: State, i: Input)
    requires Enabled(cfg, s, i)
    requires i.Proposes? || i.TakesApprovedPatch? || i.RepairsByLinter? || i.RepairsByModel? || i.Raises?
    ensures var t := Step(cfg, s, i);
      && t.validated == s.validated && t.reviewed == s.reviewed && t.excused == s.excused
      && t.generation == s.generation && (t.content == s.content || t.content == s.content + 1)
  {
    hide Decide, Reset, Free, Validated, Reviewed, Reported;
    if i.Proposes? || i.RepairsByModel? {
      if i.job.JobNoOp? {
        NothingKeepsMarks(cfg, Wrote(s, i.job.wrote), i.decision);
      }
    } else if i.RepairsByLinter? {
      NothingKeepsMarks(cfg, Wrote(s, true), i.decision);
    }
  }

  lemma NothingKeepsMarks(cfg: Config, s: State, d: Decision)
    ensures SameMarks(s, NothingToValidate(cfg, s, d))
  {
    hide NothingToValidate;
  }

  lemma MarksMoveOtherwise(cfg: Config, s: State, i: Input)
    requires Enabled(cfg, s, i)
    requires i.FindsNothingToRepair? || i.Reports? || i.RetriesPromotion? || i.DecidedOutside? || i.Restarts? || i.ValidationRuns?
    ensures MarksMoved(s, i, Step(cfg, s, i))
  {
  }

  lemma MarksMoveOnVerdicts(cfg: Config, s: State, i: Input)
    requires Enabled(cfg, s, i) && (i.ValidationEnds? || i.Reviews?)
    ensures MarksMoved(s, i, Step(cfg, s, i))
  {
  }

  lemma MarksMove(cfg: Config, s: State, i: Input)
    requires NoneAhead(s) && Enabled(cfg, s, i)
    ensures MarksMoved(s, i, Step(cfg, s, i))
  {
    if i.Opens? || i.Proposes? || i.TakesApprovedPatch? || i.RepairsByLinter? || i.RepairsByModel? || i.Raises? {
      MarksMoveWhileWriting(cfg, s, i);
    } else if i.ValidationEnds? || i.Reviews? {
      MarksMoveOnVerdicts(cfg, s, i);
    } else {
      MarksMoveOtherwise(cfg, s, i);
    }
  }

  lemma {:induction false} MarksMean(cfg: Config, run: seq<State>, inputs: seq<Input>, end: nat)
    requires IsRun(cfg, run, inputs) && end < |run|
    ensures run[end].validated == Some(run[end].content) ==> exists k: nat :: ValidatedAt(run, inputs, k, end)
    ensures run[end].reviewed == Some(run[end].content) || run[end].excused == Some(run[end].content) ==>
              exists k: nat :: ReviewedAt(run, inputs, k, end)
  {
    if end > 0 {
      var before := end - 1;
      MarksMean(cfg, run, inputs, before);
      RunKeeps(cfg, run, inputs, before);
      MarksMove(cfg, run[before], inputs[before]);
      if run[end].validated == Some(run[end].content) {
        if inputs[before] == ValidationEnds(Passed) {
          assert ValidatedAt(run, inputs, before, end);
        } else {
          var k: nat :| ValidatedAt(run, inputs, k, before);
          assert ValidatedAt(run, inputs, k, end);
        }
      }
      if run[end].reviewed == Some(run[end].content) || run[end].excused == Some(run[end].content) {
        if inputs[before] == Reviews(Complete) || inputs[before] == Reviews(NoHarness) {
          assert ReviewedAt(run, inputs, before, end);
        } else {
          var k: nat :| ReviewedAt(run, inputs, k, before);
          assert ReviewedAt(run, inputs, k, end);
        }
      }
    }
  }

  /** Promotion safety: whenever a cycle promotes, the candidate is not a preview, a passing
      validation ended earlier in the run with no change to the candidate since, and with
      review on a COMPLETE verdict -- or a review that met no harness -- came with no
      change since. */
  lemma PromotionIsEarned(cfg: Config, run: seq<State>, inputs: seq<Input>, at: nat)
    requires IsRun(cfg, run, inputs) && at < |inputs|
    requires run[at + 1].promotions != run[at].promotions
    ensures !run[at].pick.Preview? && cfg.autoPromote
    ensures exists k: nat :: k < at && ValidatedAt(run, inputs, k, at)
    ensures cfg.review ==> exists k: nat :: k < at && ReviewedAt(run, inputs, k, at)
  {
    RunKeeps(cfg, run, inputs, at);
    PromotesOnlyCleared(cfg, run[at], inputs[at]);
    MarksMean(cfg, run, inputs, at);
    var k: nat :| ValidatedAt(run, inputs, k, at);
    assert k < at;
    if cfg.review {
      var m: nat :| ReviewedAt(run, inputs, m, at);
      assert m < at;
    }
  }

  lemma PromotesOnlyCleared(cfg: Config, s: State, i: Input)
    requires Inv(cfg, s) && Enabled(cfg, s, i) && Step(cfg, s, i).promotions != s.promotions
    ensures Cleared(cfg, s) && !s.pick.Preview? && cfg.autoPromote && (i.Reports? || i.RetriesPromotion?)
  {
    PromotesOnReport(cfg, s, i);
  }

  lemma NoVerdictNoPromotion(cfg: Config, s: State, verdict: bool, d: Decision)
    ensures !verdict ==> Decide(cfg, s, verdict, d).promotions == s.promotions
  {
  }

  /** Only two inputs promote, and only on a passing verdict under the policy. */
  lemma PromotesOnReport(cfg: Config, s: State, i: Input)
    requires Enabled(cfg, s, i)
    ensures Step(cfg, s, i).promotions != s.promotions ==>
      && cfg.autoPromote && s.passed == Some(true)
      && ((i.Reports? && !s.pick.Preview?) || i.RetriesPromotion?)
  {
    hide SameMarks, Cleared;
    if i.Reports? || i.RetriesPromotion? {
      if s.passed.Some? {
        NoVerdictNoPromotion(cfg, s, s.passed.value, i.decision);
      }
    } else {
      PromotesNothing(cfg, s, i);
    }
  }

  lemma PromotesNothing(cfg: Config, s: State, i: Input)
    requires Enabled(cfg, s, i) && !i.Reports? && !i.RetriesPromotion?
    ensures Step(cfg, s, i).promotions == s.promotions
  {
    hide SameMarks, Validated, Reviewed, Reported;
    if i.ValidationEnds? {
      VerdictsPromoteNothing(cfg, s, i.verdict, NoHarness);
    } else if i.Reviews? {
      VerdictsPromoteNothing(cfg, s, Passed, i.outcome);
    }
  }

  lemma VerdictsPromoteNothing(cfg: Config, s: State, v: Verdict, outcome: ReviewOutcome)
    ensures Validated(cfg, s, v).promotions == s.promotions && Reviewed(cfg, s, outcome).promotions == s.promotions
  {
  }

  // ---- a generation's run ends ----

  function Rank(stage: Stage): nat {
    match stage
    case Propose => 4
    case Validate => 3
    case Review => 2
    case Repair => 1
    case _ => 0
  }

  /** What is left of a generation: model repairs, then stage, then review attempts. */
  function Left(cfg: Config, s: State): (int, nat, int) {
    (cfg.maxRepairs - s.repairs, Rank(s.stage), REVIEW_ATTEMPTS - s.reviewAttempts)
  }

  predicate LexLess(a: (int, nat, int), b: (int, nat, int)) {
    a.0 < b.0 || (a.0 == b.0 && (a.1 < b.1 || (a.1 == b.1 && a.2 < b.2)))
  }

  /** A stage at which the pipeline works on its candidate by itself. */
  predicate Working(s: State) {
    s.stage.Propose? || s.stage.Validate? || s.stage.Review? || s.stage.Repair?
  }

  /** The step moves the pipeline: another stage, or one more review attempt. */
  predicate Moves(s: State, t: State) {
    t.stage != s.stage || t.reviewAttempts != s.reviewAttempts
  }

  predicate LinterOnly(s: State, i: Input, t: State) {
    i.RepairsByLinter? && t.stage.Validate?
  }

  /** What a step from `s` to `t` uses up, and that a model repair always fits the budget. */
  ghost predicate Descends(cfg: Config, s: State, i: Input, t: State) {
    && (Moves(s, t) && (Working(t) || t.stage.Report?) && !LinterOnly(s, i, t) ==> LexLess(Left(cfg, t), Left(cfg, s)))
    && (Working(t) || t.stage.Report? ==> s.repairs <= t.repairs <= s.repairs + 1)
    && (t.repairs > s.repairs ==> i.RepairsByModel? && s.stage.Repair? && t.stage.Validate? && s.repairs < cfg.maxRepairs)
    && (if LinterOnly(s, i, t) then t.free == s.free + 1 && t.repairs == s.repairs else t.free == s.free)
    && (t.reviewAttempts != s.reviewAttempts && (Working(t) || t.stage.Report?) ==>
          s.stage.Review? && (t.reviewAttempts > s.reviewAttempts || t.stage.Repair?))
  }

  lemma ProposingDescends(cfg: Config, s: State, i: Input)
    requires Inv(cfg, s) && Enabled(cfg, s, i) && s.stage.Propose? && (i.Proposes? || i.TakesApprovedPatch?)
    ensures Descends(cfg, s, i, Step(cfg, s, i))
  {
    hide SafePromotion, NoneAhead, Cleared, Validated, RepairOk;
  }

  lemma ValidatingDescends(cfg: Config, s: State, i: Input)
    requires Inv(cfg, s) && Enabled(cfg, s, i) && s.stage.Validate? && (i.ValidationRuns? || i.ValidationEnds?)
    ensures Descends(cfg, s, i, Step(cfg, s, i))
  {
  }

  lemma ReviewingDescends(cfg: Config, s: State, i: Input)
    requires Inv(cfg, s) && Enabled(cfg, s, i) && s.stage.Review? && i.Reviews?
    ensures Descends(cfg, s, i, Step(cfg, s, i))
  {
    hide SafePromotion, NoneAhead, Cleared, Decide, Reset, Validated, RepairOk;
    match i.outcome
    case NoHarness =>
    case ReviewOpen =>
    case Complete =>
    case Incomplete =>
    case NoVerdict =>
  }

  lemma RepairingDescends(cfg: Config, s: State, i: Input)
    requires Inv(cfg, s) && Enabled(cfg, s, i) && s.stage.Repair?
    requires i.RepairsByLinter? || i.RepairsByModel? || i.FindsNothingToRepair?
    ensures Descends(cfg, s, i, Step(cfg, s, i))
  {
    hide SafePromotion, NoneAhead, Cleared, Validated, Reviewed;
  }

  lemma LeavingDescends(cfg: Config, s: State, i: Input)
    requires Enabled(cfg, s, i) && Working(s) && (i.Raises? || i.DecidedOutside? || i.Restarts?)
    ensures Descends(cfg, s, i, Step(cfg, s, i))
  {
  }

  /** Every moving step up to the report, a linter-only repair apart, uses something up
      lexicographically; a repair by the model always fits the budget. */
  lemma MovingStepsDescend(cfg: Config, s: State, i: Input)
    requires Inv(cfg, s) && Enabled(cfg, s, i) && Working(s)
    ensures Descends(cfg, s, i, Step(cfg, s, i))
  {
    if i.Raises? || i.DecidedOutside? || i.Restarts? {
      LeavingDescends(cfg, s, i);
    } else if s.stage.Propose? {
      ProposingDescends(cfg, s, i);
    } else if s.stage.Validate? {
      ValidatingDescends(cfg, s, i);
    } else if s.stage.Review? {
      ReviewingDescends(cfg, s, i);
    } else {
      RepairingDescends(cfg, s, i);
    }
  }

  /** The same budget as one number: nine for a model repair, three for a stage, one for a
      review attempt. */
  function Fuel(cfg: Config, s: State): int {
    9 * (cfg.maxRepairs - s.repairs) + 3 * Rank(s.stage) + (REVIEW_ATTEMPTS - s.reviewAttempts)
  }

  /** A stretch of one generation: every state works on it, every step moves. */
  ghost predicate Stretch(cfg: Config, run: seq<State>, inputs: seq<Input>, from: nat, end: nat) {
    && IsRun(cfg, run, inputs) && from <= end < |run|
    && (forall k :: from <= k < end ==> Working(run[k]) && Moves(run[k], run[k + 1]))
    && (forall k :: from <= k <= end ==> Working(run[k]) || run[k].stage.Report?)
  }

  lemma FuelFalls(cfg: Config, s: State, i: Input, t: State)
    requires Inv(cfg, s) && Inv(cfg, t) && Descends(cfg, s, i, t)
    requires Working(s) && Moves(s, t) && (Working(t) || t.stage.Report?)
    requires i.RepairsByLinter? ==> s.stage.Repair?
    ensures s.free <= t.free && Fuel(cfg, t) < Fuel(cfg, s) + 9 * (t.free - s.free)
  {
  }

  lemma SpendsOneStep(cfg: Config, run: seq<State>, inputs: seq<Input>, k: nat)
    requires IsRun(cfg, run, inputs) && k < |inputs|
    requires Working(run[k]) && Moves(run[k], run[k + 1]) && (Working(run[k + 1]) || run[k + 1].stage.Report?)
    ensures Fuel(cfg, run[k + 1]) < Fuel(cfg, run[k]) + 9 * (run[k + 1].free - run[k].free)
  {
    RunKeeps(cfg, run, inputs, k);
    RunKeeps(cfg, run, inputs, k + 1);
    MovingStepsDescend(cfg, run[k], inputs[k]);
    FuelFalls(cfg, run[k], inputs[k], run[k + 1]);
  }

  lemma {:induction false} StretchSpends(cfg: Config, run: seq<State>, inputs: seq<Input>, from: nat, end: nat)
    requires Stretch(cfg, run, inputs, from, end)
    ensures Fuel(cfg, run[end]) + (end - from) <= Fuel(cfg, run[from]) + 9 * (run[end].free - run[from].free)
    decreases end
  {
    hide Step, Enabled, Fuel, Moves, START;
    if from < end {
      StretchSpends(cfg, run, inputs, from, end - 1);
      SpendsOneStep(cfg, run, inputs, end - 1);
    }
  }

  /** A generation's run ends: from opening it, the pipeline takes at most
      9 * max_repairs + 14 moving steps plus nine for every linter repair. */
  lemma GenerationsEnd(cfg: Config, run: seq<State>, inputs: seq<Input>, from: nat, end: nat)
    requires Stretch(cfg, run, inputs, from, end)
    requires run[from].stage.Propose? && run[from].repairs == 0 && run[from].reviewAttempts == 0 && run[from].free == 0
    ensures end - from <= 9 * cfg.maxRepairs + 14 + 9 * run[end].free
  {
    StretchSpends(cfg, run, inputs, from, end);
    RunKeeps(cfg, run, inputs, end);
  }

  /** A failure with the fingerprint of the failure before it is never repaired again. */
  lemma EqualFailuresStop(cfg: Config, run: seq<State>, inputs: seq<Input>, first: nat, second: nat)
    requires IsRun(cfg, run, inputs) && first < second < |inputs|
    requires inputs[first].ValidationEnds? && inputs[second].ValidationEnds?
    requires inputs[first].verdict.Failed? && inputs[second].verdict.Failed?
    requires inputs[first].verdict.digest == inputs[second].verdict.digest
    requires forall k :: first < k < second ==> !inputs[k].ValidationEnds?
    requires forall k :: first < k <= second ==> Working(run[k])
    ensures run[second + 1].stage.Report?
  {
    DigestStays(cfg, run, inputs, first, second);
  }

  lemma {:induction false} DigestStays(cfg: Config, run: seq<State>, inputs: seq<Input>, first: nat, end: nat)
    requires IsRun(cfg, run, inputs) && first < end < |run|
    requires inputs[first].ValidationEnds? && inputs[first].verdict.Failed?
    requires forall k :: first < k < end ==> !inputs[k].ValidationEnds?
    requires forall k :: first < k <= end ==> Working(run[k])
    ensures run[end].digest == inputs[first].verdict.digest
    decreases end
  {
    hide Step, Enabled;
    if end > first + 1 {
      DigestStays(cfg, run, inputs, first, end - 1);
      var k := end - 1;
      assert Enabled(cfg, run[k], inputs[k]) && run[k + 1] == Step(cfg, run[k], inputs[k]);
      DigestKept(cfg, run[k], inputs[k]);
    } else {
      assert Enabled(cfg, run[first], inputs[first]) && run[first + 1] == Step(cfg, run[first], inputs[first]);
      DigestTaken(cfg, run[first], inputs[first]);
    }
  }

  lemma DigestTaken(cfg: Config, s: State, i: Input)
    requires Enabled(cfg, s, i) && i.ValidationEnds? && i.verdict.Failed?
    ensures Step(cfg, s, i).digest == i.verdict.digest
  {
  }

  lemma DigestKept(cfg: Config, s: State, i: Input)
    requires Enabled(cfg, s, i) && Working(s) && Working(Step(cfg, s, i)) && !i.ValidationEnds?
    ensures Step(cfg, s, i).digest == s.digest
  {
    hide SameMarks;
  }
}
