/** An exercise episode: its transitions, the release of information, and the evaluation of a water
    allocation plan (over exact real numbers). */
module Episodes {
  import opened Outcomes

  datatype Error =
    | ValidationFailed | NotAuthorized | NotFound | IdempotencyConflict | EvidenceNotRelevant
    | VersionConflict | StateConflict | InvalidTimeline | EmptySubmission | StageConflict | FinalityInvalid
    | InvalidVolume | DuplicateAllocation | EvidenceNotObserved | TimeNotMonotonic | NotFinalizable

  datatype EpisodeState = WaitingForSubmission | EvaluationQueued | Evaluating | FeedbackAvailable | Completed

  /** Virtual time is in milliseconds. */
  datatype Episode = Episode(id: string, scenarioVersion: string, participantVersion: string, state: EpisodeState,
                             stageIndex: nat, virtualTime: int, version: nat, observed: seq<string>)

  datatype Information = Information(id: string, eventTime: int, observedTime: int, ingestedTime: int, releasedTime: int)
  {
    predicate TimelineOk()
    {
      eventTime <= observedTime <= ingestedTime <= releasedTime
    }
  }

  datatype SourceRelease = SourceRelease(source: string, flow: real, evidence: seq<string>)

  datatype SectionFlow = SectionFlow(section: string, flow: real)

  datatype Plan = Plan(stage: nat, releases: seq<SourceRelease>, expected: seq<SectionFlow>, isFinal: bool)

  // --- Transitions --------------------------------------------------------------------------------------

  function NewEpisode(id: string, scenarioVersion: string, participantVersion: string, start: int): Episode
  {
    Episode(id, scenarioVersion, participantVersion, WaitingForSubmission, 0, start, 1, [])
  }

  function Filter(items: seq<Information>, virtualTime: int): seq<Information>
  {
    if items == [] then []
    else Filter(items[..|items| - 1], virtualTime)
         + (if items[|items| - 1].releasedTime <= virtualTime then [items[|items| - 1]] else [])
  }

  /** The information released by the episode's virtual time; an impossible timeline is an error. */
  function ReleaseInformation(e: Episode, items: seq<Information>): Result<seq<Information>, Error>
  {
    if exists i | 0 <= i < |items| :: !items[i].TimelineOk() then Err(InvalidTimeline)
    else Ok(Filter(items, e.virtualTime))
  }

  /** The ids not yet in the list are added, each once. */
  function AddNew(observed: seq<string>, ids: seq<string>): seq<string>
  {
    if ids == [] then observed
    else
      var before := AddNew(observed, ids[..|ids| - 1]);
      if ids[|ids| - 1] in before then before else before + [ids[|ids| - 1]]
  }

  function RecordObservation(e: Episode, ids: seq<string>): Result<Episode, Error>
  {
    if e.state != WaitingForSubmission then Err(StateConflict)
    else
      var observed := AddNew(e.observed, ids);
      if |observed| == |e.observed| then Ok(e) else Ok(e.(observed := observed, version := e.version + 1))
  }

  function Check(e: Episode, version: nat, state: EpisodeState): Option<Error>
  {
    if e.version != version then Some(VersionConflict) else if e.state != state then Some(StateConflict) else None
  }

  /** The first fault of the releases: of the flow, of a repeated source, or of unobserved evidence. */
  function ReleasesFault(observed: seq<string>, releases: seq<SourceRelease>, n: nat): Option<Error>
    requires n <= |releases|
  {
    if n == 0 then None
    else
      var before := ReleasesFault(observed, releases, n - 1);
      if before.Some? then before else ReleaseFault(observed, releases, n - 1)
  }

  function ReleaseFault(observed: seq<string>, releases: seq<SourceRelease>, n: nat): Option<Error>
    requires n < |releases|
  {
    if releases[n].flow < 0.0 then Some(InvalidVolume)
    else if exists i | 0 <= i < n :: releases[i].source == releases[n].source then Some(DuplicateAllocation)
    else if exists k | 0 <= k < |releases[n].evidence| :: releases[n].evidence[k] !in observed then Some(EvidenceNotObserved)
    else None
  }

  function SubmissionFault(e: Episode, plan: Plan, version: nat): Option<Error>
  {
    var check := Check(e, version, WaitingForSubmission);
    if check.Some? then check
    else if plan.releases == [] then Some(EmptySubmission)
    else if plan.stage != e.stageIndex + 1 then Some(StageConflict)
    else if (plan.stage == 1 && plan.isFinal) || (plan.stage == 2 && !plan.isFinal) then Some(FinalityInvalid)
    else ReleasesFault(e.observed, plan.releases, |plan.releases|)
  }

  function Moved(e: Episode, state: EpisodeState): Episode
  {
    e.(state := state, version := e.version + 1)
  }

  function QueueSubmission(e: Episode, plan: Plan, version: nat): Result<Episode, Error>
  {
    var fault := SubmissionFault(e, plan, version);
    if fault.Some? then Err(fault.value) else Ok(Moved(e, EvaluationQueued))
  }

  function Step(e: Episode, version: nat, from: EpisodeState, to: EpisodeState): Result<Episode, Error>
  {
    var check := Check(e, version, from);
    if check.Some? then Err(check.value) else Ok(Moved(e, to))
  }

  function StartEvaluation(e: Episode, version: nat): Result<Episode, Error>
  {
    Step(e, version, EvaluationQueued, Evaluating)
  }

  function PublishFeedback(e: Episode, version: nat): Result<Episode, Error>
  {
    Step(e, version, Evaluating, FeedbackAvailable)
  }

  function ReopenForRevision(e: Episode, version: nat): Result<Episode, Error>
  {
    Step(e, version, FeedbackAvailable, WaitingForSubmission)
  }

  function AdvanceEpisode(e: Episode, version: nat, checkpoint: int): Result<Episode, Error>
  {
    var check := Check(e, version, FeedbackAvailable);
    if check.Some? then Err(check.value)
    else if checkpoint <= e.virtualTime then Err(TimeNotMonotonic)
    else Ok(Moved(e, WaitingForSubmission).(stageIndex := e.stageIndex + 1, virtualTime := checkpoint))
  }

  function CompleteEpisode(e: Episode, version: nat, isFinal: bool, verdict: Verdict): Result<Episode, Error>
  {
    var check := Check(e, version, FeedbackAvailable);
    if check.Some? then Err(check.value)
    else if !isFinal || verdict != Pass then Err(NotFinalizable)
    else Ok(Moved(e, Completed))
  }

  // --- Evaluation -------------------------------------------------------------------------------------------

  datatype Verdict = Pass | Partial | Fail

  datatype SourceLimit = SourceLimit(source: string, maximum: real)

  datatype SectionTarget = SectionTarget(section: string, minimum: real)

  datatype Rules = Rules(sources: seq<SourceLimit>, targets: seq<SectionTarget>, toSanjiadian: real, toLugouqiao: real,
                         toCuizhihuiying: real, toQujiadian: real, totalLimit: real)

  const StageOneRules := Rules(
    [SourceLimit("guanting", 24.0), SourceLimit("south-water", 10.0), SourceLimit("reclaimed-lower", 6.0)],
    [SectionTarget("sanjiadian", 10.0), SectionTarget("lugouqiao", 16.0), SectionTarget("cuizhihuiying", 15.0),
     SectionTarget("qujiadian", 12.0)],
    0.9, 0.88, 0.82, 0.9, 30.0)

  const StageTwoRules := Rules(
    [SourceLimit("guanting", 24.0), SourceLimit("south-water", 3.0), SourceLimit("reclaimed-lower", 6.0)],
    [SectionTarget("sanjiadian", 10.0), SectionTarget("lugouqiao", 16.0), SectionTarget("cuizhihuiying", 15.0),
     SectionTarget("qujiadian", 15.0)],
    0.9, 0.78, 0.82, 0.9, 30.0)

  function RulesFor(stage: nat): Rules
  {
    if stage == 2 then StageTwoRules else StageOneRules
  }

  /** The last release of a source, zero if there is none. */
  function FlowOf(releases: seq<SourceRelease>, source: string): real
  {
    if releases == [] then 0.0
    else if releases[|releases| - 1].source == source then releases[|releases| - 1].flow
    else FlowOf(releases[..|releases| - 1], source)
  }

  function ExpectedOf(expected: seq<SectionFlow>, section: string): Option<real>
  {
    if expected == [] then None
    else if expected[|expected| - 1].section == section then Some(expected[|expected| - 1].flow)
    else ExpectedOf(expected[..|expected| - 1], section)
  }

  /** The flow each section receives down the river. */
  function ComputedFlows(rules: Rules, releases: seq<SourceRelease>): seq<SectionFlow>
  {
    var sanjiadian := rules.toSanjiadian * FlowOf(releases, "guanting");
    var lugouqiao := rules.toLugouqiao * (sanjiadian + FlowOf(releases, "south-water"));
    var cuizhihuiying := rules.toCuizhihuiying * (lugouqiao + FlowOf(releases, "reclaimed-lower"));
    [SectionFlow("sanjiadian", sanjiadian), SectionFlow("lugouqiao", lugouqiao),
     SectionFlow("cuizhihuiying", cuizhihuiying), SectionFlow("qujiadian", rules.toQujiadian * cuizhihuiying)]
  }

  function Computed(flows: seq<SectionFlow>, section: string): real
  {
    var flow := ExpectedOf(flows, section);
    if flow.Some? then flow.value else 0.0
  }

  function Abs(x: real): real
  {
    if x < 0.0 then -x else x
  }

  function Total(releases: seq<SourceRelease>): real
  {
    if releases == [] then 0.0 else Total(releases[..|releases| - 1]) + releases[|releases| - 1].flow
  }

  /** A flow is a multiple of one tenth, up to a billionth. */
  predicate WholeStep(flow: real)
  {
    var tenths := flow * 10.0;
    Abs(tenths - (tenths + 0.5).Floor as real) < 0.000000001
  }

  predicate LimitsOk(rules: Rules, releases: seq<SourceRelease>)
  {
    forall i | 0 <= i < |rules.sources| :: 0.0 <= FlowOf(releases, rules.sources[i].source) <= rules.sources[i].maximum
  }

  predicate StepsOk(releases: seq<SourceRelease>)
  {
    forall i | 0 <= i < |releases| :: WholeStep(releases[i].flow)
  }

  /** Every section has an expected flow within a hundredth of the computed one. */
  predicate ModelOk(rules: Rules, plan: Plan)
  {
    var flows := ComputedFlows(rules, plan.releases);
    forall i | 0 <= i < |flows| ::
      var expected := ExpectedOf(plan.expected, flows[i].section);
      expected.Some? && Abs(expected.value - flows[i].flow) <= 0.01
  }

  function Least(x: real, y: real): real
  {
    if x <= y then x else y
  }

  /** A flow's share of a target's minimum, at most one; None when the quotient is not a finite number or
      not a number at all. */
  function Share(flow: real, minimum: real): Option<real>
  {
    if minimum != 0.0 then Some(Least(1.0, flow / minimum)) else if flow > 0.0 then Some(1.0) else None
  }

  /** The shares of all targets added up. */
  function Coverage(targets: seq<SectionTarget>, flows: seq<SectionFlow>): Option<real>
  {
    if targets == [] then Some(0.0)
    else
      var t := targets[|targets| - 1];
      var before, share := Coverage(targets[..|targets| - 1], flows), Share(Computed(flows, t.section), t.minimum);
      if before.None? || share.None? then None else Some(before.value + share.value)
  }

  function EvidencedCount(releases: seq<SourceRelease>): nat
  {
    if releases == [] then 0
    else EvidencedCount(releases[..|releases| - 1]) + (if releases[|releases| - 1].evidence != [] then 1 else 0)
  }

  predicate Cites(releases: seq<SourceRelease>, id: string)
  {
    exists i | 0 <= i < |releases| :: id in releases[i].evidence
  }

  /** When an observation was made, in virtual time. */
  datatype Observation = Observation(informationId: string, releasedTime: int, accessedVirtualTime: int)

  /** The cited observations made after the plan was submitted. */
  function Violations(observations: seq<Observation>, releases: seq<SourceRelease>, submitted: int): nat
  {
    if observations == [] then 0
    else
      var o := observations[|observations| - 1];
      Violations(observations[..|observations| - 1], releases, submitted)
      + (if Cites(releases, o.informationId) && o.accessedVirtualTime > submitted then 1 else 0)
  }

  /** Ecology and score are None when they are not finite numbers. */
  datatype Evaluation = Evaluation(verdict: Verdict, compliance: real, ecology: Option<real>, evidence: real,
                                   timeTravel: nat, score: Option<real>)

  function One(b: bool): real
  {
    if b then 1.0 else 0.0
  }

  /** The mean share of the targets; full when there are none. */
  function Ecology(targets: seq<SectionTarget>, flows: seq<SectionFlow>): Option<real>
  {
    var coverage := Coverage(targets, flows);
    if targets == [] then Some(1.0) else if coverage.None? then None else Some(coverage.value / |targets| as real)
  }

  function Evaluate(rules: Rules, plan: Plan, observations: seq<Observation>, submitted: int): Evaluation
  {
    var compliance := (One(LimitsOk(rules, plan.releases)) + One(Total(plan.releases) <= rules.totalLimit)
                       + One(StepsOk(plan.releases)) + One(ModelOk(rules, plan))) / 4.0;
    var ecology := Ecology(rules.targets, ComputedFlows(rules, plan.releases));
    var evidence := if plan.releases == [] then 0.0 else EvidencedCount(plan.releases) as real / |plan.releases| as real;
    var timeTravel := Violations(observations, plan.releases, submitted);
    var score := if ecology.None? then None
                 else Some(compliance * 40.0 + ecology.value * 40.0 + evidence * 10.0 + One(timeTravel == 0) * 10.0);
    var verdict := if timeTravel == 0 && compliance == 1.0 && ecology == Some(1.0) && evidence == 1.0 then Pass
                   else if timeTravel > 0 || compliance < 1.0 then Fail
                   else Partial;
    Evaluation(verdict, compliance, ecology, evidence, timeTravel, score)
  }

  // --- What a verdict means ------------------------------------------------------------------------------------

  /** A flow meets a minimum; for a minimum that is not positive this is what its quotient comes to. */
  predicate Meets(flow: real, minimum: real)
  {
    if minimum > 0.0 then flow >= minimum else if minimum == 0.0 then flow > 0.0 else flow <= minimum
  }

  /** Every target section receives its minimum flow. */
  predicate TargetsMet(targets: seq<SectionTarget>, flows: seq<SectionFlow>)
  {
    forall i | 0 <= i < |targets| :: Meets(Computed(flows, targets[i].section), targets[i].minimum)
  }

  lemma ShareIsOne(flow: real, minimum: real)
    ensures Share(flow, minimum).Some? ==> Share(flow, minimum).value <= 1.0
    ensures Share(flow, minimum) == Some(1.0) <==> Meets(flow, minimum)
  {
    if minimum != 0.0 {
      var q := flow / minimum;
      assert q * minimum == flow;
      if minimum > 0.0 { Scaled(q, minimum); } else { Scaled(q, -minimum); }
    }
  }

  lemma Scaled(q: real, m: real)
    requires m > 0.0
    ensures q >= 1.0 <==> q * m >= m
  {
    if q >= 1.0 { assert (q - 1.0) * m >= 0.0; }
    if q < 1.0 { assert (1.0 - q) * m > 0.0; }
  }

  lemma {:induction false} CoverageIsFull(targets: seq<SectionTarget>, flows: seq<SectionFlow>)
    ensures Coverage(targets, flows).Some? ==> Coverage(targets, flows).value <= |targets| as real
    ensures Coverage(targets, flows) == Some(|targets| as real) <==> TargetsMet(targets, flows)
  {
    if targets != [] {
      var t := targets[|targets| - 1];
      CoverageIsFull(targets[..|targets| - 1], flows);
      ShareIsOne(Computed(flows, t.section), t.minimum);
      hide Share, Meets;
    }
  }

  lemma {:induction false} AllEvidenced(releases: seq<SourceRelease>)
    ensures EvidencedCount(releases) <= |releases|
    ensures EvidencedCount(releases) == |releases| <==> forall i | 0 <= i < |releases| :: releases[i].evidence != []
  {
    if releases != [] { AllEvidenced(releases[..|releases| - 1]); }
  }

  /** Whatever the rules and the plan, a plan passes exactly when it releases something, keeps every limit,
      gives every target its flow, gives evidence for every release, and cites nothing from the future. */
  lemma PassMeansFeasible(rules: Rules, plan: Plan, observations: seq<Observation>, submitted: int)
    ensures Evaluate(rules, plan, observations, submitted).verdict == Pass
       <==> plan.releases != []
            && LimitsOk(rules, plan.releases) && Total(plan.releases) <= rules.totalLimit && StepsOk(plan.releases)
            && ModelOk(rules, plan) && TargetsMet(rules.targets, ComputedFlows(rules, plan.releases))
            && (forall i | 0 <= i < |plan.releases| :: plan.releases[i].evidence != [])
            && Violations(observations, plan.releases, submitted) == 0
  {
    hide LimitsOk, StepsOk, ModelOk, Total, ComputedFlows, Coverage, EvidencedCount, TargetsMet;
    var flows := ComputedFlows(rules, plan.releases);
    CoverageIsFull(rules.targets, flows);
    AllEvidenced(plan.releases);
    EcologyIsFull(rules.targets, flows);
    if plan.releases != [] { RatioIsOne(EvidencedCount(plan.releases) as real, |plan.releases|); }
  }

  lemma EcologyIsFull(targets: seq<SectionTarget>, flows: seq<SectionFlow>)
    ensures Ecology(targets, flows) == Some(1.0) <==> TargetsMet(targets, flows)
  {
    hide Coverage;
    CoverageIsFull(targets, flows);
    var coverage := Coverage(targets, flows);
    if targets != [] && coverage.Some? { RatioIsOne(coverage.value, |targets|); }
  }

  lemma RatioIsOne(x: real, n: nat)
    requires n > 0
    ensures x / n as real == 1.0 <==> x == n as real
  {
    assert x / n as real * n as real == x;
  }

  /** Observations made by the time of submission never count as time travel. */
  lemma {:induction false} NoViolations(observations: seq<Observation>, releases: seq<SourceRelease>, submitted: int)
    requires forall i | 0 <= i < |observations| :: observations[i].accessedVirtualTime <= submitted
    ensures Violations(observations, releases, submitted) == 0
  {
    if observations != [] { NoViolations(observations[..|observations| - 1], releases, submitted); }
  }
}
