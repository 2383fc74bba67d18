/** What the evaluation of a water allocation plan says, told in flows down the river, sums and counts. */
module PlanVerdicts {
  import opened Outcomes
  import opened Episodes

  // --- Flows -------------------------------------------------------------------------------------------------

  /** What a plan releases from a source: the flow of its last release of it, nothing without one. */
  ghost predicate Releases(releases: seq<SourceRelease>, source: string, flow: real)
  {
    || (flow == 0.0 && forall i | 0 <= i < |releases| :: releases[i].source != source)
    || exists i | 0 <= i < |releases| ::
         releases[i].source == source && releases[i].flow == flow && forall j | i < j < |releases| :: releases[j].source != source
  }

  lemma {:induction false} FlowIsReleased(releases: seq<SourceRelease>, source: string)
    ensures Releases(releases, source, FlowOf(releases, source))
  {
    if releases != [] && releases[|releases| - 1].source != source {
      var init := releases[..|releases| - 1];
      FlowIsReleased(init, source);
      assert forall i | 0 <= i < |init| :: init[i] == releases[i];
      if i :| 0 <= i < |init| && init[i].source == source && init[i].flow == FlowOf(init, source)
              && forall j | i < j < |init| :: init[j].source != source {
        assert releases[i].source == source;
      }
    }
  }

  lemma ReleaseIsUnique(releases: seq<SourceRelease>, source: string, x: real, y: real)
    requires Releases(releases, source, x) && Releases(releases, source, y)
    ensures x == y
  {
  }

  /** What a plan expects at a section: the flow of its last entry for it. */
  ghost predicate Expects(expected: seq<SectionFlow>, section: string, flow: real)
  {
    exists i | 0 <= i < |expected| ::
      expected[i].section == section && expected[i].flow == flow && forall j | i < j < |expected| :: expected[j].section != section
  }

  lemma {:induction false} ExpectedIsExpected(expected: seq<SectionFlow>, section: string)
    ensures ExpectedOf(expected, section).None? <==> forall i | 0 <= i < |expected| :: expected[i].section != section
    ensures ExpectedOf(expected, section).Some? ==> Expects(expected, section, ExpectedOf(expected, section).value)
  {
    if expected != [] && expected[|expected| - 1].section != section {
      var init := expected[..|expected| - 1];
      ExpectedIsExpected(init, section);
      assert forall i | 0 <= i < |init| :: init[i] == expected[i];
      if ExpectedOf(init, section).Some? {
        var i :| 0 <= i < |init| && init[i].section == section && init[i].flow == ExpectedOf(init, section).value
                 && forall j | i < j < |init| :: init[j].section != section;
        assert expected[i].section == section;
      }
    }
  }

  lemma ExpectationIsUnique(expected: seq<SectionFlow>, section: string, x: real, y: real)
    requires Expects(expected, section, x) && Expects(expected, section, y)
    ensures x == y
  {
  }

  /** The river: each section loses a share of what reaches it and gains the release that enters above it. */
  datatype River = River(sanjiadian: real, lugouqiao: real, cuizhihuiying: real, qujiadian: real)

  ghost predicate FlowsDown(rules: Rules, releases: seq<SourceRelease>, river: River)
  {
    exists guanting, south, reclaimed ::
      && Releases(releases, "guanting", guanting) && Releases(releases, "south-water", south)
      && Releases(releases, "reclaimed-lower", reclaimed)
      && river.sanjiadian == guanting * rules.toSanjiadian
      && river.lugouqiao == (river.sanjiadian + south) * rules.toLugouqiao
      && river.cuizhihuiying == (river.lugouqiao + reclaimed) * rules.toCuizhihuiying
      && river.qujiadian == river.cuizhihuiying * rules.toQujiadian
  }

  /** The flow at a section, none at a section the model does not know. */
  ghost function At(river: River, section: string): real
  {
    if section == "sanjiadian" then river.sanjiadian
    else if section == "lugouqiao" then river.lugouqiao
    else if section == "cuizhihuiying" then river.cuizhihuiying
    else if section == "qujiadian" then river.qujiadian
    else 0.0
  }

  ghost function Down(rules: Rules, releases: seq<SourceRelease>): River
  {
    var flows := ComputedFlows(rules, releases);
    River(flows[0].flow, flows[1].flow, flows[2].flow, flows[3].flow)
  }

  lemma RiverFlowsDown(rules: Rules, releases: seq<SourceRelease>)
    ensures FlowsDown(rules, releases, Down(rules, releases))
    ensures forall section :: Computed(ComputedFlows(rules, releases), section) == At(Down(rules, releases), section)
  {
    FlowIsReleased(releases, "guanting");
    FlowIsReleased(releases, "south-water");
    FlowIsReleased(releases, "reclaimed-lower");
    var flows := ComputedFlows(rules, releases);
    assert flows[0].section == "sanjiadian" && flows[1].section == "lugouqiao";
    assert flows[2].section == "cuizhihuiying" && flows[3].section == "qujiadian";
    forall section ensures Computed(flows, section) == At(Down(rules, releases), section) {
      LastOfFour(flows, section);
    }
    hide FlowOf, Releases;
  }

  lemma LastOfFour(flows: seq<SectionFlow>, section: string)
    requires |flows| == 4
    ensures ExpectedOf(flows, section)
         == if flows[3].section == section then Some(flows[3].flow)
            else if flows[2].section == section then Some(flows[2].flow)
            else if flows[1].section == section then Some(flows[1].flow)
            else if flows[0].section == section then Some(flows[0].flow)
            else None
  {
    assert ExpectedOf(flows[..0], section) == None;
    ExpectedOfLonger(flows, 1, section);
    ExpectedOfLonger(flows, 2, section);
    ExpectedOfLonger(flows, 3, section);
    ExpectedOfLonger(flows, 4, section);
    assert flows[..4] == flows;
    hide ExpectedOf;
  }

  lemma ExpectedOfLonger(flows: seq<SectionFlow>, n: nat, section: string)
    requires 0 < n <= |flows|
    ensures ExpectedOf(flows[..n], section)
         == if flows[n - 1].section == section then Some(flows[n - 1].flow) else ExpectedOf(flows[..n - 1], section)
  {
    assert flows[..n][..n - 1] == flows[..n - 1];
  }

  // --- Constraints ---------------------------------------------------------------------------------------------

  ghost predicate KeepsLimits(rules: Rules, releases: seq<SourceRelease>)
  {
    forall s, flow | s in rules.sources && Releases(releases, s.source, flow) :: 0.0 <= flow && flow <= s.maximum
  }

  ghost function SumUpTo(releases: seq<SourceRelease>, n: nat): real
    requires n <= |releases|
  {
    if n == 0 then 0.0 else SumUpTo(releases, n - 1) + releases[n - 1].flow
  }

  lemma {:induction false} TotalIsSum(releases: seq<SourceRelease>, n: nat)
    requires n <= |releases|
    ensures Total(releases[..n]) == SumUpTo(releases, n)
  {
    if n > 0 {
      TotalIsSum(releases, n - 1);
      assert releases[..n][..n - 1] == releases[..n - 1];
    }
  }

  /** Every release is a whole number of tenths, up to a billionth of a tenth. */
  ghost predicate InTenths(releases: seq<SourceRelease>)
  {
    forall r | r in releases :: exists k: int :: NearlyTenths(r.flow, k)
  }

  ghost predicate NearlyTenths(flow: real, k: int)
  {
    -0.000000001 < 10.0 * flow - k as real < 0.000000001
  }

  lemma WholeStepMeans(flow: real)
    ensures WholeStep(flow) <==> exists k: int :: NearlyTenths(flow, k)
  {
    var tenths := flow * 10.0;
    if WholeStep(flow) { assert NearlyTenths(flow, (tenths + 0.5).Floor); }
    if k: int :| NearlyTenths(flow, k) {
      assert (tenths + 0.5).Floor == k;
    }
  }

  /** Every section of the river is expected, within a hundredth of what reaches it. */
  ghost predicate AgreesWithRiver(expected: seq<SectionFlow>, river: River)
  {
    forall section | section in {"sanjiadian", "lugouqiao", "cuizhihuiying", "qujiadian"} :: AgreesAt(expected, river, section)
  }

  lemma ConstraintsMean(rules: Rules, plan: Plan)
    ensures LimitsOk(rules, plan.releases) <==> KeepsLimits(rules, plan.releases)
    ensures StepsOk(plan.releases) <==> InTenths(plan.releases)
    ensures ModelOk(rules, plan) <==> AgreesWithRiver(plan.expected, Down(rules, plan.releases))
    ensures Total(plan.releases) == SumUpTo(plan.releases, |plan.releases|)
  {
    LimitsMean(rules, plan.releases);
    StepsMean(plan.releases);
    ModelMeans(rules, plan);
    TotalIsSum(plan.releases, |plan.releases|);
    assert plan.releases[..|plan.releases|] == plan.releases;
  }

  lemma LimitsMean(rules: Rules, releases: seq<SourceRelease>)
    ensures LimitsOk(rules, releases) <==> KeepsLimits(rules, releases)
  {
    hide Releases;
    forall s, flow | s in rules.sources && Releases(releases, s.source, flow) ensures flow == FlowOf(releases, s.source) {
      FlowIsReleased(releases, s.source);
      ReleaseIsUnique(releases, s.source, flow, FlowOf(releases, s.source));
    }
    forall i | 0 <= i < |rules.sources| ensures Releases(releases, rules.sources[i].source, FlowOf(releases, rules.sources[i].source)) {
      FlowIsReleased(releases, rules.sources[i].source);
    }
  }

  lemma StepsMean(releases: seq<SourceRelease>)
    ensures StepsOk(releases) <==> InTenths(releases)
  {
    hide WholeStep, NearlyTenths;
    forall i | 0 <= i < |releases| ensures WholeStep(releases[i].flow) <==> exists k: int :: NearlyTenths(releases[i].flow, k) {
      WholeStepMeans(releases[i].flow);
    }
  }

  lemma SectionAgrees(expected: seq<SectionFlow>, section: string, flow: real)
    ensures (ExpectedOf(expected, section).Some? && Abs(ExpectedOf(expected, section).value - flow) <= 0.01)
       <==> exists x :: Expects(expected, section, x) && flow - 0.01 <= x <= flow + 0.01
  {
    ExpectedIsExpected(expected, section);
    if x :| Expects(expected, section, x) && flow - 0.01 <= x <= flow + 0.01 { ExpectationIsFound(expected, section, x); }
    hide ExpectedOf, Expects;
  }

  /** The plan agrees with the river at one section. */
  ghost predicate AgreesAt(expected: seq<SectionFlow>, river: River, section: string)
  {
    exists x :: Expects(expected, section, x) && At(river, section) - 0.01 <= x <= At(river, section) + 0.01
  }

  lemma ModelMeans(rules: Rules, plan: Plan)
    ensures ModelOk(rules, plan) <==> AgreesWithRiver(plan.expected, Down(rules, plan.releases))
  {
    var flows, river := ComputedFlows(rules, plan.releases), Down(rules, plan.releases);
    assert flows[0].section == "sanjiadian" && flows[1].section == "lugouqiao";
    assert flows[2].section == "cuizhihuiying" && flows[3].section == "qujiadian";
    hide ComputedFlows, Expects, ExpectedOf;
    forall i | 0 <= i < 4
      ensures AgreesAt(plan.expected, river, flows[i].section)
         <==> ExpectedOf(plan.expected, flows[i].section).Some?
              && Abs(ExpectedOf(plan.expected, flows[i].section).value - flows[i].flow) <= 0.01
    {
      SectionAgrees(plan.expected, flows[i].section, flows[i].flow);
    }
    hide Abs, AgreesAt;
    assert ModelOk(rules, plan) <==> forall i | 0 <= i < 4 :: AgreesAt(plan.expected, river, flows[i].section);
  }

  lemma ExpectationIsFound(expected: seq<SectionFlow>, section: string, x: real)
    requires Expects(expected, section, x)
    ensures ExpectedOf(expected, section) == Some(x)
  {
    ExpectedIsExpected(expected, section);
    ExpectationIsUnique(expected, section, x, ExpectedOf(expected, section).value);
  }

  // --- Verdicts -----------------------------------------------------------------------------------------------------

  /** The cited observations made after the plan was submitted. */
  ghost function FromTheFuture(observations: seq<Observation>, releases: seq<SourceRelease>, submitted: int): set<nat>
  {
    set i | 0 <= i < |observations| && IsFromTheFuture(observations[i], releases, submitted)
  }

  ghost predicate IsFromTheFuture(o: Observation, releases: seq<SourceRelease>, submitted: int)
  {
    o.accessedVirtualTime > submitted && exists r | r in releases :: o.informationId in r.evidence
  }

  lemma {:induction false} ViolationsAreCounted(observations: seq<Observation>, n: nat, releases: seq<SourceRelease>, submitted: int)
    requires n <= |observations|
    ensures Violations(observations[..n], releases, submitted) == |FromTheFuture(observations[..n], releases, submitted)|
  {
    if n > 0 {
      ViolationsAreCounted(observations, n - 1, releases, submitted);
      assert observations[..n][..n - 1] == observations[..n - 1];
      CitesMeans(releases, observations[n - 1].informationId);
      hide Cites, FromTheFuture;
      OneMoreObservation(observations[..n - 1], observations[n - 1], releases, submitted);
      assert observations[..n] == observations[..n - 1] + [observations[n - 1]];
    }
  }

  lemma OneMoreObservation(observations: seq<Observation>, o: Observation, releases: seq<SourceRelease>, submitted: int)
    ensures |FromTheFuture(observations + [o], releases, submitted)|
         == |FromTheFuture(observations, releases, submitted)| + (if IsFromTheFuture(o, releases, submitted) then 1 else 0)
  {
    hide IsFromTheFuture;
    var all, n := observations + [o], |observations|;
    var before, now := FromTheFuture(observations, releases, submitted), FromTheFuture(all, releases, submitted);
    forall i ensures i in now <==> i in before || (i == n && IsFromTheFuture(o, releases, submitted)) {
      if 0 <= i < n { assert all[i] == observations[i]; }
    }
    if IsFromTheFuture(o, releases, submitted) { assert now == before + {n}; } else { assert now == before; }
  }

  lemma CitesMeans(releases: seq<SourceRelease>, id: string)
    ensures Cites(releases, id) <==> exists r | r in releases :: id in r.evidence
  {
    if r :| r in releases && id in r.evidence {
      var i :| 0 <= i < |releases| && releases[i] == r;
    }
  }

  /** The evaluation of a plan: it passes when it releases something, keeps every source limit, the total, the
      steps and the flow model, gives every target its minimum, gives evidence for every release and cites
      nothing from the future. It fails when it breaks one of the four constraints or cites the future. It is
      partial otherwise. Compliance is the share of the four constraints that it keeps. */
  lemma VerdictMeans(rules: Rules, plan: Plan, observations: seq<Observation>, submitted: int)
    ensures var e, river := Evaluate(rules, plan, observations, submitted), Down(rules, plan.releases);
      var limits, total := KeepsLimits(rules, plan.releases), SumUpTo(plan.releases, |plan.releases|) <= rules.totalLimit;
      var steps, model := InTenths(plan.releases), AgreesWithRiver(plan.expected, river);
      var fromFuture := |FromTheFuture(observations, plan.releases, submitted)|;
      var supplied := (forall t | t in rules.targets :: Meets(At(river, t.section), t.minimum)) && plan.releases != []
                      && (forall r | r in plan.releases :: r.evidence != []);
      && FlowsDown(rules, plan.releases, river) && e.timeTravel == fromFuture
      && e.compliance == ((if limits then 1.0 else 0.0) + (if total then 1.0 else 0.0) + (if steps then 1.0 else 0.0)
                          + (if model then 1.0 else 0.0)) / 4.0
      && (e.verdict == Pass <==> limits && total && steps && model && fromFuture == 0 && supplied)
      && (e.verdict == Partial <==> limits && total && steps && model && fromFuture == 0 && !supplied)
      && (e.verdict == Fail <==> !(limits && total && steps && model && fromFuture == 0))
  {
    ConstraintsMean(rules, plan);
    RiverFlowsDown(rules, plan.releases);
    ViolationsAreCounted(observations, |observations|, plan.releases, submitted);
    assert observations[..|observations|] == observations;
    PassMeansFeasible(rules, plan, observations, submitted);
    SuppliedMeans(rules, plan);
    hide LimitsOk, StepsOk, ModelOk, Total, ComputedFlows, Ecology, EvidencedCount, TargetsMet, Violations;
    hide KeepsLimits, InTenths, AgreesWithRiver, FromTheFuture, FlowsDown, Meets;
  }

  lemma SuppliedMeans(rules: Rules, plan: Plan)
    ensures TargetsMet(rules.targets, ComputedFlows(rules, plan.releases))
       <==> forall t | t in rules.targets :: Meets(At(Down(rules, plan.releases), t.section), t.minimum)
    ensures (forall i | 0 <= i < |plan.releases| :: plan.releases[i].evidence != [])
       <==> forall r | r in plan.releases :: r.evidence != []
  {
    RiverFlowsDown(rules, plan.releases);
    hide ComputedFlows, Meets, FlowsDown;
  }

  // --- Scores -------------------------------------------------------------------------------------------------------

  ghost function Evidenced(releases: seq<SourceRelease>, n: nat): set<nat>
    requires n <= |releases|
  {
    set i | 0 <= i < n && |releases[i].evidence| > 0
  }

  lemma {:induction false} EvidencedAreCounted(releases: seq<SourceRelease>, n: nat)
    requires n <= |releases|
    ensures EvidencedCount(releases[..n]) == |Evidenced(releases, n)|
  {
    if n > 0 {
      EvidencedAreCounted(releases, n - 1);
      assert releases[..n][..n - 1] == releases[..n - 1];
      EvidencedOneMore(releases, n);
      hide Evidenced;
    }
  }

  lemma EvidencedOneMore(releases: seq<SourceRelease>, n: nat)
    requires 0 < n <= |releases|
    ensures |Evidenced(releases, n)| == |Evidenced(releases, n - 1)| + (if releases[n - 1].evidence != [] then 1 else 0)
  {
    var before := Evidenced(releases, n - 1);
    if releases[n - 1].evidence == [] {
      assert Evidenced(releases, n) == before;
    } else {
      assert Evidenced(releases, n) == before + {n - 1};
    }
  }

  /** What a target gets of its minimum, at most all of it, for positive minimums. */
  ghost function SuppliedUpTo(targets: seq<SectionTarget>, river: River, n: nat): real
    requires n <= |targets| && forall t | t in targets :: t.minimum > 0.0
  {
    if n == 0 then 0.0
    else
      var got := At(river, targets[n - 1].section) / targets[n - 1].minimum;
      SuppliedUpTo(targets, river, n - 1) + (if got > 1.0 then 1.0 else got)
  }

  lemma {:induction false} CoverageIsSupplied(targets: seq<SectionTarget>, flows: seq<SectionFlow>, river: River, n: nat)
    requires n <= |targets| && forall t | t in targets :: t.minimum > 0.0
    requires forall section :: Computed(flows, section) == At(river, section)
    ensures Coverage(targets[..n], flows) == Some(SuppliedUpTo(targets, river, n))
  {
    if n > 0 {
      CoverageIsSupplied(targets, flows, river, n - 1);
      assert targets[..n][..n - 1] == targets[..n - 1];
      assert targets[n - 1] in targets;
      hide Computed, At;
    }
  }

  /** The score: 40 points for compliance, 40 for the mean supply of the targets, 10 for the share of releases
      with evidence, and 10 for citing nothing from the future. */
  lemma ScoreMeans(rules: Rules, plan: Plan, observations: seq<Observation>, submitted: int)
    requires rules.targets != [] && forall t | t in rules.targets :: t.minimum > 0.0
    ensures var e, river := Evaluate(rules, plan, observations, submitted), Down(rules, plan.releases);
      var n := |rules.targets|;
      && e.ecology == Some(SuppliedUpTo(rules.targets, river, n) / n as real)
      && e.evidence == (if plan.releases == [] then 0.0
                        else |Evidenced(plan.releases, |plan.releases|)| as real / |plan.releases| as real)
      && e.score == Some(e.compliance * 40.0 + e.ecology.value * 40.0 + e.evidence * 10.0
                         + (if FromTheFuture(observations, plan.releases, submitted) == {} then 10.0 else 0.0))
  {
    hide LimitsOk, StepsOk, ModelOk, Total, ComputedFlows, EvidencedCount, Violations, Coverage, FlowsDown, Computed, At;
    RiverFlowsDown(rules, plan.releases);
    CoverageIsSupplied(rules.targets, ComputedFlows(rules, plan.releases), Down(rules, plan.releases), |rules.targets|);
    assert rules.targets[..|rules.targets|] == rules.targets;
    EvidencedAreCounted(plan.releases, |plan.releases|);
    assert plan.releases[..|plan.releases|] == plan.releases;
    ViolationsAreCounted(observations, |observations|, plan.releases, submitted);
    assert observations[..|observations|] == observations;
    hide FromTheFuture, Evidenced, SuppliedUpTo, Down;
  }

  /** The rules of both stages: one model and total, but less water from the south and more for the last
      section in the second. */
  lemma RulesOfStages(stage: nat)
    ensures var r := RulesFor(stage);
      && r.totalLimit == 30.0 && |r.sources| == 3 && |r.targets| == 4
      && r.sources[0] == SourceLimit("guanting", 24.0) && r.sources[2] == SourceLimit("reclaimed-lower", 6.0)
      && r.sources[1] == SourceLimit("south-water", if stage == 2 then 3.0 else 10.0)
      && r.targets[0] == SectionTarget("sanjiadian", 10.0) && r.targets[1] == SectionTarget("lugouqiao", 16.0)
      && r.targets[2] == SectionTarget("cuizhihuiying", 15.0)
      && r.targets[3] == SectionTarget("qujiadian", if stage == 2 then 15.0 else 12.0)
      && r.toSanjiadian == 0.9 && r.toCuizhihuiying == 0.82 && r.toQujiadian == 0.9
      && r.toLugouqiao == (if stage == 2 then 0.78 else 0.88)
  {
  }
}
