/**
 * The bookkeeping of the monkey-test driver script: the fixed strategy
 * weights, the list of executed actions, the per-strategy distribution of
 * that list, the effectiveness scores, the advice and the risk summary built
 * from it. Choosing actions at random, the adb commands, the delays and the
 * JSON files are not modelled.
 */
module MonkeyTest {
  import opened Numerics

  /** The four action strategies. */
  datatype Strategy = RandomTaps | UiElementInteraction | NavigationPatterns | StressTesting

  /** The gesture an action performs. */
  datatype ActionKind = Tap | Swipe | LongPress | Navigation | Stress

  /**
   * How reporting an executed action goes: the report is printed; or printing
   * it raises and the handler's own report succeeds; or the handler's report
   * raises too.
   */
  datatype ReportOutcome = Reported | ReportFails | HandlerFails

  /** One recorded action: its strategy, its gesture and whether executing it raised an error. */
  datatype Action = Action(strategy: Strategy, kind: ActionKind, error: bool)

  /** The selection weights set up by the constructor. */
  function DefaultWeights(): (w: map<Strategy, real>)
    ensures w.Keys == {RandomTaps, UiElementInteraction, NavigationPatterns, StressTesting}
    ensures forall s :: s in w ==> 0.0 < w[s] < 1.0
  {
    map[RandomTaps := 0.3, UiElementInteraction := 0.4, NavigationPatterns := 0.2, StressTesting := 0.1]
  }

  /** The weights make a probability distribution: taken exactly, they sum to 1. */
  lemma WeightsSumToOne()
    ensures var w := DefaultWeights();
      w[RandomTaps] + w[UiElementInteraction] + w[NavigationPatterns] + w[StressTesting] == 1.0
  {
  }

  /** How many of `events` used strategy `s`. */
  function Count(events: seq<Action>, s: Strategy): (n: nat)
    ensures n <= |events|
  {
    if |events| == 0 then 0
    else Count(events[..|events| - 1], s) + (if events[|events| - 1].strategy == s then 1 else 0)
  }

  /** Recording one more action adds one to its strategy's count and leaves the others alone. */
  lemma CountAppend(events: seq<Action>, a: Action, s: Strategy)
    ensures Count(events + [a], s) == Count(events, s) + (if a.strategy == s then 1 else 0)
  {
    assert (events + [a])[..|events|] == events;
  }

  lemma CountAppendTwice(events: seq<Action>, a: Action, s: Strategy)
    ensures Count(events + [a] + [a], s) == Count(events, s) + (if a.strategy == s then 2 else 0)
  {
    CountAppend(events, a, s);
    CountAppend(events + [a], a, s);
  }

  /** Every recorded action is counted under exactly one strategy. */
  lemma {:induction false} CountsSum(events: seq<Action>)
    ensures Count(events, RandomTaps) + Count(events, UiElementInteraction)
          + Count(events, NavigationPatterns) + Count(events, StressTesting) == |events|
  {
    if |events| > 0 {
      CountsSum(events[..|events| - 1]);
    }
  }

  /** The value the script reads with `strategies.get(s, 0)`. */
  function Get(distribution: map<Strategy, int>, s: Strategy): int
  {
    if s in distribution then distribution[s] else 0
  }

  datatype Effectiveness = Effectiveness(eventsCount: int, effectivenessScore: real)

  /** The saved results: the package, the number of recorded events and their distribution. */
  datatype TestResults = TestResults(packageName: string, totalEvents: int, distribution: map<Strategy, int>)

  /** The advice messages. */
  datatype Recommendation = EventsSufficient | IncreaseEvents | MoreUiInteraction | MoreStressTesting

  datatype Risk = Low | Medium | Unknown

  datatype RiskAssessment = RiskAssessment(crashRisk: Risk, uiBreakageRisk: Risk, performanceRisk: Risk, overallRiskLevel: Risk)

  /** `assess_risks`: the crash risk is low once any event ran; the other levels are fixed. */
  function AssessRisks(results: TestResults): (r: RiskAssessment)
    ensures r.crashRisk == Low <==> results.totalEvents > 0
    ensures r.crashRisk == Unknown <==> results.totalEvents <= 0
    ensures r.uiBreakageRisk == Medium && r.performanceRisk == Low && r.overallRiskLevel == Medium
  {
    RiskAssessment(if results.totalEvents > 0 then Low else Unknown, Medium, Low, Medium)
  }

  datatype AiReport = AiReport(
    totalEvents: int,
    strategyEffectiveness: map<Strategy, Effectiveness>,
    recommendations: seq<Recommendation>,
    riskAssessment: RiskAssessment)

  /** The tester: the package under test, the strategy weights and the actions recorded so far. */
  class AiMonkeyTester {
    var packageName: string
    var strategies: map<Strategy, real>
    var testEvents: seq<Action>

    constructor (packageName: string)
      ensures this.packageName == packageName
      ensures strategies == DefaultWeights()
      ensures testEvents == []
    {
      this.packageName := packageName;
      strategies := DefaultWeights();
      testEvents := [];
    }

    /**
     * `execute_action`: the action is recorded, then reported on the console.
     * If reporting fails (`ReportFails`, the console refusing the message),
     * the handler reports the error, marks the same action with it and records
     * it again, so it appears twice, both times marked. If the handler's own
     * report fails as well (`HandlerFails`), the exception escapes before the
     * mark: the action stays recorded once and unmarked.
     */
    method ExecuteAction(action: Action, outcome: ReportOutcome) returns (escaped: bool)
      modifies this
      ensures packageName == old(packageName) && strategies == old(strategies)
      ensures escaped <==> outcome == HandlerFails
      ensures outcome != ReportFails ==> testEvents == old(testEvents) + [action]
      ensures outcome == ReportFails ==>
        var marked := action.(error := true);
        testEvents == old(testEvents) + [marked, marked]
      ensures Count(testEvents, action.strategy) == Count(old(testEvents), action.strategy) + (if outcome == ReportFails then 2 else 1)
      ensures forall s :: s != action.strategy ==> Count(testEvents, s) == Count(old(testEvents), s)
    {
      testEvents := testEvents + [action];
      escaped := false;
      if outcome == ReportFails {
        var marked := action.(error := true);
        testEvents := testEvents[..|testEvents| - 1] + [marked, marked];
        assert testEvents == (old(testEvents) + [marked]) + [marked];
        forall s {
          CountAppendTwice(old(testEvents), marked, s);
        }
      } else {
        if outcome == HandlerFails {
          escaped := true;
        }
        forall s {
          CountAppend(old(testEvents), action, s);
        }
      }
    }

    /**
     * `analyze_strategy_distribution`: a strategy is a key exactly when some
     * recorded action used it, and its value is how many did.
     */
    method AnalyzeStrategyDistribution() returns (distribution: map<Strategy, int>)
      ensures forall s :: s in distribution <==> Count(testEvents, s) > 0
      ensures forall s :: Get(distribution, s) == Count(testEvents, s)
    {
      distribution := map[];
      var i := 0;
      while i < |testEvents|
        invariant 0 <= i <= |testEvents|
        invariant forall s :: s in distribution <==> Count(testEvents[..i], s) > 0
        invariant forall s :: Get(distribution, s) == Count(testEvents[..i], s)
      {
        var strategy := testEvents[i].strategy;
        assert testEvents[..i + 1] == testEvents[..i] + [testEvents[i]];
        forall s {
          CountAppend(testEvents[..i], testEvents[i], s);
        }
        distribution := distribution[strategy := Get(distribution, strategy) + 1];
        i := i + 1;
      }
      assert testEvents[..i] == testEvents;
    }

    /** `save_test_results`: the totals and the distribution of the recorded actions. */
    method SaveTestResults() returns (results: TestResults)
      ensures results.packageName == packageName && results.totalEvents == |testEvents|
      ensures forall s :: Get(results.distribution, s) == Count(testEvents, s)
      ensures Get(results.distribution, RandomTaps) + Get(results.distribution, UiElementInteraction)
            + Get(results.distribution, NavigationPatterns) + Get(results.distribution, StressTesting)
            == results.totalEvents
    {
      var distribution := AnalyzeStrategyDistribution();
      results := TestResults(packageName, |testEvents|, distribution);
      CountsSum(testEvents);
    }

    /**
     * `analyze_strategy_effectiveness`: every strategy with a positive count
     * gets its count and a score of a tenth of it, capped at 1; the others
     * are left out.
     */
    method AnalyzeStrategyEffectiveness(strategies: map<Strategy, int>)
      returns (effectiveness: map<Strategy, Effectiveness>)
      ensures forall s :: s in effectiveness <==> s in strategies && strategies[s] > 0
      ensures forall s :: s in effectiveness ==>
        && effectiveness[s].eventsCount == strategies[s]
        && effectiveness[s].effectivenessScore == MinR(strategies[s] as real / 10.0, 1.0)
        && 0.0 < effectiveness[s].effectivenessScore <= 1.0
      ensures forall s :: s in effectiveness && strategies[s] >= 10 ==> effectiveness[s].effectivenessScore == 1.0
    {
      effectiveness := map[];
      var remaining := strategies.Keys;
      while remaining != {}
        invariant remaining <= strategies.Keys
        invariant forall s :: s in effectiveness <==> s in strategies - remaining && strategies[s] > 0
        invariant forall s :: s in effectiveness ==>
          && effectiveness[s].eventsCount == strategies[s]
          && effectiveness[s].effectivenessScore == MinR(strategies[s] as real / 10.0, 1.0)
          && 0.0 < effectiveness[s].effectivenessScore <= 1.0
        decreases remaining
      {
        var strategy :| strategy in remaining;
        var count := strategies[strategy];
        if count > 0 {
          effectiveness := effectiveness[strategy := Effectiveness(count, MinR(count as real / 10.0, 1.0))];
        }
        remaining := remaining - {strategy};
      }
    }

    /** `generate_recommendations`: the advice list, built by appending. */
    method GenerateRecommendations(results: TestResults) returns (recommendations: seq<Recommendation>)
      ensures recommendations == Recommendations(results)
    {
      recommendations := [];
      if results.totalEvents > 500 {
        recommendations := recommendations + [EventsSufficient];
      } else {
        recommendations := recommendations + [IncreaseEvents];
      }
      var strategies := results.distribution;
      if Get(strategies, UiElementInteraction) as real < results.totalEvents as real * 0.3 {
        recommendations := recommendations + [MoreUiInteraction];
      }
      if Get(strategies, StressTesting) as real < results.totalEvents as real * 0.1 {
        recommendations := recommendations + [MoreStressTesting];
      }
    }

    /**
     * `generate_ai_report`: the total, the effectiveness of exactly the
     * strategies used with their scores, the advice and the risks.
     */
    method GenerateAiReport(results: TestResults) returns (report: AiReport)
      ensures report.totalEvents == results.totalEvents
      ensures report.riskAssessment == AssessRisks(results)
      ensures forall s :: s in report.strategyEffectiveness <==> s in results.distribution && results.distribution[s] > 0
      ensures forall s :: s in report.strategyEffectiveness ==>
        report.strategyEffectiveness[s] ==
          Effectiveness(results.distribution[s], MinR(results.distribution[s] as real / 10.0, 1.0))
      ensures report.recommendations == Recommendations(results)
    {
      var effectiveness := AnalyzeStrategyEffectiveness(results.distribution);
      var recommendations := GenerateRecommendations(results);
      report := AiReport(results.totalEvents, effectiveness, recommendations, AssessRisks(results));
    }
  }

  /**
   * The advice of `generate_recommendations`: first whether the event count
   * is enough (more than 500), then more UI interaction when it had under 30%
   * of the events, then more stress testing when it had under 10%.
   */
  function Recommendations(results: TestResults): (r: seq<Recommendation>)
    ensures var total := results.totalEvents as real;
      var addUi := Get(results.distribution, UiElementInteraction) as real < total * 0.3;
      var addStress := Get(results.distribution, StressTesting) as real < total * 0.1;
      && |r| == 1 + (if addUi then 1 else 0) + (if addStress then 1 else 0)
      && r[0] == (if results.totalEvents > 500 then EventsSufficient else IncreaseEvents)
      && (MoreUiInteraction in r <==> addUi)
      && (MoreStressTesting in r <==> addStress)
      && (addUi ==> r[1] == MoreUiInteraction)
      && (addStress ==> r[|r| - 1] == MoreStressTesting)
  {
    [if results.totalEvents > 500 then EventsSufficient else IncreaseEvents]
    + (if Get(results.distribution, UiElementInteraction) as real < results.totalEvents as real * 0.3
       then [MoreUiInteraction] else [])
    + (if Get(results.distribution, StressTesting) as real < results.totalEvents as real * 0.1
       then [MoreStressTesting] else [])
  }

  /**
   * The advice thresholds in whole numbers: UI advice exactly when fewer than
   * three in ten events were UI interactions, stress advice exactly when fewer
   * than one in ten were stress events; a run with events but no stress
   * events always gets the stress advice.
   */
  lemma AdviceThresholds(results: TestResults)
    ensures var ui := Get(results.distribution, UiElementInteraction);
      (ui as real < results.totalEvents as real * 0.3) <==> 10 * ui < 3 * results.totalEvents
    ensures var stress := Get(results.distribution, StressTesting);
      (stress as real < results.totalEvents as real * 0.1) <==> 10 * stress < results.totalEvents
    ensures results.totalEvents > 0 && Get(results.distribution, StressTesting) == 0 ==>
      (Get(results.distribution, StressTesting) as real) < results.totalEvents as real * 0.1
  {
  }
}
