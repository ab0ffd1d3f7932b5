/**
 * The scoring half of the monkey-test analyzer script: a stability score out
 * of 100 from the exception, ANR and crash counts found in the logcat, a
 * status band, a list of advice, and the process exit code that gates the
 * run on the score. Reading the log files and matching them against the
 * regular expressions is not modelled; the matches arrive as lists.
 */
module MonkeyAnalyzer {
  import opened Numerics
  import opened Graphics

  /** The matches found in one log, by category; a missing log has none. */
  datatype LogAnalysis = LogAnalysis(
    exceptions: seq<string>,
    anrs: seq<string>,
    crashes: seq<string>,
    warnings: seq<string>,
    memoryIssues: seq<string>,
    uiIssues: seq<string>)

  function NoMatches(): LogAnalysis
  {
    LogAnalysis([], [], [], [], [], [])
  }

  datatype MonkeyResults = MonkeyResults(eventsCount: int, output: string)

  /** The four status bands: 优秀, 良好, 一般, 较差. */
  datatype Status = Excellent | Good | Fair | Poor

  /**
   * The advice messages: one per kind of problem found, then one per band
   * ("keep it up", "can be improved", "needs optimising", "fix first").
   */
  datatype Advice =
    | FixCrashes | FixAnrs | FixExceptions
    | KeepItUp | CanImprove | NeedsOptimising | FixProblemsFirst

  datatype AiResult = AiResult(stabilityScore: int, status: Status, recommendations: seq<Advice>)

  /** The score in closed form: each kind of problem costs a capped penalty, and the total is floored at 0. */
  function StabilityScore(exceptions: nat, anrs: nat, crashes: nat): (score: int)
    ensures 0 <= score <= 100
    ensures score == 100 <==> exceptions == 0 && anrs == 0 && crashes == 0
  {
    Max(0, 100 - Min(5 * exceptions, 30) - Min(10 * anrs, 40) - Min(20 * crashes, 50))
  }

  /** The band of a score: at least 90, at least 70, at least 50, or below. */
  function Band(score: int): (s: Status)
    ensures s == Excellent <==> score >= 90
    ensures s == Good <==> 70 <= score < 90
    ensures s == Fair <==> 50 <= score < 70
    ensures s == Poor <==> score < 50
  {
    if score >= 90 then Excellent
    else if score >= 70 then Good
    else if score >= 50 then Fair
    else Poor
  }

  /** Each band has its own closing message, and none of them is a problem advice. */
  function BandAdvice(s: Status): (a: Advice)
    ensures a == KeepItUp <==> s == Excellent
    ensures a == CanImprove <==> s == Good
    ensures a == NeedsOptimising <==> s == Fair
    ensures a == FixProblemsFirst <==> s == Poor
  {
    match s
    case Excellent => KeepItUp
    case Good => CanImprove
    case Fair => NeedsOptimising
    case Poor => FixProblemsFirst
  }

  /**
   * The score steps of `ai_analysis`: start from 100, subtract each kind's
   * capped penalty when that kind was found, and clamp at 0. The result is
   * the closed form `StabilityScore`.
   */
  method DeductPenalties(exceptionsCount: nat, anrsCount: nat, crashesCount: nat) returns (stabilityScore: int)
    ensures stabilityScore == StabilityScore(exceptionsCount, anrsCount, crashesCount)
  {
    stabilityScore := 100;
    if exceptionsCount > 0 {
      stabilityScore := stabilityScore - Min(exceptionsCount * 5, 30);
    }
    if anrsCount > 0 {
      stabilityScore := stabilityScore - Min(anrsCount * 10, 40);
    }
    if crashesCount > 0 {
      stabilityScore := stabilityScore - Min(crashesCount * 20, 50);
    }
    stabilityScore := Max(0, stabilityScore);
  }

  /**
   * `ai_analysis`: the score is computed step by step by `DeductPenalties`;
   * the advice lists crashes, then ANRs, then exceptions, each only when
   * found, and ends with the one message of the score's band. The total event
   * count and the crash log play no part.
   */
  method AiAnalysis(monkeyResults: MonkeyResults, logAnalysis: LogAnalysis, crashLog: LogAnalysis)
    returns (result: AiResult)
    ensures result.stabilityScore == StabilityScore(|logAnalysis.exceptions|, |logAnalysis.anrs|, |logAnalysis.crashes|)
    ensures result.status == Band(result.stabilityScore)
    ensures result.recommendations ==
      IssueAdvice(|logAnalysis.crashes|, |logAnalysis.anrs|, |logAnalysis.exceptions|) + [BandAdvice(result.status)]
    ensures |result.recommendations| >= 1
    ensures result.recommendations[|result.recommendations| - 1] == BandAdvice(result.status)
    ensures FixCrashes in result.recommendations <==> |logAnalysis.crashes| > 0
    ensures FixAnrs in result.recommendations <==> |logAnalysis.anrs| > 0
    ensures FixExceptions in result.recommendations <==> |logAnalysis.exceptions| > 0
  {
    var exceptionsCount := |logAnalysis.exceptions|;
    var anrsCount := |logAnalysis.anrs|;
    var crashesCount := |logAnalysis.crashes|;

    var stabilityScore := DeductPenalties(exceptionsCount, anrsCount, crashesCount);

    var recommendations: seq<Advice> := [];
    if crashesCount > 0 {
      recommendations := recommendations + [FixCrashes];
    }
    if anrsCount > 0 {
      recommendations := recommendations + [FixAnrs];
    }
    if exceptionsCount > 0 {
      recommendations := recommendations + [FixExceptions];
    }
    ghost var issues := recommendations;
    assert issues == IssueAdvice(crashesCount, anrsCount, exceptionsCount);

    var status;
    if stabilityScore >= 90 {
      status := Excellent;
      recommendations := recommendations + [KeepItUp];
    } else if stabilityScore >= 70 {
      status := Good;
      recommendations := recommendations + [CanImprove];
    } else if stabilityScore >= 50 {
      status := Fair;
      recommendations := recommendations + [NeedsOptimising];
    } else {
      status := Poor;
      recommendations := recommendations + [FixProblemsFirst];
    }
    result := AiResult(stabilityScore, status, recommendations);
    IssueAdviceMembers(crashesCount, anrsCount, exceptionsCount, BandAdvice(status));
  }

  /** The problem advice, most severe first: crashes, ANRs, exceptions, each only when found. */
  function IssueAdvice(crashes: nat, anrs: nat, exceptions: nat): (r: seq<Advice>)
    ensures FixCrashes in r <==> crashes > 0
    ensures FixAnrs in r <==> anrs > 0
    ensures FixExceptions in r <==> exceptions > 0
    ensures forall a :: a in r ==> a == FixCrashes || a == FixAnrs || a == FixExceptions
    ensures |r| == (if crashes > 0 then 1 else 0) + (if anrs > 0 then 1 else 0) + (if exceptions > 0 then 1 else 0)
    ensures crashes > 0 ==> r[0] == FixCrashes
    ensures exceptions > 0 ==> r[|r| - 1] == FixExceptions
  {
    (if crashes > 0 then [FixCrashes] else []) +
    (if anrs > 0 then [FixAnrs] else []) +
    (if exceptions > 0 then [FixExceptions] else [])
  }

  /** Each problem advice is given exactly when that problem was found, whatever band message follows. */
  lemma IssueAdviceMembers(crashes: nat, anrs: nat, exceptions: nat, band: Advice)
    requires band in {KeepItUp, CanImprove, NeedsOptimising, FixProblemsFirst}
    ensures var advice := IssueAdvice(crashes, anrs, exceptions) + [band];
      && (FixCrashes in advice <==> crashes > 0)
      && (FixAnrs in advice <==> anrs > 0)
      && (FixExceptions in advice <==> exceptions > 0)
      && |advice| == 1 + (if crashes > 0 then 1 else 0) + (if anrs > 0 then 1 else 0) + (if exceptions > 0 then 1 else 0)
  {
  }

  /** More problems of any kind never raise the score. */
  lemma ScoreMonotone(e1: nat, a1: nat, c1: nat, e2: nat, a2: nat, c2: nat)
    requires e1 <= e2 && a1 <= a2 && c1 <= c2
    ensures StabilityScore(e2, a2, c2) <= StabilityScore(e1, a1, c1)
  {
  }

  /** Any crash costs at least 20 points, and three crashes alone cap the score at 50. */
  lemma CrashPenalty(e: nat, a: nat, c: nat)
    requires c > 0
    ensures StabilityScore(e, a, c) <= 80
    ensures c >= 3 ==> StabilityScore(e, a, c) <= 50
  {
  }

  /**
   * `main`'s outcome: with no directory argument, or a directory that does
   * not exist, the exit code is 1 and nothing is analysed. Otherwise the
   * events count is the one found in the monkey output, or 500 when the
   * output or the number is missing; missing logs count as no matches; and
   * the exit code is 1 exactly when the score is below 70.
   */
  method RunAnalyzer(argc: int, directoryExists: bool, monkeyOutput: Option<string>,
                     eventsInOutput: Option<nat>, logcat: Option<LogAnalysis>, crashLog: Option<LogAnalysis>)
    returns (exitCode: int, result: Option<AiResult>)
    ensures result.None? <==> argc < 2 || !directoryExists
    ensures result.None? ==> exitCode == 1
    ensures result.Some? ==>
      var log := if logcat.Some? then logcat.value else NoMatches();
      && result.value.stabilityScore == StabilityScore(|log.exceptions|, |log.anrs|, |log.crashes|)
      && (exitCode == 1 <==> result.value.stabilityScore < 70)
    ensures exitCode == 0 || exitCode == 1
  {
    if argc < 2 {
      return 1, None;
    }
    if !directoryExists {
      return 1, None;
    }
    var monkeyResults := MonkeyResultsOf(monkeyOutput, eventsInOutput);
    var logAnalysis := if logcat.Some? then logcat.value else NoMatches();
    var crashAnalysis := if crashLog.Some? then crashLog.value else NoMatches();
    var aiResult := AiAnalysis(monkeyResults, logAnalysis, crashAnalysis);
    result := Some(aiResult);
    if aiResult.stabilityScore < 70 {
      exitCode := 1;
    } else {
      exitCode := 0;
    }
  }

  /** The monkey results read from the output log: the count found after `events`, 500 by default. */
  function MonkeyResultsOf(monkeyOutput: Option<string>, eventsInOutput: Option<nat>): (r: MonkeyResults)
    ensures r.eventsCount == (if monkeyOutput.Some? && eventsInOutput.Some? then eventsInOutput.value else 500)
    ensures r.output == (if monkeyOutput.Some? then monkeyOutput.value else "")
  {
    match monkeyOutput
    case Some(output) => MonkeyResults(if eventsInOutput.Some? then eventsInOutput.value else 500, output)
    case None => MonkeyResults(500, "")
  }

  /** The run passes exactly when the score's band is 优秀 or 良好. */
  lemma PassingBands(score: int)
    ensures score >= 70 <==> Band(score) == Excellent || Band(score) == Good
  {
  }

  /**
   * A log with no exceptions, ANRs or crashes scores 100 and passes; a log
   * with a crash can still pass, but not with three or more.
   */
  lemma CleanLogPasses(log: LogAnalysis)
    ensures |log.exceptions| == 0 && |log.anrs| == 0 && |log.crashes| == 0 ==>
      Band(StabilityScore(|log.exceptions|, |log.anrs|, |log.crashes|)) == Excellent
    ensures |log.crashes| >= 3 ==> StabilityScore(|log.exceptions|, |log.anrs|, |log.crashes|) < 70
  {
    if |log.crashes| > 0 {
      CrashPenalty(|log.exceptions|, |log.anrs|, |log.crashes|);
    }
  }
}
