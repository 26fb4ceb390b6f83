/**
 * The evaluation engine: the action comparison, the scoring loop that steps an
 * agent through one episode, the append-only store of episode results, the
 * aggregate metrics and failure taxonomy computed over it, and the per-episode
 * record it saves.
 *
 * The scoring loop is specified by `Run`, a fold over what the agent did at each
 * step (an action, or an exception that escaped `generate_action`); the
 * `Evaluator` class runs the loop against an `AndroidAgent` and is proved to
 * compute exactly that fold.
 */
module Evaluation {
  import opened Wrappers
  import opened Text
  import opened Agent

  /** The outcome of evaluating one episode. */
  datatype EvaluationResult = EvaluationResult(
    episodeId: string,
    goal: string,
    stepAccuracy: real,
    episodeSuccess: bool,
    totalSteps: nat,
    correctSteps: nat,
    agentActions: seq<string>,
    groundTruthActions: seq<string>,
    failurePoints: seq<nat>)

  /* ------------------------------------------------------ action matching */

  /**
   * `_actions_match`: equal after stripping, or equal after lower-casing and
   * deleting `"` and white space. The exact pass adds nothing to the fuzzy one:
   * two actions match exactly when their clean forms agree.
   */
  function ActionsMatch(agentAction: string, groundTruth: string): (r: bool)
    ensures r <==> Clean(agentAction) == Clean(groundTruth)
  {
    CleanIgnoresStrip(agentAction);
    CleanIgnoresStrip(groundTruth);
    Strip(agentAction) == Strip(groundTruth) || Clean(agentAction) == Clean(groundTruth)
  }

  /** Matching is an equivalence: reflexive, symmetric and transitive. */
  lemma ActionsMatchIsEquivalence(a: string, b: string, c: string)
    ensures ActionsMatch(a, a)
    ensures ActionsMatch(a, b) ==> ActionsMatch(b, a)
    ensures ActionsMatch(a, b) && ActionsMatch(b, c) ==> ActionsMatch(a, c)
  {
  }

  /** Letter case and white space are absorbed: `CLICK("Ok")` matches `click("ok")`. */
  lemma ActionsMatchIgnoresCase()
    ensures ActionsMatch("CLICK(\"Ok\")", "click(\"ok\")")
  {
    var p, q := "CLICK(\"", "click(\"";
    assert Lower(p) == Lower(q);
    assert Lower("Ok\")") == Lower("ok\")");
    LowerAppend(p, "Ok\")");
    LowerAppend(q, "ok\")");
    assert p + "Ok\")" == "CLICK(\"Ok\")";
    assert q + "ok\")" == "click(\"ok\")";
  }

  /** Two actions that differ only in a middle part whose clean forms differ at one position do not match. */
  lemma DifferInMiddle(p: string, x: string, y: string, s: string)
    requires |Clean(x)| == |Clean(y)| && Clean(x) != Clean(y)
    ensures !ActionsMatch(p + x + s, p + y + s)
  {
    CleanAppend(p + x, s);
    CleanAppend(p, x);
    CleanAppend(p + y, s);
    CleanAppend(p, y);
    var k :| 0 <= k < |Clean(x)| && Clean(x)[k] != Clean(y)[k];
    assert Clean(p + x + s)[|Clean(p)| + k] != Clean(p + y + s)[|Clean(p)| + k];
  }

  /** Two actions that differ only in a middle part of different clean length do not match. */
  lemma DifferInMiddleLength(p: string, x: string, y: string, s: string)
    requires |Clean(x)| != |Clean(y)|
    ensures !ActionsMatch(p + x + s, p + y + s)
  {
    CleanAppend(p + x, s);
    CleanAppend(p, x);
    CleanAppend(p + y, s);
    CleanAppend(p, y);
  }

  lemma CleanOkOkay()
    ensures Clean("OK") == "ok" && Clean("Okay") == "okay"
  {
    assert Lower("OK") == "ok";
    assert Lower("Okay") == "okay";
    DeleteNothing("ok");
    DeleteNothing("okay");
  }

  /** A different target is not absorbed: `CLICK("OK")` does not match `CLICK("Okay")`. */
  lemma ActionsMatchKeepsTarget()
    ensures !ActionsMatch("CLICK(\"OK\")", "CLICK(\"Okay\")")
  {
    assert "CLICK(\"" + "OK" + "\")" == "CLICK(\"OK\")";
    assert "CLICK(\"" + "Okay" + "\")" == "CLICK(\"Okay\")";
    CleanOkOkay();
    DifferInMiddleLength("CLICK(\"", "OK", "Okay", "\")");
  }

  lemma CleanQuotedOk()
    ensures |Clean("'Ok'")| == 4 && |Clean("\"Ok\"")| < 4
  {
    assert Lower("'Ok'") == "'ok'";
    DeleteNothing("'ok'");
    assert Lower("\"Ok\"")[0] == '"';
  }

  /** Only `"` is deleted: `CLICK('Ok')` does not match `CLICK("Ok")`. */
  lemma ActionsMatchKeepsSingleQuotes()
    ensures !ActionsMatch("CLICK('Ok')", "CLICK(\"Ok\")")
  {
    assert "CLICK(" + "'Ok'" + ")" == "CLICK('Ok')";
    assert "CLICK(" + "\"Ok\"" + ")" == "CLICK(\"Ok\")";
    CleanQuotedOk();
    DifferInMiddleLength("CLICK(", "'Ok'", "\"Ok\"", ")");
  }

  /* ------------------------------------------------- the scoring loop spec */

  /**
   * A comparison between an agent action and a ground-truth action. The loop is
   * stated for any comparison; the evaluator uses `ActionsMatch`.
   */
  type Comparison = (string, string) -> bool

  /** The loop's running state: actions recorded so far, correct steps, failure points. */
  datatype Tally = Tally(agentActions: seq<string>, correct: nat, failurePoints: seq<nat>)

  /** The action recorded for a step: the agent's action, or "ERROR" when the call raised. */
  function Recorded(outcome: Result<string, string>): string {
    match outcome
    case Ok(action) => action
    case Err(_) => "ERROR"
  }

  /** Step `i` is a failure point: the call raised, or its action does not match the ground truth. */
  predicate IsFailure(outcomes: seq<Result<string, string>>, truth: seq<string>, matches: Comparison, i: nat)
    requires i < |outcomes|
  {
    outcomes[i].Err? || (i < |truth| && !matches(outcomes[i].value, truth[i]))
  }

  /**
   * Step `i` counts as correct: the call returned, there is a ground-truth action
   * at `i` to compare with, and the two match. Steps past the ground truth are
   * never compared, so never correct.
   */
  predicate IsCorrect(outcomes: seq<Result<string, string>>, truth: seq<string>, matches: Comparison, i: nat)
    requires i < |outcomes|
  {
    outcomes[i].Ok? && i < |truth| && matches(outcomes[i].value, truth[i])
  }

  /** The number of correct steps among `outcomes`. */
  function CountCorrect(outcomes: seq<Result<string, string>>, truth: seq<string>, matches: Comparison): nat
    decreases |outcomes|
  {
    if outcomes == [] then 0
    else
      var n := |outcomes| - 1;
      CountCorrect(outcomes[..n], truth, matches) + if IsCorrect(outcomes, truth, matches, n) then 1 else 0
  }

  /**
   * One pass of the loop body at index `i`: the step's action is recorded, the
   * correct count goes up exactly for a returned action that matches the ground
   * truth at `i`, and `i` becomes a failure point exactly when the call raised or
   * a compared action does not match.
   */
  function Step(t: Tally, i: nat, outcome: Result<string, string>, truth: seq<string>, matches: Comparison): (r: Tally)
    ensures r.agentActions == t.agentActions + [Recorded(outcome)]
    ensures r.correct == t.correct + if outcome.Ok? && i < |truth| && matches(outcome.value, truth[i]) then 1 else 0
    ensures r.failurePoints ==
      if outcome.Err? || (i < |truth| && !matches(outcome.value, truth[i])) then t.failurePoints + [i] else t.failurePoints
  {
    match outcome
    case Err(_) => Tally(t.agentActions + ["ERROR"], t.correct, t.failurePoints + [i])
    case Ok(action) =>
      if i < |truth| then
        if matches(action, truth[i]) then Tally(t.agentActions + [action], t.correct + 1, t.failurePoints)
        else Tally(t.agentActions + [action], t.correct, t.failurePoints + [i])
      else Tally(t.agentActions + [action], t.correct, t.failurePoints)
  }

  /**
   * The loop over the acted-on observations, given what the agent did at each of
   * them. Its correct count is the number of correct steps.
   */
  function Run(outcomes: seq<Result<string, string>>, truth: seq<string>, matches: Comparison): (t: Tally)
    ensures t.correct == CountCorrect(outcomes, truth, matches)
    decreases |outcomes|
  {
    if outcomes == [] then Tally([], 0, [])
    else
      var n := |outcomes| - 1;
      Step(Run(outcomes[..n], truth, matches), n, outcomes[n], truth, matches)
  }

  /* ------------------------------- the fuzzy pass as written: `re` unbound */

  /**
   * `_actions_match` as the module is written: `re` is never imported, so as
   * soon as the exact pass fails the call to `re.sub` raises `NameError`.
   */
  function ActionsMatchAsWritten(agentAction: string, groundTruth: string): (r: Result<bool, string>)
    ensures r.Ok? <==> Strip(agentAction) == Strip(groundTruth)
    ensures r.Ok? ==> r.value && ActionsMatch(agentAction, groundTruth)
  {
    if Strip(agentAction) == Strip(groundTruth) then Ok(true)
    else Err("name 're' is not defined")
  }

  /**
   * The loop body as written: the action is appended before the comparison
   * raises, and the handler then appends "ERROR" and marks the step failed.
   */
  function StepAsWritten(t: Tally, i: nat, outcome: Result<string, string>, truth: seq<string>): (r: Tally)
    ensures |r.agentActions| ==
      |t.agentActions| + if outcome.Ok? && i < |truth| && Strip(outcome.value) != Strip(truth[i]) then 2 else 1
    ensures r.agentActions[..|t.agentActions| + 1] == t.agentActions + [Recorded(outcome)]
    ensures r.correct == t.correct + if outcome.Ok? && i < |truth| && Strip(outcome.value) == Strip(truth[i]) then 1 else 0
  {
    match outcome
    case Err(_) => Tally(t.agentActions + ["ERROR"], t.correct, t.failurePoints + [i])
    case Ok(action) =>
      if i < |truth| then
        match ActionsMatchAsWritten(action, truth[i])
        case Ok(matched) =>
          if matched then Tally(t.agentActions + [action], t.correct + 1, t.failurePoints)
          else Tally(t.agentActions + [action], t.correct, t.failurePoints + [i])
        case Err(_) => Tally(t.agentActions + [action, "ERROR"], t.correct, t.failurePoints + [i])
      else Tally(t.agentActions + [action], t.correct, t.failurePoints)
  }

  /** Where the exact pass decides, or no comparison is made, the step as written is the intended step. */
  lemma StepAsWrittenAgrees(t: Tally, i: nat, outcome: Result<string, string>, truth: seq<string>)
    requires outcome.Err? || i >= |truth| || Strip(outcome.value) == Strip(truth[i])
    ensures StepAsWritten(t, i, outcome, truth) == Step(t, i, outcome, truth, ActionsMatch)
  {
  }

  /**
   * Everywhere else the step as written records two actions for one step and
   * marks it failed, whether or not the actions match.
   */
  lemma StepAsWrittenDiverges(t: Tally, i: nat, action: string, truth: seq<string>)
    requires i < |truth| && Strip(action) != Strip(truth[i])
    ensures StepAsWritten(t, i, Ok(action), truth) == Tally(t.agentActions + [action, "ERROR"], t.correct, t.failurePoints + [i])
    ensures |Step(t, i, Ok(action), truth, ActionsMatch).agentActions| == |t.agentActions| + 1
    ensures ActionsMatch(action, truth[i]) ==> Step(t, i, Ok(action), truth, ActionsMatch).failurePoints == t.failurePoints
  {
  }

  /**
   * The input that shows it: `CLICK("Ok")` against the ground truth
   * `click("ok")` is a correct step as intended, but as written it is recorded
   * as the action followed by "ERROR", and step 0 is a failure point.
   */
  lemma FuzzyMatchRaisesAsWritten()
    ensures Step(Tally([], 0, []), 0, Ok("CLICK(\"Ok\")"), ["click(\"ok\")"], ActionsMatch)
         == Tally(["CLICK(\"Ok\")"], 1, [])
    ensures StepAsWritten(Tally([], 0, []), 0, Ok("CLICK(\"Ok\")"), ["click(\"ok\")"])
         == Tally(["CLICK(\"Ok\")", "ERROR"], 0, [0])
  {
    var a, b := "CLICK(\"Ok\")", "click(\"ok\")";
    assert a[0] != b[0];
    StripUnpadded(a);
    StripUnpadded(b);
    ActionsMatchIgnoresCase();
    StepAsWrittenDiverges(Tally([], 0, []), 0, a, [b]);
  }

  /** `len(observations[:-1])`: the last observation is never acted on. */
  function StepCount(episode: Episode): nat {
    if |episode.observations| == 0 then 0 else |episode.observations| - 1
  }

  /** The result `evaluate_episode` builds once the loop is done. */
  function Score(episode: Episode, outcomes: seq<Result<string, string>>): (r: EvaluationResult)
    ensures r.episodeId == episode.episodeId && r.goal == episode.goal && r.groundTruthActions == episode.actions
    ensures r.totalSteps == |episode.actions| && |r.agentActions| == |outcomes|
    ensures WellFormed(r)
  {
    var t := Run(outcomes, episode.actions, ActionsMatch);
    var total := |episode.actions|;
    RunCounts(outcomes, episode.actions, ActionsMatch);
    RunFailurePoints(outcomes, episode.actions, ActionsMatch);
    RunRecordsEveryStep(outcomes, episode.actions, ActionsMatch);
    EvaluationResult(
      episode.episodeId, episode.goal,
      if total > 0 then RatioBounds(t.correct, total); t.correct as real / total as real else 0.0,
      t.failurePoints == [], total, t.correct, t.agentActions, episode.actions, t.failurePoints)
  }

  /* ----------------------------------------------- properties of the loop */

  /** One action is recorded per step: the agent's action, or "ERROR" when the call raised. */
  lemma {:induction false} RunRecordsEveryStep(outcomes: seq<Result<string, string>>, truth: seq<string>, matches: Comparison)
    ensures |Run(outcomes, truth, matches).agentActions| == |outcomes|
    ensures forall i :: 0 <= i < |outcomes| ==> Run(outcomes, truth, matches).agentActions[i] == Recorded(outcomes[i])
    decreases |outcomes|
  {
    if outcomes != [] {
      var n := |outcomes| - 1;
      RunRecordsEveryStep(outcomes[..n], truth, matches);
      var before := Run(outcomes[..n], truth, matches).agentActions;
      assert Run(outcomes, truth, matches).agentActions == before + [Recorded(outcomes[n])];
      forall i | 0 <= i < n
        ensures Run(outcomes, truth, matches).agentActions[i] == Recorded(outcomes[i])
      {
        assert outcomes[..n][i] == outcomes[i];
      }
    }
  }

  /** Steps past the last ground-truth action are never counted correct, whatever the agent did there. */
  lemma {:induction false} CorrectIgnoresStepsPastTruth(outcomes: seq<Result<string, string>>, truth: seq<string>, matches: Comparison)
    requires |truth| <= |outcomes|
    ensures CountCorrect(outcomes, truth, matches) == CountCorrect(outcomes[..|truth|], truth, matches)
    decreases |outcomes|
  {
    if |truth| < |outcomes| {
      var n := |outcomes| - 1;
      assert outcomes[..n][..|truth|] == outcomes[..|truth|];
      CorrectIgnoresStepsPastTruth(outcomes[..n], truth, matches);
    } else {
      assert outcomes[..|truth|] == outcomes;
    }
  }

  /** The failure points are the failing steps, each once, in increasing order. */
  lemma {:induction false} RunFailurePoints(outcomes: seq<Result<string, string>>, truth: seq<string>, matches: Comparison)
    ensures forall k :: 0 <= k < |Run(outcomes, truth, matches).failurePoints| ==>
      Run(outcomes, truth, matches).failurePoints[k] < |outcomes|
    ensures forall a, b :: 0 <= a < b < |Run(outcomes, truth, matches).failurePoints| ==>
      Run(outcomes, truth, matches).failurePoints[a] < Run(outcomes, truth, matches).failurePoints[b]
    ensures forall i :: 0 <= i < |outcomes| ==>
      (i in Run(outcomes, truth, matches).failurePoints <==> IsFailure(outcomes, truth, matches, i))
    decreases |outcomes|
  {
    if outcomes != [] {
      var n := |outcomes| - 1;
      RunFailurePoints(outcomes[..n], truth, matches);
      assert forall i :: 0 <= i < n ==> IsFailure(outcomes[..n], truth, matches, i) == IsFailure(outcomes, truth, matches, i);
    }
  }

  /** Correct steps lie below both the number of steps and of ground-truth actions; every compared step is correct or a failure. */
  lemma {:induction false} RunCounts(outcomes: seq<Result<string, string>>, truth: seq<string>, matches: Comparison)
    ensures var t := Run(outcomes, truth, matches);
      && t.correct <= |outcomes| && t.correct <= |truth|
      && t.correct + |t.failurePoints| <= |outcomes|
      && t.correct + |t.failurePoints| >= if |outcomes| < |truth| then |outcomes| else |truth|
    decreases |outcomes|
  {
    if outcomes != [] {
      RunCounts(outcomes[..|outcomes| - 1], truth, matches);
    }
  }

  /** The episode succeeds exactly when no step failed. */
  lemma ScoreSuccess(episode: Episode, outcomes: seq<Result<string, string>>)
    ensures Score(episode, outcomes).episodeSuccess <==>
      forall i :: 0 <= i < |outcomes| ==> !IsFailure(outcomes, episode.actions, ActionsMatch, i)
    ensures Score(episode, outcomes).episodeSuccess <==> Score(episode, outcomes).failurePoints == []
  {
    RunFailurePoints(outcomes, episode.actions, ActionsMatch);
    var fp := Run(outcomes, episode.actions, ActionsMatch).failurePoints;
    if fp == [] {
      forall i | 0 <= i < |outcomes|
        ensures !IsFailure(outcomes, episode.actions, ActionsMatch, i)
      {
        assert i !in fp;
      }
    } else {
      assert fp[0] in fp;
      assert IsFailure(outcomes, episode.actions, ActionsMatch, fp[0]);
    }
  }

  /** A ratio of a count to a larger positive count lies in [0, 1]. */
  lemma RatioBounds(part: nat, whole: nat)
    requires part <= whole && whole > 0
    ensures 0.0 <= part as real / whole as real <= 1.0
    ensures part == whole ==> part as real / whole as real == 1.0
  {
  }

  /** Step accuracy is correct steps over ground-truth actions, in [0, 1], and 0 when there is no ground truth. */
  lemma ScoreAccuracy(episode: Episode, outcomes: seq<Result<string, string>>)
    ensures Score(episode, outcomes).totalSteps == |episode.actions|
    ensures 0.0 <= Score(episode, outcomes).stepAccuracy <= 1.0
    ensures |episode.actions| == 0 ==> Score(episode, outcomes).stepAccuracy == 0.0
    ensures |episode.actions| > 0 ==>
      Score(episode, outcomes).stepAccuracy == Score(episode, outcomes).correctSteps as real / |episode.actions| as real
  {
    var t := Run(outcomes, episode.actions, ActionsMatch);
    RunCounts(outcomes, episode.actions, ActionsMatch);
    if |episode.actions| > 0 {
      RatioBounds(t.correct, |episode.actions|);
    }
  }

  /** A successful run that covers every ground-truth action scores full accuracy. */
  lemma ScorePerfect(episode: Episode, outcomes: seq<Result<string, string>>)
    requires Score(episode, outcomes).episodeSuccess && |outcomes| >= |episode.actions| > 0
    ensures Score(episode, outcomes).stepAccuracy == 1.0
  {
    var t := Run(outcomes, episode.actions, ActionsMatch);
    RunCounts(outcomes, episode.actions, ActionsMatch);
    RatioBounds(t.correct, |episode.actions|);
  }

  /** The end-to-end case: two ground-truth clicks, the agent clicks "A" twice. */
  lemma CleanAB()
    ensures Clean("A") == "a" && Clean("B") == "b"
  {
    assert Lower("A") == "a" && Lower("B") == "b";
    DeleteNothing("a");
    DeleteNothing("b");
  }

  lemma ClicksOnAAndBDiffer()
    ensures !ActionsMatch("CLICK(\"A\")", "CLICK(\"B\")")
  {
    assert "CLICK(\"" + "A" + "\")" == "CLICK(\"A\")";
    assert "CLICK(\"" + "B" + "\")" == "CLICK(\"B\")";
    CleanAB();
    DifferInMiddle("CLICK(\"", "A", "B", "\")");
  }

  /** An agent that repeats its first, correct action on a two-step episode whose second action differs gets half the steps. */
  lemma ScoreRepeatedAction(episode: Episode, a: string, b: string)
    requires |episode.observations| == 3 && episode.actions == [a, b] && !ActionsMatch(a, b)
    ensures var r := Score(episode, [Ok(a), Ok(a)]);
      StepCount(episode) == 2 && r.stepAccuracy == 0.5 && !r.episodeSuccess && r.correctSteps == 1 &&
      r.agentActions == [a, a] && r.failurePoints == [1]
  {
    ActionsMatchIsEquivalence(a, a, a);
    var outcomes: seq<Result<string, string>> := [Ok(a), Ok(a)];
    assert outcomes[..1] == [Ok(a)];
    assert outcomes[..1][..0] == [];
    assert Run(outcomes[..1], [a, b], ActionsMatch) == Tally([a], 1, []);
    assert Run(outcomes, [a, b], ActionsMatch) == Tally([a, a], 1, [1]);
  }

  lemma ScoreExample()
    ensures var episode := Episode("g", [Observation(None, None), Observation(None, None), Observation(None, None)],
                                   ["CLICK(\"A\")", "CLICK(\"B\")"], "e");
      var r := Score(episode, [Ok("CLICK(\"A\")"), Ok("CLICK(\"A\")")]);
      r.stepAccuracy == 0.5 && !r.episodeSuccess && r.failurePoints == [1]
  {
    ClicksOnAAndBDiffer();
    ScoreRepeatedAction(Episode("g", [Observation(None, None), Observation(None, None), Observation(None, None)],
                                ["CLICK(\"A\")", "CLICK(\"B\")"], "e"), "CLICK(\"A\")", "CLICK(\"B\")");
  }

  /* -------------------------------------------------- the evaluator class */

  /** What the agent does at each of `observations`, acting on them in order. */
  function Outcomes(agent: AndroidAgent, goal: string, observations: seq<Observation>): (r: seq<Result<string, string>>)
    ensures |r| == |observations|
    decreases |observations|
  {
    if observations == [] then []
    else Outcomes(agent, goal, observations[..|observations| - 1]) + [agent.Outcome(goal, observations[|observations| - 1])]
  }

  /** The observations `evaluate_episode` acts on: all but the last. */
  function ActedOn(episode: Episode): seq<Observation> {
    episode.observations[..StepCount(episode)]
  }

  /** The agent's history after acting on `observations` from a reset: one entry per call that returned. */
  function History(agent: AndroidAgent, goal: string, observations: seq<Observation>): seq<HistoryEntry>
    decreases |observations|
  {
    if observations == [] then []
    else
      var last := observations[|observations| - 1];
      History(agent, goal, observations[..|observations| - 1]) + agent.NewEntries(goal, last)
  }

  /**
   * An episode with at most one observation makes no agent call: nothing is
   * acted on, the history stays empty, and the episode counts as a success
   * with no correct steps.
   */
  lemma ShortEpisodeMakesNoCalls(agent: AndroidAgent, episode: Episode)
    requires |episode.observations| <= 1
    ensures ActedOn(episode) == []
    ensures Outcomes(agent, episode.goal, ActedOn(episode)) == []
    ensures History(agent, episode.goal, ActedOn(episode)) == []
    ensures var r := Score(episode, []);
      r.episodeSuccess && r.correctSteps == 0 && r.agentActions == [] && r.stepAccuracy == 0.0
  {
  }

  lemma RunAppend(outcomes: seq<Result<string, string>>, outcome: Result<string, string>, truth: seq<string>, matches: Comparison)
    ensures Run(outcomes + [outcome], truth, matches) == Step(Run(outcomes, truth, matches), |outcomes|, outcome, truth, matches)
  {
    assert (outcomes + [outcome])[..|outcomes|] == outcomes;
  }

  /** What every result `evaluate_episode` produces satisfies. */
  predicate WellFormed(r: EvaluationResult) {
    && r.correctSteps <= r.totalSteps
    && 0.0 <= r.stepAccuracy <= 1.0
    && (r.episodeSuccess <==> r.failurePoints == [])
    && (forall k :: 0 <= k < |r.failurePoints| ==> r.failurePoints[k] < |r.agentActions|)
  }

  /* ---------------------------------------------------- aggregate metrics */

  /** The dictionary `calculate_aggregate_metrics` returns when there is at least one result. */
  datatype Metrics = Metrics(
    totalEpisodes: nat,
    episodeSuccessRate: real,
    averageStepAccuracy: real,
    totalSteps: nat,
    totalCorrectSteps: nat)

  /** The number of successful episodes among `results`. */
  function Successes(results: seq<EvaluationResult>): (n: nat)
    ensures n <= |results|
    decreases |results|
  {
    if results == [] then 0
    else Successes(results[..|results| - 1]) + if results[|results| - 1].episodeSuccess then 1 else 0
  }

  function AccuracySum(results: seq<EvaluationResult>): real
    decreases |results|
  {
    if results == [] then 0.0
    else AccuracySum(results[..|results| - 1]) + results[|results| - 1].stepAccuracy
  }

  function StepsSum(results: seq<EvaluationResult>): nat
    decreases |results|
  {
    if results == [] then 0
    else StepsSum(results[..|results| - 1]) + results[|results| - 1].totalSteps
  }

  function CorrectSum(results: seq<EvaluationResult>): nat
    decreases |results|
  {
    if results == [] then 0
    else CorrectSum(results[..|results| - 1]) + results[|results| - 1].correctSteps
  }

  /** `calculate_aggregate_metrics`: nothing (the empty dictionary) before any episode, else counts, sums and means. */
  function AggregateMetrics(results: seq<EvaluationResult>): (m: Option<Metrics>)
    ensures m.None? <==> results == []
    ensures m.Some? ==> m.value.totalEpisodes == |results| && 0.0 <= m.value.episodeSuccessRate <= 1.0
  {
    if results == [] then None
    else
      RatioBounds(Successes(results), |results|);
      Some(Metrics(|results|, Successes(results) as real / |results| as real, AccuracySum(results) / |results| as real,
                   StepsSum(results), CorrectSum(results)))
  }

  predicate AllWellFormed(results: seq<EvaluationResult>) {
    forall k :: 0 <= k < |results| ==> WellFormed(results[k])
  }

  lemma {:induction false} SumBounds(results: seq<EvaluationResult>)
    requires AllWellFormed(results)
    ensures 0.0 <= AccuracySum(results) <= |results| as real
    ensures CorrectSum(results) <= StepsSum(results)
    decreases |results|
  {
    if results != [] {
      var n := |results| - 1;
      assert WellFormed(results[n]);
      SumBounds(results[..n]);
    }
  }

  /** Over results the evaluator produced, the mean accuracy lies in [0, 1] and correct steps never exceed steps. */
  lemma AggregateBounds(results: seq<EvaluationResult>)
    requires AllWellFormed(results) && results != []
    ensures 0.0 <= AggregateMetrics(results).value.averageStepAccuracy <= 1.0
    ensures AggregateMetrics(results).value.totalCorrectSteps <= AggregateMetrics(results).value.totalSteps
  {
    SumBounds(results);
    var n := |results| as real;
    assert AccuracySum(results) / n <= n / n;
  }

  lemma {:induction false} SuccessesAll(results: seq<EvaluationResult>)
    ensures Successes(results) == |results| <==> forall k :: 0 <= k < |results| ==> results[k].episodeSuccess
    ensures Successes(results) == 0 <==> forall k :: 0 <= k < |results| ==> !results[k].episodeSuccess
    decreases |results|
  {
    if results != [] {
      var n := |results| - 1;
      SuccessesAll(results[..n]);
      assert forall k :: 0 <= k < n ==> results[..n][k] == results[k];
    }
  }

  /** The success rate is 1 exactly when every episode succeeded, and 0 exactly when none did. */
  lemma AggregateSuccessRate(results: seq<EvaluationResult>)
    requires results != []
    ensures AggregateMetrics(results).value.episodeSuccessRate == 1.0 <==> forall k :: 0 <= k < |results| ==> results[k].episodeSuccess
    ensures AggregateMetrics(results).value.episodeSuccessRate == 0.0 <==> forall k :: 0 <= k < |results| ==> !results[k].episodeSuccess
  {
    SuccessesAll(results);
    var s, n := Successes(results) as real, |results| as real;
    if s / n == 1.0 {
      assert s == n;
    }
  }

  /** Three episodes scoring 1.0, 0.0 and 0.5 of which the first succeeded: mean accuracy 0.5, success rate 1/3. */
  lemma AggregateExample(a: EvaluationResult, b: EvaluationResult, c: EvaluationResult)
    requires a.stepAccuracy == 1.0 && b.stepAccuracy == 0.0 && c.stepAccuracy == 0.5
    requires a.episodeSuccess && !b.episodeSuccess && !c.episodeSuccess
    ensures AggregateMetrics([a, b, c]) == Some(Metrics(3, 1.0 / 3.0, 0.5, a.totalSteps + b.totalSteps + c.totalSteps,
                                                        a.correctSteps + b.correctSteps + c.correctSteps))
  {
    var rs := [a, b, c];
    assert rs[..2] == [a, b] && rs[..2][..1] == [a] && rs[..2][..1][..0] == [];
    assert Successes([a]) == 1 && AccuracySum([a]) == 1.0;
    assert Successes([a, b]) == 1 && AccuracySum([a, b]) == 1.0;
    assert Successes(rs) == 1 && AccuracySum(rs) == 1.5;
    assert StepsSum([a]) == a.totalSteps && StepsSum([a, b]) == a.totalSteps + b.totalSteps;
    assert CorrectSum([a]) == a.correctSteps && CorrectSum([a, b]) == a.correctSteps + b.correctSteps;
    assert AccuracySum(rs) / 3.0 == 0.5;
  }

  /* ----------------------------------------------------- failure analysis */

  const LlmError := "llm_error"
  const WrongClick := "wrong_click"

  /** The failure type of an action: "ERROR" anywhere in it wins over "CLICK"; anything else is not classified. */
  function Bucket(action: string): (b: Option<string>)
    ensures b == Some(LlmError) <==> exists j: nat :: OccursAt(action, "ERROR", j)
    ensures b == Some(WrongClick) <==>
      (forall j: nat :: !OccursAt(action, "ERROR", j)) && exists j: nat :: OccursAt(action, "CLICK", j)
    ensures b.None? <==> forall j: nat :: !OccursAt(action, "ERROR", j) && !OccursAt(action, "CLICK", j)
  {
    ContainsIsOccurrence(action, "ERROR");
    ContainsIsOccurrence(action, "CLICK");
    assert LlmError[0] != WrongClick[0];
    if Contains(action, "ERROR") then Some(LlmError)
    else if Contains(action, "CLICK") then Some(WrongClick)
    else None
  }

  lemma BucketsDiffer()
    ensures LlmError != WrongClick
  {
    assert LlmError[0] != WrongClick[0];
  }

  /** A failure point is classified when it indexes a recorded action; this one's action falls into `bucket`. */
  predicate InBucket(r: EvaluationResult, fp: nat, bucket: string) {
    fp < |r.agentActions| && Bucket(r.agentActions[fp]) == Some(bucket)
  }

  /** How many of the first `k` failure points of `r` fall into `bucket`. */
  function PointsIn(r: EvaluationResult, k: nat, bucket: string): nat
    requires k <= |r.failurePoints|
  {
    if k == 0 then 0
    else PointsIn(r, k - 1, bucket) + if InBucket(r, r.failurePoints[k - 1], bucket) then 1 else 0
  }

  /** How many failure points of `r` count towards `bucket`: none when the episode succeeded. */
  function ResultPoints(r: EvaluationResult, bucket: string): nat {
    if r.episodeSuccess then 0 else PointsIn(r, |r.failurePoints|, bucket)
  }

  /** How many failure points of `results` count towards `bucket`. */
  function BucketCount(results: seq<EvaluationResult>, bucket: string): nat
    decreases |results|
  {
    if results == [] then 0
    else BucketCount(results[..|results| - 1], bucket) + ResultPoints(results[|results| - 1], bucket)
  }

  /** The dictionary of counts: a key is present only once it has been counted. */
  function FailureTypes(llmErrors: nat, wrongClicks: nat): map<string, nat> {
    (if llmErrors > 0 then map[LlmError := llmErrors] else map[]) +
    (if wrongClicks > 0 then map[WrongClick := wrongClicks] else map[])
  }

  /**
   * What `generate_failure_analysis` returns for `results`: only the two failure
   * types appear as keys, each exactly when its count is positive.
   */
  function FailureAnalysis(results: seq<EvaluationResult>): (m: map<string, nat>)
    ensures forall key :: key in m ==> (key == LlmError || key == WrongClick) && m[key] > 0
    ensures LlmError in m <==> BucketCount(results, LlmError) > 0
    ensures WrongClick in m <==> BucketCount(results, WrongClick) > 0
    ensures Get(m, LlmError) == BucketCount(results, LlmError)
    ensures Get(m, WrongClick) == BucketCount(results, WrongClick)
  {
    assert LlmError[0] != WrongClick[0];
    FailureTypes(BucketCount(results, LlmError), BucketCount(results, WrongClick))
  }

  /** `failure_types.get(key, 0)`. */
  function Get(m: map<string, nat>, key: string): nat {
    if key in m then m[key] else 0
  }

  lemma CountOneMore(llmErrors: nat, wrongClicks: nat)
    ensures FailureTypes(llmErrors, wrongClicks)[LlmError := Get(FailureTypes(llmErrors, wrongClicks), LlmError) + 1]
      == FailureTypes(llmErrors + 1, wrongClicks)
    ensures FailureTypes(llmErrors, wrongClicks)[WrongClick := Get(FailureTypes(llmErrors, wrongClicks), WrongClick) + 1]
      == FailureTypes(llmErrors, wrongClicks + 1)
  {
  }

  lemma BucketCountAppend(results: seq<EvaluationResult>, j: nat, bucket: string)
    requires j < |results|
    ensures BucketCount(results[..j + 1], bucket) == BucketCount(results[..j], bucket) + ResultPoints(results[j], bucket)
  {
    assert results[..j + 1][..j] == results[..j];
  }

  /**
   * A step whose agent call raised is a failure point of the episode, and it
   * is classified as an LLM error.
   */
  lemma RaisedStepsAreLlmErrors(episode: Episode, outcomes: seq<Result<string, string>>, i: nat)
    requires i < |outcomes| && outcomes[i].Err?
    ensures i in Score(episode, outcomes).failurePoints
    ensures InBucket(Score(episode, outcomes), i, LlmError)
  {
    RunFailurePoints(outcomes, episode.actions, ActionsMatch);
    RunRecordsEveryStep(outcomes, episode.actions, ActionsMatch);
    assert "ERROR"[0..5] == "ERROR";
    assert OccursAt("ERROR", "ERROR", 0);
    ContainsIsOccurrence("ERROR", "ERROR");
  }

  /** The failure points of a result, counted over every bucket. */
  function FailingPoints(results: seq<EvaluationResult>): nat
    decreases |results|
  {
    if results == [] then 0
    else
      var last := results[|results| - 1];
      FailingPoints(results[..|results| - 1]) + if last.episodeSuccess then 0 else |last.failurePoints|
  }

  lemma {:induction false} PointsInBound(r: EvaluationResult, k: nat)
    requires k <= |r.failurePoints|
    ensures PointsIn(r, k, LlmError) + PointsIn(r, k, WrongClick) <= k
  {
    if k > 0 {
      PointsInBound(r, k - 1);
    }
  }

  /** Each failure point of an unsuccessful episode is counted at most once, under one key. */
  lemma {:induction false} FailureAnalysisBounded(results: seq<EvaluationResult>)
    ensures BucketCount(results, LlmError) + BucketCount(results, WrongClick) <= FailingPoints(results)
    decreases |results|
  {
    if results != [] {
      var n := |results| - 1;
      FailureAnalysisBounded(results[..n]);
      PointsInBound(results[n], |results[n].failurePoints|);
    }
  }

  lemma {:induction false} SuccessfulHaveNoFailureTypes(results: seq<EvaluationResult>, bucket: string)
    requires forall k :: 0 <= k < |results| ==> results[k].episodeSuccess
    ensures BucketCount(results, bucket) == 0
    decreases |results|
  {
    if results != [] {
      var n := |results| - 1;
      assert results[n].episodeSuccess;
      SuccessfulHaveNoFailureTypes(results[..n], bucket);
    }
  }

  /** When every episode succeeded there is nothing to analyse. */
  lemma FailureAnalysisOfSuccesses(results: seq<EvaluationResult>)
    requires forall k :: 0 <= k < |results| ==> results[k].episodeSuccess
    ensures FailureAnalysis(results) == map[]
  {
    SuccessfulHaveNoFailureTypes(results, LlmError);
    SuccessfulHaveNoFailureTypes(results, WrongClick);
  }

  /* ------------------------------------------------------ saved results */

  /** One entry of `episode_results` in the saved file: the result without its action lists. */
  datatype EpisodeRecord = EpisodeRecord(
    episodeId: string,
    goal: string,
    stepAccuracy: real,
    episodeSuccess: bool,
    totalSteps: nat,
    correctSteps: nat,
    failurePoints: seq<nat>)

  /** The document `save_results` writes. */
  datatype SavedResults = SavedResults(
    aggregateMetrics: Option<Metrics>,
    failureAnalysis: map<string, nat>,
    episodeResults: seq<EpisodeRecord>)

  function Project(r: EvaluationResult): EpisodeRecord {
    EpisodeRecord(r.episodeId, r.goal, r.stepAccuracy, r.episodeSuccess, r.totalSteps, r.correctSteps, r.failurePoints)
  }

  function Projected(results: seq<EvaluationResult>): (records: seq<EpisodeRecord>)
    ensures |records| == |results|
  {
    seq(|results|, i requires 0 <= i < |results| => Project(results[i]))
  }

  /** `Evaluator`: the results of every episode evaluated so far, in order. */
  class Evaluator {
    var results: seq<EvaluationResult>

    constructor ()
      ensures results == []
    {
      results := [];
    }

    /**
     * `evaluate_episode`: reset the agent, act on every observation but the last,
     * score the actions against the ground truth, and append the result.
     */
    method EvaluateEpisode(agent: AndroidAgent, episode: Episode) returns (result: EvaluationResult)
      modifies this, agent
      ensures result == Score(episode, Outcomes(agent, episode.goal, ActedOn(episode)))
      ensures WellFormed(result)
      ensures results == old(results) + [result]
      ensures agent.actionHistory == History(agent, episode.goal, ActedOn(episode))
    {
      agent.ResetHistory();
      var agentActions, correctSteps, failurePoints := ActOnEpisode(agent, episode, ActionsMatch);
      var totalSteps := |episode.actions|;
      var stepAccuracy := if totalSteps > 0 then correctSteps as real / totalSteps as real else 0.0;
      result := EvaluationResult(episode.episodeId, episode.goal, stepAccuracy, failurePoints == [],
                                 totalSteps, correctSteps, agentActions, episode.actions, failurePoints);
      results := results + [result];
    }

    /** `generate_failure_analysis`: count the failure points of unsuccessful episodes by failure type. */
    method GenerateFailureAnalysis() returns (failureTypes: map<string, nat>)
      ensures failureTypes == FailureAnalysis(results)
    {
      failureTypes := map[];
      var j := 0;
      while j < |results|
        invariant 0 <= j <= |results|
        invariant failureTypes == FailureTypes(BucketCount(results[..j], LlmError), BucketCount(results[..j], WrongClick))
      {
        var result := results[j];
        BucketCountAppend(results, j, LlmError);
        BucketCountAppend(results, j, WrongClick);
        if !result.episodeSuccess {
          failureTypes := CountFailurePoints(result, failureTypes, BucketCount(results[..j], LlmError), BucketCount(results[..j], WrongClick));
        }
        j := j + 1;
      }
      assert results[..|results|] == results;
    }

    /** `save_results`: the document written to the file (the writing itself is not modelled). */
    method SaveResults() returns (saved: SavedResults)
      ensures saved == SavedResults(AggregateMetrics(results), FailureAnalysis(results), Projected(results))
    {
      var failureAnalysis := GenerateFailureAnalysis();
      saved := SavedResults(AggregateMetrics(results), failureAnalysis, Projected(results));
    }
  }

  /** The loop's state together with the agent's history: both are carried through the loop as one fold. */
  datatype Progress = Progress(tally: Tally, history: seq<HistoryEntry>)

  /** `Run` and `History` computed side by side over the acted-on observations. */
  function Walk(agent: AndroidAgent, goal: string, observations: seq<Observation>, truth: seq<string>, matches: Comparison): Progress
    decreases |observations|
  {
    if observations == [] then Progress(Tally([], 0, []), [])
    else
      var n := |observations| - 1;
      var p := Walk(agent, goal, observations[..n], truth, matches);
      Progress(Step(p.tally, n, agent.Outcome(goal, observations[n]), truth, matches), p.history + agent.NewEntries(goal, observations[n]))
  }

  lemma WalkOneMore(agent: AndroidAgent, goal: string, observations: seq<Observation>, i: nat, truth: seq<string>, matches: Comparison)
    requires i < |observations|
    ensures Walk(agent, goal, observations[..i + 1], truth, matches) ==
      Progress(Step(Walk(agent, goal, observations[..i], truth, matches).tally, i, agent.Outcome(goal, observations[i]), truth, matches),
               Walk(agent, goal, observations[..i], truth, matches).history + agent.NewEntries(goal, observations[i]))
  {
    assert observations[..i + 1][..i] == observations[..i];
  }

  /** The side-by-side fold is exactly the two folds. */
  lemma {:induction false} WalkIsRunAndHistory(agent: AndroidAgent, goal: string, observations: seq<Observation>, truth: seq<string>, matches: Comparison)
    ensures Walk(agent, goal, observations, truth, matches) == Progress(Run(Outcomes(agent, goal, observations), truth, matches), History(agent, goal, observations))
    decreases |observations|
  {
    if observations != [] {
      var n := |observations| - 1;
      WalkIsRunAndHistory(agent, goal, observations[..n], truth, matches);
      RunAppend(Outcomes(agent, goal, observations[..n]), agent.Outcome(goal, observations[n]), truth, matches);
    }
  }

  /**
   * The loop of `evaluate_episode`: act on every observation but the last and
   * compare each action with the ground truth by `matches`, an exception
   * counting as "ERROR". The evaluator passes `ActionsMatch`.
   */
  method ActOnEpisode(agent: AndroidAgent, episode: Episode, matches: Comparison) returns (agentActions: seq<string>, correctSteps: nat, failurePoints: seq<nat>)
    requires agent.actionHistory == []
    modifies agent
    ensures Tally(agentActions, correctSteps, failurePoints) == Run(Outcomes(agent, episode.goal, ActedOn(episode)), episode.actions, matches)
    ensures agent.actionHistory == History(agent, episode.goal, ActedOn(episode))
  {
    var n := StepCount(episode);
    agentActions, correctSteps, failurePoints := [], 0, [];
    var i := 0;
    while i < n
      invariant 0 <= i <= n
      invariant Progress(Tally(agentActions, correctSteps, failurePoints), agent.actionHistory) == Walk(agent, episode.goal, episode.observations[..i], episode.actions, matches)
    {
      var observation := episode.observations[i];
      ghost var before := Tally(agentActions, correctSteps, failurePoints);
      var r := agent.GenerateAction(episode.goal, observation);
      WalkOneMore(agent, episode.goal, episode.observations, i, episode.actions, matches);
      match r {
        case Ok(action) =>
          agentActions := agentActions + [action];
          if i < |episode.actions| {
            if matches(action, episode.actions[i]) {
              correctSteps := correctSteps + 1;
            } else {
              failurePoints := failurePoints + [i];
            }
          }
        case Err(_) =>
          agentActions := agentActions + ["ERROR"];
          failurePoints := failurePoints + [i];
      }
      assert Tally(agentActions, correctSteps, failurePoints) == Step(before, i, r, episode.actions, matches);
      i := i + 1;
    }
    WalkIsRunAndHistory(agent, episode.goal, ActedOn(episode), episode.actions, matches);
  }

  /** The inner loop of `generate_failure_analysis`: count the failure points of one unsuccessful result by type. */
  method CountFailurePoints(result: EvaluationResult, failureTypes: map<string, nat>, ghost llm: nat, ghost click: nat)
    returns (counted: map<string, nat>)
    requires failureTypes == FailureTypes(llm, click)
    ensures counted == FailureTypes(llm + PointsIn(result, |result.failurePoints|, LlmError),
                                    click + PointsIn(result, |result.failurePoints|, WrongClick))
  {
    counted := failureTypes;
    ghost var errors, clicks := llm, click;
    var k := 0;
    while k < |result.failurePoints|
      invariant 0 <= k <= |result.failurePoints|
      invariant errors == llm + PointsIn(result, k, LlmError) && clicks == click + PointsIn(result, k, WrongClick)
      invariant counted == FailureTypes(errors, clicks)
    {
      var fp := result.failurePoints[k];
      BucketsDiffer();
      if fp < |result.agentActions| {
        var agentAction := result.agentActions[fp];
        CountOneMore(errors, clicks);
        if Contains(agentAction, "ERROR") {
          counted := counted[LlmError := Get(counted, LlmError) + 1];
          errors := errors + 1;
        } else if Contains(agentAction, "CLICK") {
          counted := counted[WrongClick := Get(counted, WrongClick) + 1];
          clicks := clicks + 1;
        }
      }
      k := k + 1;
    }
  }
}
