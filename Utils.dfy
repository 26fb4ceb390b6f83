/**
 * The analysis helpers: `ActionParser`, the structured variant of the agent's
 * canonicaliser together with the check of a parsed target against the UI
 * elements on screen, and the failure report `ResultsAnalyzer` derives from
 * the saved per-episode records.
 */
module Utils {
  import opened Wrappers
  import opened Text
  import opened ActionPatterns
  import opened Agent
  import opened Evaluation

  /* ------------------------------------------------- ActionParser.parse_action */

  /** The dictionary `parse_action` returns. */
  datatype ParsedAction = ParsedAction(actionType: ActionType, target: Option<string>, formatted: string, valid: bool)

  /** The five names of the parser's pattern table, in insertion order. */
  function ParserNames(): (names: seq<string>)
    ensures |names| == 5
    ensures forall m :: 0 <= m < 5 ==> names[m] == ParserKinds[m].Name() && PatternName(names[m])
  {
    var names := Names(ParserKinds);
    KindNames(Click); KindNames(Scroll); KindNames(Type); KindNames(Swipe); KindNames(LongPress);
    names
  }

  /**
   * `ActionParser.parse_action`: strip the reply, then the first kind of the
   * table whose pattern occurs gives the action; with none, `UNKNOWN`.
   */
  function ParseStructured(response: string): (r: ParsedAction)
    ensures r.valid <==> r.actionType != Unknown
    ensures r.valid <==> r.target.Some?
    ensures r.valid ==> r.formatted == Canonical(r.actionType.Name(), r.target.value)
    ensures !r.valid ==> r.formatted == Strip(response)
  {
    var text := Strip(response);
    var names := ParserNames();
    var j := FirstKind(text, names);
    if j < |names| then
      var target := Search(text, names[j]).value.target;
      ParsedAction(ParserKinds[j], Some(target), Canonical(names[j], target), true)
    else ParsedAction(Unknown, None, text, false)
  }

  /** Stripping the reply first changes nothing: which kind wins depends on the unstripped reply alone. */
  lemma FirstKindIgnoresStrip(response: string)
    ensures FirstKind(Strip(response), ParserNames()) == FirstKind(response, ParserNames())
  {
    var names := ParserNames();
    var j := FirstKind(response, names);
    forall m | 0 <= m < 5
      ensures Search(Strip(response), names[m]).Some? <==> Search(response, names[m]).Some?
    {
      SearchIgnoresStrip(response, names[m]);
    }
    if j < 5 {
      FirstKindIs(Strip(response), names, j);
    }
  }

  /**
   * The structured parse is decided by the first kind of the table whose
   * pattern occurs in the unstripped reply: `KIND("target")` with the target
   * its leftmost match captures, or, when no pattern occurs, `UNKNOWN` with no
   * target and the stripped reply.
   */
  lemma ParseStructuredSpec(response: string)
    ensures var names := ParserNames();
      var j := FirstKind(response, names);
      && (j < 5 ==>
            var target := Search(response, names[j]).value.target;
            ParseStructured(response) == ParsedAction(ParserKinds[j], Some(target), Canonical(names[j], target), true))
      && (j == 5 ==> ParseStructured(response) == ParsedAction(Unknown, None, Strip(response), false))
  {
    var names := ParserNames();
    FirstKindIgnoresStrip(response);
    var j := FirstKind(response, names);
    if j < 5 {
      SearchIgnoresStrip(response, names[j]);
    }
  }

  /** The agent's kinds are the first four of the table, in the same order. */
  lemma AgentNamesArePrefix()
    ensures AgentNames() == ParserNames()[..4]
  {
    var names := ParserNames();
    var agentNames := AgentNames();
    assert forall m :: 0 <= m < 4 ==> agentNames[m] == names[m];
  }

  /** Searching only the first `n` names finds the same first kind, unless it lies beyond them. */
  lemma FirstKindOfPrefix(s: string, names: seq<string>, n: nat)
    requires n <= |names|
    ensures FirstKind(s, names[..n]) == if FirstKind(s, names) < n then FirstKind(s, names) else n
  {
    var j := FirstKind(s, names);
    if j < n {
      FirstKindIs(s, names[..n], j);
    }
  }

  /**
   * Where the structured parser finds one of the agent's four kinds, or
   * nothing, its formatted action is the agent's canonical action.
   */
  lemma ParseStructuredAgreesWithAgent(response: string)
    ensures ParseStructured(response).actionType != LongPress ==>
      ParseStructured(response).formatted == ParseAction(response)
  {
    ParseStructuredSpec(response);
    AgentNamesArePrefix();
    FirstKindOfPrefix(response, ParserNames(), 4);
  }

  /**
   * The two parsers part ways on LONG_PRESS: when it is the first kind of the
   * table that occurs, the structured parser accepts it while the agent finds
   * no action and keeps the stripped reply.
   */
  lemma LongPressOnlyStructured(response: string)
    requires FirstKind(response, ParserNames()) == 4
    ensures ParseStructured(response).valid && ParseStructured(response).actionType == LongPress
    ensures ParseAction(response) == Strip(response)
  {
    ParseStructuredSpec(response);
    AgentNamesArePrefix();
    FirstKindOfPrefix(response, ParserNames(), 4);
  }

  /* ----------------------------------------------- ActionParser.validate_action */

  /**
   * What `validate_action` accepts: a valid parse with a non-empty target that
   * is one of the elements exactly, or one of them ignoring case.
   */
  predicate Validates(action: ParsedAction, elements: seq<string>) {
    && action.valid
    && action.target.Some? && action.target.value != ""
    && (action.target.value in elements
        || exists k :: 0 <= k < |elements| && Lower(action.target.value) == Lower(elements[k]))
  }

  /** `validate_action`: the exact test first, then one element at a time ignoring case. */
  method ValidateAction(action: ParsedAction, elements: seq<string>) returns (ok: bool)
    ensures ok == Validates(action, elements)
  {
    if !action.valid {
      return false;
    }
    if action.target.None? || action.target.value == "" {
      return false;
    }
    var target := action.target.value;
    if target in elements {
      return true;
    }
    var i := 0;
    while i < |elements|
      invariant i <= |elements|
      invariant forall k :: 0 <= k < i ==> Lower(target) != Lower(elements[k])
    {
      if Lower(target) == Lower(elements[i]) {
        return true;
      }
      i := i + 1;
    }
    return false;
  }

  /** The exact test adds nothing: a target validates exactly when some element equals it ignoring case. */
  lemma ValidatesIgnoringCase(action: ParsedAction, elements: seq<string>)
    ensures Validates(action, elements) <==>
      && action.valid && action.target.Some? && action.target.value != ""
      && exists k :: 0 <= k < |elements| && Lower(action.target.value) == Lower(elements[k])
  {
    if action.valid && action.target.Some? && action.target.value in elements {
      var k :| 0 <= k < |elements| && elements[k] == action.target.value;
      assert Lower(action.target.value) == Lower(elements[k]);
    }
  }

  /** A parse that failed never validates, whatever is on screen. */
  lemma UnknownNeverValidates(response: string, elements: seq<string>)
    requires !ParseStructured(response).valid
    ensures !Validates(ParseStructured(response), elements)
  {
  }

  /* ------------------------------------- ResultsAnalyzer.generate_failure_analysis */

  /** How many failure steps fall in each part of an episode. */
  datatype FailurePatterns = FailurePatterns(early: nat, mid: nat, late: nat)

  /** The dictionary `generate_failure_analysis` returns; `failurePatterns` is `None` for the empty `{}`. */
  datatype FailureReport = FailureReport(
    totalFailures: nat,
    failureRate: real,
    avgFailureStep: real,
    failurePatterns: Option<FailurePatterns>)

  /** The records of the episodes that did not succeed, in order. */
  function Failures(records: seq<EpisodeRecord>): (failures: seq<EpisodeRecord>)
    ensures |failures| <= |records|
    ensures forall k :: 0 <= k < |failures| ==> !failures[k].episodeSuccess
    decreases |records|
  {
    if records == [] then []
    else
      var last := records[|records| - 1];
      Failures(records[..|records| - 1]) + if last.episodeSuccess then [] else [last]
  }

  /** The failure points of `failures`, one list after the other. */
  function FailureSteps(failures: seq<EpisodeRecord>): seq<nat>
    decreases |failures|
  {
    if failures == [] then []
    else FailureSteps(failures[..|failures| - 1]) + failures[|failures| - 1].failurePoints
  }

  /** The number of `steps` that satisfy `p`. */
  function CountSteps(steps: seq<nat>, p: nat -> bool): (n: nat)
    ensures n <= |steps|
    decreases |steps|
  {
    if steps == [] then 0
    else CountSteps(steps[..|steps| - 1], p) + if p(steps[|steps| - 1]) then 1 else 0
  }

  predicate IsEarly(step: nat) { step < 2 }
  predicate IsMid(step: nat) { 2 <= step < 5 }
  predicate IsLate(step: nat) { step >= 5 }

  /**
   * The spec of `generate_failure_analysis` over the loaded records: the failures
   * are among the records, their rate lies in [0, 1], and no records give the
   * all-zero report without patterns.
   */
  function FailureReportOf(records: seq<EpisodeRecord>): (report: FailureReport)
    ensures report.totalFailures == |Failures(records)| <= |records|
    ensures 0.0 <= report.failureRate <= 1.0
    ensures records == [] ==> report == FailureReport(0, 0.0, 0.0, None)
  {
    var failures := Failures(records);
    var steps := FailureSteps(failures);
    FailureReport(
      |failures|,
      if records != [] then RatioBounds(|failures|, |records|); |failures| as real / |records| as real else 0.0,
      if failures != [] then |steps| as real / |failures| as real else 0.0,
      if steps != [] then Some(FailurePatterns(CountSteps(steps, IsEarly), CountSteps(steps, IsMid), CountSteps(steps, IsLate)))
      else None)
  }

  /** `generate_failure_analysis`: collect the failures, extend the list of their failure steps, then count. */
  method GenerateFailureReport(episodeResults: seq<EpisodeRecord>) returns (report: FailureReport)
    ensures report == FailureReportOf(episodeResults)
  {
    var failures := Failures(episodeResults);
    var failureSteps: seq<nat> := [];
    var i := 0;
    while i < |failures|
      invariant i <= |failures|
      invariant failureSteps == FailureSteps(failures[..i])
    {
      assert failures[..i + 1][..i] == failures[..i];
      failureSteps := failureSteps + failures[i].failurePoints;
      i := i + 1;
    }
    assert failures[..i] == failures;
    var patterns := None;
    if failureSteps != [] {
      patterns := Some(FailurePatterns(CountSteps(failureSteps, IsEarly), CountSteps(failureSteps, IsMid),
                                       CountSteps(failureSteps, IsLate)));
    }
    report := FailureReport(
      |failures|,
      if episodeResults != [] then |failures| as real / |episodeResults| as real else 0.0,
      if failures != [] then |failureSteps| as real / |failures| as real else 0.0,
      patterns);
  }

  /** Every failure step is early, mid or late, and only one of them. */
  lemma {:induction false} PatternsPartition(steps: seq<nat>)
    ensures CountSteps(steps, IsEarly) + CountSteps(steps, IsMid) + CountSteps(steps, IsLate) == |steps|
    decreases |steps|
  {
    if steps != [] {
      PatternsPartition(steps[..|steps| - 1]);
    }
  }

  /** The failure patterns are present exactly when there are failure steps, and they share those steps out. */
  lemma ReportPatterns(records: seq<EpisodeRecord>)
    ensures var report := FailureReportOf(records);
      && (report.failurePatterns.None? <==> FailureSteps(Failures(records)) == [])
      && (report.failurePatterns.Some? ==>
            report.failurePatterns.value.early + report.failurePatterns.value.mid + report.failurePatterns.value.late
              == |FailureSteps(Failures(records))|)
  {
    PatternsPartition(FailureSteps(Failures(records)));
  }

  /** The number of failure steps is the number of failure points over the failed episodes. */
  function PointsSum(records: seq<EpisodeRecord>): nat
    decreases |records|
  {
    if records == [] then 0
    else PointsSum(records[..|records| - 1]) + |records[|records| - 1].failurePoints|
  }

  lemma {:induction false} FailureStepsCount(failures: seq<EpisodeRecord>)
    ensures |FailureSteps(failures)| == PointsSum(failures)
    decreases |failures|
  {
    if failures != [] {
      FailureStepsCount(failures[..|failures| - 1]);
    }
  }

  /**
   * `avg_failure_step` is an average count, not an average index: times the
   * number of failed episodes it gives the number of their failure points.
   */
  lemma ReportAverage(records: seq<EpisodeRecord>)
    ensures var failures := Failures(records);
      && (failures != [] ==> FailureReportOf(records).avgFailureStep == PointsSum(failures) as real / |failures| as real)
      && (failures == [] ==> FailureReportOf(records).avgFailureStep == 0.0)
  {
    FailureStepsCount(Failures(records));
  }

  /* --------------------------------------- agreement with the evaluator's metrics */

  /** Projecting the first `n` results gives the first `n` records. */
  lemma ProjectedPrefix(results: seq<EvaluationResult>, n: nat)
    requires n <= |results|
    ensures Projected(results[..n]) == Projected(results)[..n]
  {
  }

  lemma {:induction false} FailuresOfProjected(results: seq<EvaluationResult>)
    ensures |Failures(Projected(results))| + Successes(results) == |results|
    decreases |results|
  {
    if results != [] {
      var n := |results| - 1;
      ProjectedPrefix(results, n);
      FailuresOfProjected(results[..n]);
    }
  }

  /**
   * Over the records `save_results` writes, the failure rate is what the
   * episode success rate leaves: the two add up to one.
   */
  lemma FailureRateComplementsSuccessRate(results: seq<EvaluationResult>)
    requires results != []
    ensures FailureReportOf(Projected(results)).failureRate
      == 1.0 - AggregateMetrics(results).value.episodeSuccessRate
    ensures FailureReportOf(Projected(results)).totalFailures == |results| - Successes(results)
  {
    FailuresOfProjected(results);
    Complement(|Failures(Projected(results))|, Successes(results), |results|);
  }

  lemma Complement(f: nat, s: nat, n: nat)
    requires f + s == n && n > 0
    ensures f as real / n as real == 1.0 - s as real / n as real
  {
    var fr, sr, nr := f as real, s as real, n as real;
    var x, y := fr / nr, sr / nr;
    assert x * nr == fr && y * nr == sr;
    var d := x + y - 1.0;
    assert d * nr == 0.0;
    if d != 0.0 {
      assert false;
    }
  }

  /**
   * For records of results the evaluator produced, every failed episode has a
   * failure point, so patterns are present exactly when some episode failed,
   * and then the average is at least one.
   */
  lemma {:induction false} FailedRecordsHavePoints(records: seq<EpisodeRecord>)
    requires forall k :: 0 <= k < |records| ==> (records[k].episodeSuccess <==> records[k].failurePoints == [])
    ensures PointsSum(Failures(records)) >= |Failures(records)|
    decreases |records|
  {
    if records != [] {
      var n := |records| - 1;
      FailedRecordsHavePoints(records[..n]);
      var before := Failures(records[..n]);
      assert records[n].episodeSuccess <==> records[n].failurePoints == [];
      if !records[n].episodeSuccess {
        assert Failures(records) == before + [records[n]];
        assert (before + [records[n]])[..|before|] == before;
        assert PointsSum(before + [records[n]]) == PointsSum(before) + |records[n].failurePoints|;
      } else {
        assert Failures(records) == before;
      }
    }
  }

  lemma AtLeastOne(p: nat, f: nat)
    requires p >= f > 0
    ensures p as real / f as real >= 1.0
  {
    var pr, fr := p as real, f as real;
    var q := pr / fr;
    assert q * fr == pr;
    if q < 1.0 {
      assert (1.0 - q) * fr > 0.0;
    }
  }

  lemma ReportOfWellFormed(results: seq<EvaluationResult>)
    requires AllWellFormed(results)
    ensures var report := FailureReportOf(Projected(results));
      && (report.failurePatterns.Some? <==> report.totalFailures > 0)
      && (report.totalFailures > 0 ==> report.avgFailureStep >= 1.0)
  {
    var records := Projected(results);
    forall k | 0 <= k < |records|
      ensures records[k].episodeSuccess <==> records[k].failurePoints == []
    {
      assert WellFormed(results[k]);
    }
    FailedRecordsHavePoints(records);
    FailureStepsCount(Failures(records));
    ReportAverage(records);
    if Failures(records) != [] {
      AtLeastOne(PointsSum(Failures(records)), |Failures(records)|);
    }
  }
}
