# Android agent evaluation engine, modelled in Dafny

This project models the core of an evaluation harness for LLM-driven Android agents.

An `AndroidAgent` does four things:
- picks a provider (OpenAI or Anthropic) from its model name;
- formats one of three prompt templates for the current goal and observation;
- asks the model for a reply;
- canonicalises the reply into an action string such as `CLICK("Ok")` and records the step in its history.

The `Evaluator` drives an agent through a recorded episode (every observation but the last), compares each action with the ground truth, and stores an `EvaluationResult`. Over the stored results it computes:
- aggregate metrics;
- a failure taxonomy (`llm_error`, `wrong_click`);
- the projection that `save_results` writes.

The helpers in `utils.py` provide three more operations:
- a structured action parser that also knows `LONG_PRESS`;
- a check of a parsed target against the UI elements;
- a failure report over saved per-episode records.

The episode store looks episodes up by id and samples them without replacement.

Modules:
- `Wrappers`: `Option` and `Result`.
- `Text`: Python's `str.strip`, `str.lower` (ASCII), `in` on strings, and the substitution `re.sub(r'["\s]', '', s)`.
- `ActionPatterns`: the regular expression `KIND\(["']([^"']*)["']\)` searched case-insensitively. This is a scanner with leftmost-match semantics. It also provides the canonical form `KIND("target")`.
- `Agent`: `agent.py`.
- `Evaluation`: `evaluator.py`.
- `Utils`: `ActionParser` and `ResultsAnalyzer.generate_failure_analysis` from `utils.py`.
- `Environment`: `get_episode` and `get_random_episodes` from `environment.py`.

Floating-point ratios are modelled as `real`. The model's chat client is a function from prompt to reply; it either returns a text or raises. Files, JSON and logging are left out.

The scoring loop of `evaluate_episode` is specified by `Evaluation.Run`, a fold over the outcome of each step. `Evaluation.ActOnEpisode` is the imperative loop, and it is proved to compute that fold and the agent's resulting history. `Evaluator` and `AndroidAgent` are classes, because their `results` and `action_history` lists change in place.

## Model

| member | source | states |
|---|---|---|
| Text.Lower | evaluator.py:117 | lower-casing keeps the length and maps each character through ASCII lower-casing |
| Text.Strip | evaluator.py:112 | the result is the input without leading and trailing white space (Python's `isspace` set), and it starts at the first non-space character |
| Text.StripIdempotent | agent.py:181 | stripping a stripped string changes nothing |
| Text.ContainsIsOccurrence | evaluator.py:149-151 | `t in s` holds exactly when `t` occurs in `s` at some index |
| Text.DeleteQuotesAndSpace | evaluator.py:117-118 | the substitution leaves no `"` and no white space, and never lengthens the string |
| Text.DeleteAppend | evaluator.py:117-118 | the substitution distributes over concatenation |
| Text.CleanIgnoresStrip | evaluator.py:112-118 | white space around an action never changes its cleaned (lower-cased, de-quoted, de-spaced) form |
| ActionPatterns.MatchAt | agent.py:167-170 | a match at a position captures exactly the text between the two quotes; no match means no closing quote makes the pattern fit there |
| ActionPatterns.Search | agent.py:175 | `re.search` gives the leftmost position where the pattern matches, and there is no match at any earlier position |
| ActionPatterns.FirstKind | agent.py:174-178 | the first kind in table order whose pattern occurs wins; every earlier kind has no match |
| ActionPatterns.TargetHasNoQuote | agent.py:167 | a captured target holds no quote character |
| ActionPatterns.NoMatchInShortText | agent.py:167 | a text shorter than the name plus `("")` matches nothing |
| ActionPatterns.CanonicalMatchesItself | agent.py:178 | searching `KIND("t")` for KIND finds it at position 0 and captures `t` |
| ActionPatterns.CanonicalMatchesNoOther | agent.py:166-171 | no other kind's pattern matches anywhere in `KIND("t")` |
| ActionPatterns.SearchIgnoresStrip | utils.py:93-96 | stripping the reply first changes neither whether a pattern occurs nor what it captures |
| Agent.SelectProvider | agent.py:52-59 | "gpt" anywhere in the lower-cased name gives OpenAI; otherwise "claude" gives Anthropic; otherwise the error `Unsupported model: <name>` |
| Agent.AndroidAgent.constructor | agent.py:46-49 | the agent keeps its model name, template, provider and client, and starts with an empty history |
| Agent.AndroidAgent.Create | agent.py:46-59 | a new agent whose provider and client follow the name, with an empty history; an unsupported name is refused with the provider error |
| Agent.BasePrompt | agent.py:88-99 | the base prompt opens with `Goal: <goal>`, contains the app line (default `Unknown`) and the UI-element line (default `[]`), and ends with the answer instructions |
| Agent.FormatPrompt | agent.py:77-85 | a prompt exactly for `base`, `few_shot` and `self_reflection`; any other template gives `Unknown prompt template: <name>` |
| Agent.FormatPromptEmbedsBase | agent.py:88-136 | every template's prompt contains the base prompt, so it always states the goal, app and UI elements |
| Agent.ParseAction | agent.py:164-181 | with no agent pattern anywhere in the reply, the action is the stripped reply; when the `j`-th of CLICK, SCROLL, TYPE, SWIPE is the first kind whose pattern occurs, the action is `KIND("target")` for that kind with the target of its leftmost match, whatever later kinds occur |
| Agent.ParseCanonical | agent.py:164-181 | a canonical `KIND("t")` of one of the agent's four kinds parses to itself |
| Agent.ParseIdempotent | agent.py:164-181 | canonicalising an action a second time changes nothing |
| Agent.ParseStripped | agent.py:174-181 | a parsed action never has white space at either end |
| Agent.ParsePrefersClick | agent.py:166-178 | if a CLICK pattern occurs anywhere, the action is `CLICK("<its leftmost target>")`, whatever other kinds occur |
| Agent.ParseIgnoresCaseAndQuoteStyle | agent.py:175-178 | for any quote-free target `t`, `click('t')` becomes `CLICK("t")` |
| Agent.ParseErrorSentinel | agent.py:159-181 | the sentinel reply "ERROR" passes through as the action "ERROR" |
| Agent.AndroidAgent.CallLlm | agent.py:139-161 | the call never raises: it gives the client's reply text, or "ERROR" when the client raised |
| Agent.AndroidAgent.Reply | agent.py:62-74 | a step yields a turn exactly when the template is known; its action is the canonicalised reply; otherwise the template error |
| Agent.AndroidAgent.GenerateAction | agent.py:62-74 | returns the step's action or its exception; appends exactly one history entry (observation, action, reply) when it returns, none when it raises |
| Agent.AndroidAgent.ResetHistory | agent.py:184-185 | the history is empty afterwards |
| Agent.ClientErrorGivesSentinel | agent.py:139-161 | when the client raises, the step still returns, with action and reply both "ERROR" |
| Evaluation.ActionsMatch | evaluator.py:109-120 | two actions match exactly when their cleaned forms (lower-cased, without `"` and white space) are equal; the exact pass is subsumed |
| Evaluation.ActionsMatchIsEquivalence | evaluator.py:109-120 | matching is reflexive, symmetric and transitive |
| Evaluation.ActionsMatchIgnoresCase | evaluator.py:115-120 | `CLICK("Ok")` matches `click("ok")` |
| Evaluation.ActionsMatchKeepsTarget | evaluator.py:115-120 | `CLICK("OK")` does not match `CLICK("Okay")` |
| Evaluation.ActionsMatchKeepsSingleQuotes | evaluator.py:117-118 | `CLICK('Ok')` does not match `CLICK("Ok")`, because only `"` is deleted |
| Evaluation.DifferInMiddle | evaluator.py:117-120 | actions that differ only in one piece, whose cleaned forms differ but have equal length, do not match |
| Evaluation.DifferInMiddleLength | evaluator.py:117-120 | actions that differ only in one piece whose cleaned forms differ in length do not match |
| Evaluation.Step | evaluator.py:71-86 | one loop pass records the step's action (or "ERROR"); it adds a correct step exactly for a returned action that matches the ground truth at `i`; it adds failure point `i` exactly when the call raised or a compared action does not match |
| Evaluation.Run | evaluator.py:70-86 | the loop's correct count is the number of steps whose returned action matches the ground-truth action at the same index |
| Evaluation.CorrectIgnoresStepsPastTruth | evaluator.py:76-79 | steps at or past the number of ground-truth actions are never counted correct, whatever the agent did there |
| Evaluation.RunRecordsEveryStep | evaluator.py:70-86 | one action is recorded per acted-on observation: the agent's action, or "ERROR" when the call raised |
| Evaluation.RunFailurePoints | evaluator.py:70-86 | the failure points are strictly increasing, each below the step count, and a step is a failure point exactly when it raised or its compared action did not match |
| Evaluation.RunCounts | evaluator.py:76-81 | the correct steps are at most the steps and the ground-truth actions; correct steps plus failures cover every compared step and no more than all steps |
| Evaluation.RunAppend | evaluator.py:70-86 | one more observation adds exactly one loop step |
| Evaluation.Score | evaluator.py:88-104 | the result carries the episode's id, goal and ground truth, one action per acted-on observation, and `len(actions)` as total steps; it is well formed: correct steps at most total steps, accuracy in [0, 1], success exactly when there are no failure points, every failure point indexes a recorded action |
| Evaluation.ScoreSuccess | evaluator.py:91 | an episode succeeds exactly when no step failed, that is, when its failure points are empty |
| Evaluation.ScoreAccuracy | evaluator.py:89-90 | total steps is the number of ground-truth actions; accuracy is correct over total, in [0, 1], and 0 when there is no ground truth |
| Evaluation.ScorePerfect | evaluator.py:89-91 | a successful run that reaches every ground-truth action has accuracy 1 |
| Evaluation.ScoreRepeatedAction | evaluator.py:70-91 | repeating a correct first action on a two-step episode gives accuracy 0.5, one correct step and failure point [1] |
| Evaluation.ScoreExample | evaluator.py:63-107 | the full result record for a concrete three-observation episode |
| Evaluation.ShortEpisodeMakesNoCalls | evaluator.py:70 | an episode with at most one observation makes no agent call, records nothing, and succeeds with accuracy 0 |
| Evaluation.RaisedStepsAreLlmErrors | evaluator.py:83-86 | a step whose call raised is a failure point, and its recorded action falls into the `llm_error` bucket |
| Evaluation.ActOnEpisode | evaluator.py:64-86 | the loop's actions, correct count and failure points are exactly the fold `Run` over the agent's outcomes, and the agent's history is one entry per returned call |
| Evaluation.Evaluator.constructor | evaluator.py:59-60 | the evaluator starts with no results |
| Evaluation.Evaluator.EvaluateEpisode | evaluator.py:63-107 | the result is the score of the agent's outcomes on the acted-on observations; it is well formed; it is appended to the results; the agent's history is reset and then refilled |
| Evaluation.AggregateMetrics | evaluator.py:122-137 | no metrics exactly when there are no results; otherwise the episode count and a success rate in [0, 1] |
| Evaluation.AggregateBounds | evaluator.py:129-136 | over results the evaluator produced, the mean accuracy lies in [0, 1] and total correct steps never exceed total steps |
| Evaluation.AggregateSuccessRate | evaluator.py:128-133 | the success rate is 1 exactly when every episode succeeded, and 0 exactly when none did |
| Evaluation.AggregateExample | evaluator.py:122-137 | the metrics of three concrete results: rate 1/3, mean accuracy 0.5, and summed steps |
| Evaluation.Bucket | evaluator.py:147-152 | an action holding "ERROR" anywhere is an `llm_error`; otherwise one holding "CLICK" is a `wrong_click`; otherwise it is not classified |
| Evaluation.BucketsDiffer | evaluator.py:150-152 | the two failure-type keys are distinct |
| Evaluation.CountOneMore | evaluator.py:150-152 | `failure_types.get(key, 0) + 1` stored under a key gives the counts with that key's count raised by one |
| Evaluation.FailureAnalysisBounded | evaluator.py:139-155 | each failure point of an unsuccessful episode is counted at most once, under one key |
| Evaluation.FailureAnalysis | evaluator.py:139-155 | the only keys are `llm_error` and `wrong_click`, each present exactly when its count is positive, and `get(key, 0)` is the number of failure points of unsuccessful episodes in that bucket |
| Evaluation.FailureAnalysisOfSuccesses | evaluator.py:143-144 | when every episode succeeded, the analysis is empty |
| Evaluation.Evaluator.GenerateFailureAnalysis | evaluator.py:139-155 | the loop returns exactly the per-type counts over the failure points of unsuccessful results |
| Evaluation.CountFailurePoints | evaluator.py:146-152 | the inner loop adds one result's failure points to the counts, by type |
| Evaluation.Projected | evaluator.py:162-173 | one saved record per result, in order |
| Evaluation.Evaluator.SaveResults | evaluator.py:157-174 | the saved document is the aggregate metrics, the failure analysis and the per-episode records of the stored results |
| Evaluation.ActionsMatchAsWritten | evaluator.py:109-120 | as written, the comparison returns true exactly on stripped equality and raises otherwise |
| Evaluation.StepAsWritten | evaluator.py:71-86 | as written, a step records its action first, records a second entry exactly when the fuzzy branch is reached, and counts as correct only on equality after stripping |
| Evaluation.StepAsWrittenAgrees | evaluator.py:71-86 | as written, a step agrees with the corrected step whenever it never reaches the fuzzy branch |
| Evaluation.StepAsWrittenDiverges | evaluator.py:71-86 | as written, an action that is not equal after stripping is recorded followed by "ERROR" and becomes a failure point |
| Evaluation.FuzzyMatchRaisesAsWritten | evaluator.py:115-120 | `CLICK("Ok")` against `click("ok")` counts as correct when corrected, but as written records `["CLICK(\"Ok\")", "ERROR"]` and fails step 0 |
| Utils.ParserNames | utils.py:82-88 | the parser's table holds the five kinds, LONG_PRESS last, in insertion order |
| Utils.ParseStructured | utils.py:91-111 | a parse is valid exactly when its type is not UNKNOWN and exactly when it has a target; a valid parse is formatted `KIND("target")`, an invalid one is the stripped reply |
| Utils.FirstKindIgnoresStrip | utils.py:93-96 | which kind wins does not depend on surrounding white space |
| Utils.ParseStructuredSpec | utils.py:91-111 | the first matching kind gives a valid parse with its target and the canonical `KIND("target")`; no match gives UNKNOWN with no target, the stripped reply, and not valid |
| Utils.AgentNamesArePrefix | utils.py:82-86 | the agent's four kinds are the first four entries of the parser's table, in the same order |
| Utils.FirstKindOfPrefix | utils.py:95-97 | searching only a prefix of the table finds the same kind, unless the winner lies beyond it |
| Utils.ParseStructuredAgreesWithAgent | utils.py:91-111 | unless the parse is LONG_PRESS, its formatted action is exactly the agent's canonicalised action |
| Utils.LongPressOnlyStructured | utils.py:82-88 | a reply whose first match is LONG_PRESS parses as a valid LONG_PRESS, while the agent passes it through only stripped |
| Utils.ValidateAction | utils.py:113-132 | the loop returns true exactly when the parse is valid, the target is non-empty, and some element equals the target exactly or ignoring case |
| Utils.ValidatesIgnoringCase | utils.py:123-132 | the exact test adds nothing: validation is a valid non-empty target equal to some element ignoring case |
| Utils.UnknownNeverValidates | utils.py:106-117 | a failed parse never validates, whatever elements are on screen |
| Utils.Failures | utils.py:196 | the kept records are all unsuccessful, and there are at most as many as records |
| Utils.CountSteps | utils.py:212-214 | a count of steps never exceeds the number of steps |
| Utils.FailureReportOf | utils.py:194-217 | the failure count is the number of failed records, at most all records; the failure rate lies in [0, 1]; no records give zero counts and no patterns |
| Utils.GenerateFailureReport | utils.py:194-217 | the loop gives the report of the failures, their rate, the mean number of failure points and the early/mid/late patterns |
| Utils.PatternsPartition | utils.py:210-215 | every failure step is exactly one of early (< 2), mid (2..4) or late (>= 5) |
| Utils.ReportPatterns | utils.py:205-215 | the patterns are present exactly when there are failure steps, and the three counts sum to their number |
| Utils.FailureStepsCount | utils.py:206-208 | the extended list holds as many steps as the failed records have failure points |
| Utils.ReportAverage | utils.py:201 | the mean is the failed records' failure points over their number, and 0 with no failures |
| Utils.ProjectedPrefix | evaluator.py:162-173 | projecting the first n results gives the first n records |
| Utils.FailuresOfProjected | utils.py:196 | over saved results, failures plus successes make up all episodes |
| Utils.FailureRateComplementsSuccessRate | utils.py:196-200 | over saved results, the failure rate is one minus the evaluator's success rate, and the failures are the episodes minus the successes |
| Utils.FailedRecordsHavePoints | utils.py:196-201 | when success means no failure points, failed records hold at least one failure point each |
| Utils.ReportOfWellFormed | utils.py:196-215 | over results the evaluator produced, patterns are present exactly when some episode failed, and then the mean failure count is at least 1 |
| Environment.AndroidWorldEnvironment.constructor | environment.py:34-36 | the store holds the given episodes |
| Environment.AndroidWorldEnvironment.GetEpisode | environment.py:57-62 | the first episode with the requested id; the error `Episode <id> not found` exactly when no episode has it |
| Environment.AndroidWorldEnvironment.GetRandomEpisodes | environment.py:64-67 | min(n, size) episodes drawn at distinct positions of the store; a negative n raises |
| Environment.DistinctPositionsFit | environment.py:67 | distinct positions below a bound are no more numerous than the bound |
| Environment.SampleFitsStore | environment.py:67 | a sample never exceeds the store, and every sampled episode is one of the store's |

## Left out

- `_call_llm`: the HTTP request, the model name, the temperature (0.1) and `max_tokens` (150) are not modelled. The client is a function from prompt to reply or exception, fixed for the agent's lifetime. A `None` reply content from OpenAI is not modelled.
- Agent.AndroidAgent.GenerateAction: the unused `history` argument of the prompt functions is dropped, because no template reads it.
- Agent.QuotedList: Python's `repr` of the UI element list is modelled as each element in single quotes. The choice of quote for elements that contain `'` and backslash escaping are not modelled.
- Text.Lower: only ASCII letters are lower-cased. Python's full Unicode case mapping is not modelled.
- ActionPatterns.NameAt: compares the kind name with ASCII case folding only. Python's `re.IGNORECASE` also lets four non-ASCII letters match a pattern letter: `ſ` (U+017F) for S, `K` (Kelvin sign, U+212A) for K, and `İ` (U+0130) and `ı` (U+0131) for I. So `ſCROLL("up")` gives `SCROLL("up")` in the source but the stripped reply in `Agent.ParseAction` and an UNKNOWN parse in `Utils.ParseStructured`.
- Agent.ParseAction: the agent's pattern list has no LONG_PRESS, as in the code. The action type is written from a fixed upper-case name, which is the text the code's `pattern.split` yields.
- Evaluation.ActionsMatch: models the code's substitution, which deletes only `"` and white space. The comment at evaluator.py:116 says "quotes", which suggests `'` as well. The model follows the code, so `CLICK('Ok')` and `CLICK("Ok")` do not match (ActionsMatchKeepsSingleQuotes).
- Evaluation.ActOnEpisode: takes the comparison as a parameter. `EvaluateEpisode` passes `ActionsMatch`, the corrected comparison (see Findings).
- Evaluation.Score: `step_accuracy` is the integer `0` in the code when there is no ground truth. The model uses `0.0`. Python compares the two as equal.
- Evaluation.FailureAnalysis: Python dictionary insertion order is not modelled; the result is a map.
- Evaluation.Evaluator.SaveResults: the JSON file written at evaluator.py:176-177 is not modelled. The document it would contain is returned instead.
- Utils.GenerateFailureReport: `ResultsAnalyzer` reads the results file in its constructor. The model takes the loaded records as a parameter. The empty `failure_patterns` dictionary is `None`. The integer `0` rates are `0.0`.
- Environment.AndroidWorldEnvironment.GetRandomEpisodes: only constrains which episodes are drawn (distinct positions of the right number). `random.sample`'s algorithm and randomness are not modelled.
- `_load_episodes` (directory listing and JSON parsing) is not modelled. The store is built from a list of episodes. `environment.py` also uses `Episode` without importing it (environment.py:38), which would fail when the module loads; the model assumes the import.
- `utils.py` line 38 opens a second string right after the module docstring; the first `"""` on line 51 closes it, which leaves `Custom logging utility for the evaluation framework` as bare code, a syntax error, so the module as written does not load. The model describes the code as if the stray `"""` on line 38 were absent.
- Logging, `print`, plots, summary reports, `benchmark.py`, `main.py` and `config.py` are outside the evaluation core.
- Agent.AndroidAgent.GenerateAction, Agent.AndroidAgent.ResetHistory, Evaluation.Evaluator.EvaluateEpisode and the constructors state their new state with `old` or `fresh`. Their partner facts are the lemmas about `Reply`, `Run` and `Score` above.

## Findings

| source | as written | input that shows it | evidently intended | confidence | as-written member | corrected member |
|---|---|---|---|---|---|---|
| evaluator.py:117 | the fuzzy comparison calls `re.sub`, but `evaluator.py` never imports `re`. Any action pair that is not equal after stripping raises `NameError`, and `evaluate_episode` catches it: the action is recorded followed by "ERROR", and the step is a failure point | agent action `CLICK("Ok")` against ground truth `click("ok")` | a case-, quote- and space-insensitive match, so the step counts as correct and records one action | not executed | Evaluation.FuzzyMatchRaisesAsWritten | Evaluation.ActionsMatchIgnoresCase |
