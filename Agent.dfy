/**
 * The LLM agent: the episode record it is run on, its choice of provider, the
 * prompt templates, the canonicaliser that turns a model reply into an action
 * string, and the agent object with its per-episode action history.
 *
 * The language model itself is a function from prompt to reply, one per
 * provider, handed to the agent when it is created; a reply is either text or
 * an exception raised by the client.
 */
module Agent {
  import opened Wrappers
  import opened Text
  import opened ActionPatterns

  /** What the agent sees before a step; either key may be missing from the dictionary. */
  datatype Observation = Observation(app: Option<string>, uiElements: Option<seq<string>>)

  /** One recorded task: a goal, the observations in order, and the ground-truth actions. */
  datatype Episode = Episode(goal: string, observations: seq<Observation>, actions: seq<string>, episodeId: string)

  datatype Provider = OpenAI | Anthropic

  /* ---------------------------------------------------- provider choice */

  /** The constructor's provider choice: "gpt" anywhere in the lower-cased name wins over "claude". */
  function SelectProvider(modelName: string): (r: Result<Provider, string>)
    ensures r == Ok(OpenAI) <==> exists j: nat :: OccursAt(Lower(modelName), "gpt", j)
    ensures r == Ok(Anthropic) <==>
      (forall j: nat :: !OccursAt(Lower(modelName), "gpt", j)) && exists j: nat :: OccursAt(Lower(modelName), "claude", j)
    ensures r.Err? ==> r.error == "Unsupported model: " + modelName
  {
    var name := Lower(modelName);
    ContainsIsOccurrence(name, "gpt");
    ContainsIsOccurrence(name, "claude");
    if Contains(name, "gpt") then Ok(OpenAI)
    else if Contains(name, "claude") then Ok(Anthropic)
    else Err("Unsupported model: " + modelName)
  }

  /* ------------------------------------------------------------ prompts */

  /** A string as Python's list display shows it (quote choice and escaping are not modelled). */
  function QuotedList(elements: seq<string>): string
    decreases |elements|
  {
    if elements == [] then ""
    else if |elements| == 1 then "'" + elements[0] + "'"
    else "'" + elements[0] + "', " + QuotedList(elements[1..])
  }

  /** `str(ui_elements)` for a list of names. */
  function ElementsRepr(elements: seq<string>): string {
    "[" + QuotedList(elements) + "]"
  }

  /** The base template, with the defaults `'Unknown'` and `[]` for missing keys. */
  function BasePrompt(texts: PromptTexts, goal: string, observation: Observation): (r: string)
    ensures |r| >= 6 + |goal| + |texts.instructions|
    ensures r[..6 + |goal|] == "Goal: " + goal
    ensures exists j: nat :: OccursAt(r, "- App: " + AppName(observation) + "\n", j)
    ensures exists j: nat :: OccursAt(r, "- UI Elements: " + ElementsRepr(UiElements(observation)) + "\n", j)
    ensures r[|r| - |texts.instructions|..] == texts.instructions
  {
    var head := "Goal: " + goal + "\n" + "        Observation:\n" + "        ";
    var appLine := "- App: " + AppName(observation) + "\n";
    var elementsLine := "- UI Elements: " + ElementsRepr(UiElements(observation)) + "\n";
    var r := head + appLine + "        " + elementsLine + texts.instructions;
    assert r[|head|..|head| + |appLine|] == appLine;
    assert r[|head| + |appLine| + 8..|head| + |appLine| + 8 + |elementsLine|] == elementsLine;
    assert OccursAt(r, appLine, |head|);
    assert OccursAt(r, elementsLine, |head| + |appLine| + 8);
    r
  }

  /** `observation.get('app', 'Unknown')`. */
  function AppName(observation: Observation): string {
    match observation.app case Some(a) => a case None => "Unknown"
  }

  /** `observation.get('ui_elements', [])`. */
  function UiElements(observation: Observation): seq<string> {
    match observation.uiElements case Some(e) => e case None => []
  }

  /**
   * The fixed texts of the templates: the answer instructions that close the base
   * prompt, the few-shot examples put before it, and the reflection questions put after it.
   */
  datatype PromptTexts = PromptTexts(instructions: string, examples: string, reflection: string)

  /** The texts of the source's templates. */
  const SourceTexts: PromptTexts := PromptTexts(
    "        What is the next best action to achieve the goal? Respond in the format:\n" +
    "        CLICK(\"element_name\") or SCROLL(\"direction\") or TYPE(\"text\")\n" +
    "        Action:",
    "Examples:\n" +
    "Goal: Open calculator app\n" +
    "Observation: App: Home, UI Elements: [\"Calculator\", \"Settings\", \"Chrome\"]\n" +
    "Action: CLICK(\"Calculator\")\n" +
    "\n" +
    "Goal: Uninstall app\n" +
    "Observation: App: Settings, UI Elements: [\"Apps\", \"Display\", \"Sound\"]\n" +
    "Action: CLICK(\"Apps\")\n" +
    "\n" +
    "Goal: Send message \"Hello\"\n" +
    "Observation: App: Messages, UI Elements: [\"Compose\", \"Search\", \"Settings\"]\n" +
    "Action: CLICK(\"Compose\")\n",
    "\n" +
    "Before choosing an action, consider:\n" +
    "1. What is the current state of the app?\n" +
    "2. What UI elements are available?\n" +
    "3. Which action will move me closer to the goal?\n" +
    "4. Are there any intermediate steps needed?\n" +
    "\n" +
    "Reasoning: [Explain your thought process]\n" +
    "Action: [Your chosen action]\n")

  predicate IsTemplate(template: string) {
    template == "base" || template == "few_shot" || template == "self_reflection"
  }

  /** `_format_prompt`: dispatch on the template name; any other name raises `ValueError`. */
  function FormatPrompt(texts: PromptTexts, template: string, goal: string, observation: Observation): (r: Result<string, string>)
    ensures r.Ok? <==> IsTemplate(template)
    ensures r.Err? ==> r.error == "Unknown prompt template: " + template
  {
    var base := BasePrompt(texts, goal, observation);
    if template == "base" then Ok(base)
    else if template == "few_shot" then Ok(texts.examples + "\n" + base)
    else if template == "self_reflection" then Ok(base + texts.reflection)
    else Err("Unknown prompt template: " + template)
  }

  /** Every template embeds the base prompt, so every prompt states the goal and the observation. */
  lemma FormatPromptEmbedsBase(texts: PromptTexts, template: string, goal: string, observation: Observation)
    requires IsTemplate(template)
    ensures exists j: nat :: OccursAt(FormatPrompt(texts, template, goal, observation).value, BasePrompt(texts, goal, observation), j)
  {
    var base := BasePrompt(texts, goal, observation);
    var prompt := FormatPrompt(texts, template, goal, observation).value;
    if template == "base" {
      assert base[0..|base|] == base;
      assert OccursAt(prompt, base, 0);
    } else if template == "few_shot" {
      OccursAsSuffix(texts.examples + "\n", base);
      assert OccursAt(prompt, base, |texts.examples| + 1);
    } else {
      OccursAsPrefix(base, texts.reflection);
      assert OccursAt(prompt, base, 0);
    }
  }

  lemma OccursAsSuffix(a: string, b: string)
    ensures OccursAt(a + b, b, |a|)
  {
    assert (a + b)[|a|..|a| + |b|] == b;
  }

  lemma OccursAsPrefix(b: string, c: string)
    ensures OccursAt(b + c, b, 0)
  {
    assert (b + c)[0..|b|] == b;
  }

  /* ---------------------------------------------------- the canonicaliser */

  /** The names the canonicaliser's pattern list heads with: CLICK, SCROLL, TYPE, SWIPE. */
  function AgentNames(): (names: seq<string>)
    ensures |names| == 4
    ensures forall m :: 0 <= m < 4 ==> names[m] == AgentKinds[m].Name() && PatternName(names[m])
  {
    var names := Names(AgentKinds);
    KindNames(Click); KindNames(Scroll); KindNames(Type); KindNames(Swipe);
    names
  }

  /**
   * `_parse_action`: the first kind whose pattern occurs wins and is written
   * `KIND("target")` with the target of its leftmost match; otherwise the
   * stripped reply.
   */
  function ParseAction(response: string): (r: string)
    ensures (forall m :: 0 <= m < 4 ==> Search(response, AgentKinds[m].Name()).None?) ==> r == Strip(response)
    ensures r == Strip(response) ||
      exists m :: 0 <= m < 4 && Search(response, AgentKinds[m].Name()).Some? &&
        r == Canonical(AgentKinds[m].Name(), Search(response, AgentKinds[m].Name()).value.target)
    ensures forall j ::
      (0 <= j < 4 && Search(response, AgentKinds[j].Name()).Some? &&
       forall m :: 0 <= m < j ==> Search(response, AgentKinds[m].Name()).None?) ==>
      r == Canonical(AgentKinds[j].Name(), Search(response, AgentKinds[j].Name()).value.target)
  {
    var names := AgentNames();
    var j := FirstKind(response, names);
    if j < |names| then Canonical(names[j], Search(response, names[j]).value.target)
    else Strip(response)
  }

  /** The kinds listed before the `j`-th one do not match its canonical form. */
  lemma EarlierKindsMiss(j: nat, target: string)
    requires j < 4 && NoQuoteBetween(target, 0, |target|)
    ensures forall m :: 0 <= m < j ==> Search(Canonical(AgentKinds[j].Name(), target), AgentKinds[m].Name()).None?
  {
    forall m | 0 <= m < j
      ensures Search(Canonical(AgentKinds[j].Name(), target), AgentKinds[m].Name()).None?
    {
      CanonicalMatchesNoOther(AgentKinds[j], target, AgentKinds[m]);
    }
  }

  /** `KIND("target")` for the `j`-th of the agent's kinds is left as it is. */
  lemma ParseCanonicalAt(j: nat, target: string)
    requires j < 4 && NoQuoteBetween(target, 0, |target|)
    ensures ParseAction(Canonical(AgentKinds[j].Name(), target)) == Canonical(AgentKinds[j].Name(), target)
  {
    var names := AgentNames();
    var c := Canonical(names[j], target);
    CanonicalMatchesItself(names[j], target);
    EarlierKindsMiss(j, target);
    FirstKindIs(c, names, j);
  }

  /** `KIND("target")` for one of the agent's kinds is left as it is. */
  lemma ParseCanonical(kind: ActionType, target: string)
    requires kind in AgentKinds && NoQuoteBetween(target, 0, |target|)
    ensures ParseAction(Canonical(kind.Name(), target)) == Canonical(kind.Name(), target)
  {
    var j :| 0 <= j < 4 && AgentKinds[j] == kind;
    ParseCanonicalAt(j, target);
  }

  /** Canonicalising twice is canonicalising once. */
  lemma ParseIdempotent(response: string)
    ensures ParseAction(ParseAction(response)) == ParseAction(response)
  {
    var names := AgentNames();
    var j := FirstKind(response, names);
    if j < 4 {
      TargetHasNoQuote(response, names[j]);
      ParseCanonical(AgentKinds[j], Search(response, names[j]).value.target);
    } else {
      forall m | 0 <= m < 4
        ensures Search(Strip(response), names[m]).None?
      {
        StripAddsNoMatch(response, names[m]);
      }
      StripIdempotent(response);
    }
  }

  /** The action never has white space at either end. */
  lemma ParseStripped(response: string)
    ensures Strip(ParseAction(response)) == ParseAction(response)
  {
    var names := AgentNames();
    var j := FirstKind(response, names);
    if j < 4 {
      var t := Search(response, names[j]).value.target;
      TargetHasNoQuote(response, names[j]);
      CanonicalLayout(names[j], t);
      var c := Canonical(names[j], t);
      assert c[0] == c[..|names[j]|][0] == names[j][0];
      StripUnpadded(c);
    } else {
      StripIdempotent(response);
    }
  }

  /** A CLICK pattern anywhere decides the action, whatever other patterns occur and where. */
  lemma ParsePrefersClick(response: string)
    requires Search(response, "CLICK").Some?
    ensures ParseAction(response) == Canonical("CLICK", Search(response, "CLICK").value.target)
  {
    FirstKindIs(response, AgentNames(), 0);
  }

  /** Case and quote style of the reply do not matter: `click('t')` becomes `CLICK("t")`. */
  lemma ParseIgnoresCaseAndQuoteStyle(t: string)
    requires NoQuoteBetween(t, 0, |t|)
    ensures ParseAction("click('" + t + "')") == Canonical("CLICK", t)
  {
    LowerClickMatches(t);
    ParsePrefersClick("click('" + t + "')");
  }

  /** The CLICK pattern finds `click('t')` at its start and captures `t`. */
  lemma LowerClickMatches(t: string)
    requires NoQuoteBetween(t, 0, |t|)
    ensures Search("click('" + t + "')", "CLICK").Some?
    ensures Search("click('" + t + "')", "CLICK").value.target == t
  {
    var s := "click('" + t + "')";
    var q := 7 + |t|;
    assert s[..5] == "click" && s[5] == '(' && s[6] == '\'';
    assert s[7..q] == t && s[q] == '\'' && s[q + 1] == ')';
    assert NameAt(s, 0, "CLICK");
    assert NoQuoteBetween(s, 7, q);
    assert MatchSpan(s, "CLICK", 0, q);
    MatchAtFromSpan(s, "CLICK", 0, q);
  }

  /** The sentinel a failed client call produces passes through unchanged. */
  lemma ParseErrorSentinel()
    ensures ParseAction("ERROR") == "ERROR"
  {
    var names := AgentNames();
    forall m | 0 <= m < 4
      ensures Search("ERROR", names[m]).None?
    {
      NoMatchInShortText("ERROR", names[m]);
    }
    StripUnpadded("ERROR");
  }

  /* -------------------------------------------------------- the agent */

  /** What a client call gives back: the reply text, or an exception. */
  datatype LlmReply = Replied(text: string) | Raised

  /** The action a step produced and the raw reply it was parsed from. */
  datatype Turn = Turn(action: string, response: string)

  /** One element of the agent's `action_history`. */
  datatype HistoryEntry = HistoryEntry(observation: Observation, action: string, response: string)

  class AndroidAgent {
    const modelName: string
    const promptTemplate: string
    const provider: Provider
    /** The provider's chat client, reduced to prompt in, reply or exception out. */
    const client: string -> LlmReply
    const texts: PromptTexts
    var actionHistory: seq<HistoryEntry>

    constructor (modelName: string, promptTemplate: string, provider: Provider, client: string -> LlmReply)
      ensures this.modelName == modelName && this.promptTemplate == promptTemplate
      ensures this.provider == provider && this.client == client
      ensures texts == SourceTexts && actionHistory == []
    {
      this.modelName := modelName;
      this.promptTemplate := promptTemplate;
      this.provider := provider;
      this.client := client;
      texts := SourceTexts;
      actionHistory := [];
    }

    /** `AndroidAgent(model_name, prompt_template)`: pick the provider and its client, or raise `ValueError`. */
    static method Create(modelName: string, promptTemplate: string, openAiClient: string -> LlmReply, anthropicClient: string -> LlmReply)
      returns (r: Result<AndroidAgent, string>)
      ensures SelectProvider(modelName).Err? ==> r.Err? && r.error == SelectProvider(modelName).error
      ensures SelectProvider(modelName).Ok? ==> r.Ok? && fresh(r.value)
      ensures SelectProvider(modelName).Ok? ==>
        && r.value.provider == SelectProvider(modelName).value
        && r.value.client == (if r.value.provider == OpenAI then openAiClient else anthropicClient)
        && r.value.modelName == modelName && r.value.promptTemplate == promptTemplate
        && r.value.texts == SourceTexts && r.value.actionHistory == []
    {
      match SelectProvider(modelName)
      case Err(e) =>
        r := Err(e);
      case Ok(provider) =>
        var client := if provider == OpenAI then openAiClient else anthropicClient;
        var agent := new AndroidAgent(modelName, promptTemplate, provider, client);
        r := Ok(agent);
    }

    /** `_call_llm`: an exception from the client becomes the text "ERROR". */
    function CallLlm(prompt: string): (r: string)
      ensures client(prompt) == Replied(r) || (client(prompt).Raised? && r == "ERROR")
    {
      match client(prompt)
      case Replied(text) => text
      case Raised => "ERROR"
    }

    /** What `generate_action` computes: the action and raw reply, or the exception that escapes it. */
    function Reply(goal: string, observation: Observation): (r: Result<Turn, string>)
      ensures r.Ok? <==> IsTemplate(promptTemplate)
      ensures r.Ok? ==> r.value.action == ParseAction(r.value.response)
      ensures r.Err? ==> r.error == "Unknown prompt template: " + promptTemplate
    {
      match FormatPrompt(texts, promptTemplate, goal, observation)
      case Err(e) => Err(e)
      case Ok(prompt) =>
        var response := CallLlm(prompt);
        Ok(Turn(ParseAction(response), response))
    }

    /** What one call of `generate_action` gives back: the action, or the message of the exception it raises. */
    function Outcome(goal: string, observation: Observation): Result<string, string> {
      match Reply(goal, observation)
      case Ok(turn) => Ok(turn.action)
      case Err(e) => Err(e)
    }

    /** What one call of `generate_action` adds to the history: one entry when it returns, none when it raises. */
    function NewEntries(goal: string, observation: Observation): seq<HistoryEntry> {
      match Reply(goal, observation)
      case Ok(turn) => [HistoryEntry(observation, turn.action, turn.response)]
      case Err(_) => []
    }

    /** `generate_action`: ask the model, canonicalise its reply, and record the step. */
    method GenerateAction(goal: string, observation: Observation) returns (r: Result<string, string>)
      modifies this
      ensures r == Outcome(goal, observation)
      ensures actionHistory == old(actionHistory) + NewEntries(goal, observation)
    {
      var prompt := FormatPrompt(texts, promptTemplate, goal, observation);
      if prompt.Err? {
        return Err(prompt.error);
      }
      var response := CallLlm(prompt.value);
      var action := ParseAction(response);
      actionHistory := actionHistory + [HistoryEntry(observation, action, response)];
      return Ok(action);
    }

    /** `reset_history`: forget every recorded step. */
    method ResetHistory()
      modifies this
      ensures actionHistory == []
    {
      actionHistory := [];
    }
  }

  /** When the client raises, the step still yields an action: the sentinel "ERROR". */
  lemma ClientErrorGivesSentinel(agent: AndroidAgent, goal: string, observation: Observation)
    requires IsTemplate(agent.promptTemplate)
    requires agent.client(FormatPrompt(agent.texts, agent.promptTemplate, goal, observation).value).Raised?
    ensures agent.Reply(goal, observation) == Ok(Turn("ERROR", "ERROR"))
  {
    ParseErrorSentinel();
  }
}
