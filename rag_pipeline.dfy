/** The deterministic parts of the interview pipeline: the session context,
    the STAR / clarity / specificity analyser of an answer, the defensive
    decoding of the model's reply, follow-up selection, improvement
    suggestions and the weighted answer score. */
module RagPipeline {
  import opened Common
  import opened Text

  // =====================================================================
  // Interview context
  // =====================================================================

  /** One earlier exchange of the session. */
  datatype Turn = Turn(question: string, userResponse: string)

  datatype InterviewContext = InterviewContext(
    jobTitle: string,
    jobDescription: Option<string>,
    company: Option<string>,
    interviewType: string,
    sessionHistory: seq<Turn>)

  /** Construction of a context; a missing history becomes the empty one. */
  function NewInterviewContext(
    jobTitle: string, jobDescription: Option<string>, company: Option<string>,
    interviewType: string, sessionHistory: Option<seq<Turn>>): (c: InterviewContext)
    ensures sessionHistory.None? ==> c.sessionHistory == []
    ensures sessionHistory.Some? ==> c.sessionHistory == sessionHistory.value
    ensures c.jobTitle == jobTitle && c.jobDescription == jobDescription
    ensures c.company == company && c.interviewType == interviewType
  {
    InterviewContext(jobTitle, jobDescription, company, interviewType, sessionHistory.GetOr([]))
  }

  /** The defaults of the data class: no description, no company, a
      behavioural interview and no history. */
  function DefaultInterviewContext(jobTitle: string): (c: InterviewContext)
    ensures c.sessionHistory == [] && c.interviewType == "behavioral"
    ensures c.jobDescription.None? && c.company.None?
  {
    NewInterviewContext(jobTitle, None, None, "behavioral", None)
  }

  // =====================================================================
  // STAR structure
  // =====================================================================

  datatype Component = Component(name: string, keywords: seq<string>)

  const StarKeywords: seq<Component> := [
    Component("situation", ["situation", "context", "background", "when", "where"]),
    Component("task", ["task", "goal", "objective", "responsibility", "challenge"]),
    Component("action", ["action", "did", "implemented", "developed", "created"]),
    Component("result", ["result", "outcome", "impact", "achieved", "success"])
  ]

  /** Some keyword is a substring of the (lower-cased) text. */
  predicate Mentions(text: string, keywords: seq<string>)
  {
    exists k | k in keywords :: Contains(text, k)
  }

  function ComponentScore(text: string, c: Component): (r: real)
    ensures r == 1.0 <==> Mentions(text, c.keywords)
    ensures r == 0.0 <==> !Mentions(text, c.keywords)
  {
    if Mentions(text, c.keywords) then 1.0 else 0.0
  }

  predicate DistinctNames(table: seq<Component>)
  {
    forall i, j | 0 <= i < j < |table| :: table[i].name != table[j].name
  }

  /** The component scores in table order. */
  function ComponentScores(text: string, table: seq<Component>): (rs: seq<real>)
    ensures |rs| == |table|
    ensures forall i | 0 <= i < |table| :: rs[i] == ComponentScore(text, table[i])
  {
    if table == [] then []
    else ComponentScores(text, table[..|table| - 1]) + [ComponentScore(text, table[|table| - 1])]
  }

  predicate WellFormedTable(table: seq<Component>)
  {
    && table != []
    && DistinctNames(table)
    && forall i | 0 <= i < |table| :: table[i].name != "overall"
  }

  /** The scoring loop: one entry per component, 1.0 iff one of its keywords
      occurs in `text`. */
  method ScoreComponents(text: string, table: seq<Component>) returns (scores: map<string, real>)
    requires DistinctNames(table)
    ensures scores.Keys == set i | 0 <= i < |table| :: table[i].name
    ensures forall i | 0 <= i < |table| :: scores[table[i].name] == ComponentScore(text, table[i])
  {
    scores := map[];
    for i := 0 to |table|
      invariant scores.Keys == set k | 0 <= k < i :: table[k].name
      invariant forall k | 0 <= k < i :: scores[table[k].name] == ComponentScore(text, table[k])
    {
      var found := Mentions(text, table[i].keywords);
      scores := scores[table[i].name := if found then 1.0 else 0.0];
    }
  }

  /** The component scores followed by their mean under "overall". */
  method ScoreStructure(text: string, table: seq<Component>) returns (scores: map<string, real>)
    requires WellFormedTable(table)
    ensures scores.Keys == (set i | 0 <= i < |table| :: table[i].name) + {"overall"}
    ensures forall i | 0 <= i < |table| :: scores[table[i].name] == ComponentScore(text, table[i])
    ensures scores["overall"] == SumReal(ComponentScores(text, table)) / |table| as real
  {
    scores := ScoreComponents(text, table);
    var total := SumScores(scores, table, ComponentScores(text, table));
    OverallKeepsComponents(scores, table, total / |table| as real);
    scores := scores["overall" := total / |table| as real];
  }

  /** The sum of the table's entries in `scores`, in table order. */
  method SumScores(scores: map<string, real>, table: seq<Component>, ghost rs: seq<real>) returns (total: real)
    requires |rs| == |table|
    requires forall i | 0 <= i < |table| :: table[i].name in scores && scores[table[i].name] == rs[i]
    ensures total == SumReal(rs)
  {
    total := 0.0;
    for i := 0 to |table|
      invariant total == SumReal(rs[..i])
    {
      SumRealPrefix(rs, i);
      total := total + scores[table[i].name];
    }
    assert rs[..|table|] == rs;
  }

  /** Adding "overall" leaves every component's entry as it was. */
  lemma OverallKeepsComponents(parts: map<string, real>, table: seq<Component>, v: real)
    requires forall i | 0 <= i < |table| :: table[i].name != "overall" && table[i].name in parts
    ensures forall i | 0 <= i < |table| :: parts["overall" := v][table[i].name] == parts[table[i].name]
  {
  }

  /** The four STAR components with their distinct names. */
  lemma StarTable()
    ensures WellFormedTable(StarKeywords) && |StarKeywords| == 4
    ensures (set i | 0 <= i < |StarKeywords| :: StarKeywords[i].name) == {"situation", "task", "action", "result"}
  {
    var t := StarKeywords;
    assert t[0].name == "situation" && t[1].name == "task";
    assert t[2].name == "action" && t[3].name == "result";
    assert forall i | 0 <= i < 4 :: t[i].name in {"situation", "task", "action", "result"};
  }

  /** The mean of four scores each 0 or 1 is a multiple of a quarter. */
  lemma QuarterSteps(rs: seq<real>)
    requires |rs| == 4 && forall i | 0 <= i < 4 :: rs[i] == 0.0 || rs[i] == 1.0
    ensures SumReal(rs) / 4.0 in {0.0, 0.25, 0.5, 0.75, 1.0}
  {
    var r1, r2, r3 := rs[..1], rs[..2], rs[..3];
    assert r1[..0] == [] && r2[..1] == r1 && r3[..2] == r2 && rs[..3] == r3;
    assert SumReal(r1) == rs[0];
    assert SumReal(r2) == rs[0] + rs[1];
    assert SumReal(r3) == rs[0] + rs[1] + rs[2];
  }

  /** The STAR analysis: the four component scores and their mean under "overall". */
  method AnalyzeStructure(response: string) returns (scores: map<string, real>)
    ensures scores.Keys == {"situation", "task", "action", "result", "overall"}
    ensures forall i | 0 <= i < |StarKeywords| :: scores[StarKeywords[i].name] == ComponentScore(Lower(response), StarKeywords[i])
    ensures scores["overall"] == SumReal(ComponentScores(Lower(response), StarKeywords)) / 4.0
    ensures scores["overall"] in {0.0, 0.25, 0.5, 0.75, 1.0}
  {
    StarTable();
    scores := ScoreStructure(Lower(response), StarKeywords);
    QuarterSteps(ComponentScores(Lower(response), StarKeywords));
  }

  // =====================================================================
  // Clarity
  // =====================================================================

  /** Word counts of the sentences that are not blank. */
  function SentenceWordCounts(sentences: seq<string>): (ns: seq<int>)
    ensures forall i | 0 <= i < |ns| :: ns[i] >= 1
  {
    if sentences == [] then []
    else
      var s := sentences[|sentences| - 1];
      SentenceWordCounts(sentences[..|sentences| - 1]) + (if Strip(s) != "" then [|Words(s)|] else [])
  }

  /** np.mean: None (NaN) for no values. */
  function Mean(xs: seq<int>): Option<real>
  {
    if xs == [] then None else Some(SumInt(xs) as real / |xs| as real)
  }

  function ClarityBand(avg: Option<real>): (r: real)
    ensures r in {1.0, 0.8, 0.6}
    ensures r == 1.0 <==> avg.Some? && 15.0 <= avg.value <= 20.0
    ensures r == 0.8 <==> avg.Some? && 10.0 <= avg.value <= 25.0 && !(15.0 <= avg.value <= 20.0)
  {
    match avg
    case None => 0.6
    case Some(m) => if 15.0 <= m <= 20.0 then 1.0 else if 10.0 <= m <= 25.0 then 0.8 else 0.6
  }

  /** Clarity from the mean sentence length of the '.'-separated sentences. */
  function AnalyzeClarity(response: string): (r: real)
    ensures r in {1.0, 0.8, 0.6}
    ensures SentenceWordCounts(SplitOn(response, '.')) == [] ==> r == 0.6
  {
    ClarityBand(Mean(SentenceWordCounts(SplitOn(response, '.'))))
  }

  lemma {:induction false} SplitOnWithoutSeparator(s: string, sep: char)
    requires sep !in s
    ensures SplitOn(s, sep) == [s]
  {
    if s != [] {
      assert forall x | x in s[1..] :: x in s;
      SplitOnWithoutSeparator(s[1..], sep);
      assert [s[0]] + s[1..] == s;
    }
  }

  /** A single non-blank sentence is judged by its own word count. */
  lemma ClarityOfOneSentence(response: string)
    requires '.' !in response && Strip(response) != ""
    ensures AnalyzeClarity(response) == ClarityBand(Some(|Words(response)| as real))
  {
    SplitOnWithoutSeparator(response, '.');
    var xs := [response];
    assert xs[..0] == [] && xs[0] == response;
    var ns := SentenceWordCounts(xs);
    assert ns == SentenceWordCounts([]) + [|Words(response)|];
    assert SumInt(ns) == |Words(response)| by {
      assert ns[..0] == [];
    }
  }

  // =====================================================================
  // Specificity
  // =====================================================================

  /** The six indicator patterns, matched case-insensitively. */
  datatype Indicator = Percentage | DollarAmount | TimePeriod | ImpactWord | TeamSize | WorkExample

  const Indicators: seq<Indicator> := [Percentage, DollarAmount, TimePeriod, ImpactWord, TeamSize, WorkExample]

  /** The number of patterns that `found` reports in the response. */
  function CountFound(patterns: seq<Indicator>, response: string, found: (Indicator, string) -> bool): (n: nat)
    ensures n <= |patterns|
  {
    if patterns == [] then 0
    else CountFound(patterns[..|patterns| - 1], response, found)
         + (if found(patterns[|patterns| - 1], response) then 1 else 0)
  }

  /** min(k/3, 1) for k indicators found. */
  function AnalyzeSpecificity(response: string, found: (Indicator, string) -> bool): (r: real)
    ensures 0.0 <= r <= 1.0
    ensures CountFound(Indicators, response, found) >= 3 ==> r == 1.0
    ensures CountFound(Indicators, response, found) < 3 ==> 3.0 * r == CountFound(Indicators, response, found) as real
  {
    Min(CountFound(Indicators, response, found) as real / 3.0, 1.0)
  }

  /** Finding more indicators never lowers specificity. */
  lemma {:induction false} CountFoundMonotone(patterns: seq<Indicator>, response: string,
                                              f: (Indicator, string) -> bool, g: (Indicator, string) -> bool)
    requires forall p | p in patterns :: f(p, response) ==> g(p, response)
    ensures CountFound(patterns, response, f) <= CountFound(patterns, response, g)
  {
    if patterns != [] {
      var init := patterns[..|patterns| - 1];
      assert forall p | p in init :: p in patterns;
      CountFoundMonotone(init, response, f, g);
    }
  }

  lemma SpecificityMonotone(response: string, f: (Indicator, string) -> bool, g: (Indicator, string) -> bool)
    requires forall p | p in Indicators :: f(p, response) ==> g(p, response)
    ensures AnalyzeSpecificity(response, f) <= AnalyzeSpecificity(response, g)
  {
    CountFoundMonotone(Indicators, response, f, g);
  }

  // =====================================================================
  // Decoding the model's reply
  // =====================================================================

  /** Decoded JSON, as `json.loads` produces it. */
  datatype Json =
    | JNull
    | JBool(b: bool)
    | JNum(n: real)
    | JStr(s: string)
    | JArr(items: seq<Json>)
    | JObj(fields: map<string, Json>)

  /** Python truthiness of a decoded value. */
  predicate Truthy(j: Json)
  {
    match j
    case JNull => false
    case JBool(b) => b
    case JNum(n) => n != 0.0
    case JStr(s) => s != ""
    case JArr(items) => items != []
    case JObj(fields) => fields != map[]
  }

  /** Removal of a ```json fence: applies only when the trimmed text starts
      with the fence, and then drops a trailing ``` too. */
  function StripJsonFence(output: string): string
  {
    var t := Strip(output);
    if StartsWith(t, "```json") then
      var u := t[7..];
      if EndsWith(u, "```") then Strip(u[..|u| - 3]) else u
    else output
  }

  /** A fenced JSON block comes back as its trimmed content. */
  lemma StripJsonFenceRoundTrip(j: string)
    ensures StripJsonFence("```json" + j + "```") == Strip(j)
  {
    var w := "```json" + j + "```";
    StripNoOp(w);
    assert w[..7] == "```json";
    assert w[7..] == j + "```";
    assert (j + "```")[..|j|] == j;
  }

  /** Output that does not start with the fence after trimming is untouched. */
  lemma StripJsonFenceUnfenced(output: string)
    requires !StartsWith(Strip(output), "```json")
    ensures StripJsonFence(output) == output
  {
  }

  const NoQuestion: string := "AI未返回问题。"

  /** The normalised turn reply: feedback always a dictionary, the
      suggestions always a list, the score never set. */
  datatype TurnReply = TurnReply(question: Json, feedback: map<string, Json>, improvements: seq<Json>, score: Option<real>)

  /** What the pipeline builds from the (fence-stripped) text and its decoding;
      `toStr` is Python's `str()` of a decoded value. */
  function Interpret(text: string, parsed: Option<Json>, toStr: Json -> string): (r: TurnReply)
    ensures r.score.None?
    ensures !(parsed.Some? && parsed.value.JObj?) ==> r == TurnReply(JStr(text), map[], [], None)
    ensures parsed.Some? && parsed.value.JObj? ==>
      var m := parsed.value.fields;
      && (r.question == if "question" in m && Truthy(m["question"]) then m["question"] else JStr(NoQuestion))
      && (!("feedback" in m && Truthy(m["feedback"])) ==> r.feedback == map[])
      && ("feedback" in m && m["feedback"].JObj? ==> r.feedback == m["feedback"].fields)
      && ("feedback" in m && Truthy(m["feedback"]) && !m["feedback"].JObj? ==> r.feedback == map["general" := JStr(toStr(m["feedback"]))])
      && (!("improvements" in m && Truthy(m["improvements"])) ==> r.improvements == [])
      && ("improvements" in m && m["improvements"].JArr? ==> r.improvements == m["improvements"].items)
      && ("improvements" in m && Truthy(m["improvements"]) && !m["improvements"].JArr? ==> r.improvements == [JStr(toStr(m["improvements"]))])
  {
    match parsed
    case Some(JObj(m)) =>
      var question := if "question" in m && Truthy(m["question"]) then m["question"] else JStr(NoQuestion);
      var feedback := if "feedback" in m && Truthy(m["feedback"]) then m["feedback"] else JObj(map[]);
      var improvements := if "improvements" in m && Truthy(m["improvements"]) then m["improvements"] else JArr([]);
      TurnReply(
        question,
        if feedback.JObj? then feedback.fields else map["general" := JStr(toStr(feedback))],
        if improvements.JArr? then improvements.items else [JStr(toStr(improvements))],
        None)
    case _ => TurnReply(JStr(text), map[], [], None)
  }

  /** Decoding of the model reply. A missing reply is rendered as Python's
      `str(None)`; the fence is removed, the text decoded with `parse`, and a
      failed decoding (or a non-object) falls back to the text itself. */
  function ParseModelOutput(output: Option<string>, parse: string -> Option<Json>, toStr: Json -> string): (r: TurnReply)
    ensures r.score.None?
  {
    var text := StripJsonFence(output.GetOr("None"));
    Interpret(text, parse(text), toStr)
  }

  /** A fenced reply is decoded from its trimmed content. */
  lemma FencedReplyDecodesContent(j: string, parse: string -> Option<Json>, toStr: Json -> string)
    ensures ParseModelOutput(Some("```json" + j + "```"), parse, toStr) == Interpret(Strip(j), parse(Strip(j)), toStr)
  {
    StripJsonFenceRoundTrip(j);
  }

  // =====================================================================
  // Follow-up questions
  // =====================================================================

  datatype JobContext = JobContext(keySkills: seq<string>, commonScenarios: seq<string>, followUpQuestions: seq<string>)

  const TeamQuestion: string := "That's interesting. Can you tell me more about how you collaborated with your team members?"
  const ChallengeQuestion: string := "What specific steps did you take to overcome that challenge?"
  const MetricQuestion: string := "Those are impressive results. How did you measure and track that impact?"
  const ClosingQuestion: string := "Thank you for sharing that. Is there anything else you'd like to add about that experience?"

  function ScenarioQuestion(scenario: string): string
  {
    "Let's move on. Tell me about a time when you were " + scenario + "."
  }

  predicate MentionsMetric(input: string)
  {
    exists m | m in ["increased", "decreased", "improved"] :: Contains(Lower(input), m)
  }

  /** The answer mentions the team and the history never mentioned collaboration. */
  predicate AsksTeam(userInput: string, historyText: string)
  {
    Contains(Lower(userInput), "team") && !Contains(historyText, "collaboration")
  }

  /** The answer mentions a challenge without saying how it was overcome. */
  predicate AsksChallenge(userInput: string)
  {
    Contains(Lower(userInput), "challenge") && !Contains(Lower(userInput), "overcome")
  }

  /** The follow-up rule; `historyText` is Python's `str()` of the history. */
  function GenerateFollowUp(userInput: string, history: seq<Turn>, job: JobContext, historyText: string): (q: string)
    ensures |history| < 3 && job.followUpQuestions != [] ==>
              q == job.followUpQuestions[|history| % |job.followUpQuestions|]
    ensures (|history| >= 3 || job.followUpQuestions == [])
            && AsksTeam(userInput, historyText)
            ==> q == TeamQuestion
    ensures (|history| >= 3 || job.followUpQuestions == [])
            && !AsksTeam(userInput, historyText) && AsksChallenge(userInput)
            ==> q == ChallengeQuestion
    ensures (|history| >= 3 || job.followUpQuestions == [])
            && !AsksTeam(userInput, historyText) && !AsksChallenge(userInput) && MentionsMetric(userInput)
            ==> q == MetricQuestion
    ensures (|history| >= 3 || job.followUpQuestions == [])
            && !AsksTeam(userInput, historyText) && !AsksChallenge(userInput) && !MentionsMetric(userInput)
            && |history| < |job.commonScenarios|
            ==> q == ScenarioQuestion(job.commonScenarios[|history| % |job.commonScenarios|])
    ensures (|history| >= 3 || job.followUpQuestions == [])
            && !AsksTeam(userInput, historyText) && !AsksChallenge(userInput) && !MentionsMetric(userInput)
            && |history| >= |job.commonScenarios|
            ==> q == ClosingQuestion
  {
    var asked := |history|;
    if asked < 3 && job.followUpQuestions != [] then
      job.followUpQuestions[asked % |job.followUpQuestions|]
    else if AsksTeam(userInput, historyText) then TeamQuestion
    else if AsksChallenge(userInput) then ChallengeQuestion
    else if MentionsMetric(userInput) then MetricQuestion
    else if job.commonScenarios != [] && asked < |job.commonScenarios| then
      ScenarioQuestion(job.commonScenarios[asked % |job.commonScenarios|])
    else ClosingQuestion
  }

  /** Every follow-up is a configured question, one of the four fixed
      prompts, or the prompt built from a configured scenario. */
  lemma FollowUpIsKnownQuestion(userInput: string, history: seq<Turn>, job: JobContext, historyText: string)
    ensures var q := GenerateFollowUp(userInput, history, job, historyText);
      || q in job.followUpQuestions
      || q in [TeamQuestion, ChallengeQuestion, MetricQuestion, ClosingQuestion]
      || exists s | s in job.commonScenarios :: q == ScenarioQuestion(s)
  {
    var asked := |history|;
    if asked < 3 && job.followUpQuestions != [] {
      assert job.followUpQuestions[asked % |job.followUpQuestions|] in job.followUpQuestions;
    } else if job.commonScenarios != [] && asked < |job.commonScenarios| {
      var s := job.commonScenarios[asked % |job.commonScenarios|];
      assert s in job.commonScenarios;
    }
  }

  // =====================================================================
  // Improvement suggestions and score
  // =====================================================================

  const MetricsSuggestion: string := "Add specific metrics, numbers, or concrete examples"
  const ToolsSuggestion: string := "Mention the tools or technologies you used"
  const ShorterSuggestion: string := "Use shorter, more focused sentences"
  const JargonSuggestion: string := "Avoid jargon unless necessary"
  const LearnedSuggestion: string := "Consider adding what you learned from this experience"
  const PreparesSuggestion: string := "Mention how this experience prepares you for the target role"

  /** Names of the components scored below 0.5, in order. */
  function WeakComponents(components: seq<(string, real)>): (ws: seq<string>)
    ensures |ws| <= |components|
  {
    if components == [] then []
    else
      var c := components[|components| - 1];
      WeakComponents(components[..|components| - 1]) + (if c.1 < 0.5 then [c.0] else [])
  }

  /** The weak components of the report's optional "components" entry. */
  function WeakOf(components: Option<seq<(string, real)>>): seq<string>
  {
    match components
    case None => []
    case Some(cs) => WeakComponents(cs)
  }

  function MissingSuggestion(missing: seq<string>): string
  {
    "Include more details about the " + Join(missing, ", ")
  }

  predicate AnySuggestionTriggered(components: Option<seq<(string, real)>>, clarity: real, specificity: real)
  {
    WeakOf(components) != [] || specificity < 0.5 || clarity < 0.7
  }

  /** Every triggered suggestion, in order: the missing-components line, the
      two specificity lines, the two clarity lines. */
  function Suggestions(components: Option<seq<(string, real)>>, clarity: real, specificity: real): (s: seq<string>)
    ensures s == [] <==> !AnySuggestionTriggered(components, clarity, specificity)
    ensures |s| <= 5
  {
    (if WeakOf(components) != [] then [MissingSuggestion(WeakOf(components))] else [])
    + (if specificity < 0.5 then [MetricsSuggestion, ToolsSuggestion] else [])
    + (if clarity < 0.7 then [ShorterSuggestion, JargonSuggestion] else [])
  }

  /** The suggestion list: a missing-components line, two specificity lines,
      two clarity lines, or the two defaults, cut to three. `components` is
      the optional "components" entry of the structure report. */
  method GetImprovements(components: Option<seq<(string, real)>>, clarity: real, specificity: real)
    returns (improvements: seq<string>)
    ensures var cands := Suggestions(components, clarity, specificity);
      improvements == if cands == [] then [LearnedSuggestion, PreparesSuggestion]
                      else cands[..if |cands| < 3 then |cands| else 3]
    ensures 1 <= |improvements| <= 3
    ensures !AnySuggestionTriggered(components, clarity, specificity) ==> improvements == [LearnedSuggestion, PreparesSuggestion]
    ensures AnySuggestionTriggered(components, clarity, specificity)
            ==> improvements[0] in [MissingSuggestion(WeakOf(components)), MetricsSuggestion, ShorterSuggestion]
    ensures WeakOf(components) != [] ==> improvements[0] == MissingSuggestion(WeakOf(components))
    ensures WeakOf(components) == [] && specificity < 0.5
            ==> |improvements| >= 2 && improvements[..2] == [MetricsSuggestion, ToolsSuggestion]
    ensures WeakOf(components) == [] && specificity >= 0.5 && clarity < 0.7
            ==> improvements == [ShorterSuggestion, JargonSuggestion]
  {
    var all: seq<string> := [];
    var missing := WeakOf(components);
    if missing != [] {
      all := all + [MissingSuggestion(missing)];
    }
    if specificity < 0.5 {
      all := all + [MetricsSuggestion];
      all := all + [ToolsSuggestion];
    }
    if clarity < 0.7 {
      all := all + [ShorterSuggestion];
      all := all + [JargonSuggestion];
    }
    if all == [] {
      all := all + [LearnedSuggestion];
      all := all + [PreparesSuggestion];
    }
    improvements := all[..if |all| < 3 then |all| else 3];
  }

  /** The weighted answer score (before rounding). */
  function CalculateScore(structure: real, clarity: real, specificity: real): (r: real)
    ensures 0.0 <= structure <= 1.0 && 0.0 <= clarity <= 1.0 && 0.0 <= specificity <= 1.0 ==> 0.0 <= r <= 1.0
  {
    0.4 * structure + 0.3 * clarity + 0.3 * specificity
  }

  /** The weights sum to one and all are positive. */
  lemma ScoreWeights(x: real, s1: real, s2: real, c1: real, c2: real, p1: real, p2: real)
    requires s1 <= s2 && c1 <= c2 && p1 <= p2
    ensures CalculateScore(x, x, x) == x
    ensures CalculateScore(s1, c1, p1) <= CalculateScore(s2, c2, p2)
  {
  }

  /** Scoring the analyser's own outputs gives at least 0.18 (clarity never
      drops below 0.6) and at most 1. */
  lemma ScoreOfAnalysisBounds(structure: real, response: string, found: (Indicator, string) -> bool)
    requires 0.0 <= structure <= 1.0
    ensures 0.18 <= CalculateScore(structure, AnalyzeClarity(response), AnalyzeSpecificity(response, found)) <= 1.0
  {
    var c := AnalyzeClarity(response);
    assert 0.6 <= c <= 1.0;
  }
}
