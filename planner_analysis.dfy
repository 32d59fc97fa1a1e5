/** The skill-gap analysis engine of the planner service: the static skill
    taxonomy and similarity tables, the label-similarity function, the
    taxonomy fallback extractor, the gap classifier, the experience and
    aggregate scores, improvement priorities, learning paths, the timeline
    with its milestones, the confidence heuristic and the rule-based
    fallback recommendations. */
module PlannerAnalysis {
  import opened Common
  import opened Text

  // =====================================================================
  // Static tables
  // =====================================================================

  datatype Category = Category(name: string, skills: seq<string>)

  /** The skill taxonomy, in the order the service declares it. */
  const SkillCategories: seq<Category> := [
    Category("programming", ["Python", "Java", "JavaScript", "C++", "Go", "Rust", "TypeScript"]),
    Category("frontend", ["React", "Vue", "Angular", "HTML", "CSS", "JavaScript", "TypeScript"]),
    Category("backend", ["Node.js", "Django", "Flask", "Spring", "Express", "FastAPI"]),
    Category("database", ["MySQL", "PostgreSQL", "MongoDB", "Redis", "Elasticsearch"]),
    Category("cloud", ["AWS", "Azure", "GCP", "Docker", "Kubernetes", "Terraform"]),
    Category("mobile", ["React Native", "Flutter", "iOS", "Android", "Swift", "Kotlin"]),
    Category("ai_ml", ["TensorFlow", "PyTorch", "Scikit-learn", "Pandas", "NumPy"]),
    Category("devops", ["Jenkins", "GitLab CI", "GitHub Actions", "Ansible", "Docker"]),
    Category("soft_skills", ["项目管理", "团队协作", "沟通能力", "领导力", "问题解决"])
  ]

  /** Curated "similar skill" lists, keyed case-sensitively. */
  const SkillSimilarityMap: map<string, seq<string>> := map[
    "React" := ["Vue", "Angular", "JavaScript"],
    "Vue" := ["React", "Angular", "JavaScript"],
    "Angular" := ["React", "Vue", "JavaScript"],
    "JavaScript" := ["TypeScript", "React", "Vue"],
    "TypeScript" := ["JavaScript", "React", "Vue"],
    "Python" := ["Java", "C++", "Go"],
    "Java" := ["Python", "C++", "Go"],
    "C++" := ["Python", "Java", "Go"],
    "MySQL" := ["PostgreSQL", "MongoDB", "Redis"],
    "PostgreSQL" := ["MySQL", "MongoDB", "Redis"],
    "MongoDB" := ["MySQL", "PostgreSQL", "Redis"],
    "AWS" := ["Azure", "GCP", "Docker"],
    "Azure" := ["AWS", "GCP", "Docker"],
    "GCP" := ["AWS", "Azure", "Docker"],
    "Docker" := ["Kubernetes", "AWS", "Azure"],
    "Kubernetes" := ["Docker", "AWS", "Azure"],
    "项目管理" := ["团队协作", "沟通能力", "领导力"],
    "团队协作" := ["项目管理", "沟通能力", "领导力"],
    "沟通能力" := ["项目管理", "团队协作", "领导力"]
  ]

  datatype SynonymEntry = SynonymEntry(key: string, synonyms: seq<string>)

  /** The synonym table consulted by the similarity function. */
  const Synonyms: seq<SynonymEntry> := [
    SynonymEntry("机器学习", ["machine learning", "ml", "ai", "artificial intelligence"]),
    SynonymEntry("machine learning", ["机器学习", "ml", "ai", "artificial intelligence"]),
    SynonymEntry("python", ["python", "py"]),
    SynonymEntry("java", ["java", "jvm"]),
    SynonymEntry("scala", ["scala", "sc"]),
    SynonymEntry("sql", ["sql", "database", "mysql", "postgresql"]),
    SynonymEntry("spark", ["apache spark", "spark", "spark streaming"]),
    SynonymEntry("kafka", ["apache kafka", "kafka"]),
    SynonymEntry("tensorflow", ["tensorflow", "tf"]),
    SynonymEntry("pytorch", ["pytorch", "torch"]),
    SynonymEntry("scikit-learn", ["scikit-learn", "sklearn", "scikit learn"]),
    SynonymEntry("docker", ["docker", "container"]),
    SynonymEntry("kubernetes", ["kubernetes", "k8s"]),
    SynonymEntry("aws", ["aws", "amazon web services", "amazon"]),
    SynonymEntry("distributed systems", ["分布式系统", "distributed", "microservices"]),
    SynonymEntry("分布式系统", ["distributed systems", "distributed", "microservices"]),
    SynonymEntry("大数据处理", ["big data", "data processing", "etl", "batch processing"]),
    SynonymEntry("big data", ["大数据处理", "data processing", "etl", "batch processing"]),
    SynonymEntry("a/b testing", ["ab testing", "ab test", "experiment", "实验"]),
    SynonymEntry("实验", ["a/b testing", "ab testing", "experiment"]),
    SynonymEntry("编程规范", ["coding standards", "code standards", "best practices"]),
    SynonymEntry("coding standards", ["编程规范", "code standards", "best practices"]),
    SynonymEntry("设计模式", ["design patterns", "patterns"]),
    SynonymEntry("design patterns", ["设计模式", "patterns"]),
    SynonymEntry("统计方法", ["statistics", "statistical methods", "statistical analysis"]),
    SynonymEntry("statistics", ["统计方法", "statistical methods", "statistical analysis"])
  ]

  /** Hand-authored domain aliases, keyed by the required skill's original-case name. */
  const SkillMappings: map<string, seq<string>> := map[
    "机器学习算法" := ["tensorflow", "pytorch", "scikit-learn", "mlflow", "machine learning", "ml", "ai", "深度学习", "神经网络", "machine learning"],
    "统计方法" := ["statistics", "statistical", "data analysis", "analytics", "统计", "数据分析", "statistics"],
    "分布式系统" := ["distributed", "microservices", "docker", "kubernetes", "k8s", "scaling", "分布式", "微服务", "distributed systems"],
    "大数据处理" := ["spark", "kafka", "hadoop", "big data", "etl", "data processing", "大数据", "数据处理", "data pipelines"],
    "a/b测试" := ["ab testing", "experiment", "testing", "实验", "a/b test", "a/b testing"],
    "实验设计" := ["experiment", "testing", "ab testing", "实验", "实验设计"],
    "编程规范" := ["coding standards", "code review", "tdd", "best practices", "design patterns", "编程规范", "代码规范"],
    "设计模式" := ["design patterns", "patterns", "architecture", "coding standards", "设计模式", "架构模式"],
    "software development" := ["python", "java", "scala", "programming", "coding", "软件开发", "编程", "software development"],
    "machine learning" := ["tensorflow", "pytorch", "scikit-learn", "ml", "ai", "机器学习", "深度学习", "machine learning"],
    "data pipelines" := ["spark", "kafka", "hadoop", "etl", "data processing", "数据管道", "数据处理", "data pipelines"],
    "distributed systems" := ["docker", "kubernetes", "microservices", "分布式", "微服务", "distributed systems"],
    "coding standards" := ["code review", "tdd", "best practices", "编程规范", "代码规范"],
    "design patterns" := ["patterns", "architecture", "设计模式", "架构模式"],
    "a/b testing" := ["experiment", "testing", "实验", "ab test", "a/b testing"],
    "statistics" := ["statistical", "data analysis", "analytics", "统计", "数据分析", "statistics"],
    "information retrieval" := ["search", "elasticsearch", "solr", "信息检索", "搜索", "information retrieval"],
    "natural language processing" := ["nlp", "text processing", "language model", "自然语言处理", "文本处理"],
    "system design" := ["architecture", "design", "系统设计", "架构设计", "system design"],
    "programming languages" := ["python", "java", "scala", "programming", "编程语言", "programming languages"]
  ]

  // =====================================================================
  // Label similarity
  // =====================================================================

  /** A synonym entry's key followed by its synonyms, all lower-cased. */
  function Cluster(e: SynonymEntry): seq<string>
  {
    [Lower(e.key)] + seq(|e.synonyms|, i requires 0 <= i < |e.synonyms| => Lower(e.synonyms[i]))
  }

  predicate InSimilarityList(a: string, b: string)
  {
    a in SkillSimilarityMap && b in SkillSimilarityMap[a]
  }

  predicate SameSynonymCluster(la: string, lb: string)
  {
    exists e | e in Synonyms :: la in Cluster(e) && lb in Cluster(e)
  }

  predicate SameCategory(a: string, b: string)
  {
    exists c | c in SkillCategories :: a in c.skills && b in c.skills
  }

  predicate ShareKeyword(la: string, lb: string)
  {
    exists w | w in Words(la) :: w in Words(lb)
  }

  /** The fixed-priority similarity of two skill labels; the first rule that
      applies decides the value. */
  function Similarity(text1: string, text2: string): (r: real)
    ensures r == 1.0 <==> Lower(text1) == Lower(text2)
    ensures r in {1.0, 0.9, 0.85, 0.8, 0.6, 0.4, 0.1}
  {
    var l1, l2 := Lower(text1), Lower(text2);
    if l1 == l2 then 1.0
    else if InSimilarityList(text1, text2) || InSimilarityList(text2, text1) then 0.9
    else if Contains(l2, l1) || Contains(l1, l2) then 0.8
    else if SameSynonymCluster(l1, l2) then 0.85
    else if SameCategory(text1, text2) then 0.6
    else if ShareKeyword(l1, l2) then 0.4
    else 0.1
  }

  lemma SimilarityReflexive(a: string)
    ensures Similarity(a, a) == 1.0
  {
  }

  /** Every rule is symmetric in its two labels, so the whole function is. */
  lemma SimilaritySymmetric(a: string, b: string)
    ensures Similarity(a, b) == Similarity(b, a)
  {
    SymmetricRules(a, b);
    SymmetricRules(b, a);
    var la, lb := Lower(a), Lower(b);
    assert (la == lb) == (lb == la);
    assert (InSimilarityList(a, b) || InSimilarityList(b, a)) == (InSimilarityList(b, a) || InSimilarityList(a, b));
    assert (Contains(lb, la) || Contains(la, lb)) == (Contains(la, lb) || Contains(lb, la));
  }

  lemma SymmetricRules(a: string, b: string)
    ensures SameSynonymCluster(Lower(a), Lower(b)) ==> SameSynonymCluster(Lower(b), Lower(a))
    ensures SameCategory(a, b) ==> SameCategory(b, a)
    ensures ShareKeyword(Lower(a), Lower(b)) ==> ShareKeyword(Lower(b), Lower(a))
  {
  }

  // =====================================================================
  // Data model of the analysis
  // =====================================================================

  /** A required skill as the extractor delivers it; `category` may be absent. */
  datatype RequiredSkill = RequiredSkill(skill: string, importance: string, category: Option<string>)

  datatype ExperienceRequirement = ExperienceRequirement(kind: string, years: Option<int>, description: string)

  datatype JdAnalysis = JdAnalysis(
    required: seq<RequiredSkill>,
    preferred: seq<RequiredSkill>,
    experience: seq<ExperienceRequirement>)

  datatype Priority = High | Medium | Low

  /** A gap is partial (with the best similar held skill, if one was
      recorded) or missing. */
  datatype GapStatus = Partial(similarSkill: Option<string>, similarity: real) | Missing

  datatype Strength = Strength(skill: string, importance: string, category: string)

  datatype Gap = Gap(skill: string, importance: string, category: string, status: GapStatus, priority: Priority)

  datatype SkillAnalysis = SkillAnalysis(
    gaps: seq<Gap>,
    strengths: seq<Strength>,
    missingSkills: seq<string>,
    gapCount: nat,
    strengthCount: nat)

  function CategoryOf(j: RequiredSkill): string
  {
    j.category.GetOr("unknown")
  }

  function StrengthOf(j: RequiredSkill): (s: Strength)
    ensures s.skill == j.skill
  {
    Strength(j.skill, j.importance, CategoryOf(j))
  }

  // =====================================================================
  // Fallback extraction: taxonomy labels occurring in the description
  // =====================================================================

  /** Hits of one category's labels in the lower-cased description, in order. */
  function CategoryHits(category: string, skills: seq<string>, text: string): seq<RequiredSkill>
  {
    if skills == [] then []
    else
      var s := skills[|skills| - 1];
      CategoryHits(category, skills[..|skills| - 1], text)
      + (if Contains(text, Lower(s)) then [RequiredSkill(s, "medium", Some(category))] else [])
  }

  function HitsIn(cats: seq<Category>, text: string): seq<RequiredSkill>
  {
    if cats == [] then []
    else
      var c := cats[|cats| - 1];
      HitsIn(cats[..|cats| - 1], text) + CategoryHits(c.name, c.skills, text)
  }

  /** All taxonomy hits of a job description, in taxonomy scan order. */
  function TaxonomyHits(jobDescription: string): seq<RequiredSkill>
  {
    HitsIn(SkillCategories, Lower(jobDescription))
  }

  lemma {:induction false} CategoryHitsMembers(category: string, skills: seq<string>, text: string, h: RequiredSkill)
    ensures h in CategoryHits(category, skills, text)
        <==> exists s | s in skills :: Contains(text, Lower(s)) && h == RequiredSkill(s, "medium", Some(category))
  {
    if skills != [] {
      var init := skills[..|skills| - 1];
      CategoryHitsMembers(category, init, text, h);
      assert forall s | s in init :: s in skills;
      assert forall s | s in skills :: s in init || s == skills[|skills| - 1];
    }
  }

  lemma {:induction false} HitsInMembers(cats: seq<Category>, text: string, h: RequiredSkill)
    ensures h in HitsIn(cats, text)
        <==> exists c, s | c in cats && s in c.skills
               :: Contains(text, Lower(s)) && h == RequiredSkill(s, "medium", Some(c.name))
  {
    if cats != [] {
      var init, last := cats[..|cats| - 1], cats[|cats| - 1];
      HitsInMembers(init, text, h);
      CategoryHitsMembers(last.name, last.skills, text, h);
      assert forall c | c in init :: c in cats;
      assert forall c | c in cats :: c in init || c == last;
    }
  }

  lemma {:induction false} HitsInMedium(cats: seq<Category>, text: string)
    ensures forall h | h in HitsIn(cats, text) :: h.importance == "medium"
  {
    forall h | h in HitsIn(cats, text)
      ensures h.importance == "medium"
    {
      HitsInMembers(cats, text, h);
    }
  }

  /** The fallback emits exactly the taxonomy labels found case-insensitively
      in the text, each with importance "medium" and its category. */
  lemma TaxonomyHitsExactly(jobDescription: string, h: RequiredSkill)
    ensures h in TaxonomyHits(jobDescription)
        <==> exists c, s | c in SkillCategories && s in c.skills
               :: Contains(Lower(jobDescription), Lower(s)) && h == RequiredSkill(s, "medium", Some(c.name))
  {
    HitsInMembers(SkillCategories, Lower(jobDescription), h);
  }

  /** A label listed under two categories (Docker, JavaScript, TypeScript)
      is emitted once per category. */
  lemma EmittedOncePerCategory(cats: seq<Category>, text: string, s: string, c1: Category, c2: Category)
    requires c1 in cats && c2 in cats
    requires s in c1.skills && s in c2.skills
    requires Contains(text, Lower(s))
    ensures RequiredSkill(s, "medium", Some(c1.name)) in HitsIn(cats, text)
    ensures RequiredSkill(s, "medium", Some(c2.name)) in HitsIn(cats, text)
  {
    var h1, h2 := RequiredSkill(s, "medium", Some(c1.name)), RequiredSkill(s, "medium", Some(c2.name));
    HitsInMembers(cats, text, h1);
    HitsInMembers(cats, text, h2);
    assert exists c, t | c in cats && t in c.skills :: Contains(text, Lower(t)) && h1 == RequiredSkill(t, "medium", Some(c.name)) by {
      assert c1 in cats && s in c1.skills && Contains(text, Lower(s));
    }
    assert exists c, t | c in cats && t in c.skills :: Contains(text, Lower(t)) && h2 == RequiredSkill(t, "medium", Some(c.name)) by {
      assert c2 in cats && s in c2.skills && Contains(text, Lower(s));
    }
  }

  /** The nested scan of the fallback extractor: every category in order,
      every label of it in order, kept when it occurs in `text`. */
  method ScanTaxonomy(cats: seq<Category>, text: string) returns (skills: seq<RequiredSkill>)
    ensures skills == HitsIn(cats, text)
  {
    skills := [];
    for i := 0 to |cats|
      invariant skills == HitsIn(cats[..i], text)
    {
      var cat := cats[i];
      for k := 0 to |cat.skills|
        invariant skills == HitsIn(cats[..i], text) + CategoryHits(cat.name, cat.skills[..k], text)
      {
        var skill := cat.skills[k];
        if Contains(text, Lower(skill)) {
          skills := skills + [RequiredSkill(skill, "medium", Some(cat.name))];
        }
        assert cat.skills[..k + 1][..k] == cat.skills[..k];
      }
      assert cat.skills[..|cat.skills|] == cat.skills;
      assert cats[..i + 1][..i] == cats[..i];
    }
    assert cats[..|cats|] == cats;
  }

  /** The fallback record of a job description: the first five taxonomy hits
      required, the next up to three preferred, and a fixed three-year
      experience requirement. */
  predicate IsFallbackOf(r: JdAnalysis, jobDescription: string)
  {
    var hits := TaxonomyHits(jobDescription);
    && r.required == hits[..if |hits| < 5 then |hits| else 5]
    && r.preferred == (if |hits| > 5 then hits[5..if |hits| < 8 then |hits| else 8] else [])
    && r.experience == [ExperienceRequirement("技术经验", Some(3), "相关技术经验")]
  }

  /** The taxonomy fallback of the skill extraction. */
  method FallbackSkillExtraction(jobDescription: string) returns (r: JdAnalysis)
    ensures IsFallbackOf(r, jobDescription)
    ensures |r.required| <= 5 && |r.preferred| <= 3
    ensures forall h | h in r.required + r.preferred :: h in TaxonomyHits(jobDescription) && h.importance == "medium"
  {
    var skills := ScanTaxonomy(SkillCategories, Lower(jobDescription));
    var required := skills[..if |skills| < 5 then |skills| else 5];
    var preferred := if |skills| > 5 then skills[5..if |skills| < 8 then |skills| else 8] else [];
    r := JdAnalysis(required, preferred, [ExperienceRequirement("技术经验", Some(3), "相关技术经验")]);
    HitsInMedium(SkillCategories, Lower(jobDescription));
    FallbackSlices(skills);
  }

  /** The first five hits and the up to three after them are hits. */
  lemma FallbackSlices(hits: seq<RequiredSkill>)
    ensures var required := hits[..if |hits| < 5 then |hits| else 5];
      var preferred := if |hits| > 5 then hits[5..if |hits| < 8 then |hits| else 8] else [];
      && |required| <= 5 && |preferred| <= 3
      && forall h | h in required + preferred :: h in hits
  {
    var required := hits[..if |hits| < 5 then |hits| else 5];
    var preferred := if |hits| > 5 then hits[5..if |hits| < 8 then |hits| else 8] else [];
    forall h | h in required + preferred
      ensures h in hits
    {
      if h in required {
        var k :| 0 <= k < |required| && required[k] == h;
        assert hits[k] == h;
      } else {
        var k :| 0 <= k < |preferred| && preferred[k] == h;
        assert hits[5 + k] == h;
      }
    }
  }

  /** What the language model delivered: nothing (the call failed), text
      that no JSON could be extracted from, or a parsed record. */
  datatype LlmReply<T> = CallFailed | Unparseable | Parsed(value: T)

  /** Skill extraction: the model's record when it parsed, the empty default
      structure when it did not, and the taxonomy fallback when the call failed. */
  method ExtractSkillsFromJd(jobDescription: string, reply: LlmReply<JdAnalysis>) returns (r: JdAnalysis)
    ensures reply.Parsed? ==> r == reply.value
    ensures reply.Unparseable? ==> r == JdAnalysis([], [], [])
    ensures reply.CallFailed? ==> IsFallbackOf(r, jobDescription)
    ensures reply.CallFailed? ==> forall h | h in r.required + r.preferred :: h in TaxonomyHits(jobDescription)
  {
    match reply
    case Parsed(v) => r := v;
    case Unparseable => r := JdAnalysis([], [], []);
    case CallFailed => r := FallbackSkillExtraction(jobDescription);
  }

  // =====================================================================
  // Gap analysis
  // =====================================================================

  /** Extra labels the analyzer adds for a lower-cased held skill. */
  function Aliases(l: string): seq<string>
  {
    if l in ["tensorflow", "tf"] then ["machine learning", "ml", "ai"]
    else if l in ["pytorch", "torch"] then ["machine learning", "ml", "ai"]
    else if l in ["scikit-learn", "sklearn"] then ["machine learning", "ml", "ai"]
    else if l in ["apache spark", "spark"] then ["big data", "data processing", "etl"]
    else if l in ["kafka"] then ["big data", "data processing", "streaming"]
    else if l in ["hadoop"] then ["big data", "data processing", "distributed"]
    else if l in ["docker", "kubernetes", "k8s"] then ["distributed systems", "microservices"]
    else if l in ["aws", "amazon web services"] then ["cloud", "distributed systems"]
    else if l in ["design patterns", "patterns"] then ["coding standards", "best practices"]
    else if l in ["code review", "tdd"] then ["coding standards", "best practices"]
    else []
  }

  /** Each lower-cased held skill followed by the aliases `aliases` gives it. */
  function Expand(user: seq<string>, aliases: string -> seq<string>): seq<string>
  {
    if user == [] then []
    else
      var l := Lower(user[|user| - 1]);
      Expand(user[..|user| - 1], aliases) + [l] + aliases(l)
  }

  /** The normalised held skills the planner matches against. */
  function NormalizedSkills(user: seq<string>): seq<string>
  {
    Expand(user, Aliases)
  }

  /** Every held skill shows up lower-cased, and nothing but held skills and
      their aliases does. */
  lemma {:induction false} ExpandMembers(user: seq<string>, aliases: string -> seq<string>, x: string)
    ensures x in Expand(user, aliases) <==> exists u | u in user :: x == Lower(u) || x in aliases(Lower(u))
  {
    if user != [] {
      var init, last := user[..|user| - 1], user[|user| - 1];
      ExpandMembers(init, aliases, x);
      assert user == init + [last];
      var l := Lower(last);
      if x in Expand(user, aliases) {
        if x in Expand(init, aliases) {
          var u :| u in init && (x == Lower(u) || x in aliases(Lower(u)));
          assert u in user;
        } else {
          assert x == l || x in aliases(l);
        }
      }
      if exists u | u in user :: x == Lower(u) || x in aliases(Lower(u)) {
        var u :| u in user && (x == Lower(u) || x in aliases(Lower(u)));
        if u in init {
          assert x in Expand(init, aliases);
        } else {
          assert u == last;
        }
      }
    }
  }

  method NormalizeUserSkills(user: seq<string>) returns (norm: seq<string>)
    ensures norm == NormalizedSkills(user)
    ensures forall x :: x in norm <==> exists u | u in user :: x == Lower(u) || x in Aliases(Lower(u))
  {
    norm := [];
    for i := 0 to |user|
      invariant norm == Expand(user[..i], Aliases)
    {
      var l := Lower(user[i]);
      norm := norm + [l];
      norm := norm + Aliases(l);
      assert user[..i + 1][..i] == user[..i];
    }
    assert user[..|user|] == user;
    forall x
      ensures x in norm <==> exists u | u in user :: x == Lower(u) || x in Aliases(Lower(u))
    {
      ExpandMembers(user, Aliases, x);
    }
  }

  /** The running maximum of the classifier: best similarity so far and the
      held skill that first reached it. */
  datatype Best = Best(similarity: real, skill: Option<string>)

  /** Scan candidates left to right, replacing the best only on a strictly
      greater similarity. */
  function ScanBest(sim: (string, string) -> real, name: string, cands: seq<string>, start: Best): Best
  {
    if cands == [] then start
    else
      var b := ScanBest(sim, name, cands[..|cands| - 1], start);
      var s := sim(name, cands[|cands| - 1]);
      if s > b.similarity then Best(s, Some(cands[|cands| - 1])) else b
  }

  /** The scan yields the maximum of the start value and all candidate
      similarities; when it moved, it holds the first candidate reaching it. */
  lemma {:induction false} ScanBestIsFirstMaximum(sim: (string, string) -> real, name: string, cands: seq<string>, start: Best)
    ensures var r := ScanBest(sim, name, cands, start);
      && r.similarity >= start.similarity
      && (forall k | 0 <= k < |cands| :: sim(name, cands[k]) <= r.similarity)
      && (r == start
          || exists k | 0 <= k < |cands|
               :: r == Best(sim(name, cands[k]), Some(cands[k]))
                  && r.similarity > start.similarity
                  && forall i | 0 <= i < k :: sim(name, cands[i]) < r.similarity)
  {
    if cands != [] {
      var init := cands[..|cands| - 1];
      ScanBestIsFirstMaximum(sim, name, init, start);
      var b := ScanBest(sim, name, init, start);
      var s := sim(name, cands[|cands| - 1]);
      assert forall k | 0 <= k < |init| :: init[k] == cands[k];
      if s > b.similarity {
        assert ScanBest(sim, name, cands, start) == Best(s, Some(cands[|cands| - 1]));
        assert forall i | 0 <= i < |cands| - 1 :: sim(name, cands[i]) < s;
      }
    }
  }

  method BestMatch(sim: (string, string) -> real, name: string, cands: seq<string>, start: Best) returns (b: Best)
    ensures b == ScanBest(sim, name, cands, start)
  {
    b := start;
    for i := 0 to |cands|
      invariant b == ScanBest(sim, name, cands[..i], start)
    {
      var similarity := sim(name, cands[i]);
      if similarity > b.similarity {
        b := Best(similarity, Some(cands[i]));
      }
      assert cands[..i + 1][..i] == cands[..i];
    }
    assert cands[..|cands|] == cands;
  }

  /** The first curated alias that is among the normalised held skills. */
  function FirstMapped(mapped: seq<string>, norm: seq<string>): (r: Option<string>)
    ensures r.Some? ==> r.value in mapped && r.value in norm
    ensures r.None? <==> forall m | m in mapped :: m !in norm
  {
    if mapped == [] then None
    else if mapped[0] in norm then Some(mapped[0])
    else FirstMapped(mapped[1..], norm)
  }

  method FirstMappedHit(mapped: seq<string>, norm: seq<string>) returns (hit: Option<string>)
    ensures hit == FirstMapped(mapped, norm)
  {
    hit := None;
    var i := 0;
    while i < |mapped|
      invariant 0 <= i <= |mapped|
      invariant hit == None
      invariant FirstMapped(mapped, norm) == FirstMapped(mapped[i..], norm)
    {
      if mapped[i] in norm {
        hit := Some(mapped[i]);
        break;
      }
      assert mapped[i..][1..] == mapped[i + 1..];
      i := i + 1;
    }
  }

  /** The best similarity the planner finds for a required skill that is not
      held verbatim: first over the normalised skills with the lower-cased
      name, then over the raw skills with the raw name, then overridden to
      exactly 0.8 by a curated alias hit. */
  function BestFor(j: RequiredSkill, user: seq<string>, norm: seq<string>, mappings: map<string, seq<string>>): (r: Best)
    ensures j.skill in mappings && FirstMapped(mappings[j.skill], norm).Some?
            ==> r == Best(0.8, FirstMapped(mappings[j.skill], norm))
  {
    var b1 := ScanBest(Similarity, Lower(j.skill), norm, Best(0.0, None));
    var b2 := ScanBest(Similarity, j.skill, user, b1);
    if j.skill in mappings then
      match FirstMapped(mappings[j.skill], norm)
      case Some(m) => Best(0.8, Some(m))
      case None => b2
    else b2
  }

  method FindBestMatch(j: RequiredSkill, user: seq<string>, norm: seq<string>, mappings: map<string, seq<string>>)
    returns (b: Best)
    ensures b == BestFor(j, user, norm, mappings)
  {
    b := BestMatch(Similarity, Lower(j.skill), norm, Best(0.0, None));
    b := BestMatch(Similarity, j.skill, user, b);
    if j.skill in mappings {
      var hit := FirstMappedHit(mappings[j.skill], norm);
      if hit.Some? {
        b := Best(0.8, hit);
      }
    }
  }

  /** Without an alias hit the best similarity dominates every candidate of
      both scans. */
  lemma BestForDominates(j: RequiredSkill, user: seq<string>, norm: seq<string>, mappings: map<string, seq<string>>)
    requires !(j.skill in mappings && FirstMapped(mappings[j.skill], norm).Some?)
    ensures var r := BestFor(j, user, norm, mappings);
      && (forall k | 0 <= k < |norm| :: Similarity(Lower(j.skill), norm[k]) <= r.similarity)
      && (forall k | 0 <= k < |user| :: Similarity(j.skill, user[k]) <= r.similarity)
      && (r.similarity > 0.0 ==> r.skill.Some?)
  {
    TwoScansDominate(Similarity, Lower(j.skill), norm, j.skill, user);
  }

  lemma TwoScansDominate(sim: (string, string) -> real, n1: string, c1: seq<string>, n2: string, c2: seq<string>)
    ensures var r := ScanBest(sim, n2, c2, ScanBest(sim, n1, c1, Best(0.0, None)));
      && (forall k | 0 <= k < |c1| :: sim(n1, c1[k]) <= r.similarity)
      && (forall k | 0 <= k < |c2| :: sim(n2, c2[k]) <= r.similarity)
      && (r.similarity > 0.0 ==> r.skill.Some?)
  {
    var b1 := ScanBest(sim, n1, c1, Best(0.0, None));
    ScanBestIsFirstMaximum(sim, n1, c1, Best(0.0, None));
    ScanBestIsFirstMaximum(sim, n2, c2, b1);
  }

  /** The classification rule for a required skill that is not held verbatim. */
  function Classify(j: RequiredSkill, best: Best, threshold: real): (g: Gap)
    ensures g.skill == j.skill && g.importance == j.importance && g.category == CategoryOf(j)
    ensures g.status.Partial? <==> best.similarity > threshold
    ensures g.status.Partial? ==> g.status == Partial(best.skill, best.similarity)
                                  && g.priority == (if j.importance == "high" then Medium else Low)
    ensures g.status.Missing? ==> g.priority == (if j.importance == "high" then High else Medium)
  {
    if best.similarity > threshold then
      Gap(j.skill, j.importance, CategoryOf(j), Partial(best.skill, best.similarity),
          if j.importance == "high" then Medium else Low)
    else
      Gap(j.skill, j.importance, CategoryOf(j), Missing, if j.importance == "high" then High else Medium)
  }

  datatype Partition = Partition(gaps: seq<Gap>, strengths: seq<Strength>, missing: seq<string>)

  /** The single pass over the required skills, given the best similarity
      found for each of them. */
  function PartitionOf(jds: seq<RequiredSkill>, user: seq<string>, bests: seq<Best>, threshold: real): Partition
    requires |bests| == |jds|
  {
    if jds == [] then Partition([], [], [])
    else
      var n := |jds| - 1;
      var p := PartitionOf(jds[..n], user, bests[..n], threshold);
      var j := jds[n];
      if j.skill in user then p.(strengths := p.strengths + [StrengthOf(j)])
      else
        var g := Classify(j, bests[n], threshold);
        p.(gaps := p.gaps + [g], missing := if g.status.Missing? then p.missing + [j.skill] else p.missing)
  }

  function AnalysisOf(jds: seq<RequiredSkill>, user: seq<string>, bests: seq<Best>, threshold: real): SkillAnalysis
    requires |bests| == |jds|
  {
    var p := PartitionOf(jds, user, bests, threshold);
    SkillAnalysis(p.gaps, p.strengths, p.missing, |p.gaps|, |p.strengths|)
  }

  // Reference definitions, by filtering front to back.

  function StrengthsRef(jds: seq<RequiredSkill>, user: seq<string>): seq<Strength>
  {
    if jds == [] then []
    else (if jds[0].skill in user then [StrengthOf(jds[0])] else []) + StrengthsRef(jds[1..], user)
  }

  function GapsRef(jds: seq<RequiredSkill>, user: seq<string>, bests: seq<Best>, threshold: real): seq<Gap>
    requires |bests| == |jds|
  {
    if jds == [] then []
    else (if jds[0].skill in user then [] else [Classify(jds[0], bests[0], threshold)])
         + GapsRef(jds[1..], user, bests[1..], threshold)
  }

  function MissingRef(gaps: seq<Gap>): seq<string>
  {
    if gaps == [] then [] else (if gaps[0].status.Missing? then [gaps[0].skill] else []) + MissingRef(gaps[1..])
  }

  lemma {:induction false} StrengthsRefSnoc(jds: seq<RequiredSkill>, user: seq<string>, j: RequiredSkill)
    ensures StrengthsRef(jds + [j], user) == StrengthsRef(jds, user) + (if j.skill in user then [StrengthOf(j)] else [])
  {
    if jds == [] {
      assert [j][1..] == [];
    } else {
      var head := if jds[0].skill in user then [StrengthOf(jds[0])] else [];
      var tail := if j.skill in user then [StrengthOf(j)] else [];
      assert (jds + [j])[0] == jds[0];
      assert (jds + [j])[1..] == jds[1..] + [j];
      StrengthsRefSnoc(jds[1..], user, j);
      assert StrengthsRef(jds + [j], user) == head + (StrengthsRef(jds[1..], user) + tail);
      assert head + (StrengthsRef(jds[1..], user) + tail) == (head + StrengthsRef(jds[1..], user)) + tail;
    }
  }

  lemma {:induction false} GapsRefSnoc(jds: seq<RequiredSkill>, user: seq<string>, bests: seq<Best>, threshold: real,
                                       j: RequiredSkill, b: Best)
    requires |bests| == |jds|
    ensures GapsRef(jds + [j], user, bests + [b], threshold)
         == GapsRef(jds, user, bests, threshold) + (if j.skill in user then [] else [Classify(j, b, threshold)])
  {
    if jds == [] {
      assert [j][1..] == [] && [b][1..] == [];
    } else {
      var head := if jds[0].skill in user then [] else [Classify(jds[0], bests[0], threshold)];
      var tail := if j.skill in user then [] else [Classify(j, b, threshold)];
      var rest := GapsRef(jds[1..], user, bests[1..], threshold);
      assert (jds + [j])[0] == jds[0] && (bests + [b])[0] == bests[0];
      assert (jds + [j])[1..] == jds[1..] + [j];
      assert (bests + [b])[1..] == bests[1..] + [b];
      GapsRefSnoc(jds[1..], user, bests[1..], threshold, j, b);
      assert GapsRef(jds + [j], user, bests + [b], threshold) == head + (rest + tail);
      assert head + (rest + tail) == (head + rest) + tail;
    }
  }

  lemma {:induction false} MissingRefSnoc(gaps: seq<Gap>, g: Gap)
    ensures MissingRef(gaps + [g]) == MissingRef(gaps) + (if g.status.Missing? then [g.skill] else [])
  {
    if gaps == [] {
      assert [g][1..] == [];
    } else {
      var head := if gaps[0].status.Missing? then [gaps[0].skill] else [];
      var tail := if g.status.Missing? then [g.skill] else [];
      assert (gaps + [g])[0] == gaps[0];
      assert (gaps + [g])[1..] == gaps[1..] + [g];
      MissingRefSnoc(gaps[1..], g);
      assert MissingRef(gaps + [g]) == head + (MissingRef(gaps[1..]) + tail);
      assert head + (MissingRef(gaps[1..]) + tail) == (head + MissingRef(gaps[1..])) + tail;
    }
  }

  lemma {:induction false} PartitionMatchesReference(jds: seq<RequiredSkill>, user: seq<string>, bests: seq<Best>, threshold: real)
    requires |bests| == |jds|
    ensures var p := PartitionOf(jds, user, bests, threshold);
      && p.strengths == StrengthsRef(jds, user)
      && p.gaps == GapsRef(jds, user, bests, threshold)
      && p.missing == MissingRef(p.gaps)
      && |p.strengths| + |p.gaps| == |jds|
  {
    if jds != [] {
      var n := |jds| - 1;
      PartitionMatchesReference(jds[..n], user, bests[..n], threshold);
      assert jds == jds[..n] + [jds[n]];
      assert bests == bests[..n] + [bests[n]];
      StrengthsRefSnoc(jds[..n], user, jds[n]);
      GapsRefSnoc(jds[..n], user, bests[..n], threshold, jds[n], bests[n]);
      var p := PartitionOf(jds[..n], user, bests[..n], threshold);
      MissingRefSnoc(p.gaps, Classify(jds[n], bests[n], threshold));
    }
  }

  lemma {:induction false} StrengthsRefHeld(jds: seq<RequiredSkill>, user: seq<string>)
    ensures forall s | s in StrengthsRef(jds, user) :: s.skill in user
    ensures forall j | j in jds && j.skill in user :: StrengthOf(j) in StrengthsRef(jds, user)
  {
    if jds != [] {
      StrengthsRefHeld(jds[1..], user);
      assert forall j | j in jds :: j == jds[0] || j in jds[1..];
    }
  }

  lemma {:induction false} GapsRefNotHeld(jds: seq<RequiredSkill>, user: seq<string>, bests: seq<Best>, threshold: real)
    requires |bests| == |jds|
    ensures forall g | g in GapsRef(jds, user, bests, threshold) :: g.skill !in user
    ensures forall j | j in jds && j.skill !in user :: exists g | g in GapsRef(jds, user, bests, threshold) :: g.skill == j.skill
  {
    if jds != [] {
      GapsRefNotHeld(jds[1..], user, bests[1..], threshold);
      assert forall j | j in jds :: j == jds[0] || j in jds[1..];
      if jds[0].skill !in user {
        var g0 := Classify(jds[0], bests[0], threshold);
        assert g0 in GapsRef(jds, user, bests, threshold);
      }
    }
  }

  /** The analysis partitions the required skills: each lands in exactly one
      of strengths (held verbatim, case-sensitively) or gaps (not held), both
      in input order; the counts add up and `missingSkills` lists exactly the
      missing gaps. */
  lemma AnalysisIsPartition(jds: seq<RequiredSkill>, user: seq<string>, bests: seq<Best>, threshold: real)
    requires |bests| == |jds|
    ensures var a := AnalysisOf(jds, user, bests, threshold);
      && a.strengthCount + a.gapCount == |jds|
      && a.strengthCount == |a.strengths| && a.gapCount == |a.gaps|
      && a.strengths == StrengthsRef(jds, user)
      && a.gaps == GapsRef(jds, user, bests, threshold)
      && a.missingSkills == MissingRef(a.gaps)
      && (forall s | s in a.strengths :: s.skill in user)
      && (forall g | g in a.gaps :: g.skill !in user)
      && (forall j | j in jds :: j.skill in user ==> StrengthOf(j) in a.strengths)
      && (forall j | j in jds :: j.skill !in user ==> exists g | g in a.gaps :: g.skill == j.skill)
  {
    PartitionMatchesReference(jds, user, bests, threshold);
    StrengthsRefHeld(jds, user);
    GapsRefNotHeld(jds, user, bests, threshold);
  }

  /** The best similarity for each required skill, in order. */
  function BestsFor(jds: seq<RequiredSkill>, user: seq<string>, norm: seq<string>, mappings: map<string, seq<string>>)
    : (bs: seq<Best>)
    ensures |bs| == |jds|
    ensures forall k | 0 <= k < |jds| :: bs[k] == BestFor(jds[k], user, norm, mappings)
  {
    if jds == [] then []
    else
      var init := BestsFor(jds[..|jds| - 1], user, norm, mappings);
      var r := init + [BestFor(jds[|jds| - 1], user, norm, mappings)];
      assert forall k | 0 <= k < |jds| - 1 :: r[k] == init[k] && jds[k] == jds[..|jds| - 1][k];
      r
  }

  /** The best similarity the planner computes for each required skill. */
  function PlannerBests(jds: seq<RequiredSkill>, user: seq<string>): (bs: seq<Best>)
    ensures |bs| == |jds|
  {
    BestsFor(jds, user, NormalizedSkills(user), SkillMappings)
  }

  /** The planner's classification threshold. */
  const PartialThreshold: real := 0.6

  /** The planner's gap analysis (the curated alias table fixed). */
  method AnalyzeSkillGaps(jds: seq<RequiredSkill>, user: seq<string>) returns (r: SkillAnalysis)
    ensures r == AnalysisOf(jds, user, PlannerBests(jds, user), PartialThreshold)
    ensures r.strengthCount + r.gapCount == |jds|
    ensures r.strengths == StrengthsRef(jds, user)
    ensures r.missingSkills == MissingRef(r.gaps)
  {
    var norm := NormalizeUserSkills(user);
    r := ClassifySkills(jds, user, norm, SkillMappings);
  }

  /** The classification loop of the gap analysis, for a given alias table. */
  method ClassifySkills(jds: seq<RequiredSkill>, user: seq<string>, norm: seq<string>, mappings: map<string, seq<string>>)
    returns (r: SkillAnalysis)
    ensures r == AnalysisOf(jds, user, BestsFor(jds, user, norm, mappings), PartialThreshold)
    ensures r.strengthCount + r.gapCount == |jds|
    ensures r.strengths == StrengthsRef(jds, user)
    ensures r.missingSkills == MissingRef(r.gaps)
  {
    var gaps: seq<Gap>, strengths: seq<Strength>, missing: seq<string> := [], [], [];
    for i := 0 to |jds|
      invariant Partition(gaps, strengths, missing) == PartitionOf(jds[..i], user, BestsFor(jds[..i], user, norm, mappings), PartialThreshold)
    {
      var j := jds[i];
      ClassifyStep(jds, user, norm, mappings, i);
      if j.skill in user {
        strengths := strengths + [StrengthOf(j)];
      } else {
        var b := FindBestMatch(j, user, norm, mappings);
        var g := Classify(j, b, PartialThreshold);
        gaps := gaps + [g];
        if g.status.Missing? {
          missing := missing + [j.skill];
        }
      }
    }
    assert jds[..|jds|] == jds;
    r := SkillAnalysis(gaps, strengths, missing, |gaps|, |strengths|);
    AnalysisIsPartition(jds, user, BestsFor(jds, user, norm, mappings), PartialThreshold);
  }

  /** One more required skill extends the pass by that skill, classified
      against its own best match. */
  lemma ClassifyStep(jds: seq<RequiredSkill>, user: seq<string>, norm: seq<string>,
                     mappings: map<string, seq<string>>, i: nat)
    requires i < |jds|
    ensures var p := PartitionOf(jds[..i], user, BestsFor(jds[..i], user, norm, mappings), PartialThreshold);
      var j := jds[i];
      var g := Classify(j, BestFor(j, user, norm, mappings), PartialThreshold);
      PartitionOf(jds[..i + 1], user, BestsFor(jds[..i + 1], user, norm, mappings), PartialThreshold)
      == if j.skill in user then p.(strengths := p.strengths + [StrengthOf(j)])
         else p.(gaps := p.gaps + [g], missing := if g.status.Missing? then p.missing + [j.skill] else p.missing)
  {
    var bs := BestsFor(jds[..i + 1], user, norm, mappings);
    assert jds[..i + 1][..i] == jds[..i];
    assert bs[..i] == BestsFor(jds[..i], user, norm, mappings);
    assert bs[i] == BestFor(jds[i], user, norm, mappings);
  }

  /** Every best that has a positive similarity names a held skill. */
  predicate RecordsSkill(bests: seq<Best>)
  {
    forall k | 0 <= k < |bests| :: bests[k].similarity > 0.0 ==> bests[k].skill.Some?
  }

  lemma BestsForRecordSkill(jds: seq<RequiredSkill>, user: seq<string>, norm: seq<string>, mappings: map<string, seq<string>>)
    ensures RecordsSkill(BestsFor(jds, user, norm, mappings))
  {
    var bests := BestsFor(jds, user, norm, mappings);
    forall k | 0 <= k < |bests|
      ensures bests[k].similarity > 0.0 ==> bests[k].skill.Some?
    {
      if !(jds[k].skill in mappings && FirstMapped(mappings[jds[k].skill], norm).Some?) {
        BestForDominates(jds[k], user, norm, mappings);
      }
    }
  }

  /** With a non-negative threshold, a partial gap always records the held
      skill it was matched with. */
  lemma PartialGapsNameSimilarSkill(jds: seq<RequiredSkill>, user: seq<string>, bests: seq<Best>, threshold: real)
    requires |bests| == |jds| && threshold >= 0.0 && RecordsSkill(bests)
    ensures forall g | g in AnalysisOf(jds, user, bests, threshold).gaps :: g.status.Partial? ==> g.status.similarSkill.Some?
  {
    AnalysisIsPartition(jds, user, bests, threshold);
    forall g | g in AnalysisOf(jds, user, bests, threshold).gaps
      ensures g.status.Partial? ==> g.status.similarSkill.Some?
    {
      GapsRefFrom(jds, user, bests, threshold, g);
    }
  }

  lemma {:induction false} GapsRefFrom(jds: seq<RequiredSkill>, user: seq<string>, bests: seq<Best>, threshold: real, g: Gap)
    requires |bests| == |jds|
    requires g in GapsRef(jds, user, bests, threshold)
    ensures exists k | 0 <= k < |jds| :: jds[k].skill !in user && g == Classify(jds[k], bests[k], threshold)
  {
    if g !in (if jds[0].skill in user then [] else [Classify(jds[0], bests[0], threshold)]) {
      GapsRefFrom(jds[1..], user, bests[1..], threshold, g);
      var k :| 0 <= k < |jds| - 1 && jds[1..][k].skill !in user && g == Classify(jds[1..][k], bests[1..][k], threshold);
      assert jds[k + 1] == jds[1..][k] && bests[k + 1] == bests[1..][k];
    }
  }

  /** A scan over candidates whose similarities are at most `m`, started
      at most `m`, ends at most `m`. */
  lemma ScanBestBounded(sim: (string, string) -> real, name: string, cands: seq<string>, start: Best, m: real)
    requires start.similarity <= m
    requires forall k | 0 <= k < |cands| :: sim(name, cands[k]) <= m
    ensures ScanBest(sim, name, cands, start).similarity <= m
  {
    ScanBestIsFirstMaximum(sim, name, cands, start);
  }

  /** A required skill held only in another letter case is not a strength
      (membership is case-sensitive), yet it is a partial gap at similarity
      1.0, unless a curated alias hit sets it to 0.8. */
  lemma CaseVariantIsFullSimilarity(j: RequiredSkill, user: seq<string>, mappings: map<string, seq<string>>, u: string)
    requires u in user && Lower(u) == Lower(j.skill)
    requires !(j.skill in mappings && FirstMapped(mappings[j.skill], NormalizedSkills(user)).Some?)
    ensures BestFor(j, user, NormalizedSkills(user), mappings).similarity == 1.0
    ensures Classify(j, BestFor(j, user, NormalizedSkills(user), mappings), PartialThreshold).status.Partial?
  {
    var norm := NormalizedSkills(user);
    ExpandMembers(user, Aliases, Lower(u));
    var k :| 0 <= k < |norm| && norm[k] == Lower(u);
    LowerIdempotent(j.skill);
    LowerIdempotent(u);
    assert Similarity(Lower(j.skill), norm[k]) == 1.0;
    TwoScansReachTop(Similarity, Lower(j.skill), norm, j.skill, user, k);
  }

  /** When similarities never exceed 1.0 and a first-scan candidate reaches
      it, the two scans end at exactly 1.0. */
  lemma TwoScansReachTop(sim: (string, string) -> real, n1: string, c1: seq<string>, n2: string, c2: seq<string>, k: nat)
    requires forall a, b :: sim(a, b) <= 1.0
    requires k < |c1| && sim(n1, c1[k]) == 1.0
    ensures ScanBest(sim, n2, c2, ScanBest(sim, n1, c1, Best(0.0, None))).similarity == 1.0
  {
    var b1 := ScanBest(sim, n1, c1, Best(0.0, None));
    ScanBestIsFirstMaximum(sim, n1, c1, Best(0.0, None));
    ScanBestBounded(sim, n1, c1, Best(0.0, None), 1.0);
    ScanBestIsFirstMaximum(sim, n2, c2, b1);
    ScanBestBounded(sim, n2, c2, b1, 1.0);
  }

  /** A required skill whose lower-cased name is an alias of a held skill is
      matched at similarity 1.0 by the first scan, so it is a partial gap at
      1.0 unless a curated alias hit sets it to 0.8. */
  lemma AliasIsFullSimilarity(j: RequiredSkill, user: seq<string>, mappings: map<string, seq<string>>, u: string)
    requires u in user && Lower(j.skill) in Aliases(Lower(u))
    requires !(j.skill in mappings && FirstMapped(mappings[j.skill], NormalizedSkills(user)).Some?)
    ensures BestFor(j, user, NormalizedSkills(user), mappings).similarity == 1.0
    ensures Classify(j, BestFor(j, user, NormalizedSkills(user), mappings), PartialThreshold).status.Partial?
  {
    var norm := NormalizedSkills(user);
    ExpandMembers(user, Aliases, Lower(j.skill));
    var k :| 0 <= k < |norm| && norm[k] == Lower(j.skill);
    LowerIdempotent(j.skill);
    assert Similarity(Lower(j.skill), norm[k]) == 1.0;
    TwoScansReachTop(Similarity, Lower(j.skill), norm, j.skill, user, k);
  }

  /** The concrete case: "Machine Learning" required and "TensorFlow" held is
      a partial gap at similarity 1.0, not the 0.8 of the curated table,
      whose key is the lower-case "machine learning". */
  lemma TensorFlowGivesFullMachineLearning(importance: string, category: Option<string>)
    ensures var j := RequiredSkill("Machine Learning", importance, category);
      var g := Classify(j, BestFor(j, ["TensorFlow"], NormalizedSkills(["TensorFlow"]), SkillMappings), PartialThreshold);
      g.status.Partial? && g.status.similarity == 1.0
  {
    var j := RequiredSkill("Machine Learning", importance, category);
    LowerTensorFlow();
    LowerMachineLearning();
    MachineLearningNotMapped();
    TensorFlowAliases();
    AliasIsFullSimilarity(j, ["TensorFlow"], SkillMappings, "TensorFlow");
  }

  lemma LowerTensorFlow()
    ensures Lower("TensorFlow") == "tensorflow"
  {
    var s, t := "TensorFlow", "tensorflow";
    assert forall i | 0 <= i < |s| :: LowerChar(s[i]) == t[i];
    LowerIs(s, t);
  }

  lemma TensorFlowAliases()
    ensures "machine learning" in Aliases("tensorflow")
  {
  }

  lemma LowerMachineLearning()
    ensures Lower("Machine Learning") == "machine learning"
  {
    var s, t := "Machine Learning", "machine learning";
    assert forall i | 0 <= i < |s| :: LowerChar(s[i]) == t[i];
    LowerIs(s, t);
  }

  lemma MachineLearningNotMapped()
    ensures "Machine Learning" !in SkillMappings
  {
  }

  /** The concrete case: "Python" required and "python" held gives no
      strength and one gap. */
  lemma LowerCasePythonIsAGap(bests: seq<Best>)
    requires |bests| == 1
    ensures var a := AnalysisOf([RequiredSkill("Python", "high", Some("programming"))], ["python"], bests, PartialThreshold);
      a.strengths == [] && a.gapCount == 1 && a.gaps[0].skill == "Python"
  {
    var jds := [RequiredSkill("Python", "high", Some("programming"))];
    assert jds[..0] == [] && bests[..0] == [];
    assert "Python" !in ["python"] by {
      assert "Python"[0] != "python"[0];
    }
    assert PartitionOf(jds[..0], ["python"], bests[..0], PartialThreshold) == Partition([], [], []);
    assert PartitionOf(jds, ["python"], bests, PartialThreshold).strengths == [];
  }

  // =====================================================================
  // Experience and aggregate scores
  // =====================================================================

  function YearsOf(r: ExperienceRequirement): int
  {
    r.years.GetOr(0)
  }

  function TotalYears(reqs: seq<ExperienceRequirement>): int
  {
    if reqs == [] then 0 else TotalYears(reqs[..|reqs| - 1]) + YearsOf(reqs[|reqs| - 1])
  }

  /** Linear in the difference to the mean requirement, anchored at 70 for an
      exact match, +10 per surplus year, -15 per missing year, clamped. */
  function ExperienceMatch(reqs: seq<ExperienceRequirement>, userYears: int): (r: real)
    ensures 0.0 <= r <= 100.0
    ensures reqs == [] ==> r == 70.0
    ensures reqs != [] ==>
      var avg := TotalYears(reqs) as real / |reqs| as real;
      (userYears as real >= avg ==> r == Min(100.0, 70.0 + (userYears as real - avg) * 10.0))
      && (userYears as real < avg ==> r == Max(0.0, 70.0 - (avg - userYears as real) * 15.0))
  {
    if reqs == [] then 70.0
    else
      var avg := TotalYears(reqs) as real / |reqs| as real;
      if userYears as real >= avg then Min(100.0, 70.0 + (userYears as real - avg) * 10.0)
      else Max(0.0, 70.0 - (avg - userYears as real) * 15.0)
  }

  /** More experience never lowers the experience match. */
  lemma ExperienceMatchMonotone(reqs: seq<ExperienceRequirement>, u1: int, u2: int)
    requires u1 <= u2
    ensures ExperienceMatch(reqs, u1) <= ExperienceMatch(reqs, u2)
  {
  }

  /** Meeting the mean requirement exactly scores 70; it is the only way to. */
  lemma ExperienceMatchAnchor(reqs: seq<ExperienceRequirement>, u: int)
    requires reqs != []
    ensures ExperienceMatch(reqs, u) == 70.0 <==> u as real == TotalYears(reqs) as real / |reqs| as real
  {
  }

  lemma ExperienceMatchExamples()
    ensures ExperienceMatch([ExperienceRequirement("技术经验", Some(3), "")], 5) == 90.0
    ensures ExperienceMatch([ExperienceRequirement("技术经验", Some(5), "")], 2) == 25.0
    ensures ExperienceMatch([ExperienceRequirement("技术经验", None, "")], 0) == 70.0
  {
    var r3 := [ExperienceRequirement("技术经验", Some(3), "")];
    assert TotalYears(r3) == 3 by { assert r3[..0] == []; }
    var r5 := [ExperienceRequirement("技术经验", Some(5), "")];
    assert TotalYears(r5) == 5 by { assert r5[..0] == []; }
    var r0 := [ExperienceRequirement("技术经验", None, "")];
    assert TotalYears(r0) == 0 by { assert r0[..0] == []; }
  }

  /** Share of required skills held verbatim, in percent; 0 with no requirements. */
  function SkillMatchPercentage(matched: nat, total: nat): (r: real)
    ensures total == 0 ==> r == 0.0
    ensures matched <= total ==> 0.0 <= r <= 100.0
    ensures total > 0 ==> r * total as real == 100.0 * matched as real
  {
    if total > 0 then matched as real / total as real * 100.0 else 0.0
  }

  /** Mean of the skill and the experience match. */
  function OverallMatch(skillMatch: real, experienceMatch: real): (r: real)
    ensures Min(skillMatch, experienceMatch) <= r <= Max(skillMatch, experienceMatch)
    ensures 2.0 * r == skillMatch + experienceMatch
  {
    (skillMatch + experienceMatch) / 2.0
  }

  // =====================================================================
  // Improvement priorities and learning paths
  // =====================================================================

  function ImportanceWeight(importance: string): (w: int)
    ensures 1 <= w <= 3
  {
    if importance == "high" then 3 else if importance == "medium" then 2 else 1
  }

  function StatusWeight(s: GapStatus): (w: int)
    ensures 1 <= w <= 2
  {
    match s
    case Missing => 2
    case Partial(_, _) => 1
  }

  datatype ImprovementPriority = ImprovementPriority(
    skill: string, priorityScore: int, estimatedTime: string, learningPath: seq<string>)

  /** The three-step learning path for a skill, specific to five categories
      and generic otherwise. */
  function LearningPath(skill: string, category: string): (r: seq<string>)
    ensures |r| == 3
    ensures StartsWith(r[0], "学习" + skill)
    ensures category !in {"programming", "frontend", "backend", "database", "cloud"}
            ==> r == ["学习" + skill + "基础", "实践" + skill + "项目", "深入" + skill + "高级特性"]
  {
    if category == "programming" then ["学习" + skill + "基础语法", "完成" + skill + "小项目", "参与" + skill + "开源项目"]
    else if category == "frontend" then ["学习" + skill + "框架基础", "构建" + skill + "项目", "优化" + skill + "性能"]
    else if category == "backend" then ["学习" + skill + "框架", "构建API服务", "部署" + skill + "应用"]
    else if category == "database" then ["学习" + skill + "基础", "设计数据库架构", "优化" + skill + "性能"]
    else if category == "cloud" then ["学习" + skill + "基础概念", "完成" + skill + "认证", "实践" + skill + "项目"]
    else ["学习" + skill + "基础", "实践" + skill + "项目", "深入" + skill + "高级特性"]
  }

  function PriorityEntry(g: Gap): (p: ImprovementPriority)
    ensures p.skill == g.skill
    ensures 2 <= p.priorityScore <= 5
    ensures p.priorityScore == ImportanceWeight(g.importance) + StatusWeight(g.status)
    ensures p.estimatedTime == (if g.status.Partial? then "2-4周" else "1-3个月")
    ensures |p.learningPath| == 3
  {
    ImprovementPriority(
      g.skill,
      ImportanceWeight(g.importance) + StatusWeight(g.status),
      if g.status.Partial? then "2-4周" else "1-3个月",
      LearningPath(g.skill, g.category))
  }

  function PriorityEntries(gaps: seq<Gap>): (ps: seq<ImprovementPriority>)
    ensures |ps| == |gaps|
    ensures forall i | 0 <= i < |gaps| :: ps[i] == PriorityEntry(gaps[i])
  {
    if gaps == [] then [] else PriorityEntries(gaps[..|gaps| - 1]) + [PriorityEntry(gaps[|gaps| - 1])]
  }

  const MaxPriorityScore: int := 5

  predicate ScoresInRange(xs: seq<ImprovementPriority>)
  {
    forall i | 0 <= i < |xs| :: 0 <= xs[i].priorityScore <= MaxPriorityScore
  }

  predicate SortedByScoreDesc(xs: seq<ImprovementPriority>)
  {
    forall i, j | 0 <= i < j < |xs| :: xs[i].priorityScore >= xs[j].priorityScore
  }

  /** The entries with score exactly `k`, in their original order. */
  function Bucket(xs: seq<ImprovementPriority>, k: int): seq<ImprovementPriority>
  {
    if xs == [] then [] else (if xs[0].priorityScore == k then [xs[0]] else []) + Bucket(xs[1..], k)
  }

  function AtMost(xs: seq<ImprovementPriority>, k: int): seq<ImprovementPriority>
  {
    if xs == [] then [] else (if xs[0].priorityScore <= k then [xs[0]] else []) + AtMost(xs[1..], k)
  }

  function SortFrom(xs: seq<ImprovementPriority>, k: int): seq<ImprovementPriority>
    decreases k + 1
  {
    if k < 0 then [] else Bucket(xs, k) + SortFrom(xs, k - 1)
  }

  /** A stable sort by descending score (the service's `list.sort(key=...,
      reverse=True)`), for scores within 0..MaxPriorityScore. */
  function SortByScoreDesc(xs: seq<ImprovementPriority>): seq<ImprovementPriority>
  {
    SortFrom(xs, MaxPriorityScore)
  }

  lemma {:induction false} BucketScores(xs: seq<ImprovementPriority>, k: int)
    ensures forall y | y in Bucket(xs, k) :: y.priorityScore == k && y in xs
  {
    if xs != [] {
      BucketScores(xs[1..], k);
    }
  }

  lemma {:induction false} SortFromSorted(xs: seq<ImprovementPriority>, k: int)
    ensures SortedByScoreDesc(SortFrom(xs, k))
    ensures forall y | y in SortFrom(xs, k) :: y.priorityScore <= k
    decreases k + 1
  {
    if k >= 0 {
      BucketScores(xs, k);
      SortFromSorted(xs, k - 1);
      var b, rest := Bucket(xs, k), SortFrom(xs, k - 1);
      assert forall i | 0 <= i < |b| :: b[i] in b;
      assert forall i | 0 <= i < |rest| :: rest[i] in rest;
      forall i, j | 0 <= i < j < |b + rest|
        ensures (b + rest)[i].priorityScore >= (b + rest)[j].priorityScore
      {
        if j < |b| {
        } else if i < |b| {
          assert (b + rest)[j] == rest[j - |b|];
        } else {
          assert (b + rest)[i] == rest[i - |b|] && (b + rest)[j] == rest[j - |b|];
        }
      }
    }
  }

  lemma {:induction false} AtMostSplit(xs: seq<ImprovementPriority>, k: int)
    ensures multiset(AtMost(xs, k)) == multiset(Bucket(xs, k)) + multiset(AtMost(xs, k - 1))
  {
    if xs != [] {
      AtMostSplit(xs[1..], k);
    }
  }

  lemma {:induction false} SortFromPermutes(xs: seq<ImprovementPriority>, k: int)
    requires ScoresInRange(xs)
    ensures multiset(SortFrom(xs, k)) == multiset(AtMost(xs, k))
    decreases k + 1
  {
    if k < 0 {
      AtMostBelowZero(xs, k);
    } else {
      SortFromPermutes(xs, k - 1);
      AtMostSplit(xs, k);
    }
  }

  lemma {:induction false} AtMostBelowZero(xs: seq<ImprovementPriority>, k: int)
    requires k < 0 && ScoresInRange(xs)
    ensures AtMost(xs, k) == []
  {
    if xs != [] {
      AtMostBelowZero(xs[1..], k);
    }
  }

  lemma {:induction false} AtMostAll(xs: seq<ImprovementPriority>)
    requires ScoresInRange(xs)
    ensures AtMost(xs, MaxPriorityScore) == xs
  {
    if xs != [] {
      AtMostAll(xs[1..]);
    }
  }

  lemma {:induction false} BucketAppend(a: seq<ImprovementPriority>, b: seq<ImprovementPriority>, k: int)
    ensures Bucket(a + b, k) == Bucket(a, k) + Bucket(b, k)
  {
    if a == [] {
      assert a + b == b;
    } else {
      var head := if a[0].priorityScore == k then [a[0]] else [];
      assert (a + b)[0] == a[0];
      assert (a + b)[1..] == a[1..] + b;
      BucketAppend(a[1..], b, k);
      calc {
        Bucket(a + b, k);
        head + Bucket(a[1..] + b, k);
        head + (Bucket(a[1..], k) + Bucket(b, k));
        (head + Bucket(a[1..], k)) + Bucket(b, k);
      }
    }
  }

  lemma {:induction false} BucketOfBucket(xs: seq<ImprovementPriority>, j: int, k: int)
    ensures Bucket(Bucket(xs, j), k) == if j == k then Bucket(xs, k) else []
  {
    if xs != [] {
      BucketOfBucket(xs[1..], j, k);
      var head := if xs[0].priorityScore == j then [xs[0]] else [];
      BucketAppend(head, Bucket(xs[1..], j), k);
      if xs[0].priorityScore == j {
        assert Bucket(head, k) == (if j == k then [xs[0]] else []) by {
          assert head[1..] == [];
        }
      }
    }
  }

  lemma {:induction false} SortFromStable(xs: seq<ImprovementPriority>, kmax: int, k: int)
    ensures Bucket(SortFrom(xs, kmax), k) == if 0 <= k <= kmax then Bucket(xs, k) else []
    decreases kmax + 1
  {
    if kmax >= 0 {
      SortFromStable(xs, kmax - 1, k);
      BucketAppend(Bucket(xs, kmax), SortFrom(xs, kmax - 1), k);
      BucketOfBucket(xs, kmax, k);
    }
  }

  /** The bucket sort is a stable descending sort: sorted, a permutation,
      and for every score the entries having it keep their relative order. */
  lemma SortByScoreDescIsStableSort(xs: seq<ImprovementPriority>)
    requires ScoresInRange(xs)
    ensures var r := SortByScoreDesc(xs);
      && SortedByScoreDesc(r)
      && multiset(r) == multiset(xs)
      && |r| == |xs|
      && forall k :: Bucket(r, k) == Bucket(xs, k)
  {
    SortFromSorted(xs, MaxPriorityScore);
    SortFromPermutes(xs, MaxPriorityScore);
    AtMostAll(xs);
    var r := SortByScoreDesc(xs);
    assert |r| == |multiset(r)| == |multiset(xs)| == |xs|;
    forall k
      ensures Bucket(r, k) == Bucket(xs, k)
    {
      SortFromStable(xs, MaxPriorityScore, k);
      if !(0 <= k <= MaxPriorityScore) {
        BucketOutOfRange(xs, k);
      }
    }
  }

  lemma {:induction false} BucketOutOfRange(xs: seq<ImprovementPriority>, k: int)
    requires ScoresInRange(xs) && !(0 <= k <= MaxPriorityScore)
    ensures Bucket(xs, k) == []
  {
    if xs != [] {
      BucketOutOfRange(xs[1..], k);
    }
  }

  method BuildPriorityEntries(gaps: seq<Gap>) returns (priorities: seq<ImprovementPriority>)
    ensures priorities == PriorityEntries(gaps)
    ensures ScoresInRange(priorities)
  {
    priorities := [];
    for i := 0 to |gaps|
      invariant priorities == PriorityEntries(gaps[..i])
    {
      var gap := gaps[i];
      priorities := priorities + [PriorityEntry(gap)];
      assert gaps[..i + 1][..i] == gaps[..i];
    }
    assert gaps[..|gaps|] == gaps;
  }

  /** The first five priority entries of the gaps in a stable sort by
      descending score. */
  function TopPriorities(gaps: seq<Gap>): seq<ImprovementPriority>
  {
    var sorted := SortByScoreDesc(PriorityEntries(gaps));
    sorted[..if |sorted| < 5 then |sorted| else 5]
  }

  /** The top five entries by descending score, stable among equal scores. */
  method GenerateImprovementPriorities(analysis: SkillAnalysis) returns (ps: seq<ImprovementPriority>)
    ensures ps == TopPriorities(analysis.gaps)
    ensures |ps| == if |analysis.gaps| < 5 then |analysis.gaps| else 5
    ensures SortedByScoreDesc(ps)
    ensures forall p | p in ps :: p in PriorityEntries(analysis.gaps)
  {
    var priorities := BuildPriorityEntries(analysis.gaps);
    var sorted := SortByScoreDesc(priorities);
    ps := sorted[..if |sorted| < 5 then |sorted| else 5];
    TopPrioritiesAreTop(analysis.gaps);
  }

  /** The top entries are at most five, sorted, and entries of the gaps. */
  lemma TopPrioritiesAreTop(gaps: seq<Gap>)
    ensures var ps := TopPriorities(gaps);
      && |ps| == (if |gaps| < 5 then |gaps| else 5)
      && SortedByScoreDesc(ps)
      && forall p | p in ps :: p in PriorityEntries(gaps)
  {
    var priorities := PriorityEntries(gaps);
    assert ScoresInRange(priorities);
    SortByScoreDescIsStableSort(priorities);
    var sorted := SortByScoreDesc(priorities);
    SortedTop(sorted, priorities, |TopPriorities(gaps)|);
  }

  /** A prefix of a sorted permutation is sorted and drawn from the original. */
  lemma SortedTop(sorted: seq<ImprovementPriority>, xs: seq<ImprovementPriority>, k: nat)
    requires SortedByScoreDesc(sorted) && multiset(sorted) == multiset(xs) && k <= |sorted|
    ensures SortedByScoreDesc(sorted[..k])
    ensures forall p | p in sorted[..k] :: p in xs
  {
    SortedPrefix(sorted, k);
    assert forall p | p in sorted[..k] :: p in multiset(sorted);
  }

  lemma SortedPrefix(s: seq<ImprovementPriority>, k: nat)
    requires SortedByScoreDesc(s) && k <= |s|
    ensures SortedByScoreDesc(s[..k])
  {
    assert forall i | 0 <= i < k :: s[..k][i] == s[i];
  }

  // =====================================================================
  // Timeline and milestones
  // =====================================================================

  function CountPriority(gaps: seq<Gap>, p: Priority): (n: nat)
    ensures n <= |gaps|
  {
    if gaps == [] then 0
    else CountPriority(gaps[..|gaps| - 1], p) + (if gaps[|gaps| - 1].priority == p then 1 else 0)
  }

  /** Eight weeks per high-priority gap, four per medium one; low ones are free. */
  function TotalWeeks(gaps: seq<Gap>): int
  {
    CountPriority(gaps, High) * 8 + CountPriority(gaps, Medium) * 4
  }

  function WeeksNeeded(p: Priority): int
  {
    if p == High then 8 else 4
  }

  /** Week offset reached after working through `gaps` in order. */
  function CumulativeWeeks(gaps: seq<Gap>): int
  {
    if gaps == [] then 0 else CumulativeWeeks(gaps[..|gaps| - 1]) + WeeksNeeded(gaps[|gaps| - 1].priority)
  }

  datatype Milestone = Milestone(skill: string, week: int, description: string, priority: Priority)

  datatype Timeline = Timeline(totalWeeks: int, highPriorityWeeks: int, mediumPriorityWeeks: int, milestones: seq<Milestone>)

  method GenerateMilestones(gaps: seq<Gap>) returns (ms: seq<Milestone>)
    ensures |ms| == |gaps|
    ensures forall i | 0 <= i < |gaps| ::
      ms[i] == Milestone(gaps[i].skill, CumulativeWeeks(gaps[..i + 1]), "掌握" + gaps[i].skill + "技能", gaps[i].priority)
  {
    ms := [];
    var currentWeek := 0;
    for i := 0 to |gaps|
      invariant |ms| == i
      invariant currentWeek == CumulativeWeeks(gaps[..i])
      invariant forall k | 0 <= k < i ::
        ms[k] == Milestone(gaps[k].skill, CumulativeWeeks(gaps[..k + 1]), "掌握" + gaps[k].skill + "技能", gaps[k].priority)
    {
      var gap := gaps[i];
      var weeksNeeded := if gap.priority == High then 8 else 4;
      currentWeek := currentWeek + weeksNeeded;
      assert gaps[..i + 1][..i] == gaps[..i];
      ms := ms + [Milestone(gap.skill, currentWeek, "掌握" + gap.skill + "技能", gap.priority)];
    }
  }

  /** Milestones at the cumulative offsets of their gaps have strictly increasing weeks. */
  lemma MilestoneWeeksIncrease(gaps: seq<Gap>, ms: seq<Milestone>)
    requires |ms| == |gaps|
    requires forall i | 0 <= i < |gaps| :: ms[i].week == CumulativeWeeks(gaps[..i + 1])
    ensures forall i, j | 0 <= i < j < |ms| :: ms[i].week < ms[j].week
  {
    forall i, j | 0 <= i < j < |ms|
      ensures ms[i].week < ms[j].week
    {
      CumulativeWeeksIncrease(gaps, i + 1, j + 1);
    }
  }

  /** Milestone offsets strictly increase along the gap list. */
  lemma {:induction false} CumulativeWeeksIncrease(gaps: seq<Gap>, i: nat, j: nat)
    requires i < j <= |gaps|
    ensures CumulativeWeeks(gaps[..i]) + 4 * (j - i) <= CumulativeWeeks(gaps[..j])
    decreases j - i
  {
    assert gaps[..j][..j - 1] == gaps[..j - 1];
    if i < j - 1 {
      CumulativeWeeksIncrease(gaps, i, j - 1);
    }
  }

  /** The last milestone overshoots the total by four weeks per low-priority gap. */
  lemma {:induction false} CumulativeWeeksVersusTotal(gaps: seq<Gap>)
    ensures CumulativeWeeks(gaps) == TotalWeeks(gaps) + 4 * CountPriority(gaps, Low)
    ensures CumulativeWeeks(gaps) >= TotalWeeks(gaps)
  {
    if gaps != [] {
      CumulativeWeeksVersusTotal(gaps[..|gaps| - 1]);
    }
  }

  /** `t` is the time-line of `gaps`: eight weeks per high-priority gap and
      four per medium one, and one milestone per gap, in gap order, at the
      cumulative week offset of the gaps up to it. */
  predicate IsTimelineOf(t: Timeline, gaps: seq<Gap>)
  {
    && t.totalWeeks == 8 * CountPriority(gaps, High) + 4 * CountPriority(gaps, Medium)
    && t.highPriorityWeeks == 8 * CountPriority(gaps, High)
    && t.mediumPriorityWeeks == 4 * CountPriority(gaps, Medium)
    && |t.milestones| == |gaps|
    && forall i | 0 <= i < |gaps| ::
         t.milestones[i] == Milestone(gaps[i].skill, CumulativeWeeks(gaps[..i + 1]), "掌握" + gaps[i].skill + "技能", gaps[i].priority)
  }

  /** The time-line: week totals per priority and one milestone per gap, in gap order. */
  method EstimateImprovementTimeline(analysis: SkillAnalysis) returns (t: Timeline)
    ensures IsTimelineOf(t, analysis.gaps)
    ensures forall i, j | 0 <= i < j < |t.milestones| :: t.milestones[i].week < t.milestones[j].week
    ensures |t.milestones| > 0 ==> t.milestones[|t.milestones| - 1].week >= t.totalWeeks
  {
    var high := CountPriority(analysis.gaps, High);
    var medium := CountPriority(analysis.gaps, Medium);
    var ms := GenerateMilestones(analysis.gaps);
    t := Timeline(high * 8 + medium * 4, high * 8, medium * 4, ms);
    MilestoneWeeksIncrease(analysis.gaps, ms);
    if |ms| > 0 {
      assert analysis.gaps[..|ms|] == analysis.gaps;
      CumulativeWeeksVersusTotal(analysis.gaps);
    }
  }

  // =====================================================================
  // Confidence
  // =====================================================================

  /** The confidence heuristic: 70, +15 when strengths outnumber gaps or -20
      when gaps exceed twice the strengths, +10 from five years of experience
      or -10 under two, clamped to [0, 100]. */
  function ConfidenceScore(strengthCount: nat, gapCount: nat, experienceYears: int): (r: real)
    ensures 40.0 <= r <= 95.0
    ensures strengthCount > gapCount && experienceYears >= 5 ==> r == 95.0
    ensures gapCount > 2 * strengthCount && experienceYears < 2 ==> r == 40.0
    ensures strengthCount <= gapCount <= 2 * strengthCount && 2 <= experienceYears < 5 ==> r == 70.0
  {
    var skill := if strengthCount > gapCount then 15.0 else if gapCount > strengthCount * 2 then -20.0 else 0.0;
    var experience := if experienceYears >= 5 then 10.0 else if experienceYears < 2 then -10.0 else 0.0;
    Max(0.0, Min(100.0, 70.0 + skill + experience))
  }

  /** More experience never lowers confidence. */
  lemma ConfidenceMonotoneInYears(s: nat, g: nat, y1: int, y2: int)
    requires y1 <= y2
    ensures ConfidenceScore(s, g, y1) <= ConfidenceScore(s, g, y2)
  {
  }

  // =====================================================================
  // Job match
  // =====================================================================

  datatype JobMatch = JobMatch(
    skillMatch: real,
    experienceMatch: real,
    overallMatch: real,
    gaps: seq<Gap>,
    strengths: seq<Strength>,
    missingSkills: seq<string>,
    jdRequirements: JdAnalysis,
    improvementPriorities: seq<ImprovementPriority>,
    timeline: Timeline,
    confidenceScore: real)

  /** The planner's job match: extraction, gap analysis, the three scores,
      priorities, time-line and confidence (rounding is not modelled). */
  method AnalyzeJobMatch(jobDescription: string, user: seq<string>, experienceYears: int, reply: LlmReply<JdAnalysis>)
    returns (m: JobMatch)
    ensures |m.strengths| + |m.gaps| == |m.jdRequirements.required|
    ensures m.skillMatch == SkillMatchPercentage(|m.strengths|, |m.jdRequirements.required|)
    ensures 0.0 <= m.skillMatch <= 100.0 && 0.0 <= m.experienceMatch <= 100.0
    ensures m.experienceMatch == ExperienceMatch(m.jdRequirements.experience, experienceYears)
    ensures 2.0 * m.overallMatch == m.skillMatch + m.experienceMatch
    ensures m.confidenceScore == ConfidenceScore(|m.strengths|, |m.gaps|, experienceYears)
    ensures |m.improvementPriorities| <= 5 && |m.timeline.milestones| == |m.gaps|
    ensures var a := AnalysisOf(m.jdRequirements.required, user, PlannerBests(m.jdRequirements.required, user), PartialThreshold);
      m.gaps == a.gaps && m.strengths == a.strengths && m.missingSkills == a.missingSkills
    ensures m.improvementPriorities == TopPriorities(m.gaps)
    ensures IsTimelineOf(m.timeline, m.gaps)
    ensures reply.Parsed? ==> m.jdRequirements == reply.value
    ensures reply.Unparseable? ==> m.jdRequirements == JdAnalysis([], [], [])
    ensures reply.CallFailed? ==> IsFallbackOf(m.jdRequirements, jobDescription)
  {
    var jd := ExtractSkillsFromJd(jobDescription, reply);
    var analysis := AnalyzeSkillGaps(jd.required, user);
    var total := |jd.required|;
    var matched := |analysis.strengths|;
    var skillMatch := SkillMatchPercentage(matched, total);
    var experienceMatch := ExperienceMatch(jd.experience, experienceYears);
    var priorities := GenerateImprovementPriorities(analysis);
    var timeline := EstimateImprovementTimeline(analysis);
    m := JobMatch(
      skillMatch, experienceMatch, OverallMatch(skillMatch, experienceMatch),
      analysis.gaps, analysis.strengths, analysis.missingSkills, jd,
      priorities, timeline,
      ConfidenceScore(|analysis.strengths|, |analysis.gaps|, experienceYears));
  }

  // =====================================================================
  // Rule-based fallback recommendations
  // =====================================================================

  datatype Course = Course(
    id: string, name: string, platform: string, difficulty: string, duration: string,
    url: string, description: string, targetSkill: string, priority: string)

  datatype Project = Project(
    id: string, name: string, techStack: seq<string>, difficulty: string, duration: string,
    description: string, learningObjectives: seq<string>, targetSkills: seq<string>)

  datatype Practice = Practice(
    id: string, kind: string, frequency: string, focus: string, description: string, targetSkills: seq<string>)

  datatype LearningPlan = LearningPlan(shortTerm: seq<string>, mediumTerm: seq<string>, longTerm: seq<string>)

  datatype RecommendationTimeline = RecommendationTimeline(estimatedWeeks: int, milestones: seq<string>)

  datatype Recommendations = Recommendations(
    courses: seq<Course>, projects: seq<Project>, practice: seq<Practice>,
    learningPath: LearningPlan, timeline: RecommendationTimeline)

  const MachineLearningCourse := Course(
    "course_ml", "机器学习基础 - Coursera", "Coursera", "中级", "8周",
    "https://www.coursera.org/learn/machine-learning", "吴恩达教授的经典机器学习课程", "Machine Learning", "high")

  const PythonCourse := Course(
    "course_python", "Python编程基础 - Codecademy", "Codecademy", "初级", "3周",
    "https://www.codecademy.com/learn/learn-python-3", "从零开始学习Python编程", "Python", "high")

  const SystemDesignCourse := Course(
    "course_system_design", "系统设计面试准备 - Educative", "Educative", "高级", "6周",
    "https://www.educative.io/courses/grokking-the-system-design-interview", "专门针对系统设计面试的课程", "System Design", "high")

  const BasicProject := Project(
    "project_basic", "全栈Web应用开发", ["React", "Node.js", "MongoDB"], "中级", "4-6周",
    "开发一个完整的Web应用，涵盖前后端开发", ["掌握全栈开发", "学习数据库设计", "理解API开发"], ["React", "Node.js", "MongoDB"])

  const CodingPractice := Practice(
    "practice_coding", "编程练习", "每周3次", "算法和数据结构",
    "在LeetCode上练习编程题，重点练习目标岗位相关的算法", ["算法", "数据结构", "编程"])

  const InterviewPractice := Practice(
    "practice_interview", "模拟面试", "每周1次", "技术面试和系统设计",
    "模拟真实面试环境，练习技术问题回答", ["面试技巧", "技术表达", "系统设计"])

  predicate SomeGapMentions(gaps: seq<Gap>, topic: string)
  {
    exists g | g in gaps :: Contains(Lower(g.skill), topic)
  }

  /** The canned bundle: a course per recognised topic, a project when the
      skill match is under 50, and always the two practice items. */
  function SmartFallbackRecommendations(gaps: seq<Gap>, skillMatch: real): (r: Recommendations)
    ensures r.practice == [CodingPractice, InterviewPractice]
    ensures MachineLearningCourse in r.courses <==> SomeGapMentions(gaps, "machine learning")
    ensures PythonCourse in r.courses <==> SomeGapMentions(gaps, "python")
    ensures SystemDesignCourse in r.courses <==> SomeGapMentions(gaps, "system design")
    ensures forall c | c in r.courses :: c in [MachineLearningCourse, PythonCourse, SystemDesignCourse]
    ensures r.projects == (if skillMatch < 50.0 then [BasicProject] else [])
    ensures r.timeline.estimatedWeeks == 12
    ensures |r.courses| + |r.projects| + |r.practice| > 0
  {
    var courses :=
      (if SomeGapMentions(gaps, "machine learning") then [MachineLearningCourse] else [])
      + (if SomeGapMentions(gaps, "python") then [PythonCourse] else [])
      + (if SomeGapMentions(gaps, "system design") then [SystemDesignCourse] else []);
    Recommendations(
      courses,
      if skillMatch < 50.0 then [BasicProject] else [],
      [CodingPractice, InterviewPractice],
      LearningPlan(["掌握基础编程技能", "学习核心算法"], ["完成实战项目", "提升系统设计能力"], ["达到目标岗位要求", "准备面试"]),
      RecommendationTimeline(12, ["第4周完成基础课程", "第8周完成项目", "第12周准备面试"]))
  }
}
