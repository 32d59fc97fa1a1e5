/** The embedding-based variant of the planner: the same taxonomy fallback,
    scores, priorities and time-line, but one similarity scan over the raw
    held skills with the embedding cosine, a 0.7 threshold, and a fallback
    extraction whenever the model reply cannot be decoded. */
module EnhancedPlannerAnalysis {
  import opened Common
  import opened PlannerAnalysis

  /** Cosine similarity of the two labels' sentence embeddings, or None
      when the embedding model fails. */
  type Cosine = (string, string) -> Option<real>

  /** The variant's label similarity: the cosine, or 0.5 on failure. */
  function SemanticSimilarity(cosine: Cosine, text1: string, text2: string): (r: real)
    ensures cosine(text1, text2).None? ==> r == 0.5
    ensures cosine(text1, text2).Some? ==> r == cosine(text1, text2).value
  {
    match cosine(text1, text2)
    case Some(c) => c
    case None => 0.5
  }

  function SimilarityWith(cosine: Cosine): (string, string) -> real
  {
    (a: string, b: string) => SemanticSimilarity(cosine, a, b)
  }

  /** The variant's classification threshold. */
  const SemanticThreshold: real := 0.7

  /** The best similarity for each required skill: one scan over the raw
      held skills with the raw required name. */
  function SemanticBests(jds: seq<RequiredSkill>, user: seq<string>, cosine: Cosine): (bs: seq<Best>)
    ensures |bs| == |jds|
    ensures forall k | 0 <= k < |jds| :: bs[k] == ScanBest(SimilarityWith(cosine), jds[k].skill, user, Best(0.0, None))
  {
    if jds == [] then []
    else SemanticBests(jds[..|jds| - 1], user, cosine)
         + [ScanBest(SimilarityWith(cosine), jds[|jds| - 1].skill, user, Best(0.0, None))]
  }

  method AnalyzeSkillGaps(jds: seq<RequiredSkill>, user: seq<string>, cosine: Cosine) returns (r: SkillAnalysis)
    ensures r == AnalysisOf(jds, user, SemanticBests(jds, user, cosine), SemanticThreshold)
    ensures r.strengthCount + r.gapCount == |jds|
    ensures r.strengths == StrengthsRef(jds, user)
    ensures r.missingSkills == MissingRef(r.gaps)
  {
    var gaps: seq<Gap>, strengths: seq<Strength>, missing: seq<string> := [], [], [];
    for i := 0 to |jds|
      invariant Partition(gaps, strengths, missing) == PartitionOf(jds[..i], user, SemanticBests(jds[..i], user, cosine), SemanticThreshold)
    {
      var j := jds[i];
      assert jds[..i + 1][..i] == jds[..i];
      if j.skill in user {
        strengths := strengths + [StrengthOf(j)];
      } else {
        var b := BestMatch(SimilarityWith(cosine), j.skill, user, Best(0.0, None));
        var g := Classify(j, b, SemanticThreshold);
        gaps := gaps + [g];
        if g.status.Missing? {
          missing := missing + [j.skill];
        }
      }
    }
    assert jds[..|jds|] == jds;
    r := SkillAnalysis(gaps, strengths, missing, |gaps|, |strengths|);
    AnalysisIsPartition(jds, user, SemanticBests(jds, user, cosine), SemanticThreshold);
  }

  /** A required skill that is not held is a partial gap exactly when some
      held skill is more than 0.7 similar to it. */
  lemma PartialIffSimilarHeldSkill(j: RequiredSkill, user: seq<string>, cosine: Cosine)
    ensures Classify(j, ScanBest(SimilarityWith(cosine), j.skill, user, Best(0.0, None)), SemanticThreshold).status.Partial?
        <==> exists k | 0 <= k < |user| :: SemanticSimilarity(cosine, j.skill, user[k]) > SemanticThreshold
  {
    var sim := SimilarityWith(cosine);
    ScanBestIsFirstMaximum(sim, j.skill, user, Best(0.0, None));
    var r := ScanBest(sim, j.skill, user, Best(0.0, None));
    if exists k | 0 <= k < |user| :: SemanticSimilarity(cosine, j.skill, user[k]) > SemanticThreshold {
      var k :| 0 <= k < |user| && SemanticSimilarity(cosine, j.skill, user[k]) > SemanticThreshold;
      assert sim(j.skill, user[k]) <= r.similarity;
    }
    if r.similarity > SemanticThreshold {
      var k :| 0 <= k < |user| && r == Best(sim(j.skill, user[k]), Some(user[k]));
      assert SemanticSimilarity(cosine, j.skill, user[k]) > SemanticThreshold;
    }
  }

  /** When the embedding model fails on every pair, every similarity is 0.5,
      below the threshold, so every gap is missing. */
  lemma FailingEmbeddingsGiveOnlyMissingGaps(jds: seq<RequiredSkill>, user: seq<string>, cosine: Cosine)
    requires forall a, b :: cosine(a, b).None?
    ensures var a := AnalysisOf(jds, user, SemanticBests(jds, user, cosine), SemanticThreshold);
      forall g | g in a.gaps :: g.status.Missing?
  {
    var bests := SemanticBests(jds, user, cosine);
    AnalysisIsPartition(jds, user, bests, SemanticThreshold);
    forall g | g in AnalysisOf(jds, user, bests, SemanticThreshold).gaps
      ensures g.status.Missing?
    {
      GapsRefFrom(jds, user, bests, SemanticThreshold, g);
      var k :| 0 <= k < |jds| && jds[k].skill !in user && g == Classify(jds[k], bests[k], SemanticThreshold);
      FailingSimilarityIsHalf(cosine, jds[k].skill, user);
      ScanBestBounded(SimilarityWith(cosine), jds[k].skill, user, Best(0.0, None), 0.5);
    }
  }

  /** A failing embedding model scores every pair 0.5. */
  lemma FailingSimilarityIsHalf(cosine: Cosine, name: string, cands: seq<string>)
    requires forall a, b :: cosine(a, b).None?
    ensures forall k | 0 <= k < |cands| :: SimilarityWith(cosine)(name, cands[k]) <= 0.5
  {
    forall k | 0 <= k < |cands|
      ensures SimilarityWith(cosine)(name, cands[k]) <= 0.5
    {
      assert cosine(name, cands[k]).None?;
    }
  }

  /** A partial gap of the variant always records its similar held skill. */
  lemma SemanticPartialGapsNameSimilarSkill(jds: seq<RequiredSkill>, user: seq<string>, cosine: Cosine)
    ensures forall g | g in AnalysisOf(jds, user, SemanticBests(jds, user, cosine), SemanticThreshold).gaps
              :: g.status.Partial? ==> g.status.similarSkill.Some?
  {
    var bests := SemanticBests(jds, user, cosine);
    forall k | 0 <= k < |bests|
      ensures bests[k].similarity > 0.0 ==> bests[k].skill.Some?
    {
      ScanBestIsFirstMaximum(SimilarityWith(cosine), jds[k].skill, user, Best(0.0, None));
    }
    PartialGapsNameSimilarSkill(jds, user, bests, SemanticThreshold);
  }

  /** The variant decodes the raw reply with no fence stripping; any failure,
      of the call or of the decoding, falls back to the taxonomy scan. */
  method ExtractSkillsFromJd(jobDescription: string, reply: LlmReply<JdAnalysis>) returns (r: JdAnalysis)
    ensures reply.Parsed? ==> r == reply.value
    ensures !reply.Parsed? ==> IsFallbackOf(r, jobDescription)
    ensures !reply.Parsed? ==> forall h | h in r.required + r.preferred :: h in TaxonomyHits(jobDescription)
  {
    if reply.Parsed? {
      r := reply.value;
    } else {
      r := FallbackSkillExtraction(jobDescription);
    }
  }

  /** The variant's job match (the narrative analysis and rounding are not
      modelled). */
  method EnhancedJobMatchAnalysis(
    jobDescription: string, user: seq<string>, experienceYears: int,
    reply: LlmReply<JdAnalysis>, cosine: Cosine)
    returns (m: JobMatch)
    ensures |m.strengths| + |m.gaps| == |m.jdRequirements.required|
    ensures m.skillMatch == SkillMatchPercentage(|m.strengths|, |m.jdRequirements.required|)
    ensures 0.0 <= m.skillMatch <= 100.0 && 0.0 <= m.experienceMatch <= 100.0
    ensures m.experienceMatch == ExperienceMatch(m.jdRequirements.experience, experienceYears)
    ensures 2.0 * m.overallMatch == m.skillMatch + m.experienceMatch
    ensures m.confidenceScore == ConfidenceScore(|m.strengths|, |m.gaps|, experienceYears)
    ensures |m.improvementPriorities| <= 5 && |m.timeline.milestones| == |m.gaps|
    ensures var a := AnalysisOf(m.jdRequirements.required, user,
                                SemanticBests(m.jdRequirements.required, user, cosine), SemanticThreshold);
      m.gaps == a.gaps && m.strengths == a.strengths && m.missingSkills == a.missingSkills
    ensures m.improvementPriorities == TopPriorities(m.gaps)
    ensures IsTimelineOf(m.timeline, m.gaps)
    ensures reply.Parsed? ==> m.jdRequirements == reply.value
    ensures !reply.Parsed? ==> IsFallbackOf(m.jdRequirements, jobDescription)
  {
    var jd := ExtractSkillsFromJd(jobDescription, reply);
    var analysis := AnalyzeSkillGaps(jd.required, user, cosine);
    var skillMatch := SkillMatchPercentage(|analysis.strengths|, |jd.required|);
    var experienceMatch := ExperienceMatch(jd.experience, experienceYears);
    var priorities := GenerateImprovementPriorities(analysis);
    var timeline := EstimateImprovementTimeline(analysis);
    m := JobMatch(
      skillMatch, experienceMatch, OverallMatch(skillMatch, experienceMatch),
      analysis.gaps, analysis.strengths, analysis.missingSkills, jd,
      priorities, timeline,
      ConfidenceScore(|analysis.strengths|, |analysis.gaps|, experienceYears));
  }
}
