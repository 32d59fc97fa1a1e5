# Interview planner core in Dafny

This project models the deterministic core of an AI interview-coaching
system. The system has three main parts:

- A planner service. It reads a job description and the candidate's skills,
  works out which required skills the candidate holds, which are partial or
  missing gaps, and derives scores, priorities, a study timeline and fallback
  recommendations from that analysis.
- An interview pipeline. It scores an answer (STAR structure, clarity,
  specificity), normalises the language model's reply and picks follow-up
  questions and improvement suggestions.
- Supporting pieces: two progress trackers (an in-memory one and one over
  stored plans and progress logs), the server's practice statistics, and a
  combined text-and-speech response. The server frames that response as a
  multipart body and the browser client splits it apart again.

There is one module per source file:

- `PlannerAnalysis`: the skill-gap analysis engine.
- `EnhancedPlannerAnalysis`: its embedding-based variant.
- `RagPipeline`: the interview pipeline.
- `AppMemory`: the in-memory tracker, a class.
- `ProgressTracker`: the tracker over stored plans, a class.
- `AppServer`: the HTTP server's computations.
- `ApiClient`: the client's multipart parser.
- `Common` and `Text`: shared helpers. `Text` covers Python and JavaScript string operations and UTF-8 encoding.

Three design points:

- Loops that update locals are methods. Each is proved equal to a
  specification function, and the properties are proved as lemmas about that
  function.
- The in-memory tracker's nested dictionary is a class field that is updated
  in place.
- The multipart encoder and decoder are proved to round-trip.

## Model

| member | source | states |
|---|---|---|
| PlannerAnalysis.Similarity | backend/services/planner_analysis.py:137-207 | The result is 1.0 exactly when the labels are equal ignoring case. Every result is one of 1.0, 0.9, 0.85, 0.8, 0.6, 0.4, 0.1. |
| PlannerAnalysis.SimilarityReflexive | backend/services/planner_analysis.py:141-142 | Any label compared with itself scores 1.0. |
| PlannerAnalysis.SimilaritySymmetric | backend/services/planner_analysis.py:137-204 | Swapping the two labels never changes the score. The map lookup is tried in both directions, and the other rules are symmetric. |
| PlannerAnalysis.SymmetricRules | backend/services/planner_analysis.py:187-202 | Sharing a synonym cluster, sharing a category and sharing a whitespace token are each symmetric relations. |
| PlannerAnalysis.CategoryHitsMembers | backend/services/planner_analysis.py:119-127 | One category emits exactly its labels that occur in the lower-cased text, each with importance "medium" and that category. |
| PlannerAnalysis.HitsInMembers | backend/services/planner_analysis.py:119-127 | The scan over several categories emits exactly the (label, category) pairs whose label occurs in the text. |
| PlannerAnalysis.HitsInMedium | backend/services/planner_analysis.py:123-126 | Every emitted skill has importance "medium". |
| PlannerAnalysis.TaxonomyHitsExactly | backend/services/planner_analysis.py:13-46 | Over the service's own taxonomy, a skill is emitted exactly when one of its labels occurs case-insensitively in the job description. |
| PlannerAnalysis.EmittedOncePerCategory | backend/services/planner_analysis.py:119-127 | A label listed in two categories is emitted once for each category. |
| PlannerAnalysis.ScanTaxonomy | backend/services/planner_analysis.py:119-127 | The nested loop returns exactly the specification scan, in taxonomy order. |
| PlannerAnalysis.FallbackSkillExtraction | backend/services/planner_analysis.py:117-135 | The result is the fallback record (`IsFallbackOf`). Required skills are the first five hits. Preferred skills are hits 6 to 8, or none when there are at most five hits. The experience list is the single 3-year entry. Every returned skill is a taxonomy hit with importance "medium". |
| PlannerAnalysis.ExtractSkillsFromJd | backend/services/planner_analysis.py:48-115 | A parsed model reply is returned as is. An unparseable reply gives the empty default structure. A failed call gives the fallback record: the first five taxonomy hits required, hits 6 to 8 preferred, and the fixed 3-year entry. |
| PlannerAnalysis.ExpandMembers | backend/services/planner_analysis.py:219-243 | The expanded list holds exactly each held skill lower-cased and the aliases of that lower-cased skill. |
| PlannerAnalysis.NormalizeUserSkills | backend/services/planner_analysis.py:219-243 | The loop builds the expanded list. Membership in it is characterised in both directions. |
| PlannerAnalysis.ScanBestIsFirstMaximum | backend/services/planner_analysis.py:261-274 | The running maximum ends at or above every candidate's similarity and at or above its start value. When it moved, it holds the first candidate that reached the maximum. |
| PlannerAnalysis.BestMatch | backend/services/planner_analysis.py:261-274 | The strict-greater scan loop computes the specification scan. |
| PlannerAnalysis.FirstMapped | backend/services/planner_analysis.py:301-306 | A curated hit is an alias that is also a normalised held skill. There is no hit exactly when no alias is held. |
| PlannerAnalysis.FirstMappedHit | backend/services/planner_analysis.py:303-306 | The loop that breaks on the first held alias returns that first hit. |
| PlannerAnalysis.BestFor | backend/services/planner_analysis.py:261-306 | A curated alias hit, keyed by the original-case name, overrides the best match to exactly 0.8. |
| PlannerAnalysis.FindBestMatch | backend/services/planner_analysis.py:261-306 | The method runs both scans and then the curated check. It equals the specification. |
| PlannerAnalysis.BestForDominates | backend/services/planner_analysis.py:261-274 | Without a curated hit, the best similarity dominates every normalised and every raw held skill. A positive best names a held skill. |
| PlannerAnalysis.TwoScansDominate | backend/services/planner_analysis.py:261-274 | Chaining the second scan after the first dominates the candidates of both scans. |
| PlannerAnalysis.Classify | backend/services/planner_analysis.py:308-326 | The status is partial exactly when best > threshold, carrying the similar skill and its similarity. A partial gap has priority medium for high importance and low otherwise. A missing gap has priority high for high importance and medium otherwise. |
| PlannerAnalysis.StrengthsRefSnoc | backend/services/planner_analysis.py:246-258 | Appending a required skill appends one strength exactly when its name is held verbatim. |
| PlannerAnalysis.GapsRefSnoc | backend/services/planner_analysis.py:246-326 | Appending a required skill that is not held appends exactly its classified gap. |
| PlannerAnalysis.MissingRefSnoc | backend/services/planner_analysis.py:318-326 | The missing-skill list grows exactly by the names of missing gaps. |
| PlannerAnalysis.PartitionMatchesReference | backend/services/planner_analysis.py:246-336 | The one-pass partition equals the separate strength, gap and missing references. The strength count plus the gap count is the number of required skills. |
| PlannerAnalysis.StrengthsRefHeld | backend/services/planner_analysis.py:252-258 | A skill is a strength if and only if its name is an exact, case-sensitive member of the held skills. |
| PlannerAnalysis.GapsRefNotHeld | backend/services/planner_analysis.py:259-326 | Every gap is a skill that is not held. Every required skill that is not held has a gap. |
| PlannerAnalysis.AnalysisIsPartition | backend/services/planner_analysis.py:246-336 | The analysis record is a partition of the required skills in input order. Its counts equal its list lengths. Missing skills are exactly the names of missing gaps. |
| PlannerAnalysis.BestsFor | backend/services/planner_analysis.py:246-306 | There is one best match per required skill, in order. |
| PlannerAnalysis.AnalyzeSkillGaps | backend/services/planner_analysis.py:209-336 | The whole analysis equals the specification with threshold 0.6, the expanded skills and the curated table. It keeps the partition counts. |
| PlannerAnalysis.ClassifySkills | backend/services/planner_analysis.py:246-336 | The classification loop equals the specification for any normalised list and alias table. |
| PlannerAnalysis.BestsForRecordSkill | backend/services/planner_analysis.py:264-306 | Every positive best similarity names the held skill that produced it. |
| PlannerAnalysis.PartialGapsNameSimilarSkill | backend/services/planner_analysis.py:308-317 | Every partial gap names a similar held skill. |
| PlannerAnalysis.GapsRefFrom | backend/services/planner_analysis.py:259-326 | Every gap is the classification of some required skill that is not held. |
| PlannerAnalysis.ScanBestBounded | backend/services/planner_analysis.py:261-274 | A bound on all candidate similarities and on the start value bounds the scan result. |
| PlannerAnalysis.CaseVariantIsFullSimilarity | backend/services/planner_analysis.py:219-274 | A required skill held only in another letter case is not a strength. Without a curated hit it is a partial gap at similarity 1.0. |
| PlannerAnalysis.TwoScansReachTop | backend/services/planner_analysis.py:261-274 | When similarities are at most 1.0 and a first-scan candidate reaches 1.0, both scans end at exactly 1.0. |
| PlannerAnalysis.AliasIsFullSimilarity | backend/services/planner_analysis.py:219-274 | A required skill whose lower-cased name is an alias of a held skill is a partial gap at similarity 1.0, unless a curated hit applies. |
| PlannerAnalysis.TensorFlowGivesFullMachineLearning | backend/services/planner_analysis.py:219-317 | "Machine Learning" required with "TensorFlow" held is a partial gap at similarity 1.0, not 0.8. The curated key "machine learning" does not match the capitalised name. |
| PlannerAnalysis.LowerCasePythonIsAGap | backend/services/planner_analysis.py:252 | "Python" required and "python" held gives no strength and one gap. |
| PlannerAnalysis.ExperienceMatch | backend/services/planner_analysis.py:385-400 | With no requirements the result is 70. Otherwise let avg be the mean of the years, a missing year counting as 0. The result is min(100, 70+10(u-avg)) when u ≥ avg and max(0, 70-15(avg-u)) below. It always lies in [0, 100]. |
| PlannerAnalysis.ExperienceMatchMonotone | backend/services/planner_analysis.py:385-400 | More years never lower the experience match. |
| PlannerAnalysis.ExperienceMatchAnchor | backend/services/planner_analysis.py:392-400 | The match is exactly 70 if and only if the candidate's years equal the mean requirement. |
| PlannerAnalysis.ExperienceMatchExamples | backend/services/planner_analysis.py:385-400 | [3] with 5 years gives 90. [5] with 2 years gives 25. A requirement without years, with 0 years held, gives 70. |
| PlannerAnalysis.SkillMatchPercentage | backend/services/planner_analysis.py:355-358 | The result is 100·matched/total, or 0 with no required skills. It lies in [0, 100]. |
| PlannerAnalysis.OverallMatch | backend/services/planner_analysis.py:374 | The overall match is the mean of the skill and experience matches, so it lies between them. |
| PlannerAnalysis.ImportanceWeight | backend/services/planner_analysis.py:472-477 | The importance weight is 3, 2 or 1. |
| PlannerAnalysis.StatusWeight | backend/services/planner_analysis.py:479-482 | The status weight of a gap is 2 for missing and 1 for partial. |
| PlannerAnalysis.LearningPath | backend/services/planner_analysis.py:495-529 | Every path has exactly three steps and starts with a "学习" step for the skill. Uncatalogued categories get the generic template. |
| PlannerAnalysis.PriorityEntry | backend/services/planner_analysis.py:470-489 | The score is the importance weight plus the status weight, in [2, 5]. The estimated time is "2-4周" for partial gaps and "1-3个月" otherwise. The learning path has three steps. |
| PlannerAnalysis.PriorityEntries | backend/services/planner_analysis.py:470-489 | There is one entry per gap, in gap order. |
| PlannerAnalysis.SortFromSorted | backend/services/planner_analysis.py:492 | The bucket sort from score k down is sorted by descending score, and no score in it exceeds k. |
| PlannerAnalysis.SortFromPermutes | backend/services/planner_analysis.py:492 | The bucket sort is a permutation of the entries with score at most k. |
| PlannerAnalysis.SortFromStable | backend/services/planner_analysis.py:492 | For every score, the sorted list keeps the entries with that score in their original order. |
| PlannerAnalysis.SortByScoreDescIsStableSort | backend/services/planner_analysis.py:492 | The sort is ordered by descending score, a permutation, and stable: for every score the entries with that score keep their order. |
| PlannerAnalysis.BuildPriorityEntries | backend/services/planner_analysis.py:468-489 | The loop builds one entry per gap, and all scores lie in range. |
| PlannerAnalysis.GenerateImprovementPriorities | backend/services/planner_analysis.py:466-493 | The result is the first five entries of the stable descending sort of the gaps' priority entries (`TopPriorities`). Its length is min(5, #gaps). It is sorted, and every entry is an entry of some gap. |
| PlannerAnalysis.TopPrioritiesAreTop | backend/services/planner_analysis.py:491-493 | The top priorities are min(5, #gaps) entries, sorted by descending score, each an entry of some gap. |
| PlannerAnalysis.GenerateMilestones | backend/services/planner_analysis.py:552-568 | There is one milestone per gap, in gap order. Each milestone's week is the cumulative offset up to and including its gap, which adds 8 for high priority and 4 otherwise. |
| PlannerAnalysis.CumulativeWeeksIncrease | backend/services/planner_analysis.py:557-559 | Offsets increase by at least 4 per gap, so milestone weeks strictly increase. |
| PlannerAnalysis.CumulativeWeeksVersusTotal | backend/services/planner_analysis.py:531-568 | The last offset equals total_weeks plus 4 for each low-priority gap, so it is at least total_weeks. |
| PlannerAnalysis.EstimateImprovementTimeline | backend/services/planner_analysis.py:531-544 | The result is the gaps' time-line (`IsTimelineOf`): total_weeks = 8·#high + 4·#medium, with the high and medium parts reported separately. Milestone i names gap i, with its priority and "掌握…技能", at the cumulative weeks of gaps 0..i. Milestone weeks strictly increase, and the last one is at least total_weeks. |
| PlannerAnalysis.ConfidenceScore | backend/services/planner_analysis.py:570-591 | The score always lies in [40, 95]. It is 95 for more strengths than gaps with at least 5 years. It is 40 for more than twice as many gaps with under 2 years. It is 70 in the neutral band. |
| PlannerAnalysis.ConfidenceMonotoneInYears | backend/services/planner_analysis.py:585-589 | More years never lower the confidence. |
| PlannerAnalysis.AnalyzeJobMatch | backend/services/planner_analysis.py:338-383 | The gaps, strengths and missing skills are those of the gap analysis of the extracted required skills. Strengths plus gaps equal the required skills. The skill match, experience match, overall mean and confidence are each tied to their definitions. The priorities are the top five of the stable sort, and the time-line is the gaps' time-line. The requirements are the parsed reply, the empty structure, or the fallback record, according to the reply. |
| PlannerAnalysis.SmartFallbackRecommendations | backend/services/planner_analysis.py:730-825 | The practice items are always exactly the coding and interview items. There is a course for each of "machine learning", "python" and "system design" if and only if some gap's lower-cased name contains it. The project appears exactly when the skill match is under 50. The timeline is always 12 weeks. |
| EnhancedPlannerAnalysis.SemanticSimilarity | backend/services/enhanced_planner_analysis.py:86-96 | The result is the embedding cosine, or exactly 0.5 when the embedding fails. |
| EnhancedPlannerAnalysis.SemanticBests | backend/services/enhanced_planner_analysis.py:122-129 | There is one strict-greater scan from 0 over the raw held skills per required skill. |
| EnhancedPlannerAnalysis.AnalyzeSkillGaps | backend/services/enhanced_planner_analysis.py:98-158 | The analysis equals the specification with threshold 0.7. It is a partition, strengths are exact members of the held skills, and missing skills are the missing gaps' names. |
| EnhancedPlannerAnalysis.PartialIffSimilarHeldSkill | backend/services/enhanced_planner_analysis.py:122-141 | A skill that is not held is a partial gap if and only if some held skill has similarity above 0.7. |
| EnhancedPlannerAnalysis.FailingEmbeddingsGiveOnlyMissingGaps | backend/services/enhanced_planner_analysis.py:86-150 | When every embedding fails, every gap is missing, because 0.5 is not above 0.7. |
| EnhancedPlannerAnalysis.SemanticPartialGapsNameSimilarSkill | backend/services/enhanced_planner_analysis.py:131-139 | Every partial gap names its similar held skill. |
| EnhancedPlannerAnalysis.ExtractSkillsFromJd | backend/services/enhanced_planner_analysis.py:28-84 | A parsed reply is returned as is. Otherwise the result is the fallback record: the first five taxonomy hits required, hits 6 to 8 preferred, and the fixed 3-year entry. |
| EnhancedPlannerAnalysis.EnhancedJobMatchAnalysis | backend/services/enhanced_planner_analysis.py:160-206 | The gaps, strengths and missing skills are those of the embedding-based analysis (threshold 0.7) of the extracted required skills. The scores, the top-five priorities and the time-line are tied to their definitions as in the planner's job match. The requirements are the parsed reply or else the fallback record. |
| RagPipeline.NewInterviewContext | backend/rag/rag_pipeline.py:52-62 | A missing session history becomes the empty list. All other fields are kept. |
| RagPipeline.DefaultInterviewContext | backend/rag/rag_pipeline.py:52-58 | The defaults are no description, no company, a "behavioral" interview and an empty history. |
| RagPipeline.ComponentScore | backend/rag/rag_pipeline.py:81-83 | A STAR component scores 1.0 if and only if one of its keywords occurs in the text, and 0.0 otherwise. |
| RagPipeline.ComponentScores | backend/rag/rag_pipeline.py:81-83 | There is one score per component, in table order. |
| RagPipeline.ScoreComponents | backend/rag/rag_pipeline.py:77-83 | The loop fills one entry per component name with its score. |
| RagPipeline.ScoreStructure | backend/rag/rag_pipeline.py:77-86 | The component entries are added, and "overall" is their sum divided by the number of components. |
| RagPipeline.SumScores | backend/rag/rag_pipeline.py:85 | The summation loop adds up exactly the component scores, in table order. |
| RagPipeline.StarTable | backend/rag/rag_pipeline.py:68-73 | The STAR table has the four distinct components situation, task, action and result. |
| RagPipeline.QuarterSteps | backend/rag/rag_pipeline.py:85 | Four 0/1 scores average to 0, 0.25, 0.5, 0.75 or 1. |
| RagPipeline.AnalyzeStructure | backend/rag/rag_pipeline.py:75-86 | The keys are the four components and "overall". Each component is scored on the lower-cased answer. "overall" is the mean and lies in {0, .25, .5, .75, 1}. |
| RagPipeline.SentenceWordCounts | backend/rag/rag_pipeline.py:90-91 | Only non-blank sentences are counted, and each has at least one word. |
| RagPipeline.ClarityBand | backend/rag/rag_pipeline.py:94-100 | The band is 1.0 exactly for a mean in [15, 20], and 0.8 exactly for a mean in [10, 25] outside that. It is 0.6 otherwise, including when there is no mean. |
| RagPipeline.AnalyzeClarity | backend/rag/rag_pipeline.py:88-102 | Clarity is 1.0, 0.8 or 0.6. With no non-blank sentence, where NumPy's mean is NaN, it is 0.6. |
| RagPipeline.SplitOnWithoutSeparator | backend/rag/rag_pipeline.py:90 | Splitting text without a '.' gives the text itself. |
| RagPipeline.ClarityOfOneSentence | backend/rag/rag_pipeline.py:88-102 | A non-blank answer without a full stop is banded by its own word count. |
| RagPipeline.CountFound | backend/rag/rag_pipeline.py:115-116 | At most one match is counted per pattern. |
| RagPipeline.AnalyzeSpecificity | backend/rag/rag_pipeline.py:104-118 | Specificity lies in [0, 1]. It is 1 once three patterns match, and k/3 for k < 3 matches. |
| RagPipeline.CountFoundMonotone | backend/rag/rag_pipeline.py:115-116 | Matching more patterns never lowers the count. |
| RagPipeline.SpecificityMonotone | backend/rag/rag_pipeline.py:104-118 | Matching more patterns never lowers specificity. |
| RagPipeline.StripJsonFenceRoundTrip | backend/rag/rag_pipeline.py:240-243 | A ```json … ``` block comes back as its trimmed content. |
| RagPipeline.StripJsonFenceUnfenced | backend/rag/rag_pipeline.py:240 | Output that does not start with the fence after trimming is left untouched. |
| RagPipeline.Interpret | backend/rag/rag_pipeline.py:246-268 | Undecodable output, or output that is not an object, becomes the question with empty feedback and no suggestions. Otherwise a missing or falsy question becomes the fixed prompt. A missing or falsy feedback becomes {}, and missing or falsy suggestions become []. A non-dict feedback becomes {"general": str}, and a non-list list of suggestions becomes [str]. The score is always None. |
| RagPipeline.ParseModelOutput | backend/rag/rag_pipeline.py:233-268 | The score is always None. |
| RagPipeline.FencedReplyDecodesContent | backend/rag/rag_pipeline.py:236-268 | A fenced reply is decoded from its trimmed content. |
| RagPipeline.GenerateFollowUp | backend/rag/rag_pipeline.py:270-299 | With fewer than 3 turns and configured questions, the reply is question n mod len. Otherwise the first rule that applies decides, in order: the team question ("team" without earlier collaboration), the challenge question ("challenge" without "overcome"), the metric question, the scenario question n mod len while scenarios remain, and otherwise the closing sentence. |
| RagPipeline.FollowUpIsKnownQuestion | backend/rag/rag_pipeline.py:279-299 | Every follow-up is a configured question, one of the four fixed prompts, or built from a configured scenario. |
| RagPipeline.WeakComponents | backend/rag/rag_pipeline.py:359 | The components scored below 0.5 are kept in order. |
| RagPipeline.GetImprovements | backend/rag/rag_pipeline.py:351-371 | The result is the first three triggered suggestions in order (`Suggestions`), or exactly the two defaults when none is triggered. There are 1 to 3 suggestions. |
| RagPipeline.Suggestions | backend/rag/rag_pipeline.py:355-366 | The triggered list is the missing-components line, then the two specificity lines, then the two clarity lines, each present only when its test fires. It is empty exactly when nothing is triggered, and has at most five items. |
| RagPipeline.CalculateScore | backend/rag/rag_pipeline.py:373-387 | Inputs in [0, 1] give a score in [0, 1]. |
| RagPipeline.ScoreWeights | backend/rag/rag_pipeline.py:375-385 | The weights sum to one (equal inputs give that value), and the score is monotone in each input. |
| RagPipeline.ScoreOfAnalysisBounds | backend/rag/rag_pipeline.py:373-387 | Scoring the analyser's own outputs gives at least 0.18 and at most 1. |
| AppMemory.Put | backend/planner_temp/backend_temp/app_memory.py:166-168 | Assigning a key sets exactly that value. An existing key keeps its position and a new key is appended. |
| AppMemory.MeanOf | backend/planner_temp/backend_temp/app_memory.py:139-140 | With no entries the mean is 0. |
| AppMemory.MeanBounded | backend/planner_temp/backend_temp/app_memory.py:139-140 | A sum over max(len, 1) of percentages in [0, hi] lies in [0, hi]. |
| AppMemory.ReportOf | backend/planner_temp/backend_temp/app_memory.py:138-150 | The report carries the two means and the interview count. Let u = (c + p + 0.3·n)/3. Overall is u when u ≤ 1 and 1 otherwise, so it never exceeds 1. |
| AppMemory.ReportInUnitRange | backend/planner_temp/backend_temp/app_memory.py:143-149 | Percentages in [0, 1] and a non-negative count give an overall figure in [0, 1]. |
| AppMemory.ApplyActivity | backend/planner_temp/backend_temp/app_memory.py:165-171 | One update keeps the record well-formed. |
| AppMemory.ApplyActivityEffect | backend/planner_temp/backend_temp/app_memory.py:165-171 | A course or project update overwrites exactly that entry and nothing else. An interview update adds 1 if and only if it is completed. Any other type changes nothing. |
| AppMemory.MemoryProgressTracker.constructor | backend/planner_temp/backend_temp/app_memory.py:125-126 | The tracker starts with no plans. |
| AppMemory.MemoryProgressTracker.CalculatePlanProgress | backend/planner_temp/backend_temp/app_memory.py:128-150 | A plan never updated reports four zeros. Otherwise the result is the record's report, whose overall figure is at most 1. |
| AppMemory.MemoryProgressTracker.UpdateProgress | backend/planner_temp/backend_temp/app_memory.py:152-173 | A new plan starts from an empty record. The plan's record becomes the update applied to the old record, and other plans are unchanged. The result is the new state's progress. |
| AppMemory.MemoryProgressTracker.TotalProgress | backend/planner_temp/backend_temp/app_memory.py:407 | The total is the sum of the plans' overall progress values, and at most the number of plans. |
| AppMemory.MemoryProgressTracker.Overalls | backend/planner_temp/backend_temp/app_memory.py:407 | Entry i is the overall progress of plan i, as the tracker reports it. |
| AppMemory.MemoryProgressTracker.UserPlannerSummary | backend/planner_temp/backend_temp/app_memory.py:401-415 | The summary counts the user's plans. Completed plans are the number of the user's plans with status "completed". The average is the summed overall progress of the user's plans over max(count, 1), and at most 1. The recent plans are exactly the last min(5, count) plans. |
| AppMemory.UserPlans | backend/planner_temp/backend_temp/app_memory.py:403 | This is exactly the user's stored plans. |
| AppMemory.CountCompleted | backend/planner_temp/backend_temp/app_memory.py:406 | The count is the number of positions whose status is exactly "completed", at most all plans. |
| AppMemory.AverageOf | backend/planner_temp/backend_temp/app_memory.py:407 | The average times the count is the total for a positive count. With no plans it is the total itself, 0 for the summary. A total at most the count gives an average at most 1. |
| ProgressTracker.FindPlan | backend/services/progress_tracker.py:45-47 | The first plan with that id is found, or none exists. |
| ProgressTracker.CompletedCount | backend/services/progress_tracker.py:19-36 | No more logs are counted than exist. |
| ProgressTracker.CompletedCountAppend | backend/services/progress_tracker.py:19-36 | The count over logs grows by one exactly for a completed log of that plan and activity type. It counts logs, not distinct activities. |
| ProgressTracker.Percentage | backend/services/progress_tracker.py:19-36 | The percentage is 100·completed/total, or 0 when total is 0. |
| ProgressTracker.PercentageFull | backend/services/progress_tracker.py:19-36 | The percentage reaches 100 if and only if total > 0 and completed ≥ total. |
| ProgressTracker.PlanProgressOf | backend/services/progress_tracker.py:10-41 | Course and project progress count the completed logs against the recommended list's length. Interviews count against a fixed target of 5, uncapped. |
| ProgressTracker.BadgesDistinct | backend/services/progress_tracker.py:54-68 | The five badge names are distinct. |
| ProgressTracker.BadgeRules | backend/services/progress_tracker.py:53-68 | Each badge is earned if and only if its rule holds: course percentage ≥ 100, project percentage ≥ 100, interviews ≥ 5, skill match ≥ 90, experience match ≥ 85. No badge appears twice. |
| ProgressTracker.MergeBadges | backend/services/progress_tracker.py:71-74 | Existing badges keep their order as a prefix. The result holds exactly the old and the new badges. |
| ProgressTracker.MergeBadgesNoDuplicates | backend/services/progress_tracker.py:71-74 | Merging badges never introduces a duplicate. |
| ProgressTracker.Tracker.constructor | backend/services/progress_tracker.py:7-8 | The tracker holds the given plans and logs. |
| ProgressTracker.Tracker.CalculatePlanProgress | backend/services/progress_tracker.py:10-41 | This is the plan's progress over the stored logs. |
| ProgressTracker.Tracker.CheckAchievements | backend/services/progress_tracker.py:43-79 | An unknown plan gives [] and changes nothing. Otherwise the earned badges are returned and merged into the plan's badges, and nothing else changes. |
| ProgressTracker.Tracker.UpdateProgress | backend/services/progress_tracker.py:81-118 | An unknown plan gives "Plan not found", adds no log and changes no plan. Otherwise one log is appended, with a completion time exactly when completed. The result carries the new badges and the plan's progress. The new badges are merged into that plan's list without duplicates, and no other plan changes. |
| ProgressTracker.Tracker.UserProgressSummary | backend/services/progress_tracker.py:120-133 | The summary counts the user's plans. Completed plans are the number of the user's plans with at least five interviews. The badge total is the sum of the plans' badge counts, a missing list counting 0. The rate is `RateOf` of these counts: 100·done/total, or 0 with no plans. |
| ProgressTracker.CountFinished | backend/services/progress_tracker.py:125 | The count is the number of positions whose plan has at least five interviews, at most all plans. |
| ProgressTracker.BadgeTotal | backend/services/progress_tracker.py:126 | The total is the sum of the per-plan badge counts. |
| ProgressTracker.BadgeCounts | backend/services/progress_tracker.py:126 | Entry i is the length of plan i's badge list, or 0 when it has none. |
| ProgressTracker.RateOf | backend/services/progress_tracker.py:132 | The rate is 100·done/total, or 0 when total is 0. |
| ProgressTracker.PlansOf | backend/services/progress_tracker.py:122 | This is exactly the user's plans: every kept plan is the user's, and every plan of the user is kept. |
| ProgressTracker.AllFinishedCountsAll | backend/services/progress_tracker.py:125 | When every plan has at least 5 interviews, every plan is counted as completed. |
| AppServer.NewBoundary | backend/app.py:433 | The boundary is "BOUNDARY-" followed by the UUID. |
| AppServer.MediaType | backend/app.py:437 | The media type carries the same boundary after "boundary=". |
| AppServer.MultipartFrames | backend/app.py:357-375 | The generator yields the encoded JSON part, the audio header, every audio chunk unchanged and in order, and the closing delimiter. |
| AppServer.FlattenFrames | backend/app.py:357-375 | The body is the JSON part, the audio header, the concatenated chunks and the closing delimiter, in that order. |
| AppServer.BodyLayout | backend/app.py:357-375 | The body bytes are delimiter, JSON headers, CRLFCRLF, payload, CRLF, delimiter, audio headers, CRLFCRLF, audio, CRLF, delimiter, "--" CRLF. |
| AppServer.JsonPartBytes | backend/app.py:359-364 | The JSON part's UTF-8 bytes match their layout. |
| AppServer.AudioHeaderBytes | backend/app.py:366-371 | The audio header's bytes match their layout. |
| AppServer.ClosingBytes | backend/app.py:375 | The closing delimiter's bytes match their layout. |
| AppServer.RagTtsMultipart | backend/app.py:433-437 | One boundary is used both in the media type and in every frame. |
| AppServer.JsonHeaderLinesFacts | backend/app.py:360-361 | The JSON part's header lines contain no blank line. |
| AppServer.AudioHeaderLinesFacts | backend/app.py:367-369 | The audio part's header lines contain no blank line. |
| AppServer.DelimiterFacts | backend/app.py:357-375 | The delimiter "--B" is non-empty and contains no CR or LF when B contains none. |
| AppServer.RecordedScores | backend/app.py:672 | These are exactly the non-null question scores. |
| AppServer.EndSessionScore | backend/app.py:670-675 | The new score is the mean of the recorded scores. With none, the score is left untouched. |
| AppServer.EndSessionScoreBetween | backend/app.py:672-674 | The new score lies between the smallest and the largest recorded score. |
| AppServer.EndSessionScoreUniform | backend/app.py:672-674 | Questions that all carry the same score give the session that score. |
| AppServer.SessionsOf | backend/app.py:790-793 | A non-empty user id selects exactly that user's sessions. Otherwise all sessions are used. |
| AppServer.TotalTimeBounds | backend/app.py:802 | Total time, with None counted as 0, is non-negative and at least any one session's duration. |
| AppServer.NumericScores | backend/app.py:803 | These are exactly the sessions' numeric scores. |
| AppServer.AverageScore | backend/app.py:804 | With no numeric score the average is 0.0. |
| AppServer.AverageScoreBetween | backend/app.py:803-804 | The average lies within any bounds on the scores that include 0. |
| AppServer.CountJobTitles | backend/app.py:806-809 | The counting loop builds the insertion-ordered title count. |
| AppServer.CountsOfKeys | backend/app.py:806-809 | The counted titles are exactly the practised titles. |
| AppServer.CountsOfValues | backend/app.py:806-809 | Each count is the number of sessions with that title. |
| AppServer.CountsOfOrder | backend/app.py:806-809 | Titles appear in the order of their first session. |
| AppServer.FirstMaxIndex | backend/app.py:810 | The first key of maximal count is selected. |
| AppServer.MostPracticedIsFirstMostFrequent | backend/app.py:806-810 | The most practised role is a practised title with maximal count. Every title that first appears earlier has a strictly smaller count. |
| AppServer.MostPracticedBeats | backend/app.py:806-810 | No practised title is counted more often than the most practised role. A title that first appears earlier is counted strictly less often. |
| AppServer.SortByStart | backend/app.py:824 | The sort is a permutation of the sessions. |
| AppServer.InsertByStart | backend/app.py:824 | Inserting a session adds exactly that session to the multiset. |
| AppServer.InsertKeepsLatestFirst | backend/app.py:824 | Inserting into a latest-first list keeps it latest first. |
| AppServer.SortByStartLatestFirst | backend/app.py:824 | The sorted sessions are latest first, and a start time that is not a date-time sorts last. |
| AppServer.Recent | backend/app.py:824 | There are min(5, count) recent sessions. |
| AppServer.RecentAreLatest | backend/app.py:816-825 | The recent sessions come from the list, latest first. Every omitted session starts no later than each one shown. |
| AppServer.RecentRows | backend/app.py:816-823 | There is one row per recent session, in order. |
| AppServer.GetStatistics | backend/app.py:785-826 | No sessions gives zeros and no role. Otherwise the statistics are the count, average, total time, most practised role and recent rows. |
| AppServer.ExtraSkills | backend/app.py:1052-1055 | Every extra skill is some held skill lower-cased. |
| AppServer.ExtraSkillsAreUnrequired | backend/app.py:1052-1055 | The extra skills are exactly the lower-cased held skills minus the lower-cased required skills. |
| AppServer.AnalysisStrengthsRequired | backend/app.py:1053 | Every strength of the analysis is a required skill. |
| AppServer.AnalysisGapsRequired | backend/app.py:1054 | Every gap of the analysis is a required skill. |
| AppServer.AnalysisRequiredNamed | backend/app.py:1053-1054 | Every required skill is named by a strength or a gap. |
| ApiClient.IndexOf | frontend/src/api.js:103-111 | A found index lies between the start and |h| - |n|. |
| ApiClient.IndexOfMatches | frontend/src/api.js:103-111 | A non-negative result is a match position. |
| ApiClient.IndexOfFirst | frontend/src/api.js:103-111 | No earlier position matches. The result is -1 if and only if no position from the start matches. |
| ApiClient.IndexOfAt | frontend/src/api.js:103-111 | The first match after the start is the result. |
| ApiClient.IndexOfArr | frontend/src/api.js:103-111 | The nested loops with the ok flag compute the search. |
| ApiClient.JsSlice | frontend/src/api.js:98 | Uint8Array.slice clamps its arguments and yields an empty range when end ≤ start. |
| ApiClient.JsSliceIsRange | frontend/src/api.js:98 | Every slice is a contiguous range of the input. |
| ApiClient.NextPart | frontend/src/api.js:89-98 | A found part starts after idx and ends within the input, so idx strictly increases and the loop terminates. |
| ApiClient.NextPartOf | frontend/src/api.js:89-98 | A part is found exactly when a delimiter and then CRLFCRLF are found. It runs to the next delimiter, or to the end of the input. |
| ApiClient.NextPartArr | frontend/src/api.js:89-97 | The three searches compute the next part. |
| ApiClient.SplitMultipart | frontend/src/api.js:83-102 | The loop returns exactly the specification's parts for the delimiter "--" + boundary. |
| ApiClient.SplitLoop | frontend/src/api.js:86-101 | The while loop collects exactly the specification's parts. |
| ApiClient.PartsAreSlices | frontend/src/api.js:98 | Every part is a byte range of the input. |
| ApiClient.PartsAtMostDelimiters | frontend/src/api.js:86-101 | There are no more parts than delimiter occurrences. |
| ApiClient.FindBoundary | frontend/src/api.js:67 | A found position starts "boundary=" and has no line terminator after it. |
| ApiClient.FindBoundaryFirst | frontend/src/api.js:67 | The search finds the first such position, and finds none only when no position qualifies. |
| ApiClient.FindBoundaryAt | frontend/src/api.js:67 | The search from a start position returns the first qualifying position at or after it. |
| ApiClient.ExtractBoundary | frontend/src/api.js:66-70 | A missing boundary gives the error "未获取到boundary". Otherwise the boundary is the remainder after "boundary=". |
| ApiClient.ExtractBoundaryCases | frontend/src/api.js:66-70 | It fails if and only if no position qualifies, and always when "boundary=" is absent. On success the boundary follows the first match. |
| ApiClient.BoundaryAfterFirstParam | frontend/src/api.js:66-70 | For a header without line terminators, the boundary is everything after the first "boundary=". |
| ApiClient.BoundaryOfMediaType | frontend/src/api.js:66-70 | The client reads back exactly the boundary the server put in the media type. |
| ApiClient.SplitRoundTrip | frontend/src/api.js:83-102 | Splitting the server's body layout with its own boundary gives exactly [JSON bytes, audio bytes], provided neither contains the delimiter. |
| ApiClient.ClientReply | frontend/src/api.js:66-79 | The client's reply is the boundary error, the JSON error, or the parsed first part with the second part as audio. A missing second part becomes the bytes of "undefined". |
| ApiClient.FetchRagTtsMultipart | frontend/src/api.js:66-79 | The method computes the client's reply. |
| ApiClient.ClientReadsServerResponse | frontend/src/api.js:66-111 | End to end, the client recovers the server's boundary and splits its body into exactly the payload and the audio. It returns the parsed payload with that audio, or the JSON error. |
| ApiClient.ServerResponseParts | frontend/src/api.js:66-101 | The server's media type yields its boundary, and its body splits into exactly [payload, audio]. |

## Left out

- Language-model calls: the primary paths of skill extraction, detailed analysis, recommendations and resume parsing. Each reply is the `LlmReply` datatype: the call failed, the reply was unparseable, or it parsed to some record.
- `json.loads`, `json.dumps`, `str()` and `JSON.parse`: these are function parameters.
- The embedding model and the NumPy cosine of the enhanced service: they are an uninterpreted `Cosine` function returning a value or a failure.
- The regular expressions of `analyze_specificity`: each pattern is an uninterpreted predicate, a parameter.
- `uuid.uuid4()`: the UUID text is a parameter.
- `datetime.now()` and `datetime.utcnow()`: the completion time is a parameter, and the completion date is not modelled.
- SQLAlchemy queries and commits: the database is a sequence of plans and a sequence of progress logs held by the tracker object.
- The HTTP routing, WebSocket handler, speech synthesis and transcription: only the multipart body is modelled, with audio chunks as given byte sequences.
- The React components and the resume-file extraction are not part of this model.
- `_generate_detailed_analysis` and `_fallback_detailed_analysis`: language-model text with no property to state.
- The course cards and learning plan text of `generate_recommendations` beyond the smart fallback are not modelled.
- Python `round(…, 1)` and `round(…, 2)` are not modelled: every score is the exact real value before rounding.
- Text.Lower: case folding is ASCII-only. Python's `str.lower` also folds non-ASCII letters; the skill tables are ASCII or CJK, which lower-casing leaves unchanged.
- Floating point is modelled as exact reals. NaN appears only in the clarity mean of an answer without non-blank sentences, and there the band is modelled explicitly as 0.6.
- ApiClient.FindBoundary: the regular expression `/boundary=(.*)$/` is modelled as the first "boundary=" whose remainder has no JavaScript line terminator. The multiline behaviour of `$` beyond that is not modelled.
- ApiClient.ClientReply: when the body has fewer than two parts, `new Blob([undefined])` is modelled as the bytes of "undefined". TextDecoder is the `parse` parameter, and the Blob is the raw byte sequence.
- AppServer.SortByStart: the ordering key is an integer timestamp or None, where None sorts last. The sort's stability on equal start times is not stated as a lemma.
- AppServer.GetStatistics: `s.job.title` is read as the session's job title, and the `isinstance` check on scores is the Option type.
- PlannerAnalysis.ExtractSkillsFromJd: a parsed record without "required_skills", or a required skill without "skill" or "importance", raises a KeyError in the source. The `JdAnalysis` and `RequiredSkill` datatypes always carry these fields, so the model has no such failure.
- PlannerAnalysis.CategoryOf: a required skill whose "category" is JSON null is read as "unknown", where `get("category", "unknown")` keeps None in the strength or gap record. The learning path is the generic template either way.
- The `rag_tts_multipart` endpoint reads `getattr(request, "tts-1")` with no default, which raises AttributeError before any frame is sent. The model describes the body the endpoint evidently means to produce, as if the model name were read like the other endpoint's `getattr(request, "tts_model", "tts-1")`.
- PlannerAnalysis.YearsOf: a requirement without "years" counts 0, as in the source. A requirement whose "years" is JSON null is also read as 0, where the source's sum raises a TypeError.
- PlannerAnalysis.Similarity: the `except Exception` branch that returns 0.5 is not modelled. Nothing in the body raises when both arguments are strings, which the model's types guarantee.
- PlannerAnalysis.AnalyzeJobMatch and EnhancedPlannerAnalysis.EnhancedJobMatchAnalysis: the detailed analysis and completion date fields of the result are not modelled.
- The duplicated helpers of `enhanced_planner_analysis.py` are the same code as in `planner_analysis.py`. They are modelled once in `PlannerAnalysis` and used by both modules.

The code is followed where the surrounding descriptions suggest otherwise:

- Strength membership is case-sensitive. "python" held does not make "Python" a strength (`PlannerAnalysis.LowerCasePythonIsAGap`). Such a skill is instead a partial gap at similarity 1.0 (`PlannerAnalysis.CaseVariantIsFullSimilarity`).
- The TensorFlow alias turns a required "Machine Learning" into a partial gap at 1.0, not 0.8 (`PlannerAnalysis.TensorFlowGivesFullMachineLearning`).
- Progress-log percentages count completed logs, not distinct activities, so repeated logs can push a percentage above 100.
