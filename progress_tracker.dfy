/** The database-backed progress tracker: plan percentages from the progress
    logs, achievement badges, logging an activity, and the per-user summary.
    The database is the tracker's two tables, held as sequences: the plans
    and the progress logs, each in insertion order. */
module ProgressTracker {
  import opened Common

  // =====================================================================
  // Stored rows
  // =====================================================================

  /** A stored plan. The recommended course and project lists are only
      counted here, so they are held as their lengths. */
  datatype Plan = Plan(
    id: string,
    userId: string,
    courseCount: nat,
    projectCount: nat,
    interviewsCompleted: int,
    skillMatchScore: Option<real>,
    experienceMatchScore: Option<real>,
    badgesEarned: Option<seq<string>>)

  /** A stored progress log; `completedAt` is a timestamp supplied by the caller. */
  datatype ProgressLog = ProgressLog(
    planId: string,
    activityType: string,
    activityId: string,
    activityName: string,
    percentage: real,
    completed: bool,
    completedAt: Option<int>)

  /** The first plan with the given id (a `.first()` query). */
  function FindPlan(plans: seq<Plan>, planId: string): (r: Option<nat>)
    ensures r.Some? ==> r.value < |plans| && plans[r.value].id == planId
    ensures r.Some? ==> forall j | 0 <= j < r.value :: plans[j].id != planId
    ensures r.None? ==> forall j | 0 <= j < |plans| :: plans[j].id != planId
  {
    if plans == [] then None
    else if plans[0].id == planId then Some(0)
    else
      match FindPlan(plans[1..], planId)
      case None => None
      case Some(i) => Some(i + 1)
  }

  // =====================================================================
  // Plan progress
  // =====================================================================

  /** The number of completed logs of one plan and activity type; every
      completed log counts, also several for the same activity. */
  function CompletedCount(logs: seq<ProgressLog>, planId: string, activityType: string): (n: nat)
    ensures n <= |logs|
  {
    if logs == [] then 0
    else
      var l := logs[|logs| - 1];
      CompletedCount(logs[..|logs| - 1], planId, activityType)
        + (if l.planId == planId && l.activityType == activityType && l.completed then 1 else 0)
  }

  /** Appending a log adds one to its own (plan, type) count iff it is
      completed, and leaves every other count alone. */
  lemma {:induction false} CompletedCountAppend(logs: seq<ProgressLog>, l: ProgressLog, planId: string, activityType: string)
    ensures CompletedCount(logs + [l], planId, activityType)
         == CompletedCount(logs, planId, activityType)
            + (if l.planId == planId && l.activityType == activityType && l.completed then 1 else 0)
  {
    assert (logs + [l])[..|logs|] == logs;
  }

  /** completed / total * 100, or 0 for an empty recommendation list. */
  function Percentage(completed: nat, total: nat): (r: real)
    ensures total == 0 ==> r == 0.0
    ensures total > 0 ==> r * total as real == 100.0 * completed as real
    ensures r >= 0.0
  {
    if total > 0 then completed as real / total as real * 100.0 else 0.0
  }

  /** The percentage reaches 100 exactly when every recommended item has (at
      least) one completed log. */
  lemma PercentageFull(completed: nat, total: nat)
    ensures Percentage(completed, total) >= 100.0 <==> total > 0 && completed >= total
  {
    if total > 0 {
      // The percentage is 100 times the completed fraction, which reaches 1
      // exactly when completed >= total.
      var fraction := completed as real / total as real;
      assert Percentage(completed, total) == fraction * 100.0;
      if completed >= total {
        DivAtLeast(completed as real, total as real, 1.0);
      } else {
        DivBelow(completed as real, total as real, 1.0);
      }
    }
  }

  const InterviewTarget: nat := 5

  datatype Activity = Activity(completed: int, total: int, percentage: real)

  datatype PlanProgress = PlanProgress(courses: Activity, projects: Activity, interviews: Activity)

  /** The plan's progress over the given logs. The interview figure is the
      plan's own counter over the fixed target of 5, not capped at 100. */
  function PlanProgressOf(plan: Plan, logs: seq<ProgressLog>): (r: PlanProgress)
    ensures r.courses == Activity(CompletedCount(logs, plan.id, "course"), plan.courseCount,
                                  Percentage(CompletedCount(logs, plan.id, "course"), plan.courseCount))
    ensures r.projects == Activity(CompletedCount(logs, plan.id, "project"), plan.projectCount,
                                   Percentage(CompletedCount(logs, plan.id, "project"), plan.projectCount))
    ensures r.interviews.completed == plan.interviewsCompleted && r.interviews.total == 5
    ensures 5.0 * r.interviews.percentage == 100.0 * plan.interviewsCompleted as real
  {
    var courses := CompletedCount(logs, plan.id, "course");
    var projects := CompletedCount(logs, plan.id, "project");
    PlanProgress(
      Activity(courses, plan.courseCount, Percentage(courses, plan.courseCount)),
      Activity(projects, plan.projectCount, Percentage(projects, plan.projectCount)),
      Activity(plan.interviewsCompleted, InterviewTarget, plan.interviewsCompleted as real / InterviewTarget as real * 100.0))
  }

  // =====================================================================
  // Badges
  // =====================================================================

  const LearningBadge: string := "🎓 学习达人"
  const CodingBadge: string := "💻 代码高手"
  const InterviewBadge: string := "🎤 面试专家"
  const SkillBadge: string := "🎯 技能专家"
  const ExperienceBadge: string := "⭐ 经验丰富"

  /** A score that is set, non-zero and at least the bar. */
  predicate ScoreAtLeast(score: Option<real>, bar: real)
  {
    score.Some? && score.value != 0.0 && score.value >= bar
  }

  /** The badges a plan qualifies for, in rule order. */
  function EarnedBadges(plan: Plan, progress: PlanProgress): seq<string>
  {
    Optional(progress.courses.percentage >= 100.0, LearningBadge)
    + Optional(progress.projects.percentage >= 100.0, CodingBadge)
    + Optional(progress.interviews.completed >= 5, InterviewBadge)
    + Optional(ScoreAtLeast(plan.skillMatchScore, 90.0), SkillBadge)
    + Optional(ScoreAtLeast(plan.experienceMatchScore, 85.0), ExperienceBadge)
  }

  predicate NoDuplicates(s: seq<string>)
  {
    forall i, j | 0 <= i < j < |s| :: s[i] != s[j]
  }

  function Optional(c: bool, x: string): seq<string>
  {
    if c then [x] else []
  }

  /** Appending an optional label that is not yet present keeps the list
      free of duplicates and adds exactly that label. */
  lemma AppendOptional(b: seq<string>, c: bool, x: string)
    requires NoDuplicates(b) && x !in b
    ensures NoDuplicates(b + Optional(c, x))
    ensures forall y :: y in b + Optional(c, x) <==> y in b || (c && y == x)
  {
  }

  lemma BadgesDistinct()
    ensures LearningBadge != CodingBadge && LearningBadge != InterviewBadge
    ensures LearningBadge != SkillBadge && LearningBadge != ExperienceBadge
    ensures CodingBadge != InterviewBadge && CodingBadge != SkillBadge && CodingBadge != ExperienceBadge
    ensures InterviewBadge != SkillBadge && InterviewBadge != ExperienceBadge
    ensures SkillBadge != ExperienceBadge
  {
    assert LearningBadge[0] == '🎓' && CodingBadge[0] == '💻' && InterviewBadge[0] == '🎤';
    assert SkillBadge[0] == '🎯' && ExperienceBadge[0] == '⭐';
  }

  /** Each badge is earned exactly when its rule holds, and none twice. */
  lemma BadgeRules(plan: Plan, logs: seq<ProgressLog>)
    ensures var b := EarnedBadges(plan, PlanProgressOf(plan, logs));
      && (LearningBadge in b <==> plan.courseCount > 0 && CompletedCount(logs, plan.id, "course") >= plan.courseCount)
      && (CodingBadge in b <==> plan.projectCount > 0 && CompletedCount(logs, plan.id, "project") >= plan.projectCount)
      && (InterviewBadge in b <==> plan.interviewsCompleted >= 5)
      && (SkillBadge in b <==> plan.skillMatchScore.Some? && plan.skillMatchScore.value >= 90.0)
      && (ExperienceBadge in b <==> plan.experienceMatchScore.Some? && plan.experienceMatchScore.value >= 85.0)
      && NoDuplicates(b)
  {
    var p := PlanProgressOf(plan, logs);
    PercentageFull(CompletedCount(logs, plan.id, "course"), plan.courseCount);
    PercentageFull(CompletedCount(logs, plan.id, "project"), plan.projectCount);
    BadgeList(p.courses.percentage >= 100.0, p.projects.percentage >= 100.0, p.interviews.completed >= 5,
              ScoreAtLeast(plan.skillMatchScore, 90.0), ScoreAtLeast(plan.experienceMatchScore, 85.0));
  }

  /** The five optional badges in rule order: each is present exactly when its
      condition holds, and none twice. */
  lemma BadgeList(c1: bool, c2: bool, c3: bool, c4: bool, c5: bool)
    ensures var b := Optional(c1, LearningBadge) + Optional(c2, CodingBadge) + Optional(c3, InterviewBadge)
                     + Optional(c4, SkillBadge) + Optional(c5, ExperienceBadge);
      && (LearningBadge in b <==> c1) && (CodingBadge in b <==> c2) && (InterviewBadge in b <==> c3)
      && (SkillBadge in b <==> c4) && (ExperienceBadge in b <==> c5)
      && NoDuplicates(b)
  {
    BadgesDistinct();
    var b1 := Optional(c1, LearningBadge);
    AppendOptional(b1, c2, CodingBadge);
    var b2 := b1 + Optional(c2, CodingBadge);
    AppendOptional(b2, c3, InterviewBadge);
    var b3 := b2 + Optional(c3, InterviewBadge);
    AppendOptional(b3, c4, SkillBadge);
    var b4 := b3 + Optional(c4, SkillBadge);
    AppendOptional(b4, c5, ExperienceBadge);
  }

  /** The badge merge: existing badges first, then each new badge not yet present. */
  function MergeBadges(current: seq<string>, additions: seq<string>): (r: seq<string>)
    ensures |current| <= |r| && r[..|current|] == current
    ensures forall b | b in r :: b in current || b in additions
    ensures forall b | b in current || b in additions :: b in r
  {
    if additions == [] then current
    else
      var acc := MergeBadges(current, additions[..|additions| - 1]);
      var b := additions[|additions| - 1];
      assert forall x | x in additions :: x in additions[..|additions| - 1] || x == b;
      if b in acc then acc else acc + [b]
  }

  /** Merging never introduces a duplicate. */
  lemma {:induction false} MergeBadgesNoDuplicates(current: seq<string>, additions: seq<string>)
    requires NoDuplicates(current)
    ensures NoDuplicates(MergeBadges(current, additions))
  {
    if additions != [] {
      MergeBadgesNoDuplicates(current, additions[..|additions| - 1]);
    }
  }

  // =====================================================================
  // The tracker
  // =====================================================================

  datatype UpdateResult =
    | Failure(error: string)
    | Updated(newBadges: seq<string>, progress: PlanProgress)

  datatype UserSummary = UserSummary(totalPlans: nat, completedPlans: nat, totalBadges: nat, completionRate: real)

  class Tracker {
    var plans: seq<Plan>
    var logs: seq<ProgressLog>

    constructor (plans: seq<Plan>, logs: seq<ProgressLog>)
      ensures this.plans == plans && this.logs == logs
    {
      this.plans := plans;
      this.logs := logs;
    }

    function CalculatePlanProgress(plan: Plan): (r: PlanProgress)
      reads this
      ensures r == PlanProgressOf(plan, logs)
    {
      PlanProgressOf(plan, logs)
    }

    /** Award the badges the plan qualifies for; an unknown plan gets none
        and nothing changes. Newly qualifying badges are merged into the
        plan's list without duplicates. */
    method CheckAchievements(planId: string) returns (newBadges: seq<string>)
      modifies this
      ensures logs == old(logs) && |plans| == |old(plans)|
      ensures FindPlan(old(plans), planId).None? ==> newBadges == [] && plans == old(plans)
      ensures FindPlan(old(plans), planId).Some? ==>
        var i := FindPlan(old(plans), planId).value;
        var plan := old(plans)[i];
        && newBadges == EarnedBadges(plan, PlanProgressOf(plan, logs))
        && plans == old(plans)[i := plan.(badgesEarned := Some(MergeBadges(plan.badgesEarned.GetOr([]), newBadges)))]
    {
      var found := FindPlan(plans, planId);
      if found.None? {
        return [];
      }
      var i := found.value;
      var plan := plans[i];
      var progress := CalculatePlanProgress(plan);
      newBadges := EarnedBadges(plan, progress);
      var current := plan.badgesEarned.GetOr([]);
      for k := 0 to |newBadges|
        invariant current == MergeBadges(plan.badgesEarned.GetOr([]), newBadges[..k])
      {
        assert newBadges[..k + 1][..k] == newBadges[..k];
        if newBadges[k] !in current {
          current := current + [newBadges[k]];
        }
      }
      assert newBadges[..|newBadges|] == newBadges;
      plans := plans[i := plan.(badgesEarned := Some(current))];
    }

    /** Log one activity of a plan and re-check its badges. An unknown plan
        is reported and nothing is logged; otherwise exactly one log is
        appended, time-stamped with `now` iff it is completed. */
    method UpdateProgress(planId: string, activityType: string, activityId: string, activityName: string,
                          percentage: real, completed: bool, now: int)
      returns (r: UpdateResult)
      modifies this
      ensures FindPlan(old(plans), planId).None? ==> r == Failure("Plan not found") && plans == old(plans) && logs == old(logs)
      ensures FindPlan(old(plans), planId).Some? ==>
        && logs == old(logs) + [ProgressLog(planId, activityType, activityId, activityName, percentage, completed,
                                            if completed then Some(now) else None)]
        && r.Updated?
        && r.progress == PlanProgressOf(old(plans)[FindPlan(old(plans), planId).value], logs)
        && r.newBadges == EarnedBadges(old(plans)[FindPlan(old(plans), planId).value], r.progress)
      ensures FindPlan(old(plans), planId).Some? ==>
        var i := FindPlan(old(plans), planId).value;
        var plan := old(plans)[i];
        plans == old(plans)[i := plan.(badgesEarned := Some(MergeBadges(plan.badgesEarned.GetOr([]), r.newBadges)))]
      ensures |plans| == |old(plans)|
      ensures forall j | 0 <= j < |plans| :: plans[j].interviewsCompleted == old(plans)[j].interviewsCompleted
    {
      var found := FindPlan(plans, planId);
      if found.None? {
        return Failure("Plan not found");
      }
      var plan := plans[found.value];
      var log := ProgressLog(planId, activityType, activityId, activityName, percentage, completed, None);
      if completed {
        log := log.(completedAt := Some(now));
      }
      logs := logs + [log];
      var newBadges := CheckAchievements(planId);
      r := Updated(newBadges, CalculatePlanProgress(plan));
    }

    /** The user's plan count, the plans with at least five interviews, the
        badge total and the completion rate. */
    function UserProgressSummary(userId: string): (s: UserSummary)
      reads this
      ensures s.totalPlans == |PlansOf(plans, userId)|
      ensures s.completedPlans == |Positions(PlansOf(plans, userId), IsFinished)| <= s.totalPlans
      ensures s.totalBadges == SumInt(BadgeCounts(PlansOf(plans, userId)))
      ensures s.completionRate == RateOf(s.completedPlans, s.totalPlans)
      ensures s.totalPlans == 0 ==> s.completionRate == 0.0
      ensures 0.0 <= s.completionRate <= 100.0
    {
      var mine := PlansOf(plans, userId);
      var total := |mine|;
      var done := CountFinished(mine);
      UserSummary(total, done, BadgeTotal(mine), RateOf(done, total))
    }
  }

  /** completed / total * 100, or 0 for no plans. */
  function RateOf(done: nat, total: nat): (r: real)
    requires done <= total
    ensures 0.0 <= r <= 100.0
    ensures total > 0 ==> r * total as real == 100.0 * done as real
  {
    if total > 0 then
      var q := done as real / total as real;
      DivBounds(done as real, total as real, 1.0);
      q * 100.0
    else 0.0
  }

  function PlansOf(plans: seq<Plan>, userId: string): (r: seq<Plan>)
    ensures |r| <= |plans|
    ensures forall p | p in r :: p in plans && p.userId == userId
    ensures forall p | p in plans && p.userId == userId :: p in r
  {
    if plans == [] then []
    else
      var last := plans[|plans| - 1];
      assert forall p | p in plans :: p in plans[..|plans| - 1] || p == last;
      PlansOf(plans[..|plans| - 1], userId) + (if last.userId == userId then [last] else [])
  }

  /** Plans with at least five interviews count as completed. */
  predicate IsFinished(p: Plan)
  {
    p.interviewsCompleted >= 5
  }

  /** The number of completed plans. */
  function CountFinished(plans: seq<Plan>): (n: nat)
    ensures n == |Positions(plans, IsFinished)|
    ensures n <= |plans|
  {
    if plans == [] then 0
    else
      var m := |plans| - 1;
      assert plans == plans[..m] + [plans[m]];
      PositionsSnoc(plans[..m], plans[m], IsFinished);
      CountFinished(plans[..m]) + (if IsFinished(plans[m]) then 1 else 0)
  }

  /** The number of badges of each plan, a missing list counting as none. */
  function BadgeCounts(plans: seq<Plan>): (cs: seq<int>)
    ensures |cs| == |plans|
    ensures forall i | 0 <= i < |plans| :: cs[i] == |plans[i].badgesEarned.GetOr([])|
  {
    seq(|plans|, i requires 0 <= i < |plans| => |plans[i].badgesEarned.GetOr([])|)
  }

  /** The number of badges over all the given plans. */
  function BadgeTotal(plans: seq<Plan>): (t: nat)
    ensures t == SumInt(BadgeCounts(plans))
  {
    if plans == [] then 0
    else
      var m := |plans| - 1;
      assert BadgeCounts(plans) == BadgeCounts(plans[..m]) + [|plans[m].badgesEarned.GetOr([])|];
      SumIntAppend(BadgeCounts(plans[..m]), |plans[m].badgesEarned.GetOr([])|);
      BadgeTotal(plans[..m]) + |plans[m].badgesEarned.GetOr([])|
  }

  /** A user whose every plan has five interviews has a completion rate of 100. */
  lemma {:induction false} AllFinishedCountsAll(plans: seq<Plan>)
    requires forall i | 0 <= i < |plans| :: plans[i].interviewsCompleted >= 5
    ensures CountFinished(plans) == |plans|
  {
    if plans != [] {
      AllFinishedCountsAll(plans[..|plans| - 1]);
    }
  }
}
