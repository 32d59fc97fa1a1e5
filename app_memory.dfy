/** The in-memory progress tracker of the stand-alone planner server: one
    record per plan with per-activity percentages for courses and projects
    and a count of completed interviews, and the per-user summary built on
    it. Python dictionaries keep their insertion order. */
module AppMemory {
  import opened Common

  // =====================================================================
  // Python dicts from activity id to percentage
  // =====================================================================

  /** An insertion-ordered dictionary: the keys in insertion order and the
      key-value map. */
  datatype Dict = Dict(order: seq<string>, values: map<string, real>)

  predicate DictValid(d: Dict)
  {
    && (forall i, j | 0 <= i < j < |d.order| :: d.order[i] != d.order[j])
    && (forall k | k in d.order :: k in d.values)
    && (forall k | k in d.values :: k in d.order)
  }

  const EmptyDict: Dict := Dict([], map[])

  /** `d[key] = value`: an existing key keeps its position, a new key is appended. */
  function Put(d: Dict, key: string, value: real): (r: Dict)
    ensures r.values == d.values[key := value]
    ensures key in d.values ==> r.order == d.order
    ensures key !in d.values ==> r.order == d.order + [key]
    ensures DictValid(d) ==> DictValid(r)
  {
    if key in d.values then Dict(d.order, d.values[key := value])
    else Dict(d.order + [key], d.values[key := value])
  }

  /** The values in insertion order. */
  function ValuesOf(order: seq<string>, values: map<string, real>): (vs: seq<real>)
    requires forall k | k in order :: k in values
    ensures |vs| == |order|
    ensures forall i | 0 <= i < |order| :: vs[i] == values[order[i]]
  {
    if order == [] then []
    else ValuesOf(order[..|order| - 1], values) + [values[order[|order| - 1]]]
  }

  /** sum(d.values()) / max(len(d), 1). */
  function MeanOf(d: Dict): (r: real)
    requires DictValid(d)
    ensures d.order == [] ==> r == 0.0
  {
    SumReal(ValuesOf(d.order, d.values)) / (if |d.order| == 0 then 1 else |d.order|) as real
  }

  /** The mean of percentages in [0, hi] is in [0, hi]. */
  lemma MeanBounded(d: Dict, hi: real)
    requires DictValid(d) && 0.0 <= hi
    requires forall k | k in d.values :: 0.0 <= d.values[k] <= hi
    ensures 0.0 <= MeanOf(d) <= hi
  {
    var vs := ValuesOf(d.order, d.values);
    forall i | 0 <= i < |vs|
      ensures 0.0 <= vs[i] <= hi
    {
      assert d.order[i] in d.order;
    }
    MeanOfValuesBounded(vs, hi);
  }

  lemma MeanOfValuesBounded(vs: seq<real>, hi: real)
    requires 0.0 <= hi
    requires forall i | 0 <= i < |vs| :: 0.0 <= vs[i] <= hi
    ensures 0.0 <= SumReal(vs) / (if |vs| == 0 then 1 else |vs|) as real <= hi
  {
    SumRealBounded(vs, 0.0, hi);
    SumRealNonNegative(vs);
    if |vs| > 0 {
      DivBounds(SumReal(vs), |vs| as real, hi);
    }
  }

  // =====================================================================
  // Progress records
  // =====================================================================

  datatype PlanProgress = PlanProgress(courses: Dict, projects: Dict, interviews: int)

  const EmptyProgress: PlanProgress := PlanProgress(EmptyDict, EmptyDict, 0)

  datatype ProgressReport = ProgressReport(
    coursesProgress: real, projectsProgress: real, interviewsCompleted: int, overallProgress: real)

  predicate WellFormed(p: PlanProgress)
  {
    DictValid(p.courses) && DictValid(p.projects)
  }

  /** The report of one record: the two means, the interview count and the
      capped overall figure. */
  function ReportOf(p: PlanProgress): (r: ProgressReport)
    requires WellFormed(p)
    ensures r.coursesProgress == MeanOf(p.courses) && r.projectsProgress == MeanOf(p.projects)
    ensures r.interviewsCompleted == p.interviews
    ensures r.overallProgress <= 1.0
    ensures var u := (MeanOf(p.courses) + MeanOf(p.projects) + p.interviews as real * 0.3) / 3.0;
      (u <= 1.0 ==> r.overallProgress == u) && (u > 1.0 ==> r.overallProgress == 1.0)
  {
    var c := MeanOf(p.courses);
    var pr := MeanOf(p.projects);
    ProgressReport(c, pr, p.interviews, Min((c + pr + p.interviews as real * 0.3) / 3.0, 1.0))
  }

  /** Percentages in [0, 1] and a non-negative count give an overall figure in [0, 1]. */
  lemma ReportInUnitRange(p: PlanProgress)
    requires WellFormed(p) && p.interviews >= 0
    requires forall k | k in p.courses.values :: 0.0 <= p.courses.values[k] <= 1.0
    requires forall k | k in p.projects.values :: 0.0 <= p.projects.values[k] <= 1.0
    ensures 0.0 <= ReportOf(p).overallProgress <= 1.0
  {
    MeanBounded(p.courses, 1.0);
    MeanBounded(p.projects, 1.0);
  }

  /** The report of a plan nobody has updated. */
  const ZeroReport: ProgressReport := ProgressReport(0.0, 0.0, 0, 0.0)

  /** The effect of one activity update on the record. */
  function ApplyActivity(p: PlanProgress, activityType: string, activityId: string,
                         percentage: real, completed: bool): (q: PlanProgress)
    ensures WellFormed(p) ==> WellFormed(q)
  {
    if activityType == "course" then p.(courses := Put(p.courses, activityId, percentage))
    else if activityType == "project" then p.(projects := Put(p.projects, activityId, percentage))
    else if activityType == "interview" && completed then p.(interviews := p.interviews + 1)
    else p
  }

  /** What each activity type changes, and that nothing else changes: a course
      or project update sets (or overwrites) exactly that activity's entry, an
      interview update counts one more interview iff it is completed. */
  lemma ApplyActivityEffect(p: PlanProgress, activityType: string, activityId: string,
                            percentage: real, completed: bool)
    ensures var q := ApplyActivity(p, activityType, activityId, percentage, completed);
      && (activityType == "course" ==>
            q.courses.values == p.courses.values[activityId := percentage]
            && q.projects == p.projects && q.interviews == p.interviews)
      && (activityType == "project" ==>
            q.projects.values == p.projects.values[activityId := percentage]
            && q.courses == p.courses && q.interviews == p.interviews)
      && (activityType == "interview" ==>
            q.courses == p.courses && q.projects == p.projects
            && q.interviews == p.interviews + (if completed then 1 else 0))
      && (activityType !in {"course", "project", "interview"} ==> q == p)
  {
  }

  // =====================================================================
  // The tracker
  // =====================================================================

  class MemoryProgressTracker {
    var progressData: map<string, PlanProgress>

    predicate Valid()
      reads this
    {
      forall id | id in progressData :: WellFormed(progressData[id])
    }

    constructor ()
      ensures progressData == map[] && Valid()
    {
      progressData := map[];
    }

    /** The progress of a plan; a plan never updated reports all zeros. */
    function CalculatePlanProgress(planId: string): (r: ProgressReport)
      requires Valid()
      reads this
      ensures planId !in progressData ==> r == ZeroReport
      ensures planId in progressData ==> r == ReportOf(progressData[planId])
      ensures r.overallProgress <= 1.0
    {
      if planId !in progressData then ZeroReport else ReportOf(progressData[planId])
    }

    /** Record one activity update and report the plan's new progress. A plan
        seen for the first time starts from empty maps and no interviews. */
    method UpdateProgress(planId: string, activityType: string, activityId: string,
                          activityName: string, percentage: real, completed: bool)
      returns (r: ProgressReport)
      requires Valid()
      modifies this
      ensures Valid()
      ensures progressData.Keys == old(progressData).Keys + {planId}
      ensures progressData[planId] ==
        ApplyActivity(if planId in old(progressData) then old(progressData)[planId] else EmptyProgress,
                      activityType, activityId, percentage, completed)
      ensures forall id | id in old(progressData) && id != planId :: progressData[id] == old(progressData)[id]
      ensures r == CalculatePlanProgress(planId)
    {
      // A new plan's record starts empty; it is stored once, after the update.
      var p := if planId in progressData then progressData[planId] else EmptyProgress;
      ghost var before := p;
      if activityType == "course" {
        p := p.(courses := Put(p.courses, activityId, percentage));
      } else if activityType == "project" {
        p := p.(projects := Put(p.projects, activityId, percentage));
      } else if activityType == "interview" {
        if completed {
          p := p.(interviews := p.interviews + 1);
        }
      }
      assert p == ApplyActivity(before, activityType, activityId, percentage, completed);
      progressData := progressData[planId := p];
      r := CalculatePlanProgress(planId);
    }

    // -------------------------------------------------------------------
    // Per-user summary
    // -------------------------------------------------------------------

    /** The overall progress of each of the given plans, in order. */
    function Overalls(plans: seq<StoredPlan>): (os: seq<real>)
      requires Valid()
      reads this
      ensures |os| == |plans|
      ensures forall i | 0 <= i < |plans| :: os[i] == CalculatePlanProgress(plans[i].id).overallProgress
    {
      seq(|plans|, i requires 0 <= i < |plans| reads this requires Valid() =>
        CalculatePlanProgress(plans[i].id).overallProgress)
    }

    /** The sum of the overall progress of the given plans. */
    function TotalProgress(plans: seq<StoredPlan>): (t: real)
      requires Valid()
      reads this
      ensures t == SumReal(Overalls(plans))
      ensures t <= |plans| as real
    {
      if plans == [] then 0.0
      else
        var n := |plans| - 1;
        var t := TotalProgress(plans[..n]) + CalculatePlanProgress(plans[n].id).overallProgress;
        assert Overalls(plans) == Overalls(plans[..n]) + [CalculatePlanProgress(plans[n].id).overallProgress];
        SumRealAppend(Overalls(plans[..n]), CalculatePlanProgress(plans[n].id).overallProgress);
        t
    }

    /** The summary of one user's plans: the count, the completed count, the
        average progress over max(count, 1) and the last five plans. */
    function UserPlannerSummary(plans: seq<StoredPlan>, userId: string): (s: PlannerSummary)
      requires Valid()
      reads this
      ensures s.totalPlans == |UserPlans(plans, userId)|
      ensures s.completedPlans == |Positions(UserPlans(plans, userId), IsCompleted)| <= s.totalPlans
      ensures s.averageProgress == AverageOf(SumReal(Overalls(UserPlans(plans, userId))), s.totalPlans)
      ensures s.averageProgress <= 1.0
      ensures s.totalPlans == 0 ==> s.averageProgress == 0.0 && s.recentPlans == []
      ensures |s.recentPlans| == if s.totalPlans < 5 then s.totalPlans else 5
      ensures s.recentPlans == UserPlans(plans, userId)[s.totalPlans - |s.recentPlans|..]
    {
      var mine := UserPlans(plans, userId);
      var total := |mine|;
      var avg := AverageOf(TotalProgress(mine), total);
      var recent := mine[if total <= 5 then 0 else total - 5..];
      assert total - |recent| == if total <= 5 then 0 else total - 5;
      PlannerSummary(userId, total, CountCompleted(mine), avg, recent)
    }
  }

  /** total / max(count, 1), at most 1 when the total is at most the count. */
  function AverageOf(total: real, count: nat): (avg: real)
    ensures total <= count as real ==> avg <= 1.0
    ensures count == 0 ==> avg == total
    ensures count > 0 ==> avg * count as real == total
  {
    var avg := total / (if count == 0 then 1 else count) as real;
    assert total <= count as real ==> avg <= 1.0 by {
      if count > 0 && total <= count as real {
        DivAtMost(total, count as real, 1.0);
      }
    }
    avg
  }

  /** A stored plan, as the summary reads it. */
  datatype StoredPlan = StoredPlan(id: string, userId: Option<string>, status: Option<string>)

  datatype PlannerSummary = PlannerSummary(
    userId: string, totalPlans: nat, completedPlans: nat, averageProgress: real, recentPlans: seq<StoredPlan>)

  /** The plans of one user, in storage order. */
  function UserPlans(plans: seq<StoredPlan>, userId: string): (r: seq<StoredPlan>)
    ensures |r| <= |plans|
    ensures forall p | p in r :: p in plans && p.userId == Some(userId)
    ensures forall p | p in plans && p.userId == Some(userId) :: p in r
  {
    if plans == [] then []
    else
      var init := UserPlans(plans[..|plans| - 1], userId);
      var last := plans[|plans| - 1];
      assert forall p | p in plans :: p in plans[..|plans| - 1] || p == last;
      init + (if last.userId == Some(userId) then [last] else [])
  }

  /** A plan whose status is exactly "completed". */
  predicate IsCompleted(p: StoredPlan)
  {
    p.status == Some("completed")
  }

  /** The number of completed plans. */
  function CountCompleted(plans: seq<StoredPlan>): (n: nat)
    ensures n == |Positions(plans, IsCompleted)|
    ensures n <= |plans|
  {
    if plans == [] then 0
    else
      var m := |plans| - 1;
      assert plans == plans[..m] + [plans[m]];
      PositionsSnoc(plans[..m], plans[m], IsCompleted);
      CountCompleted(plans[..m]) + (if IsCompleted(plans[m]) then 1 else 0)
  }
}
