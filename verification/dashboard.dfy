/** The learner's dashboard (src/pages/Dashboard.tsx): rounded per-goal progress,
    the overall average, active goals and the recent-activity list. */
module Dashboard {
  import opened Wrappers
  import opened Common
  import opened Seqs
  import opened GoalModel
  import opened Tasks
  import GoalController

  /** The goals shown: nothing is fetched for a missing user or an administrator. */
  function LoadedGoals(user: Option<Caller>, fetched: seq<Goal>): (r: seq<Goal>)
    ensures r == [] <==> user.None? || IsAdmin(user.value) || fetched == []
    ensures r != [] ==> r == fetched
  {
    if user.None? || IsAdmin(user.value) then [] else fetched
  }

  /** Each goal's progress as the dashboard computes it: rounded to a whole percent. */
  function Progresses(goals: seq<Goal>): (r: seq<int>)
    ensures |r| == |goals|
    ensures forall i :: 0 <= i < |r| ==> 0 <= r[i] <= 100
    ensures forall i :: 0 <= i < |r| ==> r[i] == RoundedProgress(goals[i].tasks)
  {
    seq(|goals|, i requires 0 <= i < |goals| => RoundedProgress(goals[i].tasks))
  }

  /** `reduce((sum, x) => sum + x, 0)`. */
  function Sum(xs: seq<int>): int {
    if |xs| == 0 then 0 else xs[0] + Sum(xs[1..])
  }

  /** A sum of percentages lies between 0 and 100 times their number. */
  lemma {:induction false} SumBounds(xs: seq<int>)
    requires forall i :: 0 <= i < |xs| ==> 0 <= xs[i] <= 100
    ensures 0 <= Sum(xs) <= 100 * |xs|
  {
    if |xs| > 0 {
      assert forall i :: 0 <= i < |xs[1..]| ==> xs[1..][i] == xs[i + 1];
      SumBounds(xs[1..]);
    }
  }

  /** A sum of equal terms is the term times their number. */
  lemma {:induction false} SumConstant(xs: seq<int>, v: int)
    requires forall i :: 0 <= i < |xs| ==> xs[i] == v
    ensures Sum(xs) == v * |xs|
  {
    if |xs| > 0 {
      assert forall i :: 0 <= i < |xs[1..]| ==> xs[1..][i] == xs[i + 1];
      SumConstant(xs[1..], v);
    }
  }

  /** The overall progress card: the average rounded progress, rounded half up;
      0 without goals. */
  function OverallProgress(goals: seq<Goal>): (r: int)
    ensures 0 <= r <= 100
    ensures |goals| == 0 ==> r == 0
    ensures |goals| > 0 ==>
      var n := |goals|;
      var total := Sum(Progresses(goals));
      2 * n * r <= 2 * total + n < 2 * n * r + 2 * n
  {
    if |goals| == 0 then 0
    else
      var total := Sum(Progresses(goals));
      SumBounds(Progresses(goals));
      RoundHalfUpBounds(total, |goals|, 0, 100);
      RoundHalfUp(total, |goals|)
  }

  /** A goal every one of whose tasks is checked (and which has tasks). */
  predicate Finished(g: Goal) {
    |g.tasks| > 0 && forall j :: 0 <= j < |g.tasks| ==> g.tasks[j].checked
  }

  /** Overall progress is 100 when every goal is finished, and 0 when no task anywhere
      is checked. The converse of the first fails: rounding lets a goal at 66 of 67
      tasks show 99, and averaging it with a finished goal still rounds to 100. */
  lemma OverallExtremes(goals: seq<Goal>)
    requires |goals| > 0
    ensures (forall i :: 0 <= i < |goals| ==> Finished(goals[i])) ==> OverallProgress(goals) == 100
    ensures (forall i, j :: 0 <= i < |goals| && 0 <= j < |goals[i].tasks| ==> !goals[i].tasks[j].checked)
            ==> OverallProgress(goals) == 0
  {
    var ps := Progresses(goals);
    if forall i :: 0 <= i < |goals| ==> Finished(goals[i]) {
      forall i | 0 <= i < |ps| ensures ps[i] == 100 {
        RoundedExtremes(goals[i].tasks);
      }
      SumConstant(ps, 100);
      RoundHalfUpBounds(Sum(ps), |goals|, 100, 100);
    }
    if forall i, j :: 0 <= i < |goals| && 0 <= j < |goals[i].tasks| ==> !goals[i].tasks[j].checked {
      forall i | 0 <= i < |ps| ensures ps[i] == 0 {
        if |goals[i].tasks| > 0 {
          RoundedExtremes(goals[i].tasks);
        }
      }
      SumConstant(ps, 0);
      RoundHalfUpBounds(Sum(ps), |goals|, 0, 0);
    }
  }

  /** The active-goals card: goals whose status is exactly 'active', in order. */
  function ActiveGoals(goals: seq<Goal>): (r: seq<Goal>)
    ensures forall g :: g in r <==> g in goals && g.status == ACTIVE
    ensures |r| == CountWhere(goals, (g: Goal) => g.status == ACTIVE)
    ensures IsSubseq(r, goals)
  {
    Filter(goals, (g: Goal) => g.status == ACTIVE)
  }

  /** One line of the recent-activity list. */
  datatype Activity = Activity(goalTitle: string, taskLabel: string)

  /** The checked tasks of one goal, as activities. */
  function GoalActivities(g: Goal): (r: seq<Activity>)
    ensures |r| == CheckedCount(g.tasks)
    ensures forall i :: 0 <= i < |r| ==> r[i] == Activity(g.title, Filter(g.tasks, IsChecked)[i].taskLabel)
  {
    var done := Filter(g.tasks, IsChecked);
    seq(|done|, i requires 0 <= i < |done| => Activity(g.title, done[i].taskLabel))
  }

  /** `goals.flatMap(goal => checked tasks of goal)`. */
  function Activities(goals: seq<Goal>): seq<Activity> {
    if |goals| == 0 then [] else GoalActivities(goals[0]) + Activities(goals[1..])
  }

  /** The number of checked tasks over all goals. */
  function TotalChecked(goals: seq<Goal>): nat {
    if |goals| == 0 then 0 else CheckedCount(goals[0].tasks) + TotalChecked(goals[1..])
  }

  /** Some task of some goal is checked. */
  predicate AnyChecked(goals: seq<Goal>) {
    exists i, j :: 0 <= i < |goals| && 0 <= j < |goals[i].tasks| && goals[i].tasks[j].checked
  }

  /** There is one activity per checked task. */
  lemma {:induction false} ActivitiesCount(goals: seq<Goal>)
    ensures |Activities(goals)| == TotalChecked(goals)
  {
    if |goals| > 0 {
      ActivitiesCount(goals[1..]);
    }
  }

  /** The list is shown (`goals.some(goal => goal.tasks.some(t => t.checked))`) exactly
      when there is at least one activity. */
  lemma {:induction false} AnyCheckedIff(goals: seq<Goal>)
    ensures AnyChecked(goals) <==> TotalChecked(goals) > 0
  {
    if |goals| > 0 {
      AnyCheckedIff(goals[1..]);
      NoneCheckedIff(goals[0].tasks);
      if AnyChecked(goals) {
        var i, j :| 0 <= i < |goals| && 0 <= j < |goals[i].tasks| && goals[i].tasks[j].checked;
        if i > 0 {
          assert goals[1..][i - 1] == goals[i];
        }
      }
      if AnyChecked(goals[1..]) {
        var i, j :| 0 <= i < |goals[1..]| && 0 <= j < |goals[1..][i].tasks| && goals[1..][i].tasks[j].checked;
        assert goals[i + 1] == goals[1..][i];
      }
    }
  }

  /** The recent-activity list: the first three activities. */
  function RecentActivity(goals: seq<Goal>): (r: seq<Activity>)
    ensures |r| <= 3 && |r| <= |Activities(goals)|
    ensures forall i :: 0 <= i < |r| ==> r[i] == Activities(goals)[i]
    ensures |r| == if TotalChecked(goals) < 3 then TotalChecked(goals) else 3
    ensures r != [] <==> AnyChecked(goals)
  {
    ActivitiesCount(goals);
    AnyCheckedIff(goals);
    Take(Activities(goals), 3)
  }

  /** For an ordinary user whose fetch returned their goals, the dashboard shows only
      that user's goals, and every goal the server holds for them. */
  lemma LoadedGoalsAreOwnGoals(s: GoalController.GoalStore, u: Caller, fetched: seq<Goal>)
    requires !IsAdmin(u)
    requires forall g :: g in fetched <==> g in GoalController.GetGoals(s, u).Values
    ensures forall g :: g in LoadedGoals(Some(u), fetched) ==> g in s.Values && g.userId == u.id
    ensures forall k :: k in s && s[k].userId == u.id ==> s[k] in LoadedGoals(Some(u), fetched)
  {
    var own := GoalController.GetGoals(s, u);
    forall g | g in fetched ensures g in s.Values && g.userId == u.id {
      var k :| k in own && own[k] == g;
    }
    forall k | k in s && s[k].userId == u.id ensures s[k] in fetched {
      assert own[k] == s[k];
    }
  }
}
