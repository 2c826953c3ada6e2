/** The browser-local goal list (src/context/GoalsContext.tsx): numeric goal ids,
    default goals for new users, task toggling and adding, persisted as a whole. */
module GoalsContext {
  import opened Wrappers
  import opened Common
  import opened GoalModel
  import opened Tasks

  /** A goal of the local list; its id is a number (a timestamp for added goals). */
  datatype LocalGoal = LocalGoal(id: int, title: string, description: string, tasks: seq<Task>)

  function Unchecked(id: Id, taskLabel: string): (t: Task)
    ensures !t.checked && t.id == Some(id)
  {
    Task(Some(id), taskLabel, false)
  }

  /** The two goals a new user starts with. */
  const DefaultGoals: seq<LocalGoal> := [
    LocalGoal(1, "Web Development", "Become a full-stack web developer",
      [Unchecked("task-1", "Learn HTML & CSS basics"),
       Unchecked("task-2", "Complete JavaScript fundamentals"),
       Unchecked("task-3", "Build a React project"),
       Unchecked("task-4", "Learn Node.js and Express")]),
    LocalGoal(2, "Data Science", "Master data analysis and machine learning",
      [Unchecked("ds-task-1", "Learn Python basics"),
       Unchecked("ds-task-2", "Complete data visualization course"),
       Unchecked("ds-task-3", "Study statistics fundamentals"),
       Unchecked("ds-task-4", "Build ML models with scikit-learn")])
  ]

  /** The initial list: the saved list when there is one, else the defaults.
      `saved` is the already parsed content of the 'goals' storage key. */
  function Initial(saved: Option<seq<LocalGoal>>): (r: seq<LocalGoal>)
    ensures saved.Some? ==> r == saved.value
    ensures saved.None? ==> |r| == 2 && r[0].id == 1 && r[1].id == 2
    ensures saved.None? ==> |r[0].tasks| == 4 && |r[1].tasks| == 4
    ensures saved.None? ==> forall i, j :: 0 <= i < |r| && 0 <= j < |r[i].tasks| ==> !r[i].tasks[j].checked
  {
    match saved
    case Some(goals) => goals
    case None => DefaultsUnchecked(); DefaultGoals
  }

  /** Every default task starts unchecked. */
  lemma DefaultsUnchecked()
    ensures forall i, j :: 0 <= i < |DefaultGoals| && 0 <= j < |DefaultGoals[i].tasks| ==>
      !DefaultGoals[i].tasks[j].checked
  {
    var g0 := DefaultGoals[0];
    var g1 := DefaultGoals[1];
    assert forall j :: 0 <= j < |g0.tasks| ==> !g0.tasks[j].checked;
    assert forall j :: 0 <= j < |g1.tasks| ==> !g1.tasks[j].checked;
  }

  /** What is written to storage after every change. */
  function Persist(goals: seq<LocalGoal>): Option<seq<LocalGoal>> {
    Some(goals)
  }

  /** Reloading restores the list exactly as it was last persisted. */
  lemma ReloadRestores(goals: seq<LocalGoal>)
    ensures Initial(Persist(goals)) == goals
  {
  }

  /** toggleTask: every goal with the id has the task flipped; nothing else changes. */
  function ToggleTask(goals: seq<LocalGoal>, goalId: int, taskId: Id): (r: seq<LocalGoal>)
    ensures |r| == |goals|
    ensures forall i :: 0 <= i < |r| && goals[i].id != goalId ==> r[i] == goals[i]
    ensures forall i :: 0 <= i < |r| && goals[i].id == goalId ==>
      r[i] == goals[i].(tasks := ToggleTasks(goals[i].tasks, taskId))
  {
    seq(|goals|, i requires 0 <= i < |goals| =>
      if goals[i].id == goalId then goals[i].(tasks := ToggleTasks(goals[i].tasks, taskId))
      else goals[i])
  }

  /** Toggling the same task twice restores the list. */
  lemma ToggleTaskTwice(goals: seq<LocalGoal>, goalId: int, taskId: Id)
    ensures ToggleTask(ToggleTask(goals, goalId, taskId), goalId, taskId) == goals
  {
    var once := ToggleTask(goals, goalId, taskId);
    var twice := ToggleTask(once, goalId, taskId);
    forall i | 0 <= i < |goals| ensures twice[i] == goals[i] {
      if goals[i].id == goalId {
        ToggleTwice(goals[i].tasks, taskId);
      }
    }
  }

  /** Toggling never changes a goal's id, title, description or number of tasks. */
  lemma ToggleKeepsShape(goals: seq<LocalGoal>, goalId: int, taskId: Id)
    ensures var r := ToggleTask(goals, goalId, taskId);
      forall i :: 0 <= i < |goals| ==>
        r[i].id == goals[i].id && r[i].title == goals[i].title
        && r[i].description == goals[i].description && |r[i].tasks| == |goals[i].tasks|
  {
  }

  /** addGoal: the goal is appended under the id `now` (`Date.now()`). */
  function AddGoal(goals: seq<LocalGoal>, g: LocalGoal, now: int): (r: seq<LocalGoal>)
    ensures |r| == |goals| + 1
    ensures r[..|goals|] == goals
    ensures r[|goals|].id == now && r[|goals|].(id := g.id) == g
  {
    goals + [g.(id := now)]
  }

  /** A goal added at `now` is the one a later toggle addressed to `now` reaches. */
  lemma AddedGoalIsToggled(goals: seq<LocalGoal>, g: LocalGoal, now: int, taskId: Id)
    requires forall i :: 0 <= i < |goals| ==> goals[i].id != now
    ensures var r := ToggleTask(AddGoal(goals, g, now), now, taskId);
      r[..|goals|] == goals && r[|goals|].tasks == ToggleTasks(g.tasks, taskId)
  {
  }
}
