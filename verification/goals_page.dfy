/** The goal list of the Goals page (src/pages/Goals.tsx): optimistic task
    toggling, deletion, custom requests, filtering, sorting and templates. */
module GoalsPage {
  import opened Wrappers
  import opened Common
  import opened Seqs
  import opened Sorting
  import opened GoalModel
  import opened Tasks
  import opened GoalController

  /** Goal ids in a fetched list are pairwise distinct. */
  ghost predicate DistinctIds(goals: seq<Goal>) {
    forall i, j :: 0 <= i < j < |goals| ==> goals[i].id != goals[j].id
  }

  /** Every goal shows the percentage of its own checked tasks. */
  ghost predicate ProgressCurrent(goals: seq<Goal>) {
    forall i :: 0 <= i < |goals| ==> goals[i].progress == ExactProgress(goals[i].tasks)
  }

  /** fetchGoals: each fetched goal with `progress: calculateProgress(goal.tasks)`. */
  function Fetched(data: seq<Goal>): (r: seq<Goal>)
    ensures |r| == |data|
    ensures ProgressCurrent(r)
    ensures forall i :: 0 <= i < |r| ==> r[i].(progress := data[i].progress) == data[i]
  {
    seq(|data|, i requires 0 <= i < |data| => data[i].(progress := ExactProgress(data[i].tasks)))
  }

  /** `goals.find(g => g._id === id)`. */
  function FindGoal(goals: seq<Goal>, id: Id): (r: Option<Goal>)
    ensures r.None? <==> forall i :: 0 <= i < |goals| ==> goals[i].id != id
    ensures r.Some? ==> r.value.id == id && r.value in goals
  {
    if |goals| == 0 then None
    else if goals[0].id == id then Some(goals[0])
    else FindGoal(goals[1..], id)
  }

  /** With distinct ids, the goal found is the one at the matching position. */
  lemma {:induction false} FindGoalAt(goals: seq<Goal>, k: nat)
    requires k < |goals| && DistinctIds(goals)
    ensures FindGoal(goals, goals[k].id) == Some(goals[k])
  {
    if k > 0 {
      assert goals[0].id != goals[k].id;
      assert DistinctIds(goals[1..]) by {
        forall i, j | 0 <= i < j < |goals[1..]| ensures goals[1..][i].id != goals[1..][j].id {
          assert goals[1..][i] == goals[i + 1] && goals[1..][j] == goals[j + 1];
        }
      }
      assert goals[1..][k - 1] == goals[k];
      FindGoalAt(goals[1..], k - 1);
    }
  }

  /** The new state of every goal whose id matches, computed from the first match. */
  function Toggled(g: Goal, ts: seq<Task>): Goal {
    g.(tasks := ts, progress := ExactProgress(ts))
  }

  /** toggleTask: no-op for a falsy task id or an unknown goal; otherwise flips the
      task in the goal's list and recomputes that goal's progress. */
  function ToggleTask(goals: seq<Goal>, goalId: Id, taskId: Option<Id>): (r: seq<Goal>)
    ensures !Truthy(taskId) ==> r == goals
    ensures (forall i :: 0 <= i < |goals| ==> goals[i].id != goalId) ==> r == goals
    ensures |r| == |goals|
    ensures forall i :: 0 <= i < |r| ==> r[i].id == goals[i].id
    ensures forall i :: 0 <= i < |r| && goals[i].id != goalId ==> r[i] == goals[i]
  {
    if !Truthy(taskId) then goals
    else
      match FindGoal(goals, goalId)
      case None => goals
      case Some(g) =>
        var ts := ToggleTasks(g.tasks, taskId.value);
        seq(|goals|, i requires 0 <= i < |goals| =>
          if goals[i].id == goalId then Toggled(goals[i], ts) else goals[i])
  }

  /** The body the toggle sends: `{ tasks: updatedTasks }`, or nothing for a no-op. */
  function TogglePatch(goals: seq<Goal>, goalId: Id, taskId: Option<Id>): (p: Option<GoalPatch>)
    ensures p.Some? <==> Truthy(taskId) && exists i :: 0 <= i < |goals| && goals[i].id == goalId
  {
    if !Truthy(taskId) then None
    else
      match FindGoal(goals, goalId)
      case None => None
      case Some(g) => Some(TasksPatch(ToggleTasks(g.tasks, taskId.value)))
  }

  /** With distinct ids only the addressed goal changes: its tasks are toggled and its
      progress recomputed. */
  lemma ToggleTaskAt(goals: seq<Goal>, k: nat, taskId: Id)
    requires k < |goals| && DistinctIds(goals) && taskId != ""
    ensures ToggleTask(goals, goals[k].id, Some(taskId))[k]
         == Toggled(goals[k], ToggleTasks(goals[k].tasks, taskId))
  {
    FindGoalAt(goals, k);
  }

  /** Toggling keeps every displayed progress in step with its tasks. */
  lemma ToggleKeepsProgressCurrent(goals: seq<Goal>, goalId: Id, taskId: Option<Id>)
    requires ProgressCurrent(goals)
    ensures ProgressCurrent(ToggleTask(goals, goalId, taskId))
  {
  }

  /** Toggling the same task twice restores a fetched list. */
  lemma ToggleTaskTwice(goals: seq<Goal>, goalId: Id, taskId: Option<Id>)
    requires DistinctIds(goals) && ProgressCurrent(goals)
    ensures ToggleTask(ToggleTask(goals, goalId, taskId), goalId, taskId) == goals
  {
    var once := ToggleTask(goals, goalId, taskId);
    var twice := ToggleTask(once, goalId, taskId);
    if Truthy(taskId) && exists i :: 0 <= i < |goals| && goals[i].id == goalId {
      var k :| 0 <= k < |goals| && goals[k].id == goalId;
      ToggleTaskAt(goals, k, taskId.value);
      assert DistinctIds(once);
      ToggleTaskAt(once, k, taskId.value);
      ToggleTwice(goals[k].tasks, taskId.value);
      forall i | 0 <= i < |goals| ensures twice[i] == goals[i] {
        if i == k {
          assert twice[k].tasks == goals[k].tasks;
        }
      }
    }
  }

  /** The optimistic list agrees with the server after the owner's update succeeds:
      the stored tasks are the tasks the page shows. */
  lemma ToggleAgreesWithServer(goals: seq<Goal>, k: nat, taskId: Id, s: GoalStore, owner: Caller)
    requires k < |goals| && DistinctIds(goals) && taskId != ""
    requires goals[k].id in s && s[goals[k].id].userId == owner.id
    ensures var p := TogglePatch(goals, goals[k].id, Some(taskId));
      p.Some? &&
      var r := UpdateGoal(s, Some(owner), goals[k].id, p.value);
      r.result.Ok? && r.store[goals[k].id].tasks == ToggleTask(goals, goals[k].id, Some(taskId))[k].tasks
  {
    FindGoalAt(goals, k);
    ToggleTaskAt(goals, k, taskId);
  }

  /** deleteGoal: on success the goal leaves the list, which otherwise keeps its order. */
  function DeleteGoalLocal(goals: seq<Goal>, id: Id, succeeded: bool): (r: seq<Goal>)
    ensures !succeeded ==> r == goals
    ensures succeeded ==> forall g :: g in r <==> g in goals && g.id != id
    ensures succeeded ==> |r| == CountWhere(goals, (g: Goal) => g.id != id)
    ensures IsSubseq(r, goals)
  {
    IsSubseqRefl(goals);
    if succeeded then Filter(goals, (g: Goal) => g.id != id) else goals
  }

  /** The custom-request dialog's fields; `targetDate` is a timestamp. */
  datatype RequestForm = RequestForm(title: string, description: string, category: string,
                                     targetDate: int, priority: string)

  /** The dialog's state after a reset at time `now`. */
  function EmptyForm(now: int): RequestForm {
    RequestForm("", "", "", now, MEDIUM)
  }

  /** handleRequestSubmit: nothing is sent unless title and description are filled;
      the request asks for a pending goal with no tasks. */
  function RequestBody(f: RequestForm): (b: Option<GoalBody>)
    ensures b.None? <==> f.title == "" || f.description == ""
    ensures b.Some? ==>
      && b.value.title == Some(f.title) && b.value.description == Some(f.description)
      && b.value.category == Some(f.category) && b.value.priority == Some(f.priority)
      && b.value.targetDate == Some(f.targetDate)
      && b.value.status == Some(PENDING) && b.value.tasks == Some([])
  {
    if f.title == "" || f.description == "" then None
    else Some(GoalBody(Some(f.title), Some(f.description), Some(f.category), Some(f.priority),
                       Some([]), Some(f.targetDate), Some(PENDING)))
  }

  datatype RequestState = RequestState(goals: seq<Goal>, form: RequestForm)

  /** The page after a submit: the created goal is appended with progress 0 and the
      form reset; a refused or failed submit changes nothing. */
  function SubmitRequest(st: RequestState, reply: Result<Goal, Error>, now: int): (r: RequestState)
    ensures RequestBody(st.form).None? || reply.Err? ==> r == st
    ensures RequestBody(st.form).Some? && reply.Ok? ==>
      r.goals == AddCreated(st.goals, reply) && r.form == EmptyForm(now)
  {
    if RequestBody(st.form).None? || reply.Err? then st
    else RequestState(AddCreated(st.goals, reply), EmptyForm(now))
  }

  /** A request the server accepts becomes a pending goal with no tasks, 0% done,
      awaiting an administrator. */
  lemma AcceptedRequestIsPending(f: RequestForm, s: GoalStore, users: UserModel.UserStore, c: Caller,
                                 admin: Caller, newId: Id, now: int)
    requires RequestBody(f).Some? && newId !in s && IsAdmin(admin)
    requires CreateGoal(s, c, RequestBody(f).value, newId, [], now).result.Ok?
    ensures var g := CreateGoal(s, c, RequestBody(f).value, newId, [], now).result.value;
      g.status == PENDING && g.tasks == [] && ExactProgress(g.tasks) == 0.0
      && newId in GetPendingGoals(CreateGoal(s, c, RequestBody(f).value, newId, [], now).store, users, admin)
  {
  }

  /** The page checks only title and description, so a request without a category
      is sent and the server refuses it with 400. */
  lemma RequestWithoutCategoryRefused(f: RequestForm, s: GoalStore, c: Caller, newId: Id, now: int)
    requires f.title != "" && f.description != "" && f.category == ""
    requires newId !in s
    ensures RequestBody(f).Some?
    ensures CreateGoal(s, c, RequestBody(f).value, newId, [], now).result
         == Err(BadRequest("Please add all fields"))
  {
  }

  /** The status select: 'all' or the goal's status, compared case-insensitively. */
  predicate MatchesFilter(g: Goal, filter: string) {
    filter == "all" || Lower(g.status) == Lower(filter)
  }

  /** The search box: an empty query, or a match in title, description, category or a task label. */
  predicate MatchesSearch(g: Goal, query: string) {
    var q := Lower(query);
    || query == ""
    || Contains(Lower(g.title), q)
    || Contains(Lower(g.description), q)
    || (g.category != "" && Contains(Lower(g.category), q))
    || exists i :: 0 <= i < |g.tasks| && Contains(Lower(g.tasks[i].taskLabel), q)
  }

  /** The category select: 'all' or the goal's category, compared case-insensitively. */
  predicate MatchesCategory(g: Goal, category: string) {
    category == "all" || (g.category != "" && Lower(g.category) == Lower(category))
  }

  predicate Shown(g: Goal, filter: string, query: string, category: string) {
    MatchesFilter(g, filter) && MatchesSearch(g, query) && MatchesCategory(g, category)
  }

  /** filteredGoals. */
  function FilteredGoals(goals: seq<Goal>, filter: string, query: string, category: string)
    : (r: seq<Goal>)
    ensures forall g :: g in r <==> g in goals && Shown(g, filter, query, category)
    ensures |r| == CountWhere(goals, (g: Goal) => Shown(g, filter, query, category))
    ensures IsSubseq(r, goals)
  {
    Filter(goals, (g: Goal) => Shown(g, filter, query, category))
  }

  /** With every control at its default the whole list is shown, in order. */
  lemma DefaultFiltersShowAll(goals: seq<Goal>)
    ensures FilteredGoals(goals, "all", "", "all") == goals
  {
    FilterKeepsAll(goals, (g: Goal) => Shown(g, "all", "", "all"));
  }

  /** `statusPriority[status] || 0`: active 0, pending 1, completed 2, rejected 3,
      anything else 0. */
  function StatusRank(status: string): (n: int)
    ensures 0 <= n <= 3
    ensures n == 1 <==> status == PENDING
    ensures n == 2 <==> status == COMPLETED
    ensures n == 3 <==> status == REJECTED
  {
    if status == ACTIVE then 0
    else if status == PENDING then 1
    else if status == COMPLETED then 2
    else if status == REJECTED then 3
    else 0
  }

  /** The sort comparator: by rank, then newest `createdAt` first. */
  function Compare(a: Goal, b: Goal): int {
    var ra := StatusRank(a.status);
    var rb := StatusRank(b.status);
    if ra != rb then ra - rb else b.createdAt - a.createdAt
  }

  /** `a` may precede `b` in the sorted list. */
  predicate SortsBefore(a: Goal, b: Goal) {
    Compare(a, b) <= 0
  }

  /** The comparator is consistent: it orders goals by the pair (rank, -createdAt). */
  lemma SortsBeforeIsPreorder()
    ensures TotalPreorder(SortsBefore)
  {
    forall a: Goal, b: Goal ensures SortsBefore(a, b) || SortsBefore(b, a) {
    }
    forall a: Goal, b: Goal, c: Goal | SortsBefore(a, b) && SortsBefore(b, c)
      ensures SortsBefore(a, c)
    {
    }
  }

  /** sortedGoals: a permutation of the filtered list ordered by status rank and,
      within a rank, newest first. */
  function SortedGoals(goals: seq<Goal>): (r: seq<Goal>)
    ensures multiset(r) == multiset(goals)
    ensures forall i, j :: 0 <= i < j < |r| ==>
      StatusRank(r[i].status) < StatusRank(r[j].status)
      || (StatusRank(r[i].status) == StatusRank(r[j].status) && r[i].createdAt >= r[j].createdAt)
  {
    SortsBeforeIsPreorder();
    var r := SortBy(goals, SortsBefore);
    assert forall i, j :: 0 <= i < j < |r| ==> SortsBefore(r[i], r[j]);
    r
  }

  /** A goal template of the "Add Goal" panel. */
  datatype Template = Template(title: string, description: string, taskLabels: seq<string>,
                               category: string, priority: string, status: string)

  const PredefinedGoals: seq<Template> := [
    Template("Web Development", "Become a full-stack web developer",
             ["Learn HTML & CSS basics", "Complete JavaScript fundamentals",
              "Build a React project", "Learn Node.js and Express"], "Web Development", MEDIUM, ACTIVE),
    Template("Data Science", "Master data analysis and machine learning",
             ["Learn Python basics", "Complete data visualization course",
              "Study statistics fundamentals", "Build ML models with scikit-learn"], "Data Science", MEDIUM, ACTIVE),
    Template("Cybersecurity", "Master cybersecurity fundamentals and practices",
             ["Study network security basics", "Learn encryption techniques",
              "Understand ethical hacking", "Practice vulnerability assessment"], "Cybersecurity", MEDIUM, ACTIVE),
    Template("Android App Development", "Build professional Android applications",
             ["Learn Kotlin fundamentals", "Understand Android Studio",
              "Study Material Design principles", "Publish a sample app"], "Mobile Development", MEDIUM, ACTIVE),
    Template("Cloud Computing", "Master cloud infrastructure and services",
             ["Understand cloud service models", "Learn AWS/Azure fundamentals",
              "Study containerization", "Deploy a cloud application"], "Cloud Computing", MEDIUM, ACTIVE)
  ]

  predicate TitleTaken(goals: seq<Goal>, title: string) {
    exists i :: 0 <= i < |goals| && goals[i].title == title
  }

  /** The templates offered: those whose title no existing goal has. */
  function AvailableTemplates(templates: seq<Template>, goals: seq<Goal>): (r: seq<Template>)
    ensures forall t :: t in r <==> t in templates && !TitleTaken(goals, t.title)
    ensures |r| == CountWhere(templates, (t: Template) => !TitleTaken(goals, t.title))
    ensures IsSubseq(r, templates)
  {
    Filter(templates, (t: Template) => !TitleTaken(goals, t.title))
  }

  const ThirtyDays: int := 30 * 24 * 60 * 60 * 1000

  function UncheckedTasks(labels: seq<string>): (r: seq<TaskInput>)
    ensures |r| == |labels|
    ensures forall i :: 0 <= i < |r| ==> r[i] == TaskInput(Some(labels[i]), Some(false))
  {
    seq(|labels|, i requires 0 <= i < |labels| => TaskInput(Some(labels[i]), Some(false)))
  }

  /** addPredefinedGoal's body: the template's fields, due thirty days after `now`. */
  function TemplateBody(t: Template, now: int): (b: GoalBody)
    ensures b.status == Some(t.status) && b.priority == Some(t.priority)
    ensures b.title == Some(t.title) && b.category == Some(t.category)
    ensures b.description == Some(t.description) && b.tasks == Some(UncheckedTasks(t.taskLabels))
    ensures b.targetDate == Some(now + ThirtyDays)
    ensures b.tasks.Some? && |b.tasks.value| == |t.taskLabels|
  {
    GoalBody(Some(t.title), Some(t.description), Some(t.category), Some(t.priority),
             Some(UncheckedTasks(t.taskLabels)), Some(now + ThirtyDays), Some(t.status))
  }

  /** The list after a create request: the created goal is appended with progress 0;
      a failed request changes nothing. */
  function AddCreated(goals: seq<Goal>, reply: Result<Goal, Error>): (r: seq<Goal>)
    ensures reply.Err? ==> r == goals
    ensures reply.Ok? ==>
      && |r| == |goals| + 1 && r[..|goals|] == goals
      && r[|goals|].(progress := reply.value.progress) == reply.value && r[|goals|].progress == 0.0
  {
    match reply
    case Ok(data) => goals + [data.(progress := 0.0)]
    case Err(_) => goals
  }

  /** Every template goal the server creates is active with all tasks unchecked,
      and its template is no longer offered once the goal is in the list. */
  lemma TemplateGoalIsActive(t: Template, goals: seq<Goal>, s: GoalStore, c: Caller, newId: Id,
                             taskIds: seq<Id>, now: int)
    requires t in PredefinedGoals
    requires newId !in s && |taskIds| == |t.taskLabels| && c.id != ""
    ensures var r := CreateGoal(s, c, TemplateBody(t, now), newId, taskIds, now);
      r.result.Ok? && r.result.value.status == ACTIVE && ExactProgress(r.result.value.tasks) == 0.0
      && t !in AvailableTemplates(PredefinedGoals, goals + [r.result.value])
  {
    var b := TemplateBody(t, now);
    var r := CreateGoal(s, c, b, newId, taskIds, now);
    assert HasRequiredFields(b);
    assert FieldsValid(CreateFields(c, b));
    var g := r.result.value;
    NoneCheckedIff(g.tasks);
    assert (goals + [g])[|goals|] == g;
  }

  /** With no goals yet every template is offered. */
  lemma AllTemplatesAtFirst()
    ensures AvailableTemplates(PredefinedGoals, []) == PredefinedGoals
  {
    FilterKeepsAll(PredefinedGoals, (t: Template) => !TitleTaken([], t.title));
  }
}
