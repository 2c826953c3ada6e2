/** The goal document: its fields, enums, defaults and the `$set` merge that
    `findByIdAndUpdate` applies (server/src/models/Goal.ts). */
module GoalModel {
  import opened Wrappers
  import opened Common

  const PENDING: string := "pending"
  const ACTIVE: string := "active"
  const COMPLETED: string := "completed"
  const REJECTED: string := "rejected"

  const LOW: string := "low"
  const MEDIUM: string := "medium"
  const HIGH: string := "high"

  predicate ValidStatus(s: string) {
    s == PENDING || s == ACTIVE || s == COMPLETED || s == REJECTED
  }

  predicate ValidPriority(p: string) {
    p == LOW || p == MEDIUM || p == HIGH
  }

  /** A task sub-document; `id` is absent until the server has stored it.
      `taskLabel` is the source's `label` (a reserved word in Dafny). */
  datatype Task = Task(id: Option<Id>, taskLabel: string, checked: bool)

  /** Dates are integer timestamps; the stored `progress` is a JavaScript number. */
  datatype Goal = Goal(
    id: Id,
    userId: Id,
    title: string,
    description: string,
    category: string,
    status: string,
    priority: string,
    targetDate: Option<int>,
    progress: real,
    tasks: seq<Task>,
    reviewedBy: Option<string>,
    reviewedAt: Option<int>,
    createdAt: int)

  /** What the schema guarantees of a document it has validated. */
  ghost predicate WellFormed(g: Goal) {
    && g.userId != "" && g.title != "" && g.description != "" && g.category != ""
    && ValidStatus(g.status)
    && ValidPriority(g.priority)
    && forall i :: 0 <= i < |g.tasks| ==> g.tasks[i].taskLabel != ""
  }

  /** A task as it arrives in a request body. */
  datatype TaskInput = TaskInput(taskLabel: Option<string>, checked: Option<bool>)

  /** The fields handed to `Goal.create`; `None` is an undefined field. */
  datatype GoalFields = GoalFields(
    userId: Id,
    title: Option<string>,
    description: Option<string>,
    category: Option<string>,
    priority: Option<string>,
    tasks: Option<seq<TaskInput>>,
    targetDate: Option<int>,
    status: Option<string>)

  /** Schema validation: required paths are non-empty, enum paths hold a member
      of their enum when set, and every task has a taskLabel. */
  predicate FieldsValid(f: GoalFields) {
    && f.userId != ""
    && Truthy(f.title) && Truthy(f.description) && Truthy(f.category)
    && (f.priority.Some? ==> ValidPriority(f.priority.value))
    && (f.status.Some? ==> ValidStatus(f.status.value))
    && (f.tasks.Some? ==> forall i :: 0 <= i < |f.tasks.value| ==> Truthy(f.tasks.value[i].taskLabel))
  }

  function TaskInputs(f: GoalFields): seq<TaskInput> {
    f.tasks.GetOr([])
  }

  /** Builds the task sub-documents, giving each a fresh id and `checked` its default. */
  function NewTasks(inputs: seq<TaskInput>, ids: seq<Id>): (r: seq<Task>)
    requires |ids| == |inputs|
    ensures |r| == |inputs|
    ensures forall i :: 0 <= i < |r| ==>
      r[i].id == Some(ids[i]) && r[i].taskLabel == inputs[i].taskLabel.GetOr("")
      && r[i].checked == inputs[i].checked.GetOr(false)
  {
    if |inputs| == 0 then []
    else [Task(Some(ids[0]), inputs[0].taskLabel.GetOr(""), inputs[0].checked.GetOr(false))]
         + NewTasks(inputs[1..], ids[1..])
  }

  /** `Goal.create`: validates the fields and fills in the schema defaults.
      `id`, `taskIds` and `now` stand for the generated ObjectIds and timestamp. */
  function CreateDocument(f: GoalFields, id: Id, taskIds: seq<Id>, now: int): (r: Result<Goal, Error>)
    requires |taskIds| == |TaskInputs(f)|
    ensures r.Ok? <==> FieldsValid(f)
    ensures r.Err? ==> r.error == SchemaRejected
    ensures r.Ok? ==> WellFormed(r.value)
    ensures r.Ok? ==>
      var g := r.value;
      && g.id == id && g.userId == f.userId && g.createdAt == now
      && g.title == f.title.value && g.description == f.description.value
      && g.category == f.category.value && g.targetDate == f.targetDate
      && g.status == f.status.GetOr(PENDING)
      && g.priority == f.priority.GetOr(MEDIUM)
      && g.progress == 0.0 && g.reviewedBy.None? && g.reviewedAt.None?
      && |g.tasks| == |TaskInputs(f)|
      && forall i :: 0 <= i < |g.tasks| ==>
           g.tasks[i].taskLabel == TaskInputs(f)[i].taskLabel.value
           && g.tasks[i].checked == TaskInputs(f)[i].checked.GetOr(false)
  {
    if !FieldsValid(f) then Err(SchemaRejected)
    else
      Ok(Goal(id, f.userId, f.title.value, f.description.value, f.category.value,
              f.status.GetOr(PENDING), f.priority.GetOr(MEDIUM), f.targetDate, 0.0,
              NewTasks(TaskInputs(f), taskIds), None, None, now))
  }

  /** A partial update body: every schema path the body may set. */
  datatype GoalPatch = GoalPatch(
    userId: Option<Id>,
    title: Option<string>,
    description: Option<string>,
    category: Option<string>,
    status: Option<string>,
    priority: Option<string>,
    targetDate: Option<int>,
    progress: Option<real>,
    tasks: Option<seq<Task>>,
    reviewedBy: Option<string>,
    reviewedAt: Option<int>)

  const NoChange: GoalPatch :=
    GoalPatch(None, None, None, None, None, None, None, None, None, None, None)

  /** The body `{ status: s }`. */
  function StatusPatch(s: string): GoalPatch {
    NoChange.(status := Some(s))
  }

  /** The body `{ tasks: ts }`. */
  function TasksPatch(ts: seq<Task>): GoalPatch {
    NoChange.(tasks := Some(ts))
  }

  /** `$set` of the supplied paths; validators do not run. */
  function ApplyPatch(g: Goal, p: GoalPatch): (r: Goal)
    ensures r.id == g.id && r.createdAt == g.createdAt
    ensures r.userId == p.userId.GetOr(g.userId)
    ensures r.title == p.title.GetOr(g.title)
    ensures r.description == p.description.GetOr(g.description)
    ensures r.category == p.category.GetOr(g.category)
    ensures r.status == p.status.GetOr(g.status)
    ensures r.priority == p.priority.GetOr(g.priority)
    ensures r.targetDate == (if p.targetDate.Some? then p.targetDate else g.targetDate)
    ensures r.progress == p.progress.GetOr(g.progress)
    ensures r.tasks == p.tasks.GetOr(g.tasks)
    ensures r.reviewedBy == (if p.reviewedBy.Some? then p.reviewedBy else g.reviewedBy)
    ensures r.reviewedAt == (if p.reviewedAt.Some? then p.reviewedAt else g.reviewedAt)
  {
    g.(userId := p.userId.GetOr(g.userId),
       title := p.title.GetOr(g.title),
       description := p.description.GetOr(g.description),
       category := p.category.GetOr(g.category),
       status := p.status.GetOr(g.status),
       priority := p.priority.GetOr(g.priority),
       targetDate := if p.targetDate.Some? then p.targetDate else g.targetDate,
       progress := p.progress.GetOr(g.progress),
       tasks := p.tasks.GetOr(g.tasks),
       reviewedBy := if p.reviewedBy.Some? then p.reviewedBy else g.reviewedBy,
       reviewedAt := if p.reviewedAt.Some? then p.reviewedAt else g.reviewedAt)
  }

  function Latest<T>(first: Option<T>, second: Option<T>): Option<T> {
    if second.Some? then second else first
  }

  /** The single body equivalent to sending `p` and then `q`. */
  function Then(p: GoalPatch, q: GoalPatch): GoalPatch {
    GoalPatch(Latest(p.userId, q.userId), Latest(p.title, q.title),
              Latest(p.description, q.description), Latest(p.category, q.category),
              Latest(p.status, q.status), Latest(p.priority, q.priority),
              Latest(p.targetDate, q.targetDate), Latest(p.progress, q.progress),
              Latest(p.tasks, q.tasks), Latest(p.reviewedBy, q.reviewedBy),
              Latest(p.reviewedAt, q.reviewedAt))
  }

  /** An empty body leaves the document as it is. */
  lemma NoChangeIsIdentity(g: Goal)
    ensures ApplyPatch(g, NoChange) == g
  {
  }

  /** Sending the same body twice has the effect of sending it once. */
  lemma ApplyPatchIdempotent(g: Goal, p: GoalPatch)
    ensures ApplyPatch(ApplyPatch(g, p), p) == ApplyPatch(g, p)
  {
  }

  /** Two successive updates compose into one, later fields winning. */
  lemma ApplyPatchThen(g: Goal, p: GoalPatch, q: GoalPatch)
    ensures ApplyPatch(ApplyPatch(g, p), q) == ApplyPatch(g, Then(p, q))
  {
  }

  /** Because validators do not run on update, a valid document can be given an
      unknown status. */
  lemma PatchCanLeaveEnum(g: Goal)
    requires WellFormed(g)
    ensures !WellFormed(ApplyPatch(g, StatusPatch("archived")))
  {
  }
}
