/** The Course document (server/src/models/Course.ts). */
module CourseModel {
  import opened Wrappers
  import opened Common

  const IN_PROGRESS: string := "in_progress"
  const COMPLETED: string := "completed"

  predicate ValidStatus(s: string) {
    s == IN_PROGRESS || s == COMPLETED
  }

  /** A tracked course; dates are timestamps. */
  datatype Course = Course(
    id: Id,
    userId: Id,
    title: string,
    provider: string,
    status: string,
    progress: int,
    startedAt: int,
    completedAt: Option<int>)

  /** The paths handed to `Course.create`; `None` is an absent (undefined) value. */
  datatype CourseFields = CourseFields(
    userId: Id,
    title: Option<string>,
    provider: Option<string>,
    status: Option<string>,
    progress: Option<int>)

  /** The schema's validators: required paths present and non-empty, status in the enum. */
  predicate FieldsValid(f: CourseFields) {
    && f.userId != ""
    && Truthy(f.title) && Truthy(f.provider)
    && (f.status.Some? ==> ValidStatus(f.status.value))
  }

  /** `Course.create`: validation, then the defaults in_progress, 0 and `startedAt = now`. */
  function CreateDocument(f: CourseFields, id: Id, now: int): (r: Result<Course, Error>)
    ensures r.Ok? <==> FieldsValid(f)
    ensures r.Err? ==> r.error == SchemaRejected
    ensures r.Ok? ==>
      && r.value.id == id && r.value.userId == f.userId
      && r.value.title == f.title.value && r.value.provider == f.provider.value
      && r.value.status == f.status.GetOr(IN_PROGRESS) && ValidStatus(r.value.status)
      && r.value.progress == f.progress.GetOr(0)
      && r.value.startedAt == now && r.value.completedAt.None?
  {
    if !FieldsValid(f) then Err(SchemaRejected)
    else Ok(Course(id, f.userId, f.title.value, f.provider.value, f.status.GetOr(IN_PROGRESS),
                   f.progress.GetOr(0), now, None))
  }

  /** A partial update body: every path the body may set. */
  datatype CoursePatch = CoursePatch(
    userId: Option<Id>,
    title: Option<string>,
    provider: Option<string>,
    status: Option<string>,
    progress: Option<int>,
    startedAt: Option<int>,
    completedAt: Option<int>)

  /** `$set` of the supplied paths; validators do not run. */
  function ApplyPatch(c: Course, p: CoursePatch): (r: Course)
    ensures r.id == c.id
    ensures r.userId == p.userId.GetOr(c.userId)
    ensures r.title == p.title.GetOr(c.title)
    ensures r.provider == p.provider.GetOr(c.provider)
    ensures r.status == p.status.GetOr(c.status)
    ensures r.progress == p.progress.GetOr(c.progress)
    ensures r.startedAt == p.startedAt.GetOr(c.startedAt)
    ensures r.completedAt == (if p.completedAt.Some? then p.completedAt else c.completedAt)
  {
    c.(userId := p.userId.GetOr(c.userId),
       title := p.title.GetOr(c.title),
       provider := p.provider.GetOr(c.provider),
       status := p.status.GetOr(c.status),
       progress := p.progress.GetOr(c.progress),
       startedAt := p.startedAt.GetOr(c.startedAt),
       completedAt := if p.completedAt.Some? then p.completedAt else c.completedAt)
  }

  /** Sending the same body twice has the effect of sending it once. */
  lemma ApplyPatchIdempotent(c: Course, p: CoursePatch)
    ensures ApplyPatch(ApplyPatch(c, p), p) == ApplyPatch(c, p)
  {
  }
}
