/** The course endpoints (server/src/controllers/courseController.ts): owner-only
    mutation over an in-memory collection keyed by course id. */
module CourseController {
  import opened Wrappers
  import opened Common
  import opened CourseModel

  type CourseStore = map<Id, Course>

  /** Every stored course sits under its own id. */
  ghost predicate KeysMatch(s: CourseStore) {
    forall k :: k in s ==> s[k].id == k
  }

  /** `getCourses`: the caller's courses. */
  function GetCourses(s: CourseStore, caller: Caller): (r: CourseStore)
    ensures forall k :: k in r <==> k in s && s[k].userId == caller.id
    ensures forall k :: k in r ==> r[k] == s[k]
  {
    map k | k in s && s[k].userId == caller.id :: s[k]
  }

  datatype CourseBody = CourseBody(title: Option<string>, provider: Option<string>,
                                   status: Option<string>, progress: Option<int>)

  /** `createCourse`: 400 without a title or provider; the document belongs to the caller. */
  function CreateCourse(s: CourseStore, caller: Caller, b: CourseBody, newId: Id, now: int)
    : (r: Reply<CourseStore, Course>)
    requires newId !in s
    ensures !Truthy(b.title) || !Truthy(b.provider) ==>
      r.result == Err(BadRequest("Please add title and provider"))
    ensures r.result.Err? ==> r.store == s
    ensures r.result.Ok? <==>
      Truthy(b.title) && Truthy(b.provider) && caller.id != ""
      && (b.status.Some? ==> ValidStatus(b.status.value))
    ensures r.result.Ok? ==>
      && r.store == s[newId := r.result.value]
      && r.result.value.userId == caller.id && r.result.value.id == newId
      && r.result.value.status == b.status.GetOr(IN_PROGRESS)
      && r.result.value.progress == b.progress.GetOr(0)
      && r.result.value.startedAt == now
  {
    if !Truthy(b.title) || !Truthy(b.provider) then
      Reply(s, Err(BadRequest("Please add title and provider")))
    else
      match CreateDocument(CourseFields(caller.id, b.title, b.provider, b.status, b.progress), newId, now)
      case Ok(c) => Reply(s[newId := c], Ok(c))
      case Err(e) => Reply(s, Err(e))
  }

  /** `updateCourse`: 404, then 401 unless the caller owns the course, then the merge. */
  function UpdateCourse(s: CourseStore, caller: Caller, id: Id, p: CoursePatch)
    : (r: Reply<CourseStore, Course>)
    ensures id !in s ==> r.result == Err(NotFound("Course not found"))
    ensures id in s && s[id].userId != caller.id ==> r.result == Err(Unauthorized("User not authorized"))
    ensures r.result.Err? ==> r.store == s
    ensures r.result.Ok? <==> id in s && s[id].userId == caller.id
    ensures r.result.Ok? ==> r.result.value == ApplyPatch(s[id], p) && r.store == s[id := r.result.value]
  {
    if id !in s then Reply(s, Err(NotFound("Course not found")))
    else if s[id].userId != caller.id then Reply(s, Err(Unauthorized("User not authorized")))
    else
      var c := ApplyPatch(s[id], p);
      Reply(s[id := c], Ok(c))
  }

  /** `deleteCourse`: same guard as update; replies with the removed id. */
  function DeleteCourse(s: CourseStore, caller: Caller, id: Id): (r: Reply<CourseStore, Id>)
    ensures id !in s ==> r.result == Err(NotFound("Course not found"))
    ensures id in s && s[id].userId != caller.id ==> r.result == Err(Unauthorized("User not authorized"))
    ensures r.result.Err? ==> r.store == s
    ensures r.result.Ok? <==> id in s && s[id].userId == caller.id
    ensures r.result.Ok? ==> r.result.value == id && r.store == s - {id}
  {
    if id !in s then Reply(s, Err(NotFound("Course not found")))
    else if s[id].userId != caller.id then Reply(s, Err(Unauthorized("User not authorized")))
    else Reply(s - {id}, Ok(id))
  }

  /** Unlike goals, an administrator cannot touch another user's course. */
  lemma NoAdminOverride(s: CourseStore, admin: Caller, id: Id, p: CoursePatch)
    requires IsAdmin(admin) && id in s && s[id].userId != admin.id
    ensures UpdateCourse(s, admin, id, p) == Reply(s, Err(Unauthorized("User not authorized")))
    ensures DeleteCourse(s, admin, id) == Reply(s, Err(Unauthorized("User not authorized")))
  {
  }

  /** Update and delete leave every other course as it was. */
  lemma CourseFramesOthers(s: CourseStore, caller: Caller, id: Id, p: CoursePatch, k: Id)
    requires k in s && k != id
    ensures k in UpdateCourse(s, caller, id, p).store && UpdateCourse(s, caller, id, p).store[k] == s[k]
    ensures k in DeleteCourse(s, caller, id).store && DeleteCourse(s, caller, id).store[k] == s[k]
  {
  }

  /** The three operations keep every course under its own id. */
  lemma CourseOperationsKeepKeys(s: CourseStore, c: Caller, b: CourseBody, newId: Id, now: int,
                                 id: Id, p: CoursePatch)
    requires KeysMatch(s) && newId !in s
    ensures KeysMatch(CreateCourse(s, c, b, newId, now).store)
    ensures KeysMatch(UpdateCourse(s, c, id, p).store)
    ensures KeysMatch(DeleteCourse(s, c, id).store)
  {
  }

  /** A created course is listed for its creator and for nobody else. */
  lemma CreatedCourseIsListed(s: CourseStore, c: Caller, other: Caller, b: CourseBody, newId: Id, now: int)
    requires newId !in s && CreateCourse(s, c, b, newId, now).result.Ok? && other.id != c.id
    ensures newId in GetCourses(CreateCourse(s, c, b, newId, now).store, c)
    ensures newId !in GetCourses(CreateCourse(s, c, b, newId, now).store, other)
  {
  }
}
