/** The Courses page (src/pages/Courses.tsx): tracking catalog courses, stepping
    progress, removing courses and recommending by goal category. */
module CoursesPage {
  import opened Wrappers
  import opened Common
  import opened Seqs
  import GoalModel
  import opened CourseModel
  import opened CourseController

  /** A catalog course; only the fields the page logic reads. */
  datatype CatalogCourse = CatalogCourse(id: int, title: string, instructor: string, category: string)

  predicate Tracked(my: seq<Course>, title: string) {
    exists i :: 0 <= i < |my| && my[i].title == title
  }

  /** handleTrackCourse's request: none when a course of that title is tracked already. */
  function TrackRequest(my: seq<Course>, cc: CatalogCourse): (b: Option<CourseBody>)
    ensures b.None? <==> Tracked(my, cc.title)
    ensures b.Some? ==>
      b.value == CourseBody(Some(cc.title), Some(cc.instructor), Some(IN_PROGRESS), Some(0))
  {
    if Tracked(my, cc.title) then None
    else Some(CourseBody(Some(cc.title), Some(cc.instructor), Some(IN_PROGRESS), Some(0)))
  }

  /** The tracked list after handleTrackCourse and the server's reply. */
  function TrackCourse(my: seq<Course>, cc: CatalogCourse, reply: Result<Course, Error>): (r: seq<Course>)
    ensures Tracked(my, cc.title) || reply.Err? ==> r == my
    ensures !Tracked(my, cc.title) && reply.Ok? ==> r == my + [reply.value]
  {
    if TrackRequest(my, cc).None? then my
    else
      match reply
      case Ok(data) => my + [data]
      case Err(_) => my
  }

  /** Once a course of that title is tracked, tracking it again changes nothing,
      whatever the server would reply. */
  lemma TrackAgainIsNoOp(my: seq<Course>, cc: CatalogCourse, first: Course, second: Result<Course, Error>)
    requires first.title == cc.title
    ensures var once := TrackCourse(my, cc, Ok(first));
      Tracked(once, cc.title) && TrackCourse(once, cc, second) == once
  {
    var once := TrackCourse(my, cc, Ok(first));
    if !Tracked(my, cc.title) {
      assert once[|my|] == first;
    }
  }

  /** The server accepts a track request for a catalog course with a title and an
      instructor, creating an in-progress course at 0% owned by the caller. */
  lemma TrackRequestAccepted(my: seq<Course>, cc: CatalogCourse, s: CourseStore, c: Caller,
                             newId: Id, now: int)
    requires !Tracked(my, cc.title) && cc.title != "" && cc.instructor != "" && c.id != ""
    requires newId !in s
    ensures var r := CreateCourse(s, c, TrackRequest(my, cc).value, newId, now);
      r.result.Ok? && r.result.value.status == IN_PROGRESS && r.result.value.progress == 0
      && r.result.value.userId == c.id && r.result.value.title == cc.title
  {
  }

  /** The "Update Progress" step: 25 points more, never past 100. */
  function ProgressStep(progress: int): (r: int)
    ensures r <= 100
    ensures progress <= 75 ==> r == progress + 25
    ensures progress >= 75 ==> r == 100
    ensures r > progress <==> progress < 100
  {
    if progress + 25 < 100 then progress + 25 else 100
  }

  /** The status sent along with a new progress value. */
  function StatusFor(progress: int): (s: string)
    ensures s == COMPLETED <==> progress == 100
    ensures ValidStatus(s)
  {
    if progress == 100 then COMPLETED else IN_PROGRESS
  }

  /** The body updateCourseProgress sends. */
  function ProgressPatch(progress: int): (p: CoursePatch)
    ensures p.progress == Some(progress) && p.status == Some(StatusFor(progress))
    ensures p.userId.None? && p.title.None? && p.provider.None?
    ensures p.startedAt.None? && p.completedAt.None?
  {
    CoursePatch(None, None, None, Some(StatusFor(progress)), Some(progress), None, None)
  }

  /** The button is offered only for courses not yet completed. */
  predicate CanUpdateProgress(c: Course) {
    c.status != COMPLETED
  }

  /** One click on "Update Progress" as the server stores it. */
  function Click(c: Course): (r: Course)
    ensures r.progress == ProgressStep(c.progress) && r.status == StatusFor(r.progress)
    ensures r == c.(progress := r.progress, status := r.status)
  {
    ApplyPatch(c, ProgressPatch(ProgressStep(c.progress)))
  }

  /** `k` clicks in a row, each offered only while the course is not completed. */
  function Clicks(c: Course, k: nat): Course
    decreases k
  {
    if k == 0 || !CanUpdateProgress(c) then c else Clicks(Click(c), k - 1)
  }

  /** From any progress in [0, 100], clicking enough times completes the course
      at exactly 100%, after which the button is gone. */
  lemma {:induction false} ClicksComplete(c: Course, k: nat)
    requires 0 <= c.progress <= 100 && c.status == StatusFor(c.progress)
    requires c.progress + 25 * k >= 100
    ensures Clicks(c, k).progress == 100 && Clicks(c, k).status == COMPLETED
    ensures !CanUpdateProgress(Clicks(c, k))
    decreases k
  {
    if c.progress < 100 {
      assert k > 0;
      ClicksComplete(Click(c), k - 1);
    }
  }

  /** Clicking keeps progress within [0, 100] and the status tied to reaching 100. */
  lemma ClickKeepsStatusConsistent(c: Course)
    requires 0 <= c.progress <= 100
    ensures 0 <= Click(c).progress <= 100
    ensures Click(c).status == COMPLETED <==> Click(c).progress == 100
    ensures Click(c).id == c.id && Click(c).title == c.title && Click(c).userId == c.userId
  {
  }

  /** The local list after a progress update: the matching course becomes the reply. */
  function UpdateLocal(my: seq<Course>, courseId: Id, reply: Result<Course, Error>): (r: seq<Course>)
    ensures reply.Err? ==> r == my
    ensures |r| == |my|
    ensures forall i :: 0 <= i < |r| && my[i].id != courseId ==> r[i] == my[i]
    ensures reply.Ok? ==> forall i :: 0 <= i < |r| && my[i].id == courseId ==> r[i] == reply.value
  {
    match reply
    case Err(_) => my
    case Ok(data) => seq(|my|, i requires 0 <= i < |my| => if my[i].id == courseId then data else my[i])
  }

  /** deleteCourse: on success the course leaves the list, which otherwise keeps its order. */
  function DeleteLocal(my: seq<Course>, courseId: Id, succeeded: bool): (r: seq<Course>)
    ensures !succeeded ==> r == my
    ensures succeeded ==> forall c :: c in r <==> c in my && c.id != courseId
    ensures succeeded ==> |r| == CountWhere(my, (c: Course) => c.id != courseId)
    ensures IsSubseq(r, my)
  {
    IsSubseqRefl(my);
    if succeeded then Filter(my, (c: Course) => c.id != courseId) else my
  }

  predicate HasGoalIn(goals: seq<GoalModel.Goal>, category: string) {
    exists i :: 0 <= i < |goals| && goals[i].category == category
  }

  /** filteredCourses: the catalog courses whose category some goal of the user has. */
  function Recommended(catalog: seq<CatalogCourse>, goals: seq<GoalModel.Goal>): (r: seq<CatalogCourse>)
    ensures forall cc :: cc in r <==> cc in catalog && HasGoalIn(goals, cc.category)
    ensures |r| == CountWhere(catalog, (cc: CatalogCourse) => HasGoalIn(goals, cc.category))
    ensures IsSubseq(r, catalog)
  {
    Filter(catalog, (cc: CatalogCourse) => HasGoalIn(goals, cc.category))
  }

  /** When the page's copy matches the server, the owner's successful update leaves the
      page's copy equal to the stored course. */
  lemma UpdateLocalAgreesWithServer(my: seq<Course>, k: nat, s: CourseStore, caller: Caller, p: CoursePatch)
    requires k < |my| && my[k].id in s && s[my[k].id] == my[k] && my[k].userId == caller.id
    ensures var r := UpdateCourse(s, caller, my[k].id, p);
      r.result.Ok? && UpdateLocal(my, my[k].id, r.result)[k] == r.store[my[k].id]
  {
  }
}
