# Career-guidance app: business rules in Dafny

This project models the business rules of a career-guidance web application. The
application has an Express/Mongoose server and React pages. Learners set learning
goals made of tasks, track courses, apply for internships and open support tickets.
Administrators approve goal requests, answer tickets and manage users.

Each server collection is a `map` from id to record, and each controller is a pure
function. A controller returns a `Reply(store, result)`: the new store, plus either
the document or an `Error` that carries the source's status and message. Each page's
list is a `seq`. Each page handler is a pure function of the list and the server's
reply. The reply is a parameter: the model performs no HTTP calls.

Module layout, one module per source file:

- Foundations: `Wrappers` (Option/Result), `Common` (ids, callers, errors,
  JavaScript truthiness), `Seqs` (filter, subsequence, ASCII `toLowerCase`,
  `includes`, `trim`) and `Sorting` (a sort over a total preorder, with permutation
  and sortedness proved).
- Goals:
  - `GoalModel` and `GoalController` for the server.
  - `Tasks`: progress arithmetic and task toggling.
  - `GoalsPage`, `Dashboard`, `GoalsContext` and `AdminPage` for the pages.
- Courses: `CourseModel`, `CourseController` and `CoursesPage`.
- Support: `SupportModel`, `SupportController` and `AdminSupport`.
- Internships: `InternshipModel`, `InternshipController` and `InternshipsPage`.
- Users: `UserModel` and `UserController`. `AuthStore` is the browser-local user
  list, and `RequireAuth` is the route guard.

Some behaviour of the source is stated as lemmas:

- The Goals page checks only title and description before it sends a goal request.
  The server also requires a category, so a request with the form's empty default
  category is refused with 400 (`GoalsPage.RequestWithoutCategoryRefused`).
- `createGoal` always passes a status (`status || 'active'`). The schema default
  `'pending'` is therefore never used through this endpoint
  (`GoalController.CreateDefaultsToActive`).
- Goal, course and ticket updates use `findByIdAndUpdate`, which runs no
  validators. An update can therefore store a status outside the schema's enum
  (`GoalModel.PatchCanLeaveEnum`).
- Seeding the local user list looks for an administrator by role, not by email. A
  stored ordinary user with the administrator's email therefore ends up sharing that
  email with the seeded administrator (`AuthStore.SeedingCanDuplicateEmail`).
- Course mutation has no administrator override, unlike goals
  (`CourseController.NoAdminOverride`).
- Deleting a user leaves their goals and courses in place
  (`UserController.DeleteLeavesOrphans`).

## Model

| member | source | states |
|---|---|---|
| GoalModel.CreateDocument | server/src/models/Goal.ts:3-49 | A goal is created exactly when userId, title, description and category are non-empty, every task has a label, and status and priority lie in their enums. Status defaults to pending, priority to medium, progress to 0 and a task's `checked` to false. There is no reviewer yet. |
| GoalModel.ApplyPatch | server/src/controllers/goalController.ts:68-70 | A successful update overwrites exactly the supplied paths. Every other path, the id and createdAt keep their stored values. |
| GoalModel.NoChangeIsIdentity | server/src/controllers/goalController.ts:68-70 | An empty update body leaves the goal as it was. |
| GoalModel.ApplyPatchIdempotent | server/src/controllers/goalController.ts:68-70 | Sending the same update twice has the effect of sending it once. |
| GoalModel.ApplyPatchThen | server/src/controllers/goalController.ts:68-70 | Two successive updates equal one update in which the later body's fields win. |
| GoalModel.PatchCanLeaveEnum | server/src/models/Goal.ts:22-26 | Because updates skip validation, a valid goal can be given a status outside pending/active/completed/rejected. |
| GoalController.GetGoals | server/src/controllers/goalController.ts:7-10 | Lists exactly the goals whose userId is the caller's id, unchanged. |
| GoalController.GetPendingGoals | server/src/controllers/goalController.ts:15-18 | For an administrator, lists exactly the goals whose status is pending. Each is paired with its owner's name and email when the owner exists. |
| GoalController.CreateFields | server/src/controllers/goalController.ts:31-40 | The created goal belongs to the caller. Its status is the supplied status when that is truthy, and 'active' otherwise. |
| GoalController.CreateGoal | server/src/controllers/goalController.ts:23-43 | A missing title, description or category gives 400 'Please add all fields'. Any failure leaves the store unchanged. Success happens exactly when the fields pass the schema, and the goal is then stored under its new id. |
| GoalController.UpdateGoal | server/src/controllers/goalController.ts:48-73 | Errors come in a fixed order: 404 'Goal not found', then 401 'User not found' with no caller, then 401 'User not authorized' unless the caller is the owner or an administrator. Success happens exactly in the remaining case and stores the merged goal. |
| GoalController.DeleteGoal | server/src/controllers/goalController.ts:78-101 | The guard has the same order as update. Success removes exactly that goal and replies with its id. |
| GoalController.UpdateFramesOthers | server/src/controllers/goalController.ts:68-70 | An update leaves every other goal unchanged. |
| GoalController.DeleteFramesOthers | server/src/controllers/goalController.ts:98-100 | A delete removes the goal and keeps every other goal. |
| GoalController.OperationsKeepKeys | server/src/controllers/goalController.ts:23-101 | Create, update and delete keep every goal stored under its own id. |
| GoalController.CreatedGoalIsListed | server/src/controllers/goalController.ts:7-43 | A created goal is listed for its creator and for nobody else. |
| GoalController.DeletedGoalIsGone | server/src/controllers/goalController.ts:78-101 | After a delete, updating or deleting the same id gives 404. |
| GoalController.ApprovalLeavesPending | server/src/controllers/goalController.ts:15-73 | A pending goal is listed as pending. After an administrator sets any other status, it is no longer listed. |
| GoalController.CreateDefaultsToActive | server/src/controllers/goalController.ts:39 | A goal created with no status, priority or tasks is active, has medium priority, has no tasks and shows 0%. |
| Tasks.AllCheckedIff | src/pages/Goals.tsx:152-156 | The checked count equals the number of tasks exactly when every task is checked. |
| Tasks.NoneCheckedIff | src/pages/Goals.tsx:152-156 | The checked count is 0 exactly when no task is checked. |
| Tasks.ExactProgress | src/pages/Goals.tsx:152-156 | Progress is 0 for no tasks. Otherwise it is the value p with p × tasks = 100 × checked, and it lies in [0, 100]. |
| Tasks.RoundHalfUp | src/pages/Dashboard.tsx:65 | `Math.round` of a non-negative quotient, computed exactly, gives the integer nearest to num/den, with halves rounded up (for the floating-point difference, see Left out). |
| Tasks.RoundHalfUpBounds | src/pages/Dashboard.tsx:46 | Rounding a quotient that lies between two integers stays between them. |
| Tasks.RoundedProgress | src/pages/Dashboard.tsx:62-66 | The dashboard's per-goal progress lies in [0, 100] and is 0 for no tasks. |
| Tasks.RoundedIsNearest | src/pages/Dashboard.tsx:62-66 | The dashboard's rounded progress is within half a point of the Goals page's exact progress. |
| Tasks.RoundedExtremes | src/pages/Dashboard.tsx:63-65 | All tasks checked gives 100; none checked gives 0. |
| Tasks.ToggleTasks | src/pages/Goals.tsx:164-166 | Toggling flips `checked` on exactly the tasks with that id. Every id and label is kept. |
| Tasks.ToggleTwice | src/pages/Goals.tsx:164-166 | Toggling the same task twice restores the task list. |
| Tasks.ToggleMovesCountByOne | src/pages/Goals.tsx:164-166 | With distinct task ids, a toggle changes the checked count by exactly one, in the direction of the flip. |
| Tasks.FourTaskScenario | src/pages/Goals.tsx:152-172 | A goal with four unchecked tasks shows 0%. Checking one task shows 25% on both pages. |
| Seqs.Filter | src/pages/Goals.tsx:203 | The result is a subsequence of the input made of matching elements, and its length is the number of matching positions. |
| Seqs.FilterMultiplicity | src/pages/Goals.tsx:203 | Filtering keeps every copy of a matching element and no copy of any other. |
| Seqs.FilterUnique | src/pages/Goals.tsx:203 | Filter's contract determines the result: every list meeting it is the filter. The filtering members' rows (delete handlers, ActiveGoals, RegularUsers, Recommended, AvailableTemplates, FilteredGoals, TabContent, HandleSave, Future) state the same count clause, so their contracts also fix every copy and the order. |
| GoalsPage.Fetched | src/pages/Goals.tsx:133-140 | After a fetch, every goal's progress is its tasks' percentage. Nothing else changes. |
| GoalsPage.FindGoal | src/pages/Goals.tsx:161 | The lookup fails exactly when no goal has the id. Otherwise it returns a listed goal with that id. |
| GoalsPage.FindGoalAt | src/pages/Goals.tsx:161 | With distinct ids, the lookup returns the goal at the matching position. |
| GoalsPage.ToggleTask | src/pages/Goals.tsx:158-172 | A falsy task id or an unknown goal changes nothing. Goals with other ids are unchanged, and every goal keeps its id. |
| GoalsPage.TogglePatch | src/pages/Goals.tsx:158-175 | A `{ tasks }` body is sent exactly when the task id is truthy and the goal is listed. |
| GoalsPage.ToggleTaskAt | src/pages/Goals.tsx:164-172 | The addressed goal gets its tasks toggled and its progress recomputed. |
| GoalsPage.ToggleKeepsProgressCurrent | src/pages/Goals.tsx:169-171 | After a toggle, every displayed progress still matches its tasks. |
| GoalsPage.ToggleTaskTwice | src/pages/Goals.tsx:158-172 | On a fetched list with distinct ids, toggling the same task twice restores the list. |
| GoalsPage.ToggleAgreesWithServer | src/pages/Goals.tsx:158-175 | When the owner's update succeeds, the stored tasks are the tasks the page shows. |
| GoalsPage.DeleteGoalLocal | src/pages/Goals.tsx:200-209 | On success, exactly the goals with that id leave the list, and the rest keep their order. On failure the list is unchanged. |
| GoalsPage.RequestBody | src/pages/Goals.tsx:211-226 | Nothing is sent when title or description is empty. Otherwise the request carries the form's fields, status pending and no tasks. |
| GoalsPage.SubmitRequest | src/pages/Goals.tsx:211-236 | After a successful request, the created goal is appended with progress 0 and the form is reset. A refused or failed submit changes nothing. |
| GoalsPage.AcceptedRequestIsPending | src/pages/Goals.tsx:218-226 | A request the server accepts becomes a pending goal with no tasks at 0%, and it is listed for administrators as pending. |
| GoalsPage.RequestWithoutCategoryRefused | src/pages/Goals.tsx:212-215 | A request with title and description but no category passes the page's check, and the server refuses it with 400. |
| GoalsPage.FilteredGoals | src/pages/Goals.tsx:255-272 | Shows exactly the goals that match the status filter, the search (title, description, category or task label) and the category filter. The result is a subsequence of the list. |
| GoalsPage.DefaultFiltersShowAll | src/pages/Goals.tsx:255-272 | With filter 'all', an empty search and category 'all', the whole list is shown in order. |
| GoalsPage.StatusRank | src/pages/Goals.tsx:277-285 | The ranks are active 0, pending 1, completed 2 and rejected 3. Every other status ranks 0 (see Left out for statuses named after object-prototype members). |
| GoalsPage.SortsBeforeIsPreorder | src/pages/Goals.tsx:275-290 | The comparator is total and transitive. |
| GoalsPage.SortedGoals | src/pages/Goals.tsx:275-290 | The sorted list is a permutation of its input. It is ordered by status rank, and newest first within a rank. |
| GoalsPage.AvailableTemplates | src/pages/Goals.tsx:370-371 | Offers exactly the templates whose title no existing goal has, in order. |
| GoalsPage.TemplateBody | src/pages/Goals.tsx:184-190 | The body carries the template's title, description, category, priority and status. Its tasks are the template's labels, all unchecked, and the target date is thirty days after now. |
| GoalsPage.AddCreated | src/pages/Goals.tsx:191 | A created goal is appended with progress 0. A failure changes nothing. |
| GoalsPage.TemplateGoalIsActive | src/pages/Goals.tsx:48-114 | Every template is accepted by the server as an active goal at 0%, and once the goal is listed its template is no longer offered. |
| GoalsPage.AllTemplatesAtFirst | src/pages/Goals.tsx:370-371 | With no goals, all five templates are offered. |
| Dashboard.Progresses | src/pages/Dashboard.tsx:37-40 | Each goal's progress is its tasks' rounded percentage, within [0, 100]. |
| Dashboard.LoadedGoals | src/pages/Dashboard.tsx:31-42 | No goals are loaded for a missing user or an administrator. |
| Dashboard.LoadedGoalsAreOwnGoals | src/pages/Dashboard.tsx:31-42 | For an ordinary user whose fetch returned what the goal listing endpoint gives them, the dashboard shows only their goals, and all of them. |
| Dashboard.SumBounds | src/pages/Dashboard.tsx:45 | The total of n percentages lies in [0, 100n]. |
| Dashboard.OverallProgress | src/pages/Dashboard.tsx:45-46 | The overall progress is the rounded mean of the per-goal progress, and 0 without goals. It lies in [0, 100]. |
| Dashboard.OverallExtremes | src/pages/Dashboard.tsx:45-46 | All goals finished gives 100 overall. No checked task anywhere gives 0. (100 does not imply all finished: a goal at 66 of 67 tasks rounds to 99, and its average with a finished goal rounds to 100.) |
| Dashboard.ActiveGoals | src/pages/Dashboard.tsx:50 | Exactly the goals with status 'active', in order. |
| Dashboard.GoalActivities | src/pages/Dashboard.tsx:174-180 | There is one activity per checked task of the goal, in task order. Each carries the goal's title and that task's label. |
| Dashboard.ActivitiesCount | src/pages/Dashboard.tsx:174-180 | The activity list has one entry per checked task over all goals. |
| Dashboard.AnyCheckedIff | src/pages/Dashboard.tsx:172 | The list is shown exactly when some goal has a checked task. |
| Dashboard.RecentActivity | src/pages/Dashboard.tsx:172-181 | At most three activities are shown, the first ones in goal-then-task order. The list is empty exactly when no task is checked. |
| GoalsContext.Initial | src/context/GoalsContext.tsx:26-55 | A saved list is used as it is. Otherwise there are two default goals, ids 1 and 2, of four tasks each, all unchecked. |
| GoalsContext.ReloadRestores | src/context/GoalsContext.tsx:26-60 | Reloading restores the last persisted list (`Persist` is the write at lines 58-60). |
| GoalsContext.ToggleTask | src/context/GoalsContext.tsx:62-73 | Goals with the id get the task toggled. Every other goal is unchanged. |
| GoalsContext.ToggleTaskTwice | src/context/GoalsContext.tsx:62-73 | Toggling the same task twice is the identity. |
| GoalsContext.ToggleKeepsShape | src/context/GoalsContext.tsx:62-73 | A toggle keeps every goal's id, title, description and task count. |
| GoalsContext.AddGoal | src/context/GoalsContext.tsx:75-77 | Appends exactly one goal, whose id is now, and keeps the existing goals in order. |
| GoalsContext.AddedGoalIsToggled | src/context/GoalsContext.tsx:62-77 | A toggle addressed to an added goal's id reaches only that goal. |
| AdminPage.DecidedStatus | src/pages/Admin.tsx:141 | 'approved' sends 'active' and 'rejected' sends 'rejected'. |
| AdminPage.HandleGoalRequest | src/pages/Admin.tsx:139-150 | On success, exactly the handled request leaves the pending list, and the rest keep their order. On failure the list is unchanged. |
| AdminPage.DecisionKeepsMirror | src/pages/Admin.tsx:139-150 | Deciding through the server keeps the pending list equal to the server's pending goals. The decided goal carries the decided status. |
| AdminPage.HandleDeleteUser | src/pages/Admin.tsx:152-162 | On success the deleted user leaves the table. On failure nothing changes. |
| AdminPage.DeleteUserKeepsTable | src/pages/Admin.tsx:152-162 | After a delete, the table still shows exactly the users the server has. |
| AdminPage.GetBadgeVariant | src/pages/Admin.tsx:164-168 | admin gives 'default'. Otherwise premium gives 'secondary', and anyone else 'outline'. |
| AdminPage.RegularUsers | src/pages/Admin.tsx:286-287 | The table and its count hold exactly the users whose role is not 'admin'. |
| CourseModel.CreateDocument | server/src/models/Course.ts:3-33 | A course is created exactly when userId, title and provider are present and the status is in the enum. Status defaults to in_progress, progress to 0 and startedAt to now; completedAt is unset. |
| CourseModel.ApplyPatch | server/src/controllers/courseController.ts:50-52 | Overwrites exactly the supplied paths. |
| CourseModel.ApplyPatchIdempotent | server/src/controllers/courseController.ts:50-52 | Sending the same update twice has the effect of sending it once. |
| CourseController.GetCourses | server/src/controllers/courseController.ts:7-10 | Lists exactly the caller's courses. |
| CourseController.CreateCourse | server/src/controllers/courseController.ts:15-32 | A missing title or provider gives 400 'Please add title and provider' and creates nothing. Otherwise the schema's outcome applies, and the course belongs to the caller. |
| CourseController.UpdateCourse | server/src/controllers/courseController.ts:37-55 | 404 'Course not found' comes first. Then 401 'User not authorized' unless the caller owns the course. Otherwise the merge is stored. |
| CourseController.DeleteCourse | server/src/controllers/courseController.ts:60-76 | Same guard as update. Success removes exactly that course and replies with its id. |
| CourseController.NoAdminOverride | server/src/controllers/courseController.ts:45-48 | An administrator cannot update or delete another user's course. |
| CourseController.CourseFramesOthers | server/src/controllers/courseController.ts:50-75 | Update and delete leave every other course unchanged. |
| CourseController.CourseOperationsKeepKeys | server/src/controllers/courseController.ts:15-76 | Every course stays under its own id. |
| CourseController.CreatedCourseIsListed | server/src/controllers/courseController.ts:7-32 | A created course is listed for its creator only. |
| CoursesPage.TrackRequest | src/pages/Courses.tsx:71-85 | Nothing is sent when a course of that title is already tracked. Otherwise the body is the title, the instructor as provider, in_progress and 0. |
| CoursesPage.TrackCourse | src/pages/Courses.tsx:71-95 | A successful track appends the created course. A duplicate or a failure changes nothing. |
| CoursesPage.TrackAgainIsNoOp | src/pages/Courses.tsx:75-78 | Once a title is tracked, tracking it again changes nothing. |
| CoursesPage.TrackRequestAccepted | src/pages/Courses.tsx:80-85 | The server turns a track request into an in-progress course at 0% owned by the caller. |
| CoursesPage.ProgressStep | src/pages/Courses.tsx:187 | The step is min(progress + 25, 100). It never exceeds 100 and increases exactly when progress is below 100. |
| CoursesPage.StatusFor | src/pages/Courses.tsx:100-101 | The status sent is 'completed' exactly when the new progress is 100, and 'in_progress' otherwise. |
| CoursesPage.ProgressPatch | src/pages/Courses.tsx:99-102 | The update body carries only the progress and its status. |
| CoursesPage.Click | src/pages/Courses.tsx:97-104 | One click sets progress to min(progress + 25, 100) and status to 'completed' exactly when that is 100. Every other field is kept. |
| CoursesPage.ClicksComplete | src/pages/Courses.tsx:183-187 | From any progress in [0, 100], enough clicks reach exactly 100 with status completed, and then the button is gone. |
| CoursesPage.ClickKeepsStatusConsistent | src/pages/Courses.tsx:97-104 | A click keeps progress in [0, 100] and ties 'completed' to 100. |
| CoursesPage.UpdateLocal | src/pages/Courses.tsx:104 | Only courses with the id are replaced by the reply. |
| CoursesPage.UpdateLocalAgreesWithServer | src/pages/Courses.tsx:97-112 | When the page's copy matches the server, the owner's update succeeds and the page's copy equals the stored course. |
| CoursesPage.DeleteLocal | src/pages/Courses.tsx:114-123 | On success exactly that course leaves the list, and the rest keep their order. |
| CoursesPage.Recommended | src/pages/Courses.tsx:127-129 | Exactly the catalog courses whose category some goal has, in catalog order. |
| SupportModel.CreateDocument | server/src/models/SupportTicket.ts:3-28 | A ticket is created exactly when userId, userEmail, subject and message are non-empty. It starts open with no response. |
| SupportModel.ApplyPatch | server/src/controllers/supportController.ts:52-54 | Overwrites exactly the supplied paths. |
| SupportController.GetTickets | server/src/controllers/supportController.ts:7-10 | Lists exactly the caller's tickets. |
| SupportController.GetAllTickets | server/src/controllers/supportController.ts:36-39 | For an administrator, lists every ticket. |
| SupportController.CreateTicket | server/src/controllers/supportController.ts:15-31 | A missing subject or message gives 400 'Please add subject and message' and creates nothing. A created ticket has the caller's id and email and is open. |
| SupportController.UpdateTicket | server/src/controllers/supportController.ts:44-57 | 404 'Ticket not found' exactly for an unknown id. Otherwise the merge is stored. |
| SupportController.TicketOperationsFrame | server/src/controllers/supportController.ts:15-57 | Create and update leave every other ticket unchanged and keep ids. |
| SupportController.CreatedTicketIsListed | server/src/controllers/supportController.ts:7-39 | A created ticket is listed for its creator and for administrators. |
| AdminSupport.Answered | src/pages/AdminSupport.tsx:105 | The local answered ticket equals the server's merge of the respond body. |
| AdminSupport.HandleRespond | src/pages/AdminSupport.tsx:89-115 | Nothing happens without a selection or with a blank response. On success only the selected ticket becomes resolved with the response, and the selection and draft are cleared. |
| AdminSupport.RespondAgreesWithServer | src/pages/AdminSupport.tsx:100-105 | The stored ticket after a respond equals the one the console shows. |
| AdminSupport.Actions | src/pages/AdminSupport.tsx:196-215 | Start Progress is offered exactly for open tickets, and Mark Resolved exactly for tickets in progress. |
| AdminSupport.Target | src/pages/AdminSupport.tsx:200-210 | Each button sets a status from the ticket enum. |
| AdminSupport.ActionsMoveForward | src/pages/AdminSupport.tsx:196-215 | The buttons move open to in_progress and in_progress to resolved. Resolved offers none. |
| AdminSupport.HandleStatusChange | src/pages/AdminSupport.tsx:117-126 | On success only the matching ticket takes the new status. |
| InternshipModel.CreateDocument | server/src/models/Internship.ts:3-47 | An internship is created exactly when the required paths are present. It starts with no applicants and an empty tag list by default. |
| InternshipModel.Merge | server/src/controllers/internshipController.ts:65-74 | Each path takes the body's value when truthy and keeps the stored one otherwise. A tag array always replaces. |
| InternshipModel.MergeKeepsValid | server/src/controllers/internshipController.ts:65-76 | A falsy value cannot clear a field, so merging keeps a valid document valid. |
| InternshipModel.MergeIdempotent | server/src/controllers/internshipController.ts:65-74 | Merging the same body twice has the effect of merging it once. |
| InternshipController.GetInternships | server/src/controllers/internshipController.ts:8-11 | Every stored internship appears once, newest createdAt first. |
| InternshipController.GetInternshipById | server/src/controllers/internshipController.ts:16-23 | Returns the internship, or 404 'Internship not found'. |
| InternshipController.CreateInternship | server/src/controllers/internshipController.ts:28-56 | For an administrator, stores the new internship exactly when the schema accepts the body. |
| InternshipController.UpdateInternship | server/src/controllers/internshipController.ts:61-81 | 404 for an unknown id. Otherwise the merged document is stored. |
| InternshipController.DeleteInternship | server/src/controllers/internshipController.ts:86-95 | 404 for an unknown id. Otherwise exactly that internship is removed. |
| InternshipController.ApplyInternship | server/src/controllers/internshipController.ts:100-115 | 404 comes first, then 400 'Already applied'. Otherwise the caller is appended to the applicants, and nothing else changes. |
| InternshipController.ApplyKeepsNoDuplicates | server/src/controllers/internshipController.ts:104-109 | Applicant lists without duplicates stay without duplicates, and the caller ends up among the applicants. |
| InternshipController.ApplyTwiceRefused | server/src/controllers/internshipController.ts:104-107 | A second application is refused and changes nothing. |
| InternshipController.InternshipFramesOthers | server/src/controllers/internshipController.ts:61-115 | Update, delete and apply leave every other internship unchanged. |
| InternshipController.InternshipOperationsKeepKeys | server/src/controllers/internshipController.ts:28-115 | Create, update, delete and apply keep every internship stored under its own id. |
| InternshipController.CreateAndDeleteThenGetById | server/src/controllers/internshipController.ts:16-95 | A created internship is found by its new id with the stored value; after a delete the id gives 404. |
| InternshipController.ApplyThenGetById | server/src/controllers/internshipController.ts:16-115 | After a successful application the internship is found with the caller appended to its applicants. |
| InternshipsPage.HandleSave | src/pages/Internships.tsx:81-99 | No user or a failure changes nothing. Saved appends the id. Unsaved removes every occurrence and keeps the rest in order. |
| InternshipsPage.SaveThenUnsave | src/pages/Internships.tsx:88-93 | Saving then unsaving leaves no trace of the id and loses nothing else. |
| InternshipsPage.HandleApply | src/pages/Internships.tsx:105-129 | On success only the matching internship, and the detail view if it shows that internship, gets the user appended. |
| InternshipsPage.ApplyAgreesWithServer | src/pages/Internships.tsx:109-118 | After a successful apply, the page's copy equals the server's. |
| InternshipsPage.TabContent | src/pages/Internships.tsx:131-152 | 'recommended' and 'new' show the list. 'applied' shows exactly the user's applications, and 'saved' exactly the saved ids. Any other tab is empty. |
| InternshipsPage.PrevPage | src/pages/Internships.tsx:286 | Previous gives max(1, page − 1). |
| InternshipsPage.NextPage | src/pages/Internships.tsx:296 | Next gives min(totalPages, page + 1). |
| InternshipsPage.PagesStayInRange | src/pages/Internships.tsx:286-296 | Both buttons keep the page within [1, totalPages]. |
| InternshipsPage.Future | src/pages/Internships.tsx:462 | Exactly the internships whose deadline is after now, as a subsequence of the list with one entry per matching position. |
| InternshipsPage.SortedPrefixIsEarliest | src/pages/Internships.tsx:463-465 | The first n of a list sorted by deadline are drawn from it without repetition, in deadline order, and are due no later than anything after them. |
| InternshipsPage.UpcomingDeadlines | src/pages/Internships.tsx:462-465 | At most three internships with future deadlines, drawn without repetition from the future list (a sub-multiset of it), soonest first. Fewer than three are shown only when fewer are due. No future internship left out is due sooner than one shown. |
| UserController.GetAllUsers | server/src/controllers/userController.ts:9-12 | Every user, without the password. |
| UserController.DeleteUser | server/src/controllers/userController.ts:17-29 | 404 'User not found' for an unknown id. Otherwise only the user record is removed, and goals and courses stay. |
| UserController.GetUserById | server/src/controllers/userController.ts:34-49 | The password-free profile, plus exactly the goals and courses whose userId matches, or 404. |
| UserController.DetailsMatchOwnView | server/src/controllers/userController.ts:37-44 | The administrator sees the same goals and courses the user sees. |
| UserController.DeleteLeavesOrphans | server/src/controllers/userController.ts:21-24 | After a delete, the user's goals and courses remain listed under their id. |
| UserController.DeleteUserLeavesList | server/src/controllers/userController.ts:9-29 | After a successful delete the user list loses exactly that id and lists everyone else as before; a 404 leaves the list unchanged. |
| AuthStore.Initialise | src/pages/AuthContext.tsx:48-99 | The administrator is added exactly when no user is an administrator, and the test user exactly when no user has its email. Exactly that many users are appended, after the existing ones, in that order. |
| AuthStore.Mount | src/pages/AuthContext.tsx:94-95 | Storage and the in-memory list both hold the seeded list, and nobody is signed in. |
| AuthStore.InitialiseIdempotent | src/pages/AuthContext.tsx:53-92 | Seeding an already seeded list adds nothing. |
| AuthStore.SeedingCanDuplicateEmail | src/pages/AuthContext.tsx:53-71 | A stored ordinary user with the administrator's email ends up sharing it with the seeded administrator. |
| AuthStore.FindByEmail | src/pages/AuthContext.tsx:103 | The lookup fails exactly when no user has the email. Otherwise it returns the first stored user with it. |
| AuthStore.Login | src/pages/AuthContext.tsx:101-109 | 'User not found - please register first' for an unknown email, 'Invalid credentials' for a wrong password. Login succeeds exactly when the first stored user with the email has that password, and that user signs in. |
| AuthStore.Register | src/pages/AuthContext.tsx:111-146 | Registration succeeds exactly when the email is not taken. A taken email is refused with 'Email already registered' and nothing changes. Otherwise one ordinary, non-premium user is appended, stored and signed in. |
| AuthStore.RegisterKeepsEmailsUnique | src/pages/AuthContext.tsx:126-142 | Registration keeps emails unique. |
| AuthStore.RegisterThenLogin | src/pages/AuthContext.tsx:101-146 | A freshly registered user can log in with the same email and password. |
| AuthStore.UpdateUserData | src/pages/AuthContext.tsx:148-155 | Only users with the id are replaced, and the result is stored. The signed-in user changes only if it is that user. |
| AuthStore.UpdateUserDataIdempotent | src/pages/AuthContext.tsx:148-155 | Applying the same update twice equals applying it once. |
| AuthStore.Logout | src/pages/AuthContext.tsx:157-159 | Only the signed-in user is cleared. |
| AuthStore.LogoutThenLogin | src/pages/AuthContext.tsx:101-159 | With unique emails, logging out and back in restores the session. |
| RequireAuth.Decide | src/components/RequireAuth.tsx:5-18 | No user goes to /login. A truthy required role that differs from the user's goes to /. Otherwise the route renders, so without a required role any user passes. |
| RequireAuth.AdminRouteOnlyForAdmins | src/components/RequireAuth.tsx:13-17 | An admin route renders exactly for administrators. |

## Left out

- HTTP, Express routing, Mongoose persistence and id generation are not modelled. Stores are maps, and new ids are parameters together with the freshness the database guarantees (`newId !in s`).
- A schema rejection on create is an exception that no controller catches. It is modelled as the error `SchemaRejected`, with the store unchanged. The reply the client then gets depends on the Express version and on error middleware, neither of which is part of this model, so no status code is assigned to it.
- The `protect` and `admin` middleware bodies are not modelled. Admin-only routes become the precondition `IsAdmin(caller)`, and `req.user` is a `Caller`.
- Clocks are not modelled. Dates and timestamps are integers passed in (`now`), and date parsing and ISO strings are not modelled.
- Toasts, loading flags, dialogs and rendering are not modelled; they carry no business rule.
- Asynchrony is not modelled: `Promise.all` loading, lost-update races, and the refetch after a failed goal toggle. `GoalsPage.ToggleTask` models the optimistic update only.
- Floating point is not modelled. The Goals page's progress is an exact `real`, and the dashboard's `Math.round` is exact half-up rounding on integers. The `|| 0` guards against NaN are therefore vacuous.
- `Tasks.RoundedProgress`: where the exact percentage is a half, the source's double computation can land just below it. For 23 of 40 tasks, `(23 / 40) * 100` is 57.49999999999999, and `Math.round` gives 57; the model gives 58. The same happens at 29 and 57 of 200.
- `GoalsPage.StatusRank`: a status that names an object-prototype member ("constructor", "toString", "__proto__") makes the source's `statusPriority[status] || 0` a function or object, not 0. The comparator is then NaN, and the order depends on the engine's sort. The model ranks such statuses 0. Updates can store such a status (`GoalModel.PatchCanLeaveEnum`).
- `Seqs.Lower`: `toLowerCase` is modelled for ASCII letters only, and `trim` for ASCII whitespace only. Unicode case folding is not modelled.
- The Internships page expects a paginated reply (`data.internships`, `data.pages`) and sends page, search and location parameters. The controller returns a plain array and reads none of them. The page's list and total page count are therefore inputs to the page functions.
- The saved-internship endpoints that `HandleSave` calls are routed to functions that server/src/controllers/userController.ts does not define, so `HandleSave` takes the reply's `saved` flag as a parameter.
- The schema validators beyond required/enum are not modelled: Mongoose casting of wrong types, and Date casting of deadlines.
- `CourseModel.CreateDocument`: progress is an integer; a fractional or non-numeric progress is not represented.
- `InternshipModel.Merge`: a truthy deadline is any non-zero number; a deadline sent as a string is not represented.
- `InternshipController.GetInternships`: the order of internships with equal `createdAt` is left unspecified, as the database leaves it.
- `AuthStore.Register`: the id is the `user_<timestamp>` string passed in; its construction from the clock is not modelled.
- `AuthStore.Mount`: the stored list is taken as already parsed JSON; a corrupt stored value is not modelled. GoalsContext's saved list is treated the same way.
- The remaining Admin and AdminSupport page parts are not modelled: the user-detail fetch (the server side is `UserController.GetUserById`), the status-badge lookup tables, and the course-level badge of the Courses page. They are presentation only.
