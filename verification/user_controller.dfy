/** The user endpoints (server/src/controllers/userController.ts), all for
    administrators, over the user, goal and course collections. */
module UserController {
  import opened Wrappers
  import opened Common
  import opened UserModel
  import opened GoalModel
  import opened GoalController
  import opened CourseModel
  import opened CourseController

  /** The three collections the endpoints read. */
  datatype Db = Db(users: UserStore, goals: GoalStore, courses: CourseStore)

  /** `getAllUsers`: every user without the password. */
  function GetAllUsers(db: Db, caller: Caller): (r: map<Id, PublicUser>)
    requires IsAdmin(caller)
    ensures r.Keys == db.users.Keys
    ensures forall k :: k in r ==> r[k] == View(db.users[k])
  {
    map k | k in db.users :: View(db.users[k])
  }

  /** `deleteUser`: 404 for an unknown user; otherwise only the user record goes, and
      their goals and courses stay. */
  function DeleteUser(db: Db, caller: Caller, id: Id): (r: Reply<Db, string>)
    requires IsAdmin(caller)
    ensures r.result.Ok? <==> id in db.users
    ensures r.result.Err? ==> r.store == db && r.result.error == NotFound("User not found")
    ensures r.result.Ok? ==> r.store.users == db.users - {id}
    ensures r.store.goals == db.goals && r.store.courses == db.courses
  {
    if id !in db.users then Reply(db, Err(NotFound("User not found")))
    else Reply(db.(users := db.users - {id}), Ok("User removed"))
  }

  /** The user-detail reply: the public profile with the user's goals and courses. */
  datatype UserDetails = UserDetails(user: PublicUser, learningGoals: GoalStore, courses: CourseStore)

  /** `getUserById`. */
  function GetUserById(db: Db, caller: Caller, id: Id): (r: Result<UserDetails, Error>)
    requires IsAdmin(caller)
    ensures r.Ok? <==> id in db.users
    ensures r.Err? ==> r.error == NotFound("User not found")
    ensures r.Ok? ==> r.value.user == View(db.users[id])
    ensures r.Ok? ==> forall k :: k in r.value.learningGoals <==> k in db.goals && db.goals[k].userId == id
    ensures r.Ok? ==> forall k :: k in r.value.courses <==> k in db.courses && db.courses[k].userId == id
    ensures r.Ok? ==> forall k :: k in r.value.learningGoals ==> r.value.learningGoals[k] == db.goals[k]
    ensures r.Ok? ==> forall k :: k in r.value.courses ==> r.value.courses[k] == db.courses[k]
  {
    if id !in db.users then Err(NotFound("User not found"))
    else
      var goals := map k | k in db.goals && db.goals[k].userId == id :: db.goals[k];
      var courses := map k | k in db.courses && db.courses[k].userId == id :: db.courses[k];
      Ok(UserDetails(View(db.users[id]), goals, courses))
  }

  /** An administrator sees exactly the goals and courses the user sees for themself. */
  lemma DetailsMatchOwnView(db: Db, admin: Caller, u: Caller)
    requires IsAdmin(admin) && u.id in db.users
    ensures var d := GetUserById(db, admin, u.id).value;
      d.learningGoals == GetGoals(db.goals, u) && d.courses == GetCourses(db.courses, u)
  {
  }

  /** Deleting a user does not cascade: their goals and courses are still listed
      under their id, though the user is gone. */
  lemma DeleteLeavesOrphans(db: Db, admin: Caller, u: Caller)
    requires IsAdmin(admin) && u.id in db.users
    ensures var after := DeleteUser(db, admin, u.id).store;
      u.id !in after.users
      && GetGoals(after.goals, u) == GetGoals(db.goals, u)
      && GetCourses(after.courses, u) == GetCourses(db.courses, u)
      && GetUserById(after, admin, u.id) == Err(NotFound("User not found"))
  {
  }

  /** After a successful delete the user list loses exactly that user; every other
      user is listed as before. */
  lemma DeleteUserLeavesList(db: Db, admin: Caller, id: Id)
    requires IsAdmin(admin)
    ensures var r := DeleteUser(db, admin, id);
      r.result.Ok? ==>
        && GetAllUsers(r.store, admin).Keys == GetAllUsers(db, admin).Keys - {id}
        && forall k :: k in GetAllUsers(r.store, admin) ==> GetAllUsers(r.store, admin)[k] == GetAllUsers(db, admin)[k]
    ensures var r := DeleteUser(db, admin, id);
      r.result.Err? ==> GetAllUsers(r.store, admin) == GetAllUsers(db, admin)
  {
  }
}
