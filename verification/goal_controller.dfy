/** The goal endpoints (server/src/controllers/goalController.ts) over an
    in-memory collection keyed by goal id. */
module GoalController {
  import opened Wrappers
  import opened Common
  import opened GoalModel
  import opened UserModel

  type GoalStore = map<Id, Goal>

  /** Every stored goal sits under its own id. */
  ghost predicate KeysMatch(s: GoalStore) {
    forall k :: k in s ==> s[k].id == k
  }

  /** The update/delete guard: the caller owns the goal or is an administrator. */
  predicate MayModify(c: Caller, g: Goal) {
    g.userId == c.id || IsAdmin(c)
  }

  /** `Goal.find({ userId: req.user._id })`. */
  function GetGoals(s: GoalStore, caller: Caller): (r: GoalStore)
    ensures forall k :: k in r <==> k in s && s[k].userId == caller.id
    ensures forall k :: k in r ==> r[k] == s[k]
  {
    map k | k in s && s[k].userId == caller.id :: s[k]
  }

  /** The owner's name and email, as `.populate('userId', 'name email')` fills them in. */
  datatype Owner = Owner(name: string, email: string)

  /** A pending goal with its populated owner; `None` when the owner no longer exists. */
  datatype PendingGoal = PendingGoal(goal: Goal, owner: Option<Owner>)

  function OwnerOf(users: UserStore, uid: Id): (o: Option<Owner>)
    ensures o.Some? <==> uid in users
    ensures o.Some? ==> o.value == Owner(users[uid].name, users[uid].email)
  {
    if uid in users then Some(Owner(users[uid].name, users[uid].email)) else None
  }

  /** `Goal.find({ status: 'pending' })` with owners populated; the route is admin-only. */
  function GetPendingGoals(s: GoalStore, users: UserStore, caller: Caller): (r: map<Id, PendingGoal>)
    requires IsAdmin(caller)
    ensures forall k :: k in r <==> k in s && s[k].status == PENDING
    ensures forall k :: k in r ==> r[k].goal == s[k] && r[k].owner == OwnerOf(users, s[k].userId)
  {
    map k | k in s && s[k].status == PENDING :: PendingGoal(s[k], OwnerOf(users, s[k].userId))
  }

  /** A create request body; `None` is a field the body leaves out. */
  datatype GoalBody = GoalBody(
    title: Option<string>,
    description: Option<string>,
    category: Option<string>,
    priority: Option<string>,
    tasks: Option<seq<TaskInput>>,
    targetDate: Option<int>,
    status: Option<string>)

  /** The fields `createGoal` hands to the schema: the caller as owner, and
      `status || 'active'`. */
  function CreateFields(caller: Caller, b: GoalBody): (f: GoalFields)
    ensures f.userId == caller.id
    ensures f.title == b.title && f.description == b.description && f.category == b.category
    ensures f.priority == b.priority && f.tasks == b.tasks && f.targetDate == b.targetDate
    ensures f.status == Some(if Truthy(b.status) then b.status.value else ACTIVE)
  {
    GoalFields(caller.id, b.title, b.description, b.category, b.priority, b.tasks,
               b.targetDate, Some(OrElse(b.status, ACTIVE)))
  }

  predicate HasRequiredFields(b: GoalBody) {
    Truthy(b.title) && Truthy(b.description) && Truthy(b.category)
  }

  /** `createGoal`. `newId`, `taskIds` and `now` stand for the generated ObjectIds
      and the creation time. */
  function CreateGoal(s: GoalStore, caller: Caller, b: GoalBody, newId: Id, taskIds: seq<Id>, now: int)
    : (r: Reply<GoalStore, Goal>)
    requires newId !in s
    requires |taskIds| == |b.tasks.GetOr([])|
    ensures !HasRequiredFields(b) ==> r.result == Err(BadRequest("Please add all fields"))
    ensures r.result.Err? ==> r.store == s
    ensures r.result.Ok? <==> HasRequiredFields(b) && FieldsValid(CreateFields(caller, b))
    ensures r.result.Ok? ==>
      var g := r.result.value;
      && r.store == s[newId := g]
      && g.id == newId && g.userId == caller.id && g.createdAt == now
      && g.title == b.title.value && g.description == b.description.value
      && g.category == b.category.value
      && g.status == (if Truthy(b.status) then b.status.value else ACTIVE)
      && g.priority == b.priority.GetOr(MEDIUM)
      && g.progress == 0.0
      && |g.tasks| == |b.tasks.GetOr([])|
      && WellFormed(g)
  {
    if !HasRequiredFields(b) then Reply(s, Err(BadRequest("Please add all fields")))
    else
      match CreateDocument(CreateFields(caller, b), newId, taskIds, now)
      case Ok(g) => Reply(s[newId := g], Ok(g))
      case Err(e) => Reply(s, Err(e))
  }

  /** `updateGoal`: 404 before any check of the caller, then 401, then the merge. */
  function UpdateGoal(s: GoalStore, caller: Option<Caller>, id: Id, p: GoalPatch)
    : (r: Reply<GoalStore, Goal>)
    ensures id !in s ==> r.result == Err(NotFound("Goal not found"))
    ensures id in s && caller.None? ==> r.result == Err(Unauthorized("User not found"))
    ensures id in s && caller.Some? && !MayModify(caller.value, s[id]) ==>
      r.result == Err(Unauthorized("User not authorized"))
    ensures r.result.Err? ==> r.store == s
    ensures r.result.Ok? <==> id in s && caller.Some? && MayModify(caller.value, s[id])
    ensures r.result.Ok? ==>
      r.result.value == ApplyPatch(s[id], p) && r.store == s[id := r.result.value]
  {
    if id !in s then Reply(s, Err(NotFound("Goal not found")))
    else if caller.None? then Reply(s, Err(Unauthorized("User not found")))
    else if !MayModify(caller.value, s[id]) then Reply(s, Err(Unauthorized("User not authorized")))
    else
      var g := ApplyPatch(s[id], p);
      Reply(s[id := g], Ok(g))
  }

  /** `deleteGoal`: same guard as update; replies with the removed id. */
  function DeleteGoal(s: GoalStore, caller: Option<Caller>, id: Id): (r: Reply<GoalStore, Id>)
    ensures id !in s ==> r.result == Err(NotFound("Goal not found"))
    ensures id in s && caller.None? ==> r.result == Err(Unauthorized("User not found"))
    ensures id in s && caller.Some? && !MayModify(caller.value, s[id]) ==>
      r.result == Err(Unauthorized("User not authorized"))
    ensures r.result.Err? ==> r.store == s
    ensures r.result.Ok? <==> id in s && caller.Some? && MayModify(caller.value, s[id])
    ensures r.result.Ok? ==> r.result.value == id && r.store == s - {id}
  {
    if id !in s then Reply(s, Err(NotFound("Goal not found")))
    else if caller.None? then Reply(s, Err(Unauthorized("User not found")))
    else if !MayModify(caller.value, s[id]) then Reply(s, Err(Unauthorized("User not authorized")))
    else Reply(s - {id}, Ok(id))
  }

  /** A successful update leaves every other goal exactly as it was. */
  lemma UpdateFramesOthers(s: GoalStore, caller: Option<Caller>, id: Id, p: GoalPatch, k: Id)
    requires k in s && k != id
    ensures var r := UpdateGoal(s, caller, id, p); k in r.store && r.store[k] == s[k]
  {
  }

  /** A successful delete removes that goal and keeps every other one. */
  lemma DeleteFramesOthers(s: GoalStore, caller: Option<Caller>, id: Id, k: Id)
    requires DeleteGoal(s, caller, id).result.Ok?
    ensures id !in DeleteGoal(s, caller, id).store
    ensures k in s && k != id ==> k in DeleteGoal(s, caller, id).store
                                  && DeleteGoal(s, caller, id).store[k] == s[k]
  {
  }

  /** Every operation keeps each goal under its own id. */
  lemma OperationsKeepKeys(s: GoalStore, c: Caller, oc: Option<Caller>, b: GoalBody, newId: Id,
                           taskIds: seq<Id>, now: int, id: Id, p: GoalPatch)
    requires KeysMatch(s)
    requires newId !in s && |taskIds| == |b.tasks.GetOr([])|
    ensures KeysMatch(CreateGoal(s, c, b, newId, taskIds, now).store)
    ensures KeysMatch(UpdateGoal(s, oc, id, p).store)
    ensures KeysMatch(DeleteGoal(s, oc, id).store)
  {
  }

  /** A goal a caller creates is listed for that caller and for nobody else. */
  lemma CreatedGoalIsListed(s: GoalStore, c: Caller, other: Caller, b: GoalBody, newId: Id,
                            taskIds: seq<Id>, now: int)
    requires newId !in s && |taskIds| == |b.tasks.GetOr([])|
    requires CreateGoal(s, c, b, newId, taskIds, now).result.Ok?
    requires other.id != c.id
    ensures newId in GetGoals(CreateGoal(s, c, b, newId, taskIds, now).store, c)
    ensures newId !in GetGoals(CreateGoal(s, c, b, newId, taskIds, now).store, other)
  {
  }

  /** Once deleted, the goal is not found by a later update or delete. */
  lemma DeletedGoalIsGone(s: GoalStore, c: Option<Caller>, c2: Option<Caller>, id: Id, p: GoalPatch)
    requires DeleteGoal(s, c, id).result.Ok?
    ensures UpdateGoal(DeleteGoal(s, c, id).store, c2, id, p).result == Err(NotFound("Goal not found"))
    ensures DeleteGoal(DeleteGoal(s, c, id).store, c2, id).result == Err(NotFound("Goal not found"))
  {
  }

  /** An administrator's status change takes the goal off the pending list. */
  lemma ApprovalLeavesPending(s: GoalStore, users: UserStore, admin: Caller, id: Id, status: string)
    requires IsAdmin(admin)
    requires id in s && s[id].status == PENDING
    requires status != PENDING
    ensures id in GetPendingGoals(s, users, admin)
    ensures var r := UpdateGoal(s, Some(admin), id, StatusPatch(status));
      r.result.Ok? && r.store[id].status == status && id !in GetPendingGoals(r.store, users, admin)
  {
  }

  /** With no status in the body, a created goal is active, never the schema's 'pending'. */
  lemma CreateDefaultsToActive(s: GoalStore, c: Caller, b: GoalBody, newId: Id, taskIds: seq<Id>, now: int)
    requires newId !in s && |taskIds| == |b.tasks.GetOr([])|
    requires b.status.None?
    requires HasRequiredFields(b)
    requires b.priority.None? && b.tasks.None?
    requires c.id != ""
    ensures var r := CreateGoal(s, c, b, newId, taskIds, now);
      r.result.Ok? && r.result.value.status == ACTIVE && r.result.value.priority == MEDIUM
      && r.result.value.tasks == []
  {
  }
}
