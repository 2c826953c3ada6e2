/** The administrator's dashboard (src/pages/Admin.tsx): deciding goal requests,
    deleting users and the user table. */
module AdminPage {
  import opened Wrappers
  import opened Common
  import opened Seqs
  import opened UserModel
  import opened GoalModel
  import opened GoalController
  import opened UserController

  /** The two answers to a goal request. */
  datatype Decision = Approved | Rejected

  /** The status sent for a decision: approval activates the goal. */
  function DecidedStatus(d: Decision): (s: string)
    ensures s == ACTIVE <==> d == Approved
    ensures s == REJECTED <==> d == Rejected
  {
    match d
    case Approved => ACTIVE
    case Rejected => REJECTED
  }

  /** handleGoalRequest's local update: on success exactly the handled request leaves
      the pending list, the rest keeping their order; on failure nothing changes. */
  function HandleGoalRequest(pending: seq<PendingGoal>, goalId: Id, succeeded: bool): (r: seq<PendingGoal>)
    ensures !succeeded ==> r == pending
    ensures succeeded ==> forall p :: p in r <==> p in pending && p.goal.id != goalId
    ensures succeeded ==> |r| == CountWhere(pending, (p: PendingGoal) => p.goal.id != goalId)
    ensures IsSubseq(r, pending)
  {
    IsSubseqRefl(pending);
    if succeeded then Filter(pending, (p: PendingGoal) => p.goal.id != goalId) else pending
  }

  /** The pending list shows exactly the server's pending goals with their owners. */
  ghost predicate Mirrors(pending: seq<PendingGoal>, s: GoalStore, users: UserStore) {
    forall p :: p in pending <==>
      p.goal.id in s && s[p.goal.id] == p.goal && p.goal.status == PENDING
      && p.owner == OwnerOf(users, p.goal.userId)
  }

  /** Deciding a request through the server keeps the pending list in step with the
      server, and the decided goal carries the decided status. */
  lemma DecisionKeepsMirror(pending: seq<PendingGoal>, s: GoalStore, users: UserStore, admin: Caller,
                            goalId: Id, d: Decision)
    requires IsAdmin(admin) && KeysMatch(s) && Mirrors(pending, s, users)
    ensures var r := UpdateGoal(s, Some(admin), goalId, StatusPatch(DecidedStatus(d)));
      && Mirrors(HandleGoalRequest(pending, goalId, r.result.Ok?), r.store, users)
      && (goalId in s ==> r.result.Ok? && r.store[goalId].status == DecidedStatus(d))
  {
    var r := UpdateGoal(s, Some(admin), goalId, StatusPatch(DecidedStatus(d)));
    var after := HandleGoalRequest(pending, goalId, r.result.Ok?);
    if r.result.Ok? {
      forall p ensures p in after <==>
        p.goal.id in r.store && r.store[p.goal.id] == p.goal && p.goal.status == PENDING
        && p.owner == OwnerOf(users, p.goal.userId)
      {
        if p.goal.id == goalId {
          assert r.store[goalId].status != PENDING;
        }
      }
    }
  }

  /** handleDeleteUser's local update. */
  function HandleDeleteUser(list: seq<PublicUser>, userId: Id, succeeded: bool): (r: seq<PublicUser>)
    ensures !succeeded ==> r == list
    ensures succeeded ==> forall u :: u in r <==> u in list && u.id != userId
    ensures succeeded ==> |r| == CountWhere(list, (u: PublicUser) => u.id != userId)
    ensures IsSubseq(r, list)
  {
    IsSubseqRefl(list);
    if succeeded then Filter(list, (u: PublicUser) => u.id != userId) else list
  }

  /** The user table shows exactly the users the server still has after a delete. */
  lemma DeleteUserKeepsTable(list: seq<PublicUser>, db: Db, admin: Caller, userId: Id)
    requires IsAdmin(admin)
    requires forall u :: u in list <==> u.id in db.users && View(db.users[u.id]) == u
    ensures var r := DeleteUser(db, admin, userId);
      forall u :: u in HandleDeleteUser(list, userId, r.result.Ok?) <==>
        u.id in r.store.users && View(r.store.users[u.id]) == u
  {
  }

  datatype BadgeVariant = Default | Secondary | Outline

  /** getBadgeVariant: administrators first, then premium users, then everyone else. */
  function GetBadgeVariant(u: PublicUser): (v: BadgeVariant)
    ensures v == Default <==> u.role == ADMIN
    ensures v == Secondary <==> u.role != ADMIN && u.premium
    ensures v == Outline <==> u.role != ADMIN && !u.premium
  {
    if u.role == ADMIN then Default
    else if u.premium then Secondary
    else Outline
  }

  /** The user-management table and its count: users whose role is not 'admin'. */
  function RegularUsers(list: seq<PublicUser>): (r: seq<PublicUser>)
    ensures forall u :: u in r <==> u in list && u.role != ADMIN
    ensures |r| == CountWhere(list, (u: PublicUser) => u.role != ADMIN)
    ensures IsSubseq(r, list)
    ensures forall i :: 0 <= i < |r| ==> GetBadgeVariant(r[i]) != Default
  {
    Filter(list, (u: PublicUser) => u.role != ADMIN)
  }
}
