/** The support endpoints (server/src/controllers/supportController.ts). */
module SupportController {
  import opened Wrappers
  import opened Common
  import opened SupportModel

  type TicketStore = map<Id, Ticket>

  /** Every stored ticket sits under its own id. */
  ghost predicate KeysMatch(s: TicketStore) {
    forall k :: k in s ==> s[k].id == k
  }

  /** `getTickets`: the caller's tickets. */
  function GetTickets(s: TicketStore, caller: Caller): (r: TicketStore)
    ensures forall k :: k in r <==> k in s && s[k].userId == caller.id
    ensures forall k :: k in r ==> r[k] == s[k]
  {
    map k | k in s && s[k].userId == caller.id :: s[k]
  }

  /** `getAllTickets` (administrators only): every ticket. */
  function GetAllTickets(s: TicketStore, caller: Caller): (r: TicketStore)
    requires IsAdmin(caller)
    ensures forall k :: k in r <==> k in s
    ensures forall k :: k in r ==> r[k] == s[k]
  {
    s
  }

  datatype TicketBody = TicketBody(subject: Option<string>, message: Option<string>)

  /** `createTicket`: 400 without a subject or message; the ticket records the caller's
      id and email and starts open. */
  function CreateTicket(s: TicketStore, caller: Caller, b: TicketBody, newId: Id): (r: Reply<TicketStore, Ticket>)
    requires newId !in s
    ensures !Truthy(b.subject) || !Truthy(b.message) ==>
      r.result == Err(BadRequest("Please add subject and message"))
    ensures r.result.Err? ==> r.store == s
    ensures r.result.Ok? <==> Truthy(b.subject) && Truthy(b.message) && caller.id != "" && caller.email != ""
    ensures r.result.Ok? ==>
      && r.store == s[newId := r.result.value]
      && r.result.value.userId == caller.id && r.result.value.userEmail == caller.email
      && r.result.value.subject == b.subject.value && r.result.value.message == b.message.value
      && r.result.value.status == OPEN && r.result.value.adminResponse.None?
  {
    if !Truthy(b.subject) || !Truthy(b.message) then
      Reply(s, Err(BadRequest("Please add subject and message")))
    else
      match CreateDocument(caller.id, caller.email, b.subject.value, b.message.value, newId)
      case Ok(t) => Reply(s[newId := t], Ok(t))
      case Err(e) => Reply(s, Err(e))
  }

  /** `updateTicket` (administrators only): 404, otherwise the merge. */
  function UpdateTicket(s: TicketStore, caller: Caller, id: Id, p: TicketPatch): (r: Reply<TicketStore, Ticket>)
    requires IsAdmin(caller)
    ensures id !in s <==> r.result == Err(NotFound("Ticket not found"))
    ensures r.result.Err? ==> r.store == s
    ensures r.result.Ok? ==> id in s && r.result.value == ApplyPatch(s[id], p) && r.store == s[id := r.result.value]
  {
    if id !in s then Reply(s, Err(NotFound("Ticket not found")))
    else
      var t := ApplyPatch(s[id], p);
      Reply(s[id := t], Ok(t))
  }

  /** Creating and updating tickets leave every other ticket as it was and keep
      every ticket under its own id. */
  lemma TicketOperationsFrame(s: TicketStore, c: Caller, admin: Caller, b: TicketBody, newId: Id,
                              id: Id, p: TicketPatch, k: Id)
    requires KeysMatch(s) && newId !in s && IsAdmin(admin)
    requires k in s && k != id
    ensures KeysMatch(CreateTicket(s, c, b, newId).store) && CreateTicket(s, c, b, newId).store[k] == s[k]
    ensures KeysMatch(UpdateTicket(s, admin, id, p).store) && UpdateTicket(s, admin, id, p).store[k] == s[k]
  {
  }

  /** A user sees the ticket they created, and so does every administrator. */
  lemma CreatedTicketIsListed(s: TicketStore, c: Caller, admin: Caller, b: TicketBody, newId: Id)
    requires newId !in s && IsAdmin(admin) && CreateTicket(s, c, b, newId).result.Ok?
    ensures newId in GetTickets(CreateTicket(s, c, b, newId).store, c)
    ensures newId in GetAllTickets(CreateTicket(s, c, b, newId).store, admin)
  {
  }
}
