/** The SupportTicket document (server/src/models/SupportTicket.ts). */
module SupportModel {
  import opened Wrappers
  import opened Common

  const OPEN: string := "open"
  const IN_PROGRESS: string := "in_progress"
  const RESOLVED: string := "resolved"

  predicate ValidStatus(s: string) {
    s == OPEN || s == IN_PROGRESS || s == RESOLVED
  }

  datatype Ticket = Ticket(
    id: Id,
    userId: Id,
    userEmail: string,
    subject: string,
    message: string,
    status: string,
    adminResponse: Option<string>)

  /** `SupportTicket.create` with the controller's paths: the required strings must be
      non-empty; a new ticket is open and unanswered. */
  function CreateDocument(userId: Id, userEmail: string, subject: string, message: string, id: Id)
    : (r: Result<Ticket, Error>)
    ensures r.Ok? <==> userId != "" && userEmail != "" && subject != "" && message != ""
    ensures r.Err? ==> r.error == SchemaRejected
    ensures r.Ok? ==>
      r.value == Ticket(id, userId, userEmail, subject, message, OPEN, None) && ValidStatus(r.value.status)
  {
    if userId == "" || userEmail == "" || subject == "" || message == "" then Err(SchemaRejected)
    else Ok(Ticket(id, userId, userEmail, subject, message, OPEN, None))
  }

  /** A partial update body. */
  datatype TicketPatch = TicketPatch(
    userId: Option<Id>,
    userEmail: Option<string>,
    subject: Option<string>,
    message: Option<string>,
    status: Option<string>,
    adminResponse: Option<string>)

  /** `$set` of the supplied paths; validators do not run. */
  function ApplyPatch(t: Ticket, p: TicketPatch): (r: Ticket)
    ensures r.id == t.id
    ensures r.userId == p.userId.GetOr(t.userId)
    ensures r.userEmail == p.userEmail.GetOr(t.userEmail)
    ensures r.subject == p.subject.GetOr(t.subject)
    ensures r.message == p.message.GetOr(t.message)
    ensures r.status == p.status.GetOr(t.status)
    ensures r.adminResponse == (if p.adminResponse.Some? then p.adminResponse else t.adminResponse)
  {
    t.(userId := p.userId.GetOr(t.userId),
       userEmail := p.userEmail.GetOr(t.userEmail),
       subject := p.subject.GetOr(t.subject),
       message := p.message.GetOr(t.message),
       status := p.status.GetOr(t.status),
       adminResponse := if p.adminResponse.Some? then p.adminResponse else t.adminResponse)
  }

  /** The body `{ status: s }`. */
  function StatusPatch(s: string): TicketPatch {
    TicketPatch(None, None, None, None, Some(s), None)
  }

  /** The body `{ status: 'resolved', adminResponse: text }`. */
  function RespondPatch(text: string): TicketPatch {
    TicketPatch(None, None, None, None, Some(RESOLVED), Some(text))
  }
}
