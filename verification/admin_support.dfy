/** The administrator's support console (src/pages/AdminSupport.tsx): answering a
    ticket and moving it through open, in progress and resolved. */
module AdminSupport {
  import opened Wrappers
  import opened Common
  import opened Seqs
  import opened SupportModel
  import opened SupportController

  /** The console's state: the ticket list, the ticket being answered and the draft. */
  datatype Console = Console(tickets: seq<Ticket>, selected: Option<Ticket>, response: string)

  /** A respond request is sent only with a selected ticket and a non-blank draft. */
  predicate CanRespond(st: Console) {
    st.selected.Some? && !IsBlank(st.response)
  }

  /** The local ticket after a respond. */
  function Answered(t: Ticket, text: string): (r: Ticket)
    ensures r == ApplyPatch(t, RespondPatch(text))
    ensures r.status == RESOLVED && r.adminResponse == Some(text)
  {
    t.(status := RESOLVED, adminResponse := Some(text))
  }

  /** handleRespond given whether the request succeeded: the selected ticket is
      resolved with the draft as its answer, and the dialog is cleared. */
  function HandleRespond(st: Console, succeeded: bool): (r: Console)
    ensures !CanRespond(st) || !succeeded ==> r == st
    ensures CanRespond(st) && succeeded ==>
      && r.selected.None? && r.response == ""
      && |r.tickets| == |st.tickets|
      && forall i :: 0 <= i < |r.tickets| ==>
           r.tickets[i] == if st.tickets[i].id == st.selected.value.id
                           then Answered(st.tickets[i], st.response) else st.tickets[i]
  {
    if !CanRespond(st) || !succeeded then st
    else
      var id := st.selected.value.id;
      var ts := seq(|st.tickets|, i requires 0 <= i < |st.tickets| =>
        if st.tickets[i].id == id then Answered(st.tickets[i], st.response) else st.tickets[i]);
      Console(ts, None, "")
  }

  /** What the server stores for a respond is what the console shows afterwards. */
  lemma RespondAgreesWithServer(st: Console, s: TicketStore, admin: Caller, k: nat)
    requires CanRespond(st) && IsAdmin(admin)
    requires k < |st.tickets| && st.tickets[k].id == st.selected.value.id
    requires st.tickets[k].id in s && s[st.tickets[k].id] == st.tickets[k]
    ensures var r := UpdateTicket(s, admin, st.tickets[k].id, RespondPatch(st.response));
      r.result.Ok? && r.store[st.tickets[k].id] == HandleRespond(st, true).tickets[k]
  {
  }

  /** The two row buttons. */
  datatype Action = StartProgress | MarkResolved

  /** The status a button sets. */
  function Target(a: Action): (s: string)
    ensures ValidStatus(s)
  {
    match a
    case StartProgress => IN_PROGRESS
    case MarkResolved => RESOLVED
  }

  /** The buttons offered for a status: Start Progress only for open tickets, Mark
      Resolved only for tickets in progress. */
  function Actions(status: string): (r: seq<Action>)
    ensures StartProgress in r <==> status == OPEN
    ensures MarkResolved in r <==> status == IN_PROGRESS
    ensures |r| <= 1
  {
    if status == OPEN then [StartProgress]
    else if status == IN_PROGRESS then [MarkResolved]
    else []
  }

  /** Following the buttons only moves a ticket forward: open, then in progress,
      then resolved, where no button is left. */
  lemma ActionsMoveForward(status: string, a: Action)
    requires a in Actions(status)
    ensures status == OPEN ==> Target(a) == IN_PROGRESS
    ensures status == IN_PROGRESS ==> Target(a) == RESOLVED
    ensures Actions(RESOLVED) == []
  {
  }

  /** handleStatusChange: on success only the matching ticket takes the new status. */
  function HandleStatusChange(tickets: seq<Ticket>, ticketId: Id, newStatus: string, succeeded: bool)
    : (r: seq<Ticket>)
    ensures !succeeded ==> r == tickets
    ensures |r| == |tickets|
    ensures forall i :: 0 <= i < |r| && tickets[i].id != ticketId ==> r[i] == tickets[i]
    ensures succeeded ==> forall i :: 0 <= i < |r| && tickets[i].id == ticketId ==>
      r[i] == ApplyPatch(tickets[i], StatusPatch(newStatus))
  {
    if !succeeded then tickets
    else
      seq(|tickets|, i requires 0 <= i < |tickets| =>
        if tickets[i].id == ticketId then tickets[i].(status := newStatus) else tickets[i])
  }
}
