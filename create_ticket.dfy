/**
 * The new-ticket form (src/pages/CreateTicket.jsx): its initial values, the
 * guard against a missing title or description, the request body it builds,
 * and the members offered as assignees.
 */
module CreateTicket {
  import opened Common
  import opened Domain

  /** The form fields; `assignee` is the selected user id, "" for Unassigned. */
  datatype TicketForm = TicketForm(
    title: string,
    description: string,
    priority: string,
    status: string,
    assignee: string)

  const InitialForm: TicketForm := TicketForm("", "", "Medium", "To Do", "")

  /** The body of the POST that creates the ticket. */
  datatype Payload = Payload(
    title: string,
    description: string,
    priority: string,
    status: string,
    projectId: string,
    assignee: Option<string>)

  const MissingFields: string := "Please fill in title and description."

  /** `createTicket` up to the request: the refusal message, or the payload it posts. */
  function BuildPayload(form: TicketForm, projectId: string): (r: Result<Payload, string>)
    ensures r.Failure? <==> form.title == "" || form.description == ""
    ensures r.Failure? ==> r.error == MissingFields
    ensures r.Success? ==>
      && r.value.title == form.title
      && r.value.description == form.description
      && r.value.priority == form.priority
      && r.value.status == form.status
      && r.value.projectId == projectId
    ensures r.Success? ==> (r.value.assignee.None? <==> form.assignee == "")
    ensures r.Success? && r.value.assignee.Some? ==> r.value.assignee.value == form.assignee
  {
    if form.title == "" || form.description == "" then Failure(MissingFields)
    else
      Success(Payload(
        form.title, form.description, form.priority, form.status, projectId,
        if form.assignee == "" then None else Some(form.assignee)))
  }

  /** The untouched form is refused. */
  lemma InitialFormIsRefused(projectId: string)
    ensures BuildPayload(InitialForm, projectId) == Failure(MissingFields)
  {
  }

  /** Filling in only title and description posts a Medium, To Do, unassigned ticket. */
  lemma DefaultsReachPayload(title: string, description: string, projectId: string)
    requires title != "" && description != ""
    ensures BuildPayload(InitialForm.(title := title, description := description), projectId)
      == Success(Payload(title, description, "Medium", "To Do", projectId, None))
  {
  }

  /** `users.filter((tm) => tm?.user)`, as the users the assignee select lists. */
  function AssigneeOptions(teamMembers: seq<TeamMember>): (r: seq<User>)
    ensures |r| <= |teamMembers|
    ensures forall u :: u in r ==> exists tm :: tm in teamMembers && tm.user == Some(u)
    ensures forall tm :: tm in teamMembers && tm.user.Some? ==> tm.user.value in r
  {
    if teamMembers == [] then []
    else
      var head := if teamMembers[0].user.Some? then [teamMembers[0].user.value] else [];
      head + AssigneeOptions(teamMembers[1..])
  }
}
