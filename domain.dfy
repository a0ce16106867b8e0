/**
 * The records the pages receive from the API: tickets, users, team
 * memberships and projects. Only the fields the modelled logic reads are kept.
 */
module Domain {
  import opened Common

  datatype User = User(id: string, name: string, email: string)

  /** An entry of a project's `teamMembers`; `user` may be missing. */
  datatype TeamMember = TeamMember(user: Option<User>, role: string)

  datatype Project = Project(id: string, title: string, teamMembers: seq<TeamMember>)

  /**
   * A ticket. `priority` may be missing. `status` is whatever the server
   * sent, and need not be one of the board's column names. A status that
   * names a property every JavaScript object inherits (such as
   * "constructor") is outside the model.
   */
  datatype Ticket = Ticket(
    id: string,
    title: string,
    description: string,
    priority: Option<string>,
    status: string,
    assignee: Option<User>)

  const OwnerRole: string := "Owner"

  /** `tm.user?._id === userId && tm.role === "Owner"` */
  predicate IsOwnerEntry(tm: TeamMember, userId: string)
  {
    tm.user.Some? && tm.user.value.id == userId && tm.role == OwnerRole
  }

  function OwnerEntryFor(userId: string): TeamMember -> bool
  {
    (tm: TeamMember) => IsOwnerEntry(tm, userId)
  }

  /** `teamMembers.some((tm) => tm.user?._id === userId && tm.role === "Owner")` */
  predicate OwnedBy(teamMembers: seq<TeamMember>, userId: string)
    ensures OwnedBy(teamMembers, userId) <==>
      exists i :: 0 <= i < |teamMembers| && IsOwnerEntry(teamMembers[i], userId)
  {
    AnyAt(teamMembers, OwnerEntryFor(userId));
    Any(teamMembers, OwnerEntryFor(userId))
  }

  /** `t => t.status === status` */
  function StatusIs(status: string): Ticket -> bool
  {
    (t: Ticket) => t.status == status
  }

  /** `t => t._id === id` */
  function IdIs(id: string): Ticket -> bool
  {
    (t: Ticket) => t.id == id
  }

  /** `t => t._id !== id` */
  function IdIsNot(id: string): Ticket -> bool
  {
    (t: Ticket) => t.id != id
  }
}
