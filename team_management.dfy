/**
 * The team page (src/pages/TeamManagement.jsx): who counts as the project's
 * owner, which of the Remove and Leave actions a member row offers, and what
 * the invite and remove handlers do with the outcome of their request.
 */
module TeamManagement {
  import opened Common
  import opened Domain

  /** `ownerStatus`: the viewer is listed on the team with the Owner role. */
  function IsOwner(teamMembers: seq<TeamMember>, currentUserId: string): (r: bool)
    ensures r <==> exists i :: 0 <= i < |teamMembers| && IsOwnerEntry(teamMembers[i], currentUserId)
  {
    OwnedBy(teamMembers, currentUserId)
  }

  /** The buttons a member row shows. */
  datatype RowButtons = RowButtons(remove: bool, leave: bool)

  /**
   * The buttons of one member row, or None when the entry has no `user`
   * and so renders no row.
   */
  function RowActions(tm: TeamMember, isOwner: bool, currentUserId: string): (r: Option<RowButtons>)
    ensures r.None? <==> tm.user.None?
    ensures r.Some? ==>
      (r.value.remove <==> isOwner && tm.role != OwnerRole && tm.user.value.id != currentUserId)
    ensures r.Some? ==> (r.value.leave <==> tm.user.value.id == currentUserId && tm.role != OwnerRole)
    ensures r.Some? ==> !(r.value.remove && r.value.leave)
    ensures r.Some? && tm.role == OwnerRole ==> !r.value.remove && !r.value.leave
    ensures r.Some? && r.value.remove ==> isOwner
  {
    if tm.user.None? then None
    else
      var u := tm.user.value;
      Some(RowButtons(
        isOwner && tm.role != OwnerRole && u.id != currentUserId,
        u.id == currentUserId && tm.role != OwnerRole))
  }

  /** A viewer who is the owner is never offered Leave on an Owner row of theirs. */
  lemma OwnerCannotLeave(teamMembers: seq<TeamMember>, currentUserId: string, i: nat)
    requires i < |teamMembers| && IsOwnerEntry(teamMembers[i], currentUserId)
    ensures IsOwner(teamMembers, currentUserId)
    ensures RowActions(teamMembers[i], true, currentUserId) == Some(RowButtons(false, false))
  {
  }

  /** The status line of the page. */
  datatype Notice = EnterIdentifier | UserInvited | InviteFailed | UserRemoved | RemoveFailed

  /**
   * What `inviteUser` does: the identifier it posts (None: no request), the
   * notice it shows, the identifier field afterwards, and whether it refetches
   * the team. `succeeded` is the outcome of the POST.
   */
  datatype InviteOutcome = InviteOutcome(request: Option<string>, notice: Notice, identifier: string, refetch: bool)

  function InviteUser(identifier: string, succeeded: bool): (r: InviteOutcome)
    ensures r.request.None? <==> identifier == ""
    ensures r.request.Some? ==> r.request.value == identifier
    ensures identifier == "" ==> r.notice == EnterIdentifier && r.identifier == identifier && !r.refetch
    ensures identifier != "" && succeeded ==> r.notice == UserInvited && r.identifier == "" && r.refetch
    ensures identifier != "" && !succeeded ==> r.notice == InviteFailed && r.identifier == identifier && !r.refetch
  {
    if identifier == "" then InviteOutcome(None, EnterIdentifier, identifier, false)
    else if succeeded then InviteOutcome(Some(identifier), UserInvited, "", true)
    else InviteOutcome(Some(identifier), InviteFailed, identifier, false)
  }

  /** What `removeUser` ends in. */
  datatype RemoveOutcome =
    | NotConfirmed               // the confirm dialog was dismissed: no request
    | LeftProject                // navigate to the dashboard
    | Removed                    // show "User removed" and refetch the team
    | Failed                     // show "Could not remove user"

  /** `confirmed` is the answer to the confirm dialog, `succeeded` the outcome of the DELETE. */
  function RemoveUser(confirmed: bool, succeeded: bool, userIdToRemove: string, currentUserId: string): (r: RemoveOutcome)
    ensures r == NotConfirmed <==> !confirmed
    ensures r == LeftProject <==> confirmed && succeeded && userIdToRemove == currentUserId
    ensures r == Removed <==> confirmed && succeeded && userIdToRemove != currentUserId
    ensures r == Failed <==> confirmed && !succeeded
  {
    if !confirmed then NotConfirmed
    else if !succeeded then Failed
    else if userIdToRemove == currentUserId then LeftProject
    else Removed
  }
}
