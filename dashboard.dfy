/**
 * The project dashboard (src/pages/Dashboard.jsx): which projects the viewer
 * owns, and the project list after a delete.
 */
module Dashboard {
  import opened Common
  import opened Domain

  /** The per-project `isOwner`, which alone decides whether the Delete button shows. */
  function IsProjectOwner(project: Project, currentUserId: string): (r: bool)
    ensures r <==>
      exists i :: 0 <= i < |project.teamMembers| && IsOwnerEntry(project.teamMembers[i], currentUserId)
  {
    OwnedBy(project.teamMembers, currentUserId)
  }

  /** `p => p._id !== projectId` */
  function ProjectIdIsNot(projectId: string): Project -> bool
  {
    (p: Project) => p.id != projectId
  }

  /** `prev.filter((p) => p._id !== projectId)` */
  function WithoutProject(projects: seq<Project>, projectId: string): (r: seq<Project>)
    ensures forall p :: p in r <==> p in projects && p.id != projectId
    ensures forall p :: multiset(r)[p] == if p.id != projectId then multiset(projects)[p] else 0
    ensures IsSubsequence(r, projects)
    ensures (forall p :: p in projects ==> p.id != projectId) ==> r == projects
  {
    FilterIsSubsequence(projects, ProjectIdIsNot(projectId));
    FilterCount(projects, ProjectIdIsNot(projectId));
    if forall p :: p in projects ==> p.id != projectId then
      FilterKeepsAll(projects, ProjectIdIsNot(projectId));
      Filter(projects, ProjectIdIsNot(projectId))
    else
      Filter(projects, ProjectIdIsNot(projectId))
  }

  /** The dashboard's `projects` state. */
  class ProjectList {
    var projects: seq<Project>

    constructor (fetched: seq<Project>)
      ensures projects == fetched
    {
      projects := fetched;
    }

    /**
     * `deleteProject`: `confirmed` is the answer to the confirm dialog and
     * `succeeded` the outcome of the DELETE; `alerted` tells whether the
     * failure alert is shown.
     */
    method DeleteProject(projectId: string, confirmed: bool, succeeded: bool) returns (alerted: bool)
      modifies this
      ensures projects == if confirmed && succeeded then WithoutProject(old(projects), projectId) else old(projects)
      ensures alerted <==> confirmed && !succeeded
    {
      alerted := false;
      if !confirmed {
        return;
      }
      if succeeded {
        projects := Filter(projects, ProjectIdIsNot(projectId));
      } else {
        alerted := true;
      }
    }
  }
}
