# TrackHive board logic in Dafny

A verified model of the decision logic of the TrackHive front end, a React
client for a project and ticket tracker. It covers these parts:

- **Ticket board** (`src/pages/KanbanBoard.jsx`). The fetched ticket list is
  grouped into three fixed columns: "To Do", "In Progress" and "Done".
  `findColumnContainingTicket` finds the column that holds a ticket. A drop
  event `(active, over)` is resolved to a source and a destination column.
  The ticket is then removed from the source and appended, with its status
  rewritten, to the end of the destination. One ticket at a time can have its
  description expanded. The board state is the class `KanbanBoard.Board`. It
  has a `columns` map and an `expanded` option, and its methods are `Load`,
  `DragEnd` and `ToggleDescription`. Each method is proved against the pure
  functions `Group`, `Drop` and `Toggle`.
- **Ticket search** (`src/pages/FilterSearch.jsx`). An optional exact status
  match is followed by an optional case-insensitive title search.
- **Team page** (`src/pages/TeamManagement.jsx`). It decides who is the owner
  and which member rows offer Remove or Leave. It also models what the invite
  and remove handlers do with the outcome of their request.
- **Dashboard** (`src/pages/Dashboard.jsx`). It decides which projects the
  viewer owns. The class `Dashboard.ProjectList` models the project list
  after a delete.
- **New-ticket form** (`src/pages/CreateTicket.jsx`). It covers the initial
  values, the guard against a missing title or description, the request body,
  and the assignee options.
- **Ticket card** (`src/components/SortableItem.jsx`). It covers the border
  colour chosen by priority and the fallback texts.

The shared types are in `domain.dfy`: tickets, users, team members and
projects. `common.dfy` holds `Option`, `Result` and the JavaScript list
operations `filter`, `find` and `some`, with their lemmas.

HTTP requests, the confirm dialog and routing are outside the model. Where a
handler's effect depends on them, the model takes their outcome as a boolean
parameter (`confirmed`, `succeeded`).

The code has no drag-session state machine. It has no Idle, Dragging or
Resolving states: `handleDragStart` does nothing, and `handleDragEnd` acts on
one `(active, over)` event. The model follows the code and treats a drop as a
single discrete event. The id under the cursor is `None` when there is no
drop target.

## Model

| member | source | states |
|---|---|---|
| `KanbanBoard.Board.constructor` | src/pages/KanbanBoard.jsx:23-30 | The board starts with three empty columns and no expanded ticket, and satisfies the board invariant |
| `KanbanBoard.Group` | src/pages/KanbanBoard.jsx:38-39 | Grouping always yields exactly the three column keys |
| `KanbanBoard.GroupColumn` | src/pages/KanbanBoard.jsx:38-39 | Each column of the grouping equals the input list filtered by that status, in input order |
| `KanbanBoard.GroupIsPartition` | src/pages/KanbanBoard.jsx:38-39 | After grouping, every ticket is in the column of its status. A ticket is in a column iff it is in the input with that status. Each column is a subsequence of the input. A ticket with any other status is in no column (statuses that name inherited object properties are left out, see below) |
| `KanbanBoard.UnknownStatusDropped` | src/pages/KanbanBoard.jsx:39 | A single ticket whose status names no column gives three empty columns (statuses that name inherited object properties are left out, see below) |
| `KanbanBoard.GroupIdBag` | src/pages/KanbanBoard.jsx:38-39 | The multiset of ids on a loaded board equals the ids of the fetched tickets whose status names a column |
| `KanbanBoard.GroupKeepsTickets` | src/pages/KanbanBoard.jsx:38-39 | A loaded board holds as many tickets as the fetched list has tickets with a column status. When the list's ids are distinct, no id occurs twice on the board |
| `KanbanBoard.Board.Load` | src/pages/KanbanBoard.jsx:38-40 | The `forEach`/`push` loop sets `columns` to the grouping of the fetched list, keeps the board invariant and leaves the expanded ticket alone. The board holds as many tickets as the list has tickets with a column status, and its ids are unique when the list's ids are distinct |
| `KanbanBoard.FindColumn` | src/pages/KanbanBoard.jsx:54-55 | The result is a column holding a ticket with the id, and no earlier column in key order holds one. The result is None iff no column holds one |
| `KanbanBoard.ResolveDestination` | src/pages/KanbanBoard.jsx:65-68 | The column of the ticket under the cursor wins. Only when there is none is `overId` taken, and then only if it is a column name. The result is always a column name |
| `KanbanBoard.DropMove` | src/pages/KanbanBoard.jsx:58-73 | A drop moves something iff there is a target, both ends resolve and they differ. A move's source holds the active ticket and its ends are distinct column names |
| `KanbanBoard.MoveTicket` | src/pages/KanbanBoard.jsx:72-78 | After a move, the source has no ticket with the id and keeps every other ticket in order. The destination is its old contents plus one copy of the first such ticket, with `status` set to the destination, at the end. The third column is untouched. Nothing changes when the source has no such ticket |
| `KanbanBoard.Drop` | src/pages/KanbanBoard.jsx:57-78 | A drop keeps the three column keys |
| `KanbanBoard.DropWithoutMoveIsNoOp` | src/pages/KanbanBoard.jsx:59-73 | With no target, an unresolved source or destination, or source equal to destination, the columns are unchanged |
| `KanbanBoard.DropMovesTicket` | src/pages/KanbanBoard.jsx:64-78 | When both ends resolve and differ, the source no longer holds the ticket. The destination gains it at the end with the new status. The third column is unchanged |
| `KanbanBoard.DropPreservesWellFormed` | src/pages/KanbanBoard.jsx:75-78 | Every drop keeps each ticket in the column named by its status |
| `KanbanBoard.MoveKeepsIdBag` | src/pages/KanbanBoard.jsx:75-78 | With unique ids, a move keeps the multiset of ticket ids on the board |
| `KanbanBoard.DropKeepsTickets` | src/pages/KanbanBoard.jsx:75-78 | With unique ids, a drop keeps the ids, keeps them unique and keeps the ticket count |
| `KanbanBoard.MoveToDoneExample` | src/pages/KanbanBoard.jsx:57-78 | A lone "To Do" ticket dropped on the "Done" column leaves "To Do" empty, and "Done" holds the ticket with status "Done" |
| `KanbanBoard.Board.DragEnd` | src/pages/KanbanBoard.jsx:57-78 | `handleDragEnd` sets `columns` to `Drop` of the old columns and keeps the board invariant. With unique ids it keeps uniqueness and the ticket count. It does not take the PATCH outcome, so the new state cannot depend on it |
| `KanbanBoard.Toggle` | src/pages/KanbanBoard.jsx:104-106 | The result is none iff the toggled ticket was the expanded one. Otherwise the toggled ticket is the only expanded one |
| `KanbanBoard.ToggleTwiceCollapses` | src/pages/KanbanBoard.jsx:104-106 | Toggling a ticket that is not expanded twice leaves nothing expanded |
| `KanbanBoard.Board.ToggleDescription` | src/pages/KanbanBoard.jsx:104-106 | The new expanded id is `Toggle` of the old one, the columns are unchanged and the board invariant is kept |
| `Common.Find` | src/pages/KanbanBoard.jsx:72 | `find` returns the first element that passes the test, which is the head of the filtered list. It returns None iff no element passes |
| `Common.Filter` | src/pages/KanbanBoard.jsx:75 | `filter` keeps exactly the elements that pass the test and never grows the list |
| `Common.FilterCount` | src/pages/KanbanBoard.jsx:75 | `filter` keeps every occurrence of a passing element and drops every occurrence of any other |
| `FilterSearch.Lower` | src/pages/FilterSearch.jsx:25 | Lower-casing keeps the length and folds each character on its own (ASCII) |
| `FilterSearch.ContainsAt` | src/pages/FilterSearch.jsx:25 | `includes` holds iff the keyword occurs at some position of the title |
| `FilterSearch.FilterTickets` | src/pages/FilterSearch.jsx:21-27 | With an empty status and keyword the list is returned as is. With a status, every result has that status. With a keyword, every lowercased result title contains the lowercased keyword. A ticket is kept iff it meets both active conditions |
| `FilterSearch.FilterTicketsIsOneFilter` | src/pages/FilterSearch.jsx:21-27 | The two chained filters equal one filter by the conjunction of the active conditions |
| `FilterSearch.FilterTicketsIsSubsequence` | src/pages/FilterSearch.jsx:21-27 | The result is an order-preserving subsequence of the fetched list |
| `FilterSearch.FilterTicketsIdempotent` | src/pages/FilterSearch.jsx:21-27 | Filtering the result again with the same status and keyword returns it unchanged |
| `Domain.OwnedBy` | src/pages/TeamManagement.jsx:34-36 | The team is owned by a user iff some member has that user's id and the role "Owner" |
| `TeamManagement.IsOwner` | src/pages/TeamManagement.jsx:34-36 | `ownerStatus` holds iff some team member has `user._id` equal to the viewer's id and role "Owner" |
| `TeamManagement.RowActions` | src/pages/TeamManagement.jsx:146-178 | A member without `user` gets no row. Remove is offered iff the viewer is owner, the member is not an Owner and is not the viewer. Leave is offered iff the member is the viewer and not an Owner. The two are never offered together, and an Owner row offers neither |
| `TeamManagement.OwnerCannotLeave` | src/pages/TeamManagement.jsx:163-171 | An owner viewing their own Owner entry is counted as owner and sees neither button on it |
| `TeamManagement.InviteUser` | src/pages/TeamManagement.jsx:44-59 | An empty identifier sends no request and shows the warning. Otherwise the identifier is posted. Success shows "invited", clears the field and refetches; failure shows the error and keeps the field |
| `TeamManagement.RemoveUser` | src/pages/TeamManagement.jsx:62-80 | A dismissed confirm sends nothing. After a successful DELETE, removing oneself navigates away and removing someone else refetches. A failed DELETE shows the error |
| `Dashboard.IsProjectOwner` | src/pages/Dashboard.jsx:95-97 | A project counts as owned, and so shows its Delete button (line 126), iff one of its team members has `user._id` equal to the viewer's id and role "Owner" |
| `Dashboard.WithoutProject` | src/pages/Dashboard.jsx:45 | The filtered list holds exactly the projects whose id differs from the deleted one, each as often as before, in original order. It equals the old list when no project has that id |
| `Dashboard.ProjectList.constructor` | src/pages/Dashboard.jsx:25 | The list holds the fetched projects |
| `Dashboard.ProjectList.DeleteProject` | src/pages/Dashboard.jsx:36-50 | After a confirmed, successful delete the list is `WithoutProject` of the previous list. A dismissed confirm or a failed request leaves it unchanged, and only the failure raises the alert |
| `CreateTicket.BuildPayload` | src/pages/CreateTicket.jsx:36-51 | An empty title or description is refused with the fill-in message and sends nothing. Otherwise the payload carries title, description, priority, status and project id as entered. Its assignee is null iff the selection is empty, and is the selected id otherwise |
| `CreateTicket.InitialFormIsRefused` | src/pages/CreateTicket.jsx:11-40 | The untouched form (empty title) is refused |
| `CreateTicket.DefaultsReachPayload` | src/pages/CreateTicket.jsx:11-51 | A form with only title and description filled in posts priority "Medium", status "To Do" and a null assignee |
| `CreateTicket.AssigneeOptions` | src/pages/CreateTicket.jsx:117-118 | The options list exactly the users of team members that have a `user`, never more entries than members |
| `SortableItem.BorderColor` | src/components/SortableItem.jsx:29-34 | "High" maps to red and only "High" does. "Medium" maps to yellow and only "Medium" does. Every other priority, missing ones included, maps to green |
| `SortableItem.AssigneeLabel` | src/components/SortableItem.jsx:49 | A missing or empty assignee shows "Unassigned", any other shows itself; the label is never blank |
| `SortableItem.DescriptionText` | src/components/SortableItem.jsx:66 | A missing or empty description shows "No description provided.", any other shows itself; the text is never blank |

## Left out

- HTTP requests (axios), the token in `localStorage`, `window.confirm`, `alert`, `console.error` and router navigation are I/O. Where a handler branches on them, the model takes the outcome as a parameter.
- A failed ticket fetch leaves the board as it was. The model does this by not calling `Board.Load`.
- The PATCH after a drop and its failure path (src/pages/KanbanBoard.jsx:80-89) are left out. The optimistic update is never rolled back, and `Board.DragEnd` does not take the request's outcome.
- dnd-kit's collision detection, sensors and CSS transforms (src/pages/KanbanBoard.jsx:113-118, src/components/SortableItem.jsx:16-27) are cursor geometry inside a library. The model takes the id under the cursor as given.
- `handleDragStart` does nothing, so nothing models it.
- Ticket deletion on the board (src/pages/KanbanBoard.jsx:92-102) is a DELETE followed by a refetch. The refetch is `Board.Load` on the new list.
- The move rule is stated for boards with unique ticket ids. `filter` removes every ticket that carries the active id, but only one copy is appended. So with duplicate ids the count drops, and the count lemmas require unique ids.
- A ticket status that names a property every JavaScript object inherits ("constructor", "toString", "__proto__" and the like) is not modelled. At src/pages/KanbanBoard.jsx:39, `grouped[t.status]` is then not null, so `?.` does not stop the chain, and `.push` throws. The catch at lines 41-43 discards the whole fetch, and the board keeps its previous columns. The model assumes the server sends only ordinary status strings, for which an unknown status drops just that ticket.
- `toLowerCase` is modelled as ASCII case folding. Unicode case mapping is not modelled.
- Date formatting on the dashboard depends on the locale and the host clock.
- CreateTicket.AssigneeOptions: its contract states which users are listed and bounds the length, but not how often each user appears when several members share one.
- `null` entries inside `teamMembers` are not modelled. A member is a record whose `user` may be missing.
- A team response without `teamMembers` is not modelled. There, `fetchTeam` throws at the `some` call and shows "Could not load team". The model always has a member list.
- The Invite button is disabled for anyone who is not the owner (src/pages/TeamManagement.jsx:126). `TeamManagement.InviteUser` models what happens once the button is pressed and does not take `isOwner`.
- `deleteProject` on the team page (src/pages/TeamManagement.jsx:83-95) is left out. It only confirms, sends the request and navigates.
- The board never passes `task` or `isExpanded` to the card (src/pages/KanbanBoard.jsx:137-143), so the card's description line does not show on the board. `SortableItem.DescriptionText` models the card's own rule.
- Rendering is left out, as are the presentational pages, the login, password, account, project-creation and comment forms, and the build configuration.
