/**
 * How one ticket card is drawn (src/components/SortableItem.jsx): the border
 * colour chosen by priority and the fallbacks for a missing assignee or
 * description.
 */
module SortableItem {
  import opened Common

  const RedBorder: string := "border-red-500"
  const YellowBorder: string := "border-yellow-500"
  const GreenBorder: string := "border-green-500"

  const Unassigned: string := "Unassigned"
  const NoDescription: string := "No description provided."

  /** The card's `borderColor`; a missing priority is None. */
  function BorderColor(priority: Option<string>): (r: string)
    ensures r == RedBorder <==> priority == Some("High")
    ensures r == YellowBorder <==> priority == Some("Medium")
    ensures r == GreenBorder <==> priority != Some("High") && priority != Some("Medium")
  {
    if priority == Some("High") then RedBorder
    else if priority == Some("Medium") then YellowBorder
    else GreenBorder
  }

  /** A present, non-empty string: what `||` treats as true. */
  predicate Truthy(s: Option<string>)
  {
    s.Some? && s.value != ""
  }

  /** `s || fallback` on a string that may be missing. */
  function OrElse(s: Option<string>, fallback: string): string
  {
    if Truthy(s) then s.value else fallback
  }

  /** `assignee || "Unassigned"`: the label is never blank. */
  function AssigneeLabel(assignee: Option<string>): (r: string)
    ensures r != ""
    ensures Truthy(assignee) ==> r == assignee.value
    ensures !Truthy(assignee) ==> r == Unassigned
  {
    OrElse(assignee, Unassigned)
  }

  /** `task?.description || "No description provided."`: the text is never blank. */
  function DescriptionText(description: Option<string>): (r: string)
    ensures r != ""
    ensures Truthy(description) ==> r == description.value
    ensures !Truthy(description) ==> r == NoDescription
  {
    OrElse(description, NoDescription)
  }
}
