/**
 * The sidebar walker `renderMenuItems`: the route mapping is walked in key
 * order, hidden routes are skipped with their whole subtree, and every shown
 * route yields one list entry, followed by its children's entries when it is
 * an expanded group. The nested lists of the markup are flattened into one
 * sequence; each entry records its nesting depth.
 */
module Menu {
  import opened Wrappers
  import opened Routes
  import opened Expansion

  /**
   * One rendered list item. `expander` is the ExpandLess/ExpandMore
   * indicator: `Some(open)` on an internal route with children, `None` on a
   * leaf and on an external link, which never draws one.
   */
  datatype Entry = Entry(
    key: string,
    text: string,
    depth: nat,
    icon: Option<string>,
    expander: Option<bool>,
    onClick: Action)

  /** The list item drawn for a shown route at a given depth. */
  function EntryOf(n: Node, openMenu: OpenMenu, depth: nat): (e: Entry)
    ensures e.key == n.key && e.text == MenuText(n.key) && e.depth == depth
    ensures e.icon == IconSlot(n) && e.onClick == ClickAction(n)
    ensures e.expander.Some? <==> !IsExternalLink(n) && HasChildren(n)
    ensures e.expander.Some? ==> e.expander.value == IsOpen(openMenu, n.key)
  {
    Entry(n.key, MenuText(n.key), depth, IconSlot(n),
          if IsExternalLink(n) || !HasChildren(n) then None else Some(IsOpen(openMenu, n.key)),
          ClickAction(n))
  }

  /** Number of routes in a subtree. */
  function Size(n: Node): nat
    decreases n
  {
    1 + if n.children.Present? then ForestSize(n.children.routes) else 0
  }

  function ForestSize(routes: seq<Node>): nat
    decreases routes
  {
    if routes == [] then 0 else Size(routes[0]) + ForestSize(routes[1..])
  }

  /**
   * The arrow function mapped over the keys: the entries of one route.
   * Nothing is emitted for a hidden route, whatever its children; otherwise
   * the route's own entry comes first and everything after it is nested
   * deeper.
   */
  function RenderRoute(n: Node, role: string, openMenu: OpenMenu, depth: nat): (r: seq<Entry>)
    ensures r != [] <==> Visible(n, role)
    ensures r != [] ==> r[0] == EntryOf(n, openMenu, depth)
    ensures forall j :: 1 <= j < |r| ==> r[j].depth > depth
    ensures |r| <= Size(n)
    decreases n
  {
    if IsExternalLink(n) then
      [EntryOf(n, openMenu, depth)]
    else if RoleAdmits(n, role) then
      [EntryOf(n, openMenu, depth)] +
      if HasChildren(n) && IsOpen(openMenu, n.key)
      then RenderMenuItems(n.children.routes, role, openMenu, depth + 1)
      else []
    else
      []
  }

  /** `renderMenuItems`: the entries of a route mapping, in key order. */
  function RenderMenuItems(routes: seq<Node>, role: string, openMenu: OpenMenu, depth: nat): (r: seq<Entry>)
    ensures forall j :: 0 <= j < |r| ==> r[j].depth >= depth
    ensures |r| <= ForestSize(routes)
    decreases routes
  {
    if routes == [] then []
    else RenderRoute(routes[0], role, openMenu, depth) + RenderMenuItems(routes[1..], role, openMenu, depth)
  }
}
