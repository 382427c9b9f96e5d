/**
 * The route configuration consumed by the sidebar of `Layout` and the two
 * pure decisions taken per route: whether it is shown to a viewer, and what
 * a click on its list item does.
 */
module Routes {
  import opened Wrappers

  /** The privileged role that bypasses role membership. */
  const Admin: string := "admin"

  /**
   * One route of the configuration mapping. The mapping of child routes is
   * a sequence in the order `Object.keys` yields (integer-like keys first,
   * in ascending numeric order, then the others in insertion order);
   * `children` is `Present` exactly when the route has a child
   * object (an empty one included) and `Absent` when it has none.
   * `roles` is always present: the source reads `roles.includes` without a
   * guard, and this model takes an empty sequence as "no role matches".
   */
  datatype Node = Node(
    key: string,
    path: Option<string>,
    url: Option<string>,
    icon: Option<string>,
    roles: seq<string>,
    frontendVisible: bool,
    external: bool,
    children: ChildRoutes)

  /** The `children` property of a route: absent, or a mapping of child routes. */
  datatype ChildRoutes = Absent | Present(routes: seq<Node>)

  /**
   * The first branch of the walker: a frontend-visible external link. The
   * `external` flag alone is not enough; an external route that is not
   * frontend-visible falls through to the role gate.
   */
  predicate IsExternalLink(n: Node): (link: bool)
    ensures link ==> n.external && n.frontendVisible
    ensures n.external && !link ==> !n.frontendVisible
    ensures !n.external ==> !link
  {
    n.external && n.frontendVisible
  }

  /**
   * The second branch of the walker: the role gate. Without
   * `frontendVisible` nobody passes; with it, the admin always passes and
   * any other role passes by membership in `roles`.
   */
  predicate RoleAdmits(n: Node, role: string): (admitted: bool)
    ensures !n.frontendVisible ==> !admitted
    ensures n.frontendVisible && role == Admin ==> admitted
    ensures role != Admin ==> (admitted <==> n.frontendVisible && role in n.roles)
  {
    (role in n.roles && n.frontendVisible) || (role == Admin && n.frontendVisible)
  }

  /**
   * A route is rendered when either branch emits it. The closed form is the
   * visibility rule: never without `frontendVisible`; then always for an
   * external link, always for the admin, otherwise by role membership.
   */
  predicate Visible(n: Node, role: string): (shown: bool)
    ensures shown <==> n.frontendVisible && (n.external || role == Admin || role in n.roles)
  {
    IsExternalLink(n) || RoleAdmits(n, role)
  }

  /**
   * The `hasChildren` flag: any child object counts, an empty one included.
   */
  predicate HasChildren(n: Node): (group: bool)
    ensures group <==> n.children != Absent
    ensures n.children == Present([]) ==> group
  {
    n.children.Present?
  }

  /** Upper-cases an ASCII lower-case letter and leaves every other character alone. */
  function ToUpper(c: char): (u: char)
    ensures !('a' <= c <= 'z') ==> u == c
    ensures 'a' <= c <= 'z' ==> 'A' <= u <= 'Z' && u as int - 'A' as int == c as int - 'a' as int
    ensures !('a' <= u <= 'z')
  {
    if 'a' <= c <= 'z' then (c as int - 'a' as int + 'A' as int) as char else c
  }

  /** The list item's text: the route key with its first character capitalised. */
  function MenuText(routeKey: string): (text: string)
    ensures |text| == |routeKey|
    ensures routeKey != [] ==> text[0] == ToUpper(routeKey[0]) && text[1..] == routeKey[1..]
  {
    if routeKey == [] then [] else [ToUpper(routeKey[0])] + routeKey[1..]
  }

  /** The icon slot of a list item: only a non-empty icon name is drawn. */
  function IconSlot(n: Node): (slot: Option<string>)
    ensures slot.Some? <==> n.icon.Some? && n.icon.value != []
    ensures slot.Some? ==> slot == n.icon
  {
    if n.icon.Some? && n.icon.value != [] then n.icon else None
  }

  /**
   * What the `onClick` handler of a route's list item does, as a value:
   * open the URL in a new browsing context, toggle the route's expansion,
   * or ask the router to navigate.
   */
  datatype Action = OpenUrl(url: Option<string>) | ToggleMenu(menuKey: string) | Navigate(path: Option<string>)

  /**
   * The click handler chosen for a rendered route. An external link opens
   * its URL; any other route toggles its key when it has children, and
   * otherwise navigates to its path.
   */
  function ClickAction(n: Node): (a: Action)
    ensures a.OpenUrl? <==> IsExternalLink(n)
    ensures a.ToggleMenu? <==> !IsExternalLink(n) && HasChildren(n)
    ensures a.Navigate? <==> !IsExternalLink(n) && !HasChildren(n)
    ensures a.OpenUrl? ==> a.url == n.url
    ensures a.ToggleMenu? ==> a.menuKey == n.key
    ensures a.Navigate? ==> a.path == n.path
  {
    if IsExternalLink(n) then OpenUrl(n.url)
    else if HasChildren(n) then ToggleMenu(n.key)
    else Navigate(n.path)
  }
}
