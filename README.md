# Role-filtered navigation menu of the admin shell

This project models the sidebar menu of the React admin shell's `Layout`
component. A static configuration maps route keys to route objects, and
routes can nest through `children`. The component walks this mapping in key
order and draws one list item per route that the viewer's `role` may see.
A route that is hidden is skipped together with its whole subtree. A group
route shows its children only while its key is expanded in the `openMenu`
dictionary. A click on a list item does one of three things: it opens an
external URL in a new tab, it toggles a group, or it asks the router to
navigate to the route's `path`.

Modules:

- `Wrappers`: `Option`, standing for a property that may be `undefined`.
- `Routes`: the `Node` datatype for one route. It also holds the visibility
  rule, the label rule (`MenuText`), the icon slot and the click action a
  route's item is given.
- `Expansion`: the `openMenu` dictionary as a `map<string, bool>`. A missing
  key reads as collapsed, unless it names an `Object.prototype` member. This
  module also defines `Toggled`, the dictionary
  after one toggle.
- `Menu`: the walker, with `RenderMenuItems` for a mapping and `RenderRoute`
  for one route. The nested lists of the markup are flattened into one
  sequence of `Entry` values, and each entry carries its nesting depth.
- `MenuProperties`: what the walker guarantees. It covers the level-by-level
  order, the exact set of entries of the whole tree, the absence of
  visibility promotion, the admin's menu, and independence from anything in
  `openMenu` but the flags.
- `Subsequences`: order-preserving selection, used by the ordering lemmas.
- `LayoutComponent`: the `Layout` class. It holds the `openMenu` field, and
  its methods are `HandleToggleMenu`, the drawer's `MenuItems` and `Click`.
- `Scenarios`: concrete route trees and the menus they produce.

Modelling decisions:

- Key order: a mapping is a `seq<Node>` in the order that `Object.keys`
  yields. For ordinary keys that is insertion order. Integer-like keys such
  as `"1"` or `"404"` come first, in ascending numeric order. The model takes
  the sequence as given and does not reorder keys itself.
- `roles`: always present. The source evaluates `route.roles.includes(role)`
  first in the condition of the second branch, without a guard. A missing
  `roles` therefore throws for every route that is not a frontend-visible
  external link, including routes with `frontendVisible: false`. In the
  model, an empty `roles` means that no ordinary role matches. Such a route
  is still shown to `admin`, and still shown to everyone if it is a
  frontend-visible external link.
- Children: `children` is a `ChildRoutes` value, either `Absent` or
  `Present(routes)`. Any child object makes a route a group, an empty one
  included. The source tests only that `children` is a truthy object.
- External links: a frontend-visible external route gets one item that opens
  its `url`. Its children are never walked, and it draws no expand
  indicator.
- Expansion flags: they are keyed by the bare route key across the whole
  tree. Two groups with the same key share one flag (`SameKeySharesFlag`).
  `openMenu` is a plain object, so reading a key that was never stored falls
  through to `Object.prototype`. A missing key reads as collapsed, except a
  key that names a prototype member (`constructor`, `toString`, `__proto__`
  and the others in `Expansion.Inherited`). Such a key reads as expanded
  until its first toggle, which stores `false`
  (`InheritedKeyStartsExpanded`).
- Icons: the icon slot exists only for a non-empty icon name, because the
  source tests the name for truthiness. Looking the name up in the icon
  library is not modelled.
- Effects: browser side effects are returned as values. `Action` is what an
  item's click handler does, and `Effect` is the request made to the browser
  or the router.

Behaviours of the code that the model keeps:

- A visible internal route with neither `path` nor `url` is still drawn, and
  its click asks the router to navigate to an undefined path
  (`RouteWithoutTargetIsStillDrawn`).
- An empty child object makes a route a group: it draws an expander, and a
  click toggles it (`EmptyChildrenStillMakeAGroup`).
- The children of a collapsed group are computed, inside a `Collapse` with
  `unmountOnExit`, but they are not shown. The model emits only the entries
  that are shown.

## Model

| member | source | states |
|---|---|---|
| `Routes.Visible` | frontend/src/components/Layout.js:77-91 | a route is shown exactly when it is frontendVisible and either external, or the role is admin, or the role is in its roles |
| `Routes.IsExternalLink` | frontend/src/components/Layout.js:77 | a route takes the external-link branch only when it is both external and frontendVisible; an external route without frontendVisible does not |
| `Routes.RoleAdmits` | frontend/src/components/Layout.js:91 | without frontendVisible no role passes the gate; with it the admin always passes, and any other role passes exactly when it is in roles |
| `Routes.HasChildren` | frontend/src/components/Layout.js:73 | a route is a group exactly when it has a children object, an empty one included |
| `Routes.ToUpper` | frontend/src/components/Layout.js:74 | an ASCII lower-case letter becomes the same upper-case letter; every other character is unchanged; the result is never lower case |
| `Routes.MenuText` | frontend/src/components/Layout.js:74 | the label has the key's length, its first character is the upper-cased first character of the key, and the rest is unchanged; an empty key gives an empty label |
| `Routes.IconSlot` | frontend/src/components/Layout.js:95 | an icon slot is drawn exactly when the icon name is present and non-empty, and it carries that name |
| `Routes.ClickAction` | frontend/src/components/Layout.js:82-94 | a click opens the url exactly for a frontend-visible external route, toggles the route's key exactly for a non-external route with children, and otherwise navigates to its path |
| `Expansion.IsOpen` | frontend/src/components/Layout.js:97-100 | a stored key reads as its stored flag; a missing key reads as collapsed unless it names an Object.prototype member, which reads as expanded |
| `Expansion.Toggled` | frontend/src/components/Layout.js:30-35 | a toggle stores the negation of the key's current reading, adds the key, and keeps every other entry |
| `Expansion.FirstToggleOpens` | frontend/src/components/Layout.js:33 | the first toggle of an ordinary key that was never set expands it |
| `Expansion.FirstToggleOfInheritedCloses` | frontend/src/components/Layout.js:33 | the first toggle of a never-set key that names an Object.prototype member stores false and collapses it |
| `Expansion.ToggleFrame` | frontend/src/components/Layout.js:31-34 | a toggle leaves the flag of every other key unchanged |
| `Expansion.ToggleTwiceRestores` | frontend/src/components/Layout.js:33 | toggling the same key twice restores every flag |
| `Menu.EntryOf` | frontend/src/components/Layout.js:72-97 | a shown route's item carries its key, its label, its depth, its icon slot and its click action; it has an expander exactly when it is an internal route with children, and the expander shows the key's flag |
| `Menu.RenderRoute` | frontend/src/components/Layout.js:71-109 | a route yields entries exactly when it is visible; the first is its own item; every later entry is nested deeper; it never yields more entries than its subtree has routes |
| `Menu.RenderMenuItems` | frontend/src/components/Layout.js:70-110 | no entry of a mapping is shallower than the mapping's depth, and there are never more entries than routes |
| `MenuProperties.HiddenRouteEmitsNothing` | frontend/src/components/Layout.js:91-109 | a hidden route contributes no entry at all, whatever its descendants are |
| `MenuProperties.NotFrontendVisibleNeverEmitted` | frontend/src/components/Layout.js:77-91 | a route without frontendVisible is never emitted, for any role and whether external or not |
| `MenuProperties.ExternalLinkIsOneEntry` | frontend/src/components/Layout.js:77-89 | a frontend-visible external route gives exactly one entry for every role; its click opens its url, it has no expander, and its children are not walked |
| `MenuProperties.InternalRouteGate` | frontend/src/components/Layout.js:91 | a non-external route is emitted exactly when it is frontendVisible and the role is admin or in its roles |
| `MenuProperties.CollapsedRouteIsOneEntry` | frontend/src/components/Layout.js:99-105 | a shown internal route that is a leaf, or whose key reads as collapsed in openMenu, yields only its own entry |
| `MenuProperties.ExpandedGroupShowsChildren` | frontend/src/components/Layout.js:93-106 | an expanded group's entry is immediately followed by its children's entries, and the entries one level down are exactly its visible children, in mapping order |
| `MenuProperties.EmptyChildrenStillMakeAGroup` | frontend/src/components/Layout.js:73 | an empty child object still gives an expander, and a click toggles instead of navigating |
| `MenuProperties.SameKeySharesFlag` | frontend/src/components/Layout.js:97-100 | two groups with the same key read the same flag, and one toggle flips both |
| `MenuProperties.LevelOfRender` | frontend/src/components/Layout.js:70-109 | the entries at the walker's own depth are exactly the items of the visible routes of the mapping, in mapping order |
| `MenuProperties.VisibleKeysInOrder` | frontend/src/components/Layout.js:70 | the keys of the visible routes are a subsequence of the mapping's keys |
| `MenuProperties.LevelKeysFollowMapping` | frontend/src/components/Layout.js:70 | at each level, the keys shown are a subsequence of the mapping's keys in the order Object.keys yields |
| `MenuProperties.RouteSound` | frontend/src/components/Layout.js:91-105 | every entry of a route's block is the item of a route reached through visible, expanded, internal ancestors, at that route's depth |
| `MenuProperties.RouteComplete` | frontend/src/components/Layout.js:91-105 | every route reached through visible, expanded, internal ancestors has its item in the block |
| `MenuProperties.MenuSound` | frontend/src/components/Layout.js:70-109 | every entry of the menu is the item of a reachable route at the depth given by its chain of ancestors |
| `MenuProperties.MenuComplete` | frontend/src/components/Layout.js:70-109 | every reachable route's item is in the menu |
| `MenuProperties.RenderedExactly` | frontend/src/components/Layout.js:70-109 | an entry is in the menu if and only if it is the item of a route reached through visible, expanded, internal ancestors |
| `MenuProperties.ReachedRouteIsVisible` | frontend/src/components/Layout.js:77-91 | every reached route passes the visibility rule; with the above, no entry belongs to a hidden route or lies below one |
| `MenuProperties.AdminSeesSupersetRoute` | frontend/src/components/Layout.js:91 | for one route, any viewer's entries are a subsequence of the admin's entries |
| `MenuProperties.AdminSeesSuperset` | frontend/src/components/Layout.js:91 | any viewer's menu is a subsequence of the admin's menu over the same openMenu |
| `MenuProperties.RouteDependsOnFlags` | frontend/src/components/Layout.js:97-100 | the entries of a route depend on openMenu only through the flags it reads |
| `MenuProperties.MenuDependsOnFlags` | frontend/src/components/Layout.js:97-100 | two openMenu dictionaries with the same flags give the same menu |
| `MenuProperties.ToggleTwiceSameMenu` | frontend/src/components/Layout.js:30-35 | toggling one key twice gives back exactly the same menu |
| `LayoutComponent.Layout.constructor` | frontend/src/components/Layout.js:26 | a fresh layout starts with an empty openMenu, in which exactly the keys naming Object.prototype members read as expanded |
| `LayoutComponent.Layout.HandleToggleMenu` | frontend/src/components/Layout.js:30-35 | openMenu becomes its toggled value: the key's flag is negated and every other flag is kept |
| `LayoutComponent.Layout.MenuItems` | frontend/src/components/Layout.js:61 | a configuration that is not an object gives no entries; otherwise the top level of the drawer is exactly the visible top-level routes in configuration order |
| `LayoutComponent.Layout.Click` | frontend/src/components/Layout.js:82-94 | an external click opens the url in a new tab, a group click toggles its key and does not navigate, and a leaf click navigates to its path; only a toggle changes openMenu |
| `Scenarios.ViewerSeesOnlyReports` | frontend/src/components/Layout.js:91-105 | a viewer sees the reports group alone, whether it is expanded or not, because sales requires admin |
| `Scenarios.AdminSeesReportsThenSales` | frontend/src/components/Layout.js:91-105 | the admin with reports expanded sees reports and then sales, one level deeper |
| `Scenarios.AdminCollapsedSeesReports` | frontend/src/components/Layout.js:97-100 | with an empty openMenu, the admin sees the collapsed reports group alone |
| `Scenarios.UnloggedSeesExternalLink` | frontend/src/components/Layout.js:77-89 | an unlogged viewer gets the external link as one entry, whose click opens its url |
| `Scenarios.InheritedKeyStartsExpanded` | frontend/src/components/Layout.js:97-102 | a group keyed constructor shows its children on a fresh openMenu, and after one toggle shows only itself |
| `Scenarios.RouteWithoutTargetIsStillDrawn` | frontend/src/components/Layout.js:91-94 | a visible internal route with no path and no url is drawn, its click navigates to an undefined path, and its sibling is drawn as usual |

## Left out

- `Routes.ToUpper`: it upper-cases only ASCII `a`–`z`. JavaScript's `toUpperCase` maps other letters too, and some of them become two characters (`ß` becomes `SS`). For such keys the real label is longer than the key, so `MenuText`'s length guarantee holds only under this ASCII rule.
- `Routes.MenuText`: JavaScript strings are UTF-16 code units, while the model's `char` is a Unicode scalar value. For a key whose first character lies outside the Basic Multilingual Plane, `charAt(0)` takes half of it.
- The cookie written from `localStorage`'s token on every walk (Layout.js:63-68) and the logout handler (Layout.js:53-58) are left out: they are browser storage side effects.
- The icon registry lookup `DynamicIcon` (Layout.js:14-20) is left out: it is a foreign library. Only the presence of the icon slot is modelled.
- The sidebar collapse state `isCollapsed` is left out. It hides item labels and sets widths (Layout.js:24, 37-39, 86, 96, 120, 167-176), which is presentation only.
- The profile dropdown and its `anchorEl` state (Layout.js:45-51, 138-160) are left out: they are markup outside the menu.
- React element keys, MUI components and styling are left out. The nested `List`/`Collapse` markup is flattened into a sequence of entries with depths.
- The router's `navigate` and `window.open` are left out as effects. They are returned as `Effect` values. The router's behaviour is not part of this model.
- A route whose value in the mapping is not an object is left out: the source throws on it. Children that are a non-object property are modelled as `Absent`. Array children, whose keys would be `"0"`, `"1"` and so on, are left out.
- The Express handler `backend/routes/itemsRoutes.js` is left out. It runs one SQL query through a connection pool behind a role middleware that is not shown, so it is asynchronous I/O with no logic of its own to state.
