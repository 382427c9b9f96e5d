/**
 * What the sidebar walker guarantees: which routes appear, at what depth and
 * in what order; that hidden routes hide their whole subtree; how expansion
 * and the viewer's role affect the menu; and what a click on an entry does.
 */
module MenuProperties {
  import opened Wrappers
  import opened Routes
  import opened Expansion
  import opened Menu
  import opened Subsequences

  // ---------------------------------------------------------------------
  // Single routes
  // ---------------------------------------------------------------------

  /**
   * No visibility promotion: a hidden route contributes no entry at all,
   * whatever its descendants' roles and flags.
   */
  lemma HiddenRouteEmitsNothing(n: Node, role: string, openMenu: OpenMenu, depth: nat)
    requires !Visible(n, role)
    ensures RenderRoute(n, role, openMenu, depth) == []
  {
  }

  /** A route without `frontendVisible` is never emitted, external or not. */
  lemma NotFrontendVisibleNeverEmitted(n: Node, role: string, openMenu: OpenMenu, depth: nat)
    requires !n.frontendVisible
    ensures RenderRoute(n, role, openMenu, depth) == []
  {
  }

  /**
   * A frontend-visible external link is shown to every role as exactly one
   * entry that opens its URL; its children are never walked.
   */
  lemma ExternalLinkIsOneEntry(n: Node, role: string, openMenu: OpenMenu, depth: nat)
    requires IsExternalLink(n)
    ensures RenderRoute(n, role, openMenu, depth) == [EntryOf(n, openMenu, depth)]
    ensures EntryOf(n, openMenu, depth).onClick == OpenUrl(n.url)
    ensures EntryOf(n, openMenu, depth).expander == None
  {
  }

  /**
   * An internal route is emitted exactly when it is frontend-visible and the
   * viewer is the admin or holds one of its roles.
   */
  lemma InternalRouteGate(n: Node, role: string, openMenu: OpenMenu, depth: nat)
    requires !IsExternalLink(n)
    ensures RenderRoute(n, role, openMenu, depth) != [] <==>
            n.frontendVisible && (role == Admin || role in n.roles)
  {
  }

  /**
   * A shown internal route that is not expanded (a leaf, or a group whose
   * key reads as collapsed: stored as false, or missing and not in
   * `Inherited`) yields only its own entry.
   */
  lemma CollapsedRouteIsOneEntry(n: Node, role: string, openMenu: OpenMenu, depth: nat)
    requires Visible(n, role) && !IsExternalLink(n)
    requires !IsOpen(openMenu, n.key) || !HasChildren(n)
    ensures RenderRoute(n, role, openMenu, depth) == [EntryOf(n, openMenu, depth)]
  {
  }

  /**
   * An expanded group: its entry comes immediately before the entries of
   * its children, and the entries one level down are exactly those of its
   * visible children, in mapping order.
   */
  lemma ExpandedGroupShowsChildren(n: Node, role: string, openMenu: OpenMenu, depth: nat)
    requires Visible(n, role) && !IsExternalLink(n) && HasChildren(n) && IsOpen(openMenu, n.key)
    ensures RenderRoute(n, role, openMenu, depth)[0] == EntryOf(n, openMenu, depth)
    ensures RenderRoute(n, role, openMenu, depth)[1..] ==
            RenderMenuItems(n.children.routes, role, openMenu, depth + 1)
    ensures Level(RenderRoute(n, role, openMenu, depth)[1..], depth + 1) ==
            EntriesOf(VisibleAmong(n.children.routes, role), openMenu, depth + 1)
  {
    LevelOfRender(n.children.routes, role, openMenu, depth + 1);
  }

  /**
   * Any child object, the empty one included, makes an internal route a
   * group: it draws an expander and a click toggles it instead of
   * navigating.
   */
  lemma EmptyChildrenStillMakeAGroup(n: Node, openMenu: OpenMenu, depth: nat)
    requires !IsExternalLink(n) && n.children == Present([])
    ensures EntryOf(n, openMenu, depth).expander == Some(IsOpen(openMenu, n.key))
    ensures EntryOf(n, openMenu, depth).onClick == ToggleMenu(n.key)
  {
  }

  /**
   * Expansion flags are keyed by the bare route key: two groups with the
   * same key anywhere in the tree read the same flag, and one toggle flips
   * both.
   */
  lemma SameKeySharesFlag(a: Node, b: Node, openMenu: OpenMenu, da: nat, db: nat)
    requires a.key == b.key
    requires !IsExternalLink(a) && HasChildren(a) && !IsExternalLink(b) && HasChildren(b)
    ensures EntryOf(a, openMenu, da).expander == EntryOf(b, openMenu, db).expander
    ensures EntryOf(a, Toggled(openMenu, a.key), da).expander == Some(!IsOpen(openMenu, b.key))
    ensures EntryOf(b, Toggled(openMenu, a.key), db).expander == Some(!IsOpen(openMenu, b.key))
  {
  }

  // ---------------------------------------------------------------------
  // One level of the menu: which routes, in which order
  // ---------------------------------------------------------------------

  /** The entries at exactly one depth, in order. */
  function Level(entries: seq<Entry>, depth: nat): (r: seq<Entry>)
    ensures forall j :: 0 <= j < |r| ==> r[j].depth == depth
    ensures IsSubseq(r, entries)
    decreases entries
  {
    if entries == [] then []
    else if entries[0].depth == depth then [entries[0]] + Level(entries[1..], depth)
    else Level(entries[1..], depth)
  }

  /** The routes of one mapping that the viewer may see, in mapping order. */
  function VisibleAmong(routes: seq<Node>, role: string): (r: seq<Node>)
    ensures forall j :: 0 <= j < |r| ==> Visible(r[j], role)
    ensures IsSubseq(r, routes)
    decreases routes
  {
    if routes == [] then []
    else if Visible(routes[0], role) then [routes[0]] + VisibleAmong(routes[1..], role)
    else VisibleAmong(routes[1..], role)
  }

  /** The list items of some routes, all drawn at one depth. */
  function EntriesOf(routes: seq<Node>, openMenu: OpenMenu, depth: nat): (r: seq<Entry>)
    ensures |r| == |routes|
    ensures forall j :: 0 <= j < |r| ==> r[j] == EntryOf(routes[j], openMenu, depth)
    decreases routes
  {
    if routes == [] then [] else [EntryOf(routes[0], openMenu, depth)] + EntriesOf(routes[1..], openMenu, depth)
  }

  function EntryKeys(entries: seq<Entry>): (r: seq<string>)
    ensures |r| == |entries|
    ensures forall j :: 0 <= j < |r| ==> r[j] == entries[j].key
  {
    if entries == [] then [] else [entries[0].key] + EntryKeys(entries[1..])
  }

  /**
   * The same projection as `EntryKeys`, on routes: the keys of the mapping
   * and the keys of the menu items are compared through these two.
   */
  function RouteKeys(routes: seq<Node>): (r: seq<string>)
    ensures |r| == |routes|
    ensures forall j :: 0 <= j < |r| ==> r[j] == routes[j].key
  {
    if routes == [] then [] else [routes[0].key] + RouteKeys(routes[1..])
  }

  lemma {:induction false} LevelAppend(a: seq<Entry>, b: seq<Entry>, depth: nat)
    ensures Level(a + b, depth) == Level(a, depth) + Level(b, depth)
    decreases a
  {
    if a != [] {
      assert (a + b)[0] == a[0];
      assert (a + b)[1..] == a[1..] + b;
      LevelAppend(a[1..], b, depth);
    } else {
      assert a + b == b;
    }
  }

  lemma {:induction false} LevelOfDeeper(a: seq<Entry>, depth: nat)
    requires forall j :: 0 <= j < |a| ==> a[j].depth > depth
    ensures Level(a, depth) == []
    decreases a
  {
    if a != [] {
      LevelOfDeeper(a[1..], depth);
    }
  }

  /**
   * The entries at the walker's own depth are exactly the visible routes of
   * the mapping, in mapping order; everything else it emits is nested.
   */
  lemma {:induction false} LevelOfRender(routes: seq<Node>, role: string, openMenu: OpenMenu, depth: nat)
    ensures Level(RenderMenuItems(routes, role, openMenu, depth), depth) ==
            EntriesOf(VisibleAmong(routes, role), openMenu, depth)
    decreases routes
  {
    if routes != [] {
      var head := RenderRoute(routes[0], role, openMenu, depth);
      var tail := RenderMenuItems(routes[1..], role, openMenu, depth);
      LevelAppend(head, tail, depth);
      LevelOfRender(routes[1..], role, openMenu, depth);
      if head != [] {
        assert head == [head[0]] + head[1..];
        LevelAppend([head[0]], head[1..], depth);
        LevelOfDeeper(head[1..], depth);
      }
    }
  }

  lemma {:induction false} VisibleKeysInOrder(routes: seq<Node>, role: string)
    ensures IsSubseq(RouteKeys(VisibleAmong(routes, role)), RouteKeys(routes))
    decreases routes
  {
    if routes != [] {
      VisibleKeysInOrder(routes[1..], role);
      var v := VisibleAmong(routes[1..], role);
      if Visible(routes[0], role) {
        assert RouteKeys([routes[0]] + v) == [routes[0].key] + RouteKeys(v);
      }
    }
  }

  lemma EntryKeysOf(routes: seq<Node>, openMenu: OpenMenu, depth: nat)
    ensures EntryKeys(EntriesOf(routes, openMenu, depth)) == RouteKeys(routes)
  {
  }

  /**
   * At every level the keys shown are a subsequence of the mapping's keys
   * in the order `Object.keys` yields (integer-like keys first, then the
   * others in insertion order).
   */
  lemma LevelKeysFollowMapping(routes: seq<Node>, role: string, openMenu: OpenMenu, depth: nat)
    ensures IsSubseq(EntryKeys(Level(RenderMenuItems(routes, role, openMenu, depth), depth)), RouteKeys(routes))
  {
    LevelOfRender(routes, role, openMenu, depth);
    EntryKeysOf(VisibleAmong(routes, role), openMenu, depth);
    VisibleKeysInOrder(routes, role);
  }

  // ---------------------------------------------------------------------
  // The whole tree: exactly the routes whose ancestors are shown and open
  // ---------------------------------------------------------------------

  /**
   * Following child indexes `q` from route `n` leads to route `m`, every
   * route on the way (both ends included) is visible to `role`, and every
   * route above `m` is an internal group that is expanded.
   */
  ghost predicate Reaches(n: Node, q: seq<nat>, m: Node, role: string, openMenu: OpenMenu)
    decreases |q|
  {
    Visible(n, role) &&
    if q == [] then m == n
    else !IsExternalLink(n) && HasChildren(n) && IsOpen(openMenu, n.key) &&
         q[0] < |n.children.routes| && Reaches(n.children.routes[q[0]], q[1..], m, role, openMenu)
  }

  /** `Reaches` starting from one route of a mapping; `p[0]` picks the route. */
  ghost predicate ReachesFrom(routes: seq<Node>, p: seq<nat>, m: Node, role: string, openMenu: OpenMenu)
  {
    |p| > 0 && p[0] < |routes| && Reaches(routes[p[0]], p[1..], m, role, openMenu)
  }

  /** An entry of one route's block is an entry of the mapping's menu. */
  lemma {:induction false} RouteInMenuItems(routes: seq<Node>, i: nat, role: string, openMenu: OpenMenu, depth: nat, e: Entry)
    requires i < |routes| && e in RenderRoute(routes[i], role, openMenu, depth)
    ensures e in RenderMenuItems(routes, role, openMenu, depth)
    decreases routes
  {
    assert RenderMenuItems(routes, role, openMenu, depth) ==
           RenderRoute(routes[0], role, openMenu, depth) + RenderMenuItems(routes[1..], role, openMenu, depth);
    if i > 0 {
      assert routes[1..][i - 1] == routes[i];
      RouteInMenuItems(routes[1..], i - 1, role, openMenu, depth, e);
    }
  }

  /** An entry of the mapping's menu lies in the block of one of its routes. */
  lemma {:induction false} MenuItemsFromRoute(routes: seq<Node>, role: string, openMenu: OpenMenu, depth: nat, e: Entry)
    requires e in RenderMenuItems(routes, role, openMenu, depth)
    ensures exists i :: 0 <= i < |routes| && e in RenderRoute(routes[i], role, openMenu, depth)
    decreases routes
  {
    var head := RenderRoute(routes[0], role, openMenu, depth);
    var tail := RenderMenuItems(routes[1..], role, openMenu, depth);
    assert RenderMenuItems(routes, role, openMenu, depth) == head + tail;
    if e in head {
      assert 0 < |routes| && e in RenderRoute(routes[0], role, openMenu, depth);
    } else {
      assert e in tail;
      MenuItemsFromRoute(routes[1..], role, openMenu, depth, e);
      var k :| 0 <= k < |routes[1..]| && e in RenderRoute(routes[1..][k], role, openMenu, depth);
      assert routes[1..][k] == routes[k + 1];
      assert 0 <= k + 1 < |routes| && e in RenderRoute(routes[k + 1], role, openMenu, depth);
    }
  }

  /** Extending a chain upwards by an expanded, visible internal parent. */
  lemma ReachesThroughChild(n: Node, i: nat, q: seq<nat>, m: Node, role: string, openMenu: OpenMenu)
    requires Visible(n, role) && !IsExternalLink(n) && HasChildren(n) && IsOpen(openMenu, n.key)
    requires i < |n.children.routes| && Reaches(n.children.routes[i], q, m, role, openMenu)
    ensures Reaches(n, [i] + q, m, role, openMenu)
  {
    assert ([i] + q)[1..] == q;
  }

  lemma {:induction false} RouteSound(n: Node, role: string, openMenu: OpenMenu, depth: nat, e: Entry)
    requires e in RenderRoute(n, role, openMenu, depth)
    ensures exists q, m :: Reaches(n, q, m, role, openMenu) && e.depth == depth + |q| && e == EntryOf(m, openMenu, e.depth)
    decreases n, 2
  {
    if e == EntryOf(n, openMenu, depth) {
      assert Reaches(n, [], n, role, openMenu);
    } else {
      assert !IsExternalLink(n) && HasChildren(n) && IsOpen(openMenu, n.key);
      assert e in RenderMenuItems(n.children.routes, role, openMenu, depth + 1);
      ChildrenSound(n, role, openMenu, depth, e);
    }
  }

  /** The entries below an expanded group come from chains through one of its children. */
  lemma {:induction false} ChildrenSound(n: Node, role: string, openMenu: OpenMenu, depth: nat, e: Entry)
    requires Visible(n, role) && !IsExternalLink(n) && HasChildren(n) && IsOpen(openMenu, n.key)
    requires e in RenderMenuItems(n.children.routes, role, openMenu, depth + 1)
    ensures exists q, m :: Reaches(n, q, m, role, openMenu) && e.depth == depth + |q| && e == EntryOf(m, openMenu, e.depth)
    decreases n, 1
  {
    var kids := n.children.routes;
    MenuItemsFromRoute(kids, role, openMenu, depth + 1, e);
    var i :| 0 <= i < |kids| && e in RenderRoute(kids[i], role, openMenu, depth + 1);
    ChildSound(n, i, role, openMenu, depth, e);
  }

  /** The entries of one child's block, seen from the expanded parent. */
  lemma {:induction false} ChildSound(n: Node, i: nat, role: string, openMenu: OpenMenu, depth: nat, e: Entry)
    requires Visible(n, role) && !IsExternalLink(n) && HasChildren(n) && IsOpen(openMenu, n.key)
    requires i < |n.children.routes| && e in RenderRoute(n.children.routes[i], role, openMenu, depth + 1)
    ensures exists q, m :: Reaches(n, q, m, role, openMenu) && e.depth == depth + |q| && e == EntryOf(m, openMenu, e.depth)
    decreases n, 0
  {
    var kid := n.children.routes[i];
    RouteSound(kid, role, openMenu, depth + 1, e);
    var q, m :| Reaches(kid, q, m, role, openMenu) && e.depth == depth + 1 + |q| && e == EntryOf(m, openMenu, e.depth);
    var q' := [i] + q;
    assert Reaches(n, q', m, role, openMenu) by {
      ReachesThroughChild(n, i, q, m, role, openMenu);
    }
    assert e.depth == depth + |q'|;
  }

  lemma {:induction false} RouteComplete(n: Node, q: seq<nat>, m: Node, role: string, openMenu: OpenMenu, depth: nat, e: Entry)
    requires Reaches(n, q, m, role, openMenu)
    requires e.depth == depth + |q| && e == EntryOf(m, openMenu, e.depth)
    ensures e in RenderRoute(n, role, openMenu, depth)
    decreases |q|
  {
    if q != [] {
      var kids := n.children.routes;
      assert !IsExternalLink(n) && HasChildren(n) && IsOpen(openMenu, n.key) && Visible(n, role);
      assert q[0] < |kids| && Reaches(kids[q[0]], q[1..], m, role, openMenu);
      RouteComplete(kids[q[0]], q[1..], m, role, openMenu, depth + 1, e);
      RouteInMenuItems(kids, q[0], role, openMenu, depth + 1, e);
      assert RenderRoute(n, role, openMenu, depth) ==
             [EntryOf(n, openMenu, depth)] + RenderMenuItems(kids, role, openMenu, depth + 1);
    }
  }

  /** Every entry of the menu is the item of a route reached from the mapping. */
  lemma MenuSound(routes: seq<Node>, role: string, openMenu: OpenMenu, depth: nat, e: Entry)
    requires e in RenderMenuItems(routes, role, openMenu, depth)
    ensures exists p, m :: ReachesFrom(routes, p, m, role, openMenu) && e.depth == depth + |p| - 1 &&
                           e == EntryOf(m, openMenu, e.depth)
  {
    MenuItemsFromRoute(routes, role, openMenu, depth, e);
    var i :| 0 <= i < |routes| && e in RenderRoute(routes[i], role, openMenu, depth);
    RouteSound(routes[i], role, openMenu, depth, e);
    var q, m :| Reaches(routes[i], q, m, role, openMenu) && e.depth == depth + |q| && e == EntryOf(m, openMenu, e.depth);
    assert ([i] + q)[1..] == q;
    assert ReachesFrom(routes, [i] + q, m, role, openMenu);
  }

  /** Every route reached from the mapping has its item in the menu. */
  lemma MenuComplete(routes: seq<Node>, p: seq<nat>, m: Node, role: string, openMenu: OpenMenu, depth: nat, e: Entry)
    requires ReachesFrom(routes, p, m, role, openMenu)
    requires e.depth == depth + |p| - 1 && e == EntryOf(m, openMenu, e.depth)
    ensures e in RenderMenuItems(routes, role, openMenu, depth)
  {
    RouteComplete(routes[p[0]], p[1..], m, role, openMenu, depth, e);
    RouteInMenuItems(routes, p[0], role, openMenu, depth, e);
  }

  /**
   * The menu holds an entry exactly when some route is reached through a
   * chain of visible, expanded, internal ancestors; the entry is that
   * route's item, and its depth is the length of the chain.
   */
  lemma RenderedExactly(routes: seq<Node>, role: string, openMenu: OpenMenu, depth: nat, e: Entry)
    ensures e in RenderMenuItems(routes, role, openMenu, depth) <==>
            exists p, m :: ReachesFrom(routes, p, m, role, openMenu) && e.depth == depth + |p| - 1 &&
                           e == EntryOf(m, openMenu, e.depth)
  {
    if e in RenderMenuItems(routes, role, openMenu, depth) {
      MenuSound(routes, role, openMenu, depth, e);
    }
    if exists p, m :: ReachesFrom(routes, p, m, role, openMenu) && e.depth == depth + |p| - 1 &&
                      e == EntryOf(m, openMenu, e.depth) {
      var p, m :| ReachesFrom(routes, p, m, role, openMenu) && e.depth == depth + |p| - 1 &&
                  e == EntryOf(m, openMenu, e.depth);
      MenuComplete(routes, p, m, role, openMenu, depth, e);
    }
  }

  /** Every route on a reaching chain, its end included, passes the visibility rule. */
  lemma {:induction false} ReachedRouteIsVisible(n: Node, q: seq<nat>, m: Node, role: string, openMenu: OpenMenu)
    requires Reaches(n, q, m, role, openMenu)
    ensures Visible(m, role)
    ensures m.frontendVisible && (m.external || role == Admin || role in m.roles)
    decreases |q|
  {
    if q != [] {
      ReachedRouteIsVisible(n.children.routes[q[0]], q[1..], m, role, openMenu);
    }
  }

  // ---------------------------------------------------------------------
  // The viewer's role and the expansion state
  // ---------------------------------------------------------------------

  /** The admin's menu contains every other viewer's menu, in the same order. */
  lemma {:induction false} AdminSeesSupersetRoute(n: Node, role: string, openMenu: OpenMenu, depth: nat)
    ensures IsSubseq(RenderRoute(n, role, openMenu, depth), RenderRoute(n, Admin, openMenu, depth))
    decreases n
  {
    var mine := RenderRoute(n, role, openMenu, depth);
    var admins := RenderRoute(n, Admin, openMenu, depth);
    if mine != [] && !IsExternalLink(n) {
      var e := EntryOf(n, openMenu, depth);
      if HasChildren(n) && IsOpen(openMenu, n.key) {
        AdminSeesSuperset(n.children.routes, role, openMenu, depth + 1);
        SubseqRefl([e]);
        SubseqConcat([e], [e], mine[1..], admins[1..]);
      } else {
        SubseqRefl(admins);
      }
    } else if mine != [] {
      SubseqRefl(admins);
    }
  }

  lemma {:induction false} AdminSeesSuperset(routes: seq<Node>, role: string, openMenu: OpenMenu, depth: nat)
    ensures IsSubseq(RenderMenuItems(routes, role, openMenu, depth), RenderMenuItems(routes, Admin, openMenu, depth))
    decreases routes
  {
    if routes != [] {
      AdminSeesSupersetRoute(routes[0], role, openMenu, depth);
      AdminSeesSuperset(routes[1..], role, openMenu, depth);
      SubseqConcat(RenderRoute(routes[0], role, openMenu, depth), RenderRoute(routes[0], Admin, openMenu, depth),
                   RenderMenuItems(routes[1..], role, openMenu, depth), RenderMenuItems(routes[1..], Admin, openMenu, depth));
    }
  }

  /** The walker reads the expansion state only through the flags. */
  lemma {:induction false} RouteDependsOnFlags(n: Node, role: string, m1: OpenMenu, m2: OpenMenu, depth: nat)
    requires SameFlags(m1, m2)
    ensures RenderRoute(n, role, m1, depth) == RenderRoute(n, role, m2, depth)
    decreases n
  {
    assert IsOpen(m1, n.key) == IsOpen(m2, n.key);
    if HasChildren(n) {
      MenuDependsOnFlags(n.children.routes, role, m1, m2, depth + 1);
    }
  }

  lemma {:induction false} MenuDependsOnFlags(routes: seq<Node>, role: string, m1: OpenMenu, m2: OpenMenu, depth: nat)
    requires SameFlags(m1, m2)
    ensures RenderMenuItems(routes, role, m1, depth) == RenderMenuItems(routes, role, m2, depth)
    decreases routes
  {
    if routes != [] {
      RouteDependsOnFlags(routes[0], role, m1, m2, depth);
      MenuDependsOnFlags(routes[1..], role, m1, m2, depth);
    }
  }

  /** Toggling one key twice gives back the same menu. */
  lemma ToggleTwiceSameMenu(routes: seq<Node>, role: string, openMenu: OpenMenu, key: string, depth: nat)
    ensures RenderMenuItems(routes, role, Toggled(Toggled(openMenu, key), key), depth) ==
            RenderMenuItems(routes, role, openMenu, depth)
  {
    ToggleTwiceRestores(openMenu, key);
    MenuDependsOnFlags(routes, role, Toggled(Toggled(openMenu, key), key), openMenu, depth);
  }
}
