/**
 * The `Layout` component's menu state and event handlers: the `openMenu`
 * dictionary, `handleToggleMenu`, the drawer's call of the walker on the
 * configured routes, and the dispatch of a list item's click.
 */
module LayoutComponent {
  import opened Wrappers
  import opened Routes
  import opened Expansion
  import opened Menu
  import opened MenuProperties

  /** What a click asks the browser or the router to do, as a value. */
  datatype Effect = OpenWindow(url: Option<string>, target: string) | RouterNavigate(path: Option<string>) | NoEffect

  /** The browsing-context name an external link is opened in: a new tab. */
  const NewTab: string := "_blank"

  class Layout {
    /** Which route keys are expanded; a key that was never toggled is absent. */
    var openMenu: OpenMenu

    /**
     * A freshly mounted layout starts with an empty dictionary: every group
     * is collapsed except one whose key names a prototype member.
     */
    constructor ()
      ensures openMenu == map[]
      ensures forall k :: IsOpen(openMenu, k) <==> k in Inherited
    {
      openMenu := map[];
    }

    /** `handleToggleMenu`: flips the flag of one key and leaves the others alone. */
    method HandleToggleMenu(menuKey: string)
      modifies this
      ensures openMenu == Toggled(old(openMenu), menuKey)
      ensures IsOpen(openMenu, menuKey) == !IsOpen(old(openMenu), menuKey)
      ensures forall k :: k != menuKey ==> IsOpen(openMenu, k) == IsOpen(old(openMenu), k)
    {
      openMenu := openMenu[menuKey := !IsOpen(openMenu, menuKey)];
    }

    /**
     * The drawer's menu for the configured routes: nothing when the
     * configuration is not an object; otherwise the top level of the menu is
     * exactly the visible top-level routes, in configuration order.
     */
    function MenuItems(routes: Option<seq<Node>>, role: string): (r: seq<Entry>)
      reads this
      ensures routes.None? ==> r == []
      ensures routes.Some? ==> Level(r, 0) == EntriesOf(VisibleAmong(routes.value, role), openMenu, 0)
    {
      if routes.None? then []
      else
        LevelOfRender(routes.value, role, openMenu, 0);
        RenderMenuItems(routes.value, role, openMenu, 0)
    }

    /**
     * A click on a list item: an external link opens a new tab, a group
     * toggles its key without navigating, and a leaf asks the router to go
     * to its path. Only a toggle changes the menu state.
     */
    method Click(action: Action) returns (effect: Effect)
      modifies this
      ensures action.OpenUrl? ==> effect == OpenWindow(action.url, NewTab) && openMenu == old(openMenu)
      ensures action.ToggleMenu? ==> effect == NoEffect && openMenu == Toggled(old(openMenu), action.menuKey)
      ensures action.Navigate? ==> effect == RouterNavigate(action.path) && openMenu == old(openMenu)
    {
      match action
      case OpenUrl(url) =>
        effect := OpenWindow(url, NewTab);
      case ToggleMenu(menuKey) =>
        HandleToggleMenu(menuKey);
        effect := NoEffect;
      case Navigate(path) =>
        effect := RouterNavigate(path);
    }
  }
}
