/** Concrete route trees and what the walker makes of them. */
module Scenarios {
  import opened Wrappers
  import opened Routes
  import opened Expansion
  import opened Menu

  const Sales: Node := Node("sales", Some("/reports/sales"), None, None, ["admin"], true, false, Absent)
  const Reports: Node := Node("reports", None, None, Some("Assessment"), ["viewer", "admin"], true, false, Present([Sales]))

  /** A viewer sees the reports group only; sales needs the admin, expanded or not. */
  lemma ViewerSeesOnlyReports(openMenu: OpenMenu)
    ensures RenderMenuItems([Reports], "viewer", openMenu, 0) == [EntryOf(Reports, openMenu, 0)]
    ensures EntryOf(Reports, openMenu, 0).text == "Reports"
  {
    assert !Visible(Sales, "viewer") by {
      assert "viewer" != Admin && "viewer" !in Sales.roles;
    }
    assert RenderMenuItems([Sales], "viewer", openMenu, 1) == [] by {
      assert [Sales][1..] == [];
    }
    assert RenderRoute(Reports, "viewer", openMenu, 0) == [EntryOf(Reports, openMenu, 0)];
    assert [Reports][1..] == [];
  }

  /** The admin with reports expanded sees reports, then sales one level down. */
  lemma AdminSeesReportsThenSales(openMenu: OpenMenu)
    requires IsOpen(openMenu, "reports")
    ensures RenderMenuItems([Reports], Admin, openMenu, 0) ==
            [EntryOf(Reports, openMenu, 0), EntryOf(Sales, openMenu, 1)]
    ensures EntryOf(Sales, openMenu, 1).onClick == Navigate(Some("/reports/sales"))
    ensures EntryOf(Reports, openMenu, 0).onClick == ToggleMenu("reports")
  {
    assert [Sales][1..] == [] && [Reports][1..] == [];
    assert RenderMenuItems([Sales], Admin, openMenu, 1) == [EntryOf(Sales, openMenu, 1)];
    assert RenderRoute(Reports, Admin, openMenu, 0) == [EntryOf(Reports, openMenu, 0), EntryOf(Sales, openMenu, 1)];
  }

  /** The admin with reports collapsed sees the group alone. */
  lemma AdminCollapsedSeesReports()
    ensures RenderMenuItems([Reports], Admin, map[], 0) == [EntryOf(Reports, map[], 0)]
    ensures EntryOf(Reports, map[], 0).expander == Some(false)
  {
  }

  const Docs: Node := Node("docs", None, Some("https://x"), None, [], true, true, Present([Sales]))

  /** An unlogged viewer still gets the external link, and its click opens the URL. */
  lemma UnloggedSeesExternalLink()
    ensures RenderMenuItems([Docs], "unlogged", map["docs" := true], 0) == [EntryOf(Docs, map["docs" := true], 0)]
    ensures EntryOf(Docs, map["docs" := true], 0).onClick == OpenUrl(Some("https://x"))
  {
  }

  const Orphan: Node := Node("orphan", None, None, None, ["viewer"], true, false, Absent)
  const Home: Node := Node("home", Some("/"), None, Some("Home"), ["viewer"], true, false, Absent)

  /**
   * A visible internal route with neither path nor url is still drawn; its
   * click asks the router to go to an undefined path. Its sibling is drawn
   * as usual.
   */
  lemma RouteWithoutTargetIsStillDrawn()
    ensures RenderMenuItems([Orphan, Home], "viewer", map[], 0) ==
            [EntryOf(Orphan, map[], 0), EntryOf(Home, map[], 0)]
    ensures EntryOf(Orphan, map[], 0).onClick == Navigate(None)
  {
  }

  const Constructor: Node := Node("constructor", None, None, None, ["viewer"], true, false, Present([Home]))

  /**
   * A group whose key names a prototype member reads as expanded on a fresh
   * dictionary, so its children show at once; its first toggle collapses it.
   */
  lemma InheritedKeyStartsExpanded()
    ensures RenderMenuItems([Constructor], "viewer", map[], 0) ==
            [EntryOf(Constructor, map[], 0), EntryOf(Home, map[], 1)]
    ensures RenderMenuItems([Constructor], "viewer", Toggled(map[], "constructor"), 0) ==
            [EntryOf(Constructor, Toggled(map[], "constructor"), 0)]
  {
    assert "constructor" in Inherited;
    assert [Home][1..] == [] && [Constructor][1..] == [];
    assert RenderMenuItems([Home], "viewer", map[], 1) == [EntryOf(Home, map[], 1)];
    assert RenderRoute(Constructor, "viewer", map[], 0) == [EntryOf(Constructor, map[], 0), EntryOf(Home, map[], 1)];
  }
}
