/** The navigation sidebar: a fixed menu and the rule that highlights the current item. */
module AppSidebar {
  import opened Strings

  datatype MenuItem = MenuItem(href: string, title: string)

  const MenuItems: seq<MenuItem> := [
    MenuItem("/dashboard", "Dashboard"),
    MenuItem("/projects", "Projects"),
    MenuItem("/analytics", "Analytics"),
    MenuItem("/team", "Team"),
    MenuItem("/settings", "Settings")
  ]

  /** `pathname.startsWith(href) && (href.length > 1 ? pathname.startsWith(href) : pathname === href)`. */
  predicate IsActive(path: string, href: string)
  {
    StartsWith(path, href) && (if |href| > 1 then StartsWith(path, href) else path == href)
  }

  /** A longer href is active exactly on the paths that start with it; a one-character href only on itself. */
  lemma ActiveByPrefix(path: string, href: string)
    ensures |href| > 1 ==> (IsActive(path, href) <==> StartsWith(path, href))
    ensures |href| <= 1 ==> (IsActive(path, href) <==> path == href)
  {
    if path == href {
      assert path[..|href|] == path;
    }
  }

  /** The prefix is a string prefix, not a path segment: a detail page and a longer word both match. */
  lemma PrefixIsNotSegmentAware()
    ensures IsActive("/projects/p1", MenuItems[1].href)
    ensures IsActive("/teamwork", MenuItems[3].href)
    ensures !IsActive("/dashboard", MenuItems[1].href)
  {
    assert "/projects/p1"[..9] == "/projects";
    assert "/teamwork"[..5] == "/team";
    assert "/dashboard"[..9] != "/projects" by {
      assert "/dashboard"[1] != "/projects"[1];
    }
  }

  /** No menu href is a prefix of another, so at most one item is active on any path. */
  lemma AtMostOneActive(path: string, i: nat, j: nat)
    requires i < |MenuItems| && j < |MenuItems|
    requires IsActive(path, MenuItems[i].href) && IsActive(path, MenuItems[j].href)
    ensures i == j
  {
    var a, b := MenuItems[i].href, MenuItems[j].href;
    assert a[1] == path[..|a|][1] == path[1] == path[..|b|][1] == b[1];
    assert MenuItems[0].href[1] == 'd' && MenuItems[1].href[1] == 'p' && MenuItems[2].href[1] == 'a';
    assert MenuItems[3].href[1] == 't' && MenuItems[4].href[1] == 's';
    assert i == 0 || i == 1 || i == 2 || i == 3 || i == 4;
    assert j == 0 || j == 1 || j == 2 || j == 3 || j == 4;
  }
}
