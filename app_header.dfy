/**
 * The top bar: breadcrumbs built from the URL path, the Ctrl/Cmd+K search
 * toggle, and the avatar fallback.
 */
module AppHeader {
  import opened Wrappers
  import opened Types
  import opened Strings

  /** `pathname.split('/').filter(Boolean)`. */
  function PathSegments(path: string): (segs: seq<string>)
    ensures forall k :: 0 <= k < |segs| ==> segs[k] != "" && '/' !in segs[k]
  {
    var parts := Split(path, '/');
    var segs := NonEmpty(parts);
    assert forall k :: 0 <= k < |segs| ==> segs[k] in parts;
    segs
  }

  /** The root path has no segments, so the trail is "Home" alone. */
  lemma RootHasNoSegments()
    ensures PathSegments("/") == []
    ensures PathSegments("") == []
  {
    assert Find("/", '/') == 0;
    assert "/"[1..] == "";
    assert Split("", '/') == [""];
    assert Split("/", '/') == ["", ""];
    assert NonEmpty(["", ""]) == NonEmpty([""]);
  }

  /** The parts "/a//b/" splits into. */
  lemma SplitDoubledAndTrailing(a: string, b: string)
    requires '/' !in a && '/' !in b
    ensures Split("/" + a + "//" + b + "/", '/') == ["", a, "", b, ""]
  {
    var parts := ["", a, "", b, ""];
    JoinCons(b, [""], '/');
    JoinCons("", [b, ""], '/');
    JoinCons(a, ["", b, ""], '/');
    JoinCons("", [a, "", b, ""], '/');
    assert Join(parts, '/') == "/" + a + "//" + b + "/";
    SplitJoin(parts, '/');
  }

  /** Filtering those parts keeps `a` and `b`, in order. */
  lemma FilterDoubledAndTrailing(a: string, b: string)
    requires a != "" && b != ""
    ensures NonEmpty(["", a, "", b, ""]) == [a, b]
  {
    NonEmptySingle("");
    assert NonEmpty([b, ""]) == [b] by {
      assert [b, ""][1..] == [""];
    }
    assert NonEmpty(["", b, ""]) == [b] by {
      assert ["", b, ""][1..] == [b, ""];
    }
    assert NonEmpty([a, "", b, ""]) == [a, b] by {
      assert [a, "", b, ""][1..] == ["", b, ""];
    }
    assert ["", a, "", b, ""][1..] == [a, "", b, ""];
  }

  /** Doubled and trailing slashes leave no empty segment: "/a//b/" gives ["a", "b"]. */
  lemma DoubledAndTrailingSlashes(a: string, b: string)
    requires a != "" && b != "" && '/' !in a && '/' !in b
    ensures PathSegments("/" + a + "//" + b + "/") == [a, b]
  {
    SplitDoubledAndTrailing(a, b);
    FilterDoubledAndTrailing(a, b);
  }

  /** `getLink(i)`: "/" and the first `i + 1` segments joined by "/". */
  function Link(segs: seq<string>, i: nat): string
    requires i < |segs|
  {
    "/" + Join(segs[..i + 1], '/')
  }

  /** Each crumb's link extends the previous one by "/" and the next segment, so it has that as a prefix. */
  lemma LinkExtends(segs: seq<string>, i: nat)
    requires i + 1 < |segs|
    ensures Link(segs, i + 1) == Link(segs, i) + "/" + segs[i + 1]
    ensures StartsWith(Link(segs, i + 1), Link(segs, i))
  {
    assert segs[..i + 2] == segs[..i + 1] + [segs[i + 1]];
    JoinSnoc(segs[..i + 1], segs[i + 1], '/');
    var a := Link(segs, i);
    assert (a + "/" + segs[i + 1])[..|a|] == a;
  }

  lemma {:induction false} NonEmptyKeepsNonEmpty(parts: seq<string>)
    requires forall k :: 0 <= k < |parts| ==> parts[k] != ""
    ensures NonEmpty(parts) == parts
  {
    if parts != [] {
      NonEmptyKeepsNonEmpty(parts[1..]);
    }
  }

  /**
   * For a path written canonically, "/" and its segments joined by "/",
   * the segments are read back unchanged and the last crumb links to the
   * path itself.
   */
  lemma CanonicalPathRoundTrip(segs: seq<string>)
    requires |segs| >= 1
    requires forall k :: 0 <= k < |segs| ==> segs[k] != "" && '/' !in segs[k]
    ensures PathSegments("/" + Join(segs, '/')) == segs
    ensures Link(segs, |segs| - 1) == "/" + Join(segs, '/')
  {
    SplitCanonicalPath(segs);
    NonEmptyDropsEmptyHead(segs);
    NonEmptyKeepsNonEmpty(segs);
    assert segs[..|segs|] == segs;
  }

  /** Splitting a canonical path gives an empty part for the leading "/", then the segments. */
  lemma SplitCanonicalPath(segs: seq<string>)
    requires |segs| >= 1
    requires forall k :: 0 <= k < |segs| ==> '/' !in segs[k]
    ensures Split("/" + Join(segs, '/'), '/') == [""] + segs
  {
    var parts := [""] + segs;
    JoinCons("", segs, '/');
    assert Join(parts, '/') == "/" + Join(segs, '/');
    SplitJoin(parts, '/');
  }

  /** `filter(Boolean)` drops a leading empty string. */
  lemma NonEmptyDropsEmptyHead(segs: seq<string>)
    ensures NonEmpty([""] + segs) == NonEmpty(segs)
  {
    assert ([""] + segs)[1..] == segs;
  }

  /** One breadcrumb: a link, or the current page. */
  datatype Crumb = LinkCrumb(text: string, href: string) | PageCrumb(text: string)

  /** `segment.replace(/-/g, ' ')`. */
  function Label(segment: string): (text: string)
    ensures |text| == |segment| && '-' !in text
    ensures forall i :: 0 <= i < |segment| && segment[i] != '-' ==> text[i] == segment[i]
    ensures forall i :: 0 <= i < |segment| && segment[i] == '-' ==> text[i] == ' '
  {
    ReplaceAll(segment, '-', ' ')
  }

  /** The breadcrumb trail: "Home", then one crumb per segment, the last one being the page. */
  function Breadcrumbs(path: string): (crumbs: seq<Crumb>)
    ensures |crumbs| == |PathSegments(path)| + 1
    ensures crumbs[0] == LinkCrumb("Home", "/dashboard")
    ensures forall i :: 1 <= i < |crumbs| ==> crumbs[i].text == Label(PathSegments(path)[i - 1])
    ensures forall i :: 1 <= i < |crumbs| ==> (crumbs[i].PageCrumb? <==> i == |crumbs| - 1)
    ensures forall i :: 1 <= i < |crumbs| - 1 ==> crumbs[i].href == Link(PathSegments(path), i - 1)
  {
    var segs := PathSegments(path);
    seq(|segs| + 1, i requires 0 <= i <= |segs| => CrumbAt(segs, i))
  }

  /** The crumb at position `i` of the trail: Home, a link to a prefix, or the page. */
  function CrumbAt(segs: seq<string>, i: nat): Crumb
    requires i <= |segs|
  {
    if i == 0 then LinkCrumb("Home", "/dashboard")
    else if i == |segs| then PageCrumb(Label(segs[i - 1]))
    else LinkCrumb(Label(segs[i - 1]), Link(segs, i - 1))
  }

  /** The keyboard handler's effect on `openSearch`: Ctrl+K or Cmd+K flips it. */
  function AfterKey(open: bool, key: string, metaKey: bool, ctrlKey: bool): bool
  {
    if key == "k" && (metaKey || ctrlKey) then !open else open
  }

  /** Pressing the shortcut twice restores the dialog's state; any other key leaves it. */
  lemma ShortcutTwiceRestores(open: bool, metaKey: bool, ctrlKey: bool)
    requires metaKey || ctrlKey
    ensures AfterKey(open, "k", metaKey, ctrlKey) == !open
    ensures AfterKey(AfterKey(open, "k", metaKey, ctrlKey), "k", metaKey, ctrlKey) == open
  {
  }

  /** The header's `openSearch` state. */
  class SearchToggle {
    var openSearch: bool

    constructor()
      ensures !openSearch
    {
      openSearch := false;
    }

    /** The `keydown` listener. */
    method KeyDown(key: string, metaKey: bool, ctrlKey: bool)
      modifies this
      ensures openSearch == AfterKey(old(openSearch), key, metaKey, ctrlKey)
      ensures key != "k" || !(metaKey || ctrlKey) ==> openSearch == old(openSearch)
    {
      if key == "k" && (metaKey || ctrlKey) {
        openSearch := !openSearch;
      }
    }

    /** A click on the search box. */
    method ClickSearch()
      modifies this
      ensures openSearch
    {
      openSearch := true;
    }

    /** The search dialog's `onOpenChange`. */
    method SetOpen(open: bool)
      modifies this
      ensures openSearch == open
    {
      openSearch := open;
    }
  }

  /** `user?.displayName?.charAt(0) || 'U'`. */
  function AvatarFallback(user: Option<AuthUser>): (text: string)
    ensures |text| == 1
    ensures user.Some? && Truthy(user.value.displayName) ==> text == FirstChar(user.value.displayName.value)
    ensures !(user.Some? && Truthy(user.value.displayName)) ==> text == "U"
  {
    if user.Some? && Truthy(user.value.displayName) then [user.value.displayName.value[0]] else "U"
  }
}
