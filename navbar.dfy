/**
 * The navigation bar: two links, each highlighted when the current path is
 * its own, or lies under it for any link but the home page. The path comes
 * from the router and may be missing; it is a parameter.
 */
module Navbar {
  import opened Wrappers
  import opened Text

  datatype NavLink = NavLink(href: string, text: string)

  const Links: seq<NavLink> := [NavLink("/", "Inicio"), NavLink("/dashboard", "Dashboard")]

  /** `pathname === href || (href !== "/" && pathname?.startsWith(href))`. */
  predicate IsActive(pathname: Option<string>, href: string) {
    match pathname
    case None => false
    case Some(p) => p == href || (href != "/" && StartsWith(p, href))
  }

  /**
   * Which of the links is highlighted, in the order they are drawn. What this
   * means for each link is stated by `HomeExact`, `DashboardPrefix` and
   * `AtMostOneActive` below.
   */
  function ActiveFlags(pathname: Option<string>): (r: seq<bool>)
    ensures |r| == |Links|
    ensures forall i :: 0 <= i < |r| ==> (r[i] <==> IsActive(pathname, Links[i].href))
  {
    seq(|Links|, i requires 0 <= i < |Links| => IsActive(pathname, Links[i].href))
  }

  // --------------------------------------------------------------- properties

  /** The home link is highlighted on the home page only. */
  lemma HomeExact(pathname: Option<string>)
    ensures ActiveFlags(pathname)[0] <==> pathname == Some("/")
  {
  }

  /** The dashboard link is highlighted on every path that begins with "/dashboard". */
  lemma DashboardPrefix(p: string)
    ensures ActiveFlags(Some(p))[1] <==> StartsWith(p, "/dashboard")
  {
  }

  /** A link is highlighted on its own path. */
  lemma OwnPathActive(href: string)
    ensures IsActive(Some(href), href)
  {
  }

  /** At most one link is highlighted, and none without a path. */
  lemma AtMostOneActive(pathname: Option<string>)
    ensures !(ActiveFlags(pathname)[0] && ActiveFlags(pathname)[1])
    ensures pathname.None? ==> forall i :: 0 <= i < |Links| ==> !ActiveFlags(pathname)[i]
  {
    if pathname == Some("/") {
      assert !StartsWith("/", "/dashboard");
    }
  }

  /**
   * The prefix test reads characters, not path segments: "/dashboards" also
   * highlights the dashboard link.
   */
  lemma PrefixNotSegment()
    ensures ActiveFlags(Some("/dashboards")) == [false, true]
  {
    assert "/dashboards"[..|"/dashboard"|] == "/dashboard";
  }
}
