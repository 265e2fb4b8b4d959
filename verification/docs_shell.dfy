/**
 * The documentation page shell: the fixed top navigation, the sidebar
 * sections, the flattened mobile navigation and the search placeholder.
 */
module DocsShell {
  import opened Wrappers

  /** `{ label, href, active? }` */
  datatype Item = Item(caption: string, href: string, active: Option<bool>)

  /** `{ title, items }` */
  datatype Section = Section(title: string, items: seq<Item>)

  datatype NavLink = NavLink(caption: string, href: string)

  /** The three top navigation links, in order. */
  const NavLinks: seq<NavLink> := [NavLink("Inicio", "/"), NavLink("Patrones", "/patterns"), NavLink("Estructuras", "/data-structures")]

  /** The top navigation renders the fixed links in order, each with its own target. */
  lemma TopNavFixed()
    ensures |NavLinks| == 3
    ensures forall i, j :: 0 <= i < j < |NavLinks| ==> NavLinks[i].href != NavLinks[j].href
  {
  }

  /** `searchPlaceholder = "Buscar…"` */
  function SearchPlaceholder(given: Option<string>): string {
    given.GetOr("Buscar…")
  }

  /** The number of items over all sections. */
  function TotalItems(sidebar: seq<Section>): nat {
    if |sidebar| == 0 then 0 else |sidebar[0].items| + TotalItems(sidebar[1..])
  }

  /** `sidebar.flatMap(section => section.items)` */
  function FlatMobileNav(sidebar: seq<Section>): (r: seq<Item>)
    ensures |r| == TotalItems(sidebar)
    ensures forall x :: x in r ==> exists k :: 0 <= k < |sidebar| && x in sidebar[k].items
  {
    if |sidebar| == 0 then []
    else
      var rest := FlatMobileNav(sidebar[1..]);
      assert forall k :: 1 <= k < |sidebar| ==> sidebar[k] == sidebar[1..][k - 1];
      sidebar[0].items + rest
  }

  /** Flattening distributes over concatenation of section lists. */
  lemma {:induction false} FlatAppend(a: seq<Section>, b: seq<Section>)
    ensures FlatMobileNav(a + b) == FlatMobileNav(a) + FlatMobileNav(b)
    ensures TotalItems(a + b) == TotalItems(a) + TotalItems(b)
    decreases |a|
  {
    if |a| == 0 {
      assert a + b == b;
    } else {
      assert (a + b)[0] == a[0];
      assert (a + b)[1..] == a[1..] + b;
      FlatAppend(a[1..], b);
    }
  }

  /** In-order concatenation: item `j` of section `k` sits after all items of the sections before it. */
  lemma FlatPosition(sidebar: seq<Section>, k: nat, j: nat)
    requires k < |sidebar| && j < |sidebar[k].items|
    ensures TotalItems(sidebar[..k]) + j < |FlatMobileNav(sidebar)|
    ensures FlatMobileNav(sidebar)[TotalItems(sidebar[..k]) + j] == sidebar[k].items[j]
  {
    assert sidebar == sidebar[..k] + sidebar[k..];
    FlatAppend(sidebar[..k], sidebar[k..]);
    assert sidebar[k..][0] == sidebar[k];
  }

  /** `aria-current={item.active ? "page" : undefined}` */
  function AriaCurrent(item: Item): Option<string> {
    if item.active == Some(true) then Some("page") else None
  }

  datatype LinkView = LinkView(caption: string, href: string, ariaCurrent: Option<string>)

  datatype SectionView = SectionView(title: string, links: seq<LinkView>)

  /** The sidebar: every section in order, every item in order, marked current exactly when active. */
  function RenderSidebar(sidebar: seq<Section>): (v: seq<SectionView>)
    ensures |v| == |sidebar|
    ensures forall k :: 0 <= k < |sidebar| ==>
      && v[k].title == sidebar[k].title
      && |v[k].links| == |sidebar[k].items|
      && forall j :: 0 <= j < |sidebar[k].items| ==>
           && v[k].links[j].caption == sidebar[k].items[j].caption
           && v[k].links[j].href == sidebar[k].items[j].href
           && (v[k].links[j].ariaCurrent.Some? <==> sidebar[k].items[j].active == Some(true))
           && (v[k].links[j].ariaCurrent.Some? ==> v[k].links[j].ariaCurrent == Some("page"))
  {
    seq(|sidebar|, k requires 0 <= k < |sidebar| =>
      SectionView(sidebar[k].title,
        seq(|sidebar[k].items|, j requires 0 <= j < |sidebar[k].items| =>
          var item := sidebar[k].items[j];
          LinkView(item.caption, item.href, AriaCurrent(item)))))
  }

  datatype ShellView = ShellView(
    title: string, subtitle: string, nav: seq<NavLink>, placeholder: string,
    sidebar: seq<SectionView>, mobileNav: seq<NavLink>)

  /** `DocsShell`: header, fixed navigation, search placeholder, sidebar and the flattened mobile links. */
  function RenderShell(title: string, subtitle: string, placeholder: Option<string>, sidebar: seq<Section>): (v: ShellView)
    ensures v.nav == NavLinks
    ensures placeholder.None? ==> v.placeholder == "Buscar…"
    ensures placeholder.Some? ==> v.placeholder == placeholder.value
    ensures v.sidebar == RenderSidebar(sidebar)
    ensures |v.mobileNav| == TotalItems(sidebar)
    ensures forall i :: 0 <= i < |v.mobileNav| ==>
      v.mobileNav[i] == NavLink(FlatMobileNav(sidebar)[i].caption, FlatMobileNav(sidebar)[i].href)
  {
    var flat := FlatMobileNav(sidebar);
    ShellView(title, subtitle, NavLinks, SearchPlaceholder(placeholder), RenderSidebar(sidebar),
              seq(|flat|, i requires 0 <= i < |flat| => NavLink(flat[i].caption, flat[i].href)))
  }
}
