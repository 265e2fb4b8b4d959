/** The patterns index page: its sidebar, its count and one card per pattern. */
module PatternsIndex {
  import opened Wrappers
  import opened Catalog
  import opened Patterns
  import opened DocsShell

  /** The link to a pattern's page. */
  function PatternHref(slug: string): string {
    "/patterns/" + slug
  }

  /** `tags?.slice(0, 2)`: at most the first two tags, none when there are no tags. */
  function VisibleTags(tags: Option<seq<string>>): (r: seq<string>)
    ensures |r| <= 2
    ensures tags.None? ==> r == []
    ensures tags.Some? ==> |r| == (if |tags.value| < 2 then |tags.value| else 2) && r <= tags.value
  {
    match tags
    case None => []
    case Some(t) => if |t| <= 2 then t else t[..2]
  }

  /** The sidebar: an introduction section with one item, then one catalog item per pattern, in order. */
  function Sidebar(patterns: seq<PatternSummary>): (r: seq<Section>)
    ensures |r| == 2
    ensures r[0] == Section("Introducción", [Item("¿Por qué patrones?", "#intro", None)])
    ensures r[1].title == "Catálogo" && |r[1].items| == |patterns|
    ensures forall i :: 0 <= i < |patterns| ==>
      r[1].items[i] == Item(patterns[i].frontmatter.title, PatternHref(patterns[i].slug), None)
  {
    [Section("Introducción", [Item("¿Por qué patrones?", "#intro", None)]),
     Section("Catálogo", seq(|patterns|, i requires 0 <= i < |patterns| =>
       Item(patterns[i].frontmatter.title, PatternHref(patterns[i].slug), None)))]
  }

  datatype Card = Card(category: string, title: string, summary: string, level: string, tags: seq<string>, href: string)

  /** The card of one pattern. */
  function CardOf(p: PatternSummary): (c: Card)
    ensures c.title == p.frontmatter.title && c.href == PatternHref(p.slug)
    ensures c.level == "Nivel " + p.frontmatter.level
    ensures c.tags == VisibleTags(p.frontmatter.tags)
  {
    Card(p.frontmatter.category, p.frontmatter.title, p.frontmatter.summary,
         "Nivel " + p.frontmatter.level, VisibleTags(p.frontmatter.tags), PatternHref(p.slug))
  }

  datatype Page = Page(shell: ShellView, count: nat, cards: seq<Card>)

  /** `PatternsIndex` for the given summaries. */
  function RenderPage(patterns: seq<PatternSummary>): (v: Page)
    ensures v.count == |patterns|
    ensures |v.cards| == |patterns| && forall i :: 0 <= i < |patterns| ==> v.cards[i] == CardOf(patterns[i])
    ensures v.shell.placeholder == "Buscar patrón…"
    ensures v.shell.sidebar == RenderSidebar(Sidebar(patterns))
  {
    Page(RenderShell("Patrones de Diseño", "Rutas editoriales, diagramas y snippets multi-lenguaje.",
                     Some("Buscar patrón…"), Sidebar(patterns)),
         |patterns|,
         seq(|patterns|, i requires 0 <= i < |patterns| => CardOf(patterns[i])))
  }

  /** Each card links where the sidebar's catalog item for the same pattern links, and both show its title. */
  lemma CardMatchesSidebar(patterns: seq<PatternSummary>, i: nat)
    requires i < |patterns|
    ensures RenderPage(patterns).cards[i].href == RenderPage(patterns).shell.sidebar[1].links[i].href
    ensures RenderPage(patterns).cards[i].title == RenderPage(patterns).shell.sidebar[1].links[i].caption
    ensures RenderPage(patterns).shell.sidebar[1].links[i].ariaCurrent.None?
  {
  }

  /** Distinct slugs get distinct links. */
  lemma PatternHrefInjective(a: string, b: string)
    requires PatternHref(a) == PatternHref(b)
    ensures a == b
  {
    assert a == PatternHref(a)[10..];
  }
}
