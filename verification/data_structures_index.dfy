/** The data structures index page: sidebar, count and one card per structure with its Big-O table. */
module DataStructuresIndex {
  import opened Wrappers
  import opened Strings
  import opened Catalog
  import opened DataStructures
  import opened DocsShell
  import PatternsIndex

  /** The link to a data structure's page. */
  function StructureHref(slug: string): string {
    "/data-structures/" + slug
  }

  /** `operation.charAt(0).toUpperCase() + operation.slice(1)` */
  function FormatOperation(operation: string): (r: string)
    ensures |r| == |operation|
    ensures |operation| > 0 ==> r[0] == UpperChar(operation[0]) && r[1..] == operation[1..]
  {
    if |operation| == 0 then "" else [UpperChar(operation[0])] + operation[1..]
  }

  /** Formatting an operation name twice is the same as formatting it once. */
  lemma FormatOperationIdempotent(operation: string)
    ensures FormatOperation(FormatOperation(operation)) == FormatOperation(operation)
  {
  }

  /** The sidebar: an introduction section with one item, then one catalog item per structure, in order. */
  function Sidebar(structures: seq<DataStructureSummary>): (r: seq<Section>)
    ensures |r| == 2
    ensures r[0] == Section("Introducción", [Item("¿Por qué estructuras?", "#intro", None)])
    ensures r[1].title == "Catálogo" && |r[1].items| == |structures|
    ensures forall i :: 0 <= i < |structures| ==>
      r[1].items[i] == Item(structures[i].frontmatter.title, StructureHref(structures[i].slug), None)
  {
    [Section("Introducción", [Item("¿Por qué estructuras?", "#intro", None)]),
     Section("Catálogo", seq(|structures|, i requires 0 <= i < |structures| =>
       Item(structures[i].frontmatter.title, StructureHref(structures[i].slug), None)))]
  }

  /** The Big-O block: shown whenever `bigO` is present (even empty), one formatted row per operation, in order. */
  function BigOBlock(bigO: Option<seq<BigOEntry>>): (r: Option<seq<BigOEntry>>)
    ensures r.Some? <==> bigO.Some?
    ensures r.Some? ==> |r.value| == |bigO.value| && forall i :: 0 <= i < |bigO.value| ==>
      r.value[i] == BigOEntry(FormatOperation(bigO.value[i].operation), bigO.value[i].cost)
  {
    match bigO
    case None => None
    case Some(ops) => Some(seq(|ops|, i requires 0 <= i < |ops| => BigOEntry(FormatOperation(ops[i].operation), ops[i].cost)))
  }

  datatype Card = Card(kind: string, title: string, summary: string, level: string, tags: seq<string>,
                       bigO: Option<seq<BigOEntry>>, href: string)

  /** The card of one data structure. */
  function CardOf(d: DataStructureSummary): (c: Card)
    ensures c.title == d.frontmatter.title && c.href == StructureHref(d.slug)
    ensures |c.tags| <= 2 && c.tags == PatternsIndex.VisibleTags(d.frontmatter.tags)
    ensures c.bigO == BigOBlock(d.frontmatter.bigO)
  {
    Card(d.frontmatter.kind, d.frontmatter.title, d.frontmatter.summary, "Nivel " + d.frontmatter.level,
         PatternsIndex.VisibleTags(d.frontmatter.tags), BigOBlock(d.frontmatter.bigO), StructureHref(d.slug))
  }

  datatype Page = Page(shell: ShellView, count: nat, cards: seq<Card>)

  /** `DataStructuresIndex` for the given summaries. */
  function RenderPage(structures: seq<DataStructureSummary>): (v: Page)
    ensures v.count == |structures|
    ensures |v.cards| == |structures| && forall i :: 0 <= i < |structures| ==> v.cards[i] == CardOf(structures[i])
    ensures v.shell.placeholder == "Buscar estructura…"
    ensures v.shell.sidebar == RenderSidebar(Sidebar(structures))
  {
    Page(RenderShell("Estructuras de Datos", "Rutas interactivas, Big-O comparativo y snippets multi-lenguaje.",
                     Some("Buscar estructura…"), Sidebar(structures)),
         |structures|,
         seq(|structures|, i requires 0 <= i < |structures| => CardOf(structures[i])))
  }

  /** Each card links where the sidebar's catalog item for the same structure links, and both show its title. */
  lemma CardMatchesSidebar(structures: seq<DataStructureSummary>, i: nat)
    requires i < |structures|
    ensures RenderPage(structures).cards[i].href == RenderPage(structures).shell.sidebar[1].links[i].href
    ensures RenderPage(structures).cards[i].title == RenderPage(structures).shell.sidebar[1].links[i].caption
  {
  }
}
