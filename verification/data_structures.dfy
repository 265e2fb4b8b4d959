/** The data-structure topic: its front matter shape, its directory, and the catalog operations on it. */
module DataStructures {
  import opened Wrappers
  import opened Content
  import opened Registry
  import opened Catalog
  import Patterns

  /** The `content/data-structures` directory (relative to the working directory). */
  const DataStructuresDir: string := "content/data-structures"

  /** One `operation: cost` pair of the `bigO` record, in the record's key order. */
  datatype BigOEntry = BigOEntry(operation: string, cost: string)

  datatype DataStructureFrontmatter = DataStructureFrontmatter(
    title: string,
    slug: string,
    kind: string,
    level: string,
    summary: string,
    tags: Option<seq<string>>,
    bigO: Option<seq<BigOEntry>>,
    snippets: Option<seq<Snippet>>,
    references: Option<seq<Reference>>)

  type DataStructureSummary = Summary<DataStructureFrontmatter>

  function Title(f: DataStructureFrontmatter): string {
    f.title
  }

  /** `getDataStructureSlugs`: the `.mdx` entries of the listing, suffix stripped, in listing order. */
  function GetDataStructureSlugs(entries: seq<string>): (slugs: seq<string>)
    ensures |slugs| == CountEntryFiles(entries)
    ensures forall s :: s in slugs ==> s + Extension in entries
    ensures forall e :: e in entries && IsEntryFile(e) ==> SlugOf(e) in slugs
  {
    Slugs(entries)
  }

  /** `readDataStructureFile`: the text stored at `content/data-structures/<slug>.mdx`, or not-found. */
  function ReadDataStructureFile(files: map<string, string>, slug: string): (r: Result<string, Error>)
    ensures r.Success? <==> EntryPath(DataStructuresDir, slug) in files
    ensures r.Success? ==> r.value == files[EntryPath(DataStructuresDir, slug)]
    ensures r.Failure? ==> r.error == NotFound(EntryPath(DataStructuresDir, slug))
  {
    ReadEntry(files, DataStructuresDir, slug)
  }

  /** `getDataStructureBySlug`: compile the slug's file; its components are bound when the page renders it. */
  function GetDataStructureBySlug(files: map<string, string>, slug: string,
                                  compile: string -> Option<(DataStructureFrontmatter, seq<Block>)>)
    : (r: Result<Entry<DataStructureFrontmatter>, Error>)
    ensures r.Success? <==> EntryPath(DataStructuresDir, slug) in files && compile(files[EntryPath(DataStructuresDir, slug)]).Some?
    ensures r.Success? ==>
      && r.value.slug == slug
      && r.value.frontmatter == compile(files[EntryPath(DataStructuresDir, slug)]).value.0
      && r.value.content == compile(files[EntryPath(DataStructuresDir, slug)]).value.1
    ensures EntryPath(DataStructuresDir, slug) !in files ==> r == Failure(NotFound(EntryPath(DataStructuresDir, slug)))
    ensures EntryPath(DataStructuresDir, slug) in files && compile(files[EntryPath(DataStructuresDir, slug)]).None? ==>
      r == Failure(MalformedContent(EntryPath(DataStructuresDir, slug)))
  {
    BySlug(files, DataStructuresDir, slug, compile)
  }

  /** `getDataStructureSummaries`: one summary per discovered slug, sorted by title, stable on ties. */
  function GetDataStructureSummaries(entries: seq<string>, files: map<string, string>,
                                     parse: string -> Option<DataStructureFrontmatter>)
    : (r: Result<seq<DataStructureSummary>, Error>)
    ensures r.Success? <==> forall s :: s in Slugs(entries) ==> Loadable(files, DataStructuresDir, parse, s)
    ensures r.Success? ==>
      && SortedByTitle(r.value, Title)
      && multiset(SlugList(r.value)) == multiset(Slugs(entries))
      && (forall x :: x in r.value ==> ParsedFrom(files, DataStructuresDir, parse, x))
      && forall t :: WithTitle(r.value, Title, t)
                     == WithTitle(ReadSummaries(files, DataStructuresDir, parse, Slugs(entries)).value, Title, t)
  {
    Summaries(entries, files, DataStructuresDir, parse, Title)
  }

  /** The two topics live in different directories, so no plain slug of one is read from the other. */
  lemma TopicsAreDisjoint(a: string, b: string)
    requires '/' !in a && '/' !in b
    ensures EntryPath(DataStructuresDir, a) != EntryPath(Patterns.PatternsDir, b)
  {
  }
}
