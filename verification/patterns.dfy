/** The pattern topic: its front matter shape, its directory, and the catalog operations on it. */
module Patterns {
  import opened Wrappers
  import opened Content
  import opened Registry
  import opened Catalog

  /** The `content/patterns` directory (relative to the working directory). */
  const PatternsDir: string := "content/patterns"

  datatype Diagram = Diagram(still: Option<string>, animated: Option<string>)

  datatype PatternFrontmatter = PatternFrontmatter(
    title: string,
    slug: string,
    category: string,
    level: string,
    summary: string,
    tags: Option<seq<string>>,
    diagram: Option<Diagram>,
    snippets: Option<seq<Snippet>>,
    quizId: Option<string>,
    references: Option<seq<Reference>>)

  type PatternSummary = Summary<PatternFrontmatter>

  function Title(f: PatternFrontmatter): string {
    f.title
  }

  /** `getPatternSlugs`: the `.mdx` entries of the listing, suffix stripped, in listing order. */
  function GetPatternSlugs(entries: seq<string>): (slugs: seq<string>)
    ensures |slugs| == CountEntryFiles(entries)
    ensures forall s :: s in slugs ==> s + Extension in entries
    ensures forall e :: e in entries && IsEntryFile(e) ==> SlugOf(e) in slugs
  {
    Slugs(entries)
  }

  /** `readPatternFile`: the text stored at `content/patterns/<slug>.mdx`, or not-found. */
  function ReadPatternFile(files: map<string, string>, slug: string): (r: Result<string, Error>)
    ensures r.Success? <==> EntryPath(PatternsDir, slug) in files
    ensures r.Success? ==> r.value == files[EntryPath(PatternsDir, slug)]
    ensures r.Failure? ==> r.error == NotFound(EntryPath(PatternsDir, slug))
  {
    ReadEntry(files, PatternsDir, slug)
  }

  /** `getPatternBySlug`: compile the slug's file; its components are bound when the page renders it. */
  function GetPatternBySlug(files: map<string, string>, slug: string,
                            compile: string -> Option<(PatternFrontmatter, seq<Block>)>)
    : (r: Result<Entry<PatternFrontmatter>, Error>)
    ensures r.Success? <==> EntryPath(PatternsDir, slug) in files && compile(files[EntryPath(PatternsDir, slug)]).Some?
    ensures r.Success? ==>
      && r.value.slug == slug
      && r.value.frontmatter == compile(files[EntryPath(PatternsDir, slug)]).value.0
      && r.value.content == compile(files[EntryPath(PatternsDir, slug)]).value.1
    ensures EntryPath(PatternsDir, slug) !in files ==> r == Failure(NotFound(EntryPath(PatternsDir, slug)))
    ensures EntryPath(PatternsDir, slug) in files && compile(files[EntryPath(PatternsDir, slug)]).None? ==>
      r == Failure(MalformedContent(EntryPath(PatternsDir, slug)))
  {
    BySlug(files, PatternsDir, slug, compile)
  }

  /** `getPatternSummaries`: one summary per discovered slug, sorted by title, stable on ties. */
  function GetPatternSummaries(entries: seq<string>, files: map<string, string>,
                               parse: string -> Option<PatternFrontmatter>)
    : (r: Result<seq<PatternSummary>, Error>)
    ensures r.Success? <==> forall s :: s in Slugs(entries) ==> Loadable(files, PatternsDir, parse, s)
    ensures r.Success? ==>
      && SortedByTitle(r.value, Title)
      && multiset(SlugList(r.value)) == multiset(Slugs(entries))
      && (forall x :: x in r.value ==> ParsedFrom(files, PatternsDir, parse, x))
      && forall t :: WithTitle(r.value, Title, t) == WithTitle(ReadSummaries(files, PatternsDir, parse, Slugs(entries)).value, Title, t)
  {
    Summaries(entries, files, PatternsDir, parse, Title)
  }

  /** Sorting the example's two summaries puts Observer first. */
  lemma ExampleSort(a: PatternSummary, b: PatternSummary)
    requires a.frontmatter.title == "Singleton" && b.frontmatter.title == "Observer"
    ensures SortByTitle([a, b], Title) == [b, a]
  {
    assert !LexOrder.Leq(Title(a.frontmatter), Title(b.frontmatter)) by {
      assert "Singleton"[0] == 'S' && "Observer"[0] == 'O';
    }
    assert [a, b][..1] == [a];
    assert [a][..0] == [];
    assert SortByTitle([a], Title) == [a];
  }

  /** Reading the example's two slugs keeps listing order. */
  lemma ExampleRead(files: map<string, string>, parse: string -> Option<PatternFrontmatter>,
                    singleton: PatternFrontmatter, observer: PatternFrontmatter)
    requires EntryPath(PatternsDir, "singleton") in files && EntryPath(PatternsDir, "observer") in files
    requires parse(files[EntryPath(PatternsDir, "singleton")]) == Some(singleton)
    requires parse(files[EntryPath(PatternsDir, "observer")]) == Some(observer)
    ensures ReadSummaries(files, PatternsDir, parse, ["singleton", "observer"])
            == Success([Summary("singleton", singleton), Summary("observer", observer)])
  {
    var a, b := Summary("singleton", singleton), Summary("observer", observer);
    assert Loadable(files, PatternsDir, parse, "singleton");
    assert Loadable(files, PatternsDir, parse, "observer");
    assert ["observer"][1..] == [];
    assert ReadSummaries(files, PatternsDir, parse, []) == Success([]);
    var one := ReadSummaries(files, PatternsDir, parse, ["observer"]);
    assert one.Success?;
    assert |one.value| == 1;
    assert one.value[0].slug == "observer";
    assert one.value[0].frontmatter == observer;
    assert one.value == [b];
    assert ["singleton", "observer"][1..] == ["observer"];
    var two := ReadSummaries(files, PatternsDir, parse, ["singleton", "observer"]);
    assert two.Success?;
    assert |two.value| == 2;
    assert two.value[0] == a && two.value[1] == b;
    assert two.value == [a, b];
  }

  /**
   * The worked example: a listing with `singleton.mdx`, `observer.mdx` and
   * `not-content.txt` yields the two pattern summaries, Observer first.
   */
  lemma SummariesExample(files: map<string, string>, parse: string -> Option<PatternFrontmatter>,
                         singleton: PatternFrontmatter, observer: PatternFrontmatter)
    requires EntryPath(PatternsDir, "singleton") in files && EntryPath(PatternsDir, "observer") in files
    requires parse(files[EntryPath(PatternsDir, "singleton")]) == Some(singleton) && singleton.title == "Singleton"
    requires parse(files[EntryPath(PatternsDir, "observer")]) == Some(observer) && observer.title == "Observer"
    ensures GetPatternSummaries(["singleton.mdx", "observer.mdx", "not-content.txt"], files, parse)
            == Success([Summary("observer", observer), Summary("singleton", singleton)])
  {
    DiscoveryExample();
    ExampleRead(files, parse, singleton, observer);
    ExampleSort(Summary("singleton", singleton), Summary("observer", observer));
  }
}
