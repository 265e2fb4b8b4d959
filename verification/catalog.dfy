/**
 * The catalog assembler shared by both topics: read every discovered entry's
 * front matter, sort the summaries by title with a stable sort, and load one
 * entry by slug. A topic supplies its directory, its front matter extractor
 * (gray-matter, as a parameter: `None` is a metadata block it cannot parse),
 * its compiler (compileMDX, as a parameter: `None` is a file whose front
 * matter or body cannot be parsed or compiled) and the title of its front matter.
 */
module Catalog {
  import opened Wrappers
  import opened Content
  import opened Registry
  import LexOrder

  /** `{ slug, frontmatter }`: a listing entry without its body. */
  datatype Summary<F> = Summary(slug: string, frontmatter: F)

  /**
   * `{ slug, frontmatter, content }`: a loaded and compiled entry. The content
   * is the compiled body, not yet rendered: its invocations are bound to
   * components only when the page renders it.
   */
  datatype Entry<F> = Entry(slug: string, frontmatter: F, content: seq<Block>)

  // ---------------------------------------------------------------------
  // Reading front matter

  /** The entry for `slug` exists and its metadata block parses. */
  predicate Loadable<F>(files: map<string, string>, dir: string, parse: string -> Option<F>, slug: string) {
    EntryPath(dir, slug) in files && parse(files[EntryPath(dir, slug)]).Some?
  }

  /** `x` carries the front matter parsed from its own slug's file. */
  ghost predicate ParsedFrom<F>(files: map<string, string>, dir: string, parse: string -> Option<F>, x: Summary<F>) {
    EntryPath(dir, x.slug) in files && parse(files[EntryPath(dir, x.slug)]) == Some(x.frontmatter)
  }

  /** The error reported for an entry that is not loadable. */
  function LoadError<F>(files: map<string, string>, dir: string, parse: string -> Option<F>, slug: string): Error {
    var path := EntryPath(dir, slug);
    if path in files then MalformedContent(path) else NotFound(path)
  }

  /** One summary per slug, in slug order; the first entry that cannot be loaded fails the whole listing. */
  function ReadSummaries<F>(files: map<string, string>, dir: string, parse: string -> Option<F>, slugs: seq<string>)
    : (r: Result<seq<Summary<F>>, Error>)
    ensures r.Success? <==> forall i :: 0 <= i < |slugs| ==> Loadable(files, dir, parse, slugs[i])
    ensures r.Success? ==>
      && |r.value| == |slugs|
      && forall i :: 0 <= i < |slugs| ==>
           && r.value[i].slug == slugs[i]
           && ParsedFrom(files, dir, parse, r.value[i])
    ensures r.Failure? ==> exists i :: 0 <= i < |slugs| && FirstUnloadableAt(files, dir, parse, slugs, i, r.error)
  {
    if |slugs| == 0 then Success([])
    else if !Loadable(files, dir, parse, slugs[0]) then
      assert FirstUnloadableAt(files, dir, parse, slugs, 0, LoadError(files, dir, parse, slugs[0]));
      Failure(LoadError(files, dir, parse, slugs[0]))
    else
      var head := Summary(slugs[0], parse(files[EntryPath(dir, slugs[0])]).value);
      var rest := ReadSummaries(files, dir, parse, slugs[1..]);
      if rest.Failure? then
        ReadFailsLater(files, dir, parse, slugs, rest.error);
        Failure(rest.error)
      else
        ReadSucceedsWith(files, dir, parse, slugs, head, rest.value);
        Success([head] + rest.value)
  }

  /** A failure among the later slugs, after a loadable first slug, is the whole list's first failure. */
  lemma ReadFailsLater<F>(files: map<string, string>, dir: string, parse: string -> Option<F>,
                          slugs: seq<string>, e: Error)
    requires |slugs| > 0 && Loadable(files, dir, parse, slugs[0])
    requires exists k :: 0 <= k < |slugs[1..]| && FirstUnloadableAt(files, dir, parse, slugs[1..], k, e)
    ensures exists i :: 0 <= i < |slugs| && FirstUnloadableAt(files, dir, parse, slugs, i, e)
  {
    var k :| 0 <= k < |slugs[1..]| && FirstUnloadableAt(files, dir, parse, slugs[1..], k, e);
    assert slugs[k + 1] == slugs[1..][k];
    forall j | 0 <= j < k + 1 ensures Loadable(files, dir, parse, slugs[j]) {
      if j > 0 {
        assert slugs[j] == slugs[1..][j - 1];
      }
    }
    assert FirstUnloadableAt(files, dir, parse, slugs, k + 1, e);
  }

  /** The first slug's summary followed by the later slugs' summaries reads the whole list. */
  lemma ReadSucceedsWith<F>(files: map<string, string>, dir: string, parse: string -> Option<F>,
                            slugs: seq<string>, head: Summary<F>, rest: seq<Summary<F>>)
    requires |slugs| > 0 && head.slug == slugs[0] && ParsedFrom(files, dir, parse, head)
    requires |rest| == |slugs[1..]|
    requires forall i :: 0 <= i < |rest| ==> rest[i].slug == slugs[1..][i] && ParsedFrom(files, dir, parse, rest[i])
    ensures |[head] + rest| == |slugs|
    ensures forall i :: 0 <= i < |slugs| ==>
              && ([head] + rest)[i].slug == slugs[i]
              && ParsedFrom(files, dir, parse, ([head] + rest)[i])
  {
    var all := [head] + rest;
    forall i | 0 <= i < |slugs| ensures all[i].slug == slugs[i] && ParsedFrom(files, dir, parse, all[i]) {
      if i > 0 {
        assert all[i] == rest[i - 1];
        assert slugs[i] == slugs[1..][i - 1];
      }
    }
  }

  /** Slug `i` is the first that cannot be loaded, and `e` is its error. */
  predicate FirstUnloadableAt<F>(files: map<string, string>, dir: string, parse: string -> Option<F>,
                                 slugs: seq<string>, i: nat, e: Error)
    requires i < |slugs|
  {
    && !Loadable(files, dir, parse, slugs[i])
    && e == LoadError(files, dir, parse, slugs[i])
    && forall j :: 0 <= j < i ==> Loadable(files, dir, parse, slugs[j])
  }

  // ---------------------------------------------------------------------
  // Stable sort by title

  /** Pairwise order: every earlier summary's title sorts no later. */
  predicate SortedByTitle<F>(s: seq<Summary<F>>, title: F -> string) {
    forall i, j :: 0 <= i < j < |s| ==> LexOrder.Leq(title(s[i].frontmatter), title(s[j].frontmatter))
  }

  /** The subsequence of `s` whose title is `t`, in order. */
  function WithTitle<F>(s: seq<Summary<F>>, title: F -> string, t: string): seq<Summary<F>> {
    if |s| == 0 then []
    else (if title(s[0].frontmatter) == t then [s[0]] else []) + WithTitle(s[1..], title, t)
  }

  /** The slugs of a list of summaries, in order. */
  function SlugList<F>(s: seq<Summary<F>>): (slugs: seq<string>)
    ensures |slugs| == |s|
    ensures forall i :: 0 <= i < |s| ==> slugs[i] == s[i].slug
  {
    seq(|s|, i requires 0 <= i < |s| => s[i].slug)
  }

  /** Inserts `x` after every summary whose title sorts no later than its own. */
  function Insert<F>(x: Summary<F>, s: seq<Summary<F>>, title: F -> string): seq<Summary<F>> {
    if |s| == 0 then [x]
    else if LexOrder.Leq(title(s[0].frontmatter), title(x.frontmatter)) then [s[0]] + Insert(x, s[1..], title)
    else [x] + s
  }

  /**
   * `Array.prototype.sort` with a title comparator. That sort is stable, so the
   * model uses a stable insertion sort, which yields the same order.
   */
  function SortByTitle<F>(s: seq<Summary<F>>, title: F -> string): seq<Summary<F>>
    decreases |s|
  {
    if |s| == 0 then [] else Insert(s[|s| - 1], SortByTitle(s[..|s| - 1], title), title)
  }

  /**
   * The sort returns a sorted permutation of its input that keeps, for every
   * title, the summaries with that title in their original relative order.
   */
  lemma {:induction false} SortByTitleCorrect<F>(s: seq<Summary<F>>, title: F -> string)
    ensures SortedByTitle(SortByTitle(s, title), title)
    ensures multiset(SortByTitle(s, title)) == multiset(s)
    ensures multiset(SlugList(SortByTitle(s, title))) == multiset(SlugList(s))
    ensures forall t :: WithTitle(SortByTitle(s, title), title, t) == WithTitle(s, title, t)
    decreases |s|
  {
    if |s| > 0 {
      var init, last := s[..|s| - 1], s[|s| - 1];
      assert s == init + [last];
      var sorted := SortByTitle(init, title);
      SortByTitleCorrect(init, title);
      InsertSorted(last, sorted, title);
      InsertPermutes(last, sorted, title);
      assert SlugList(s) == SlugList(init) + [last.slug];
      forall t ensures WithTitle(SortByTitle(s, title), title, t) == WithTitle(s, title, t) {
        InsertWithTitle(last, sorted, title, t);
        WithTitleAppend(init, [last], title, t);
      }
    }
  }

  lemma {:induction false} WithTitleAppend<F>(a: seq<Summary<F>>, b: seq<Summary<F>>, title: F -> string, t: string)
    ensures WithTitle(a + b, title, t) == WithTitle(a, title, t) + WithTitle(b, title, t)
    decreases |a|
  {
    if |a| == 0 {
      assert a + b == b;
    } else {
      var head := if title(a[0].frontmatter) == t then [a[0]] else [];
      assert (a + b)[0] == a[0];
      assert (a + b)[1..] == a[1..] + b;
      assert WithTitle(a + b, title, t) == head + WithTitle(a[1..] + b, title, t);
      WithTitleAppend(a[1..], b, title, t);
      assert WithTitle(a, title, t) == head + WithTitle(a[1..], title, t);
    }
  }

  /** Inserting into a sorted list keeps it sorted. */
  lemma {:induction false} InsertSorted<F>(x: Summary<F>, s: seq<Summary<F>>, title: F -> string)
    requires SortedByTitle(s, title)
    ensures SortedByTitle(Insert(x, s, title), title)
    ensures multiset(Insert(x, s, title)) == multiset(s) + multiset{x}
    decreases |s|
  {
    if |s| == 0 {
    } else if LexOrder.Leq(title(s[0].frontmatter), title(x.frontmatter)) {
      var rest := Insert(x, s[1..], title);
      InsertSorted(x, s[1..], title);
      assert s == [s[0]] + s[1..];
      forall j | 0 <= j < |rest|
        ensures LexOrder.Leq(title(s[0].frontmatter), title(rest[j].frontmatter))
      {
        assert rest[j] in multiset(rest);
        if rest[j] != x {
          assert rest[j] in multiset(s[1..]);
          var k :| 0 <= k < |s[1..]| && s[1..][k] == rest[j];
          assert s[k + 1] == rest[j];
        }
      }
      ConsSorted(s[0], rest, title);
      assert Insert(x, s, title) == [s[0]] + rest;
    } else {
      LexOrder.LeqTotal(title(s[0].frontmatter), title(x.frontmatter));
      forall j | 0 <= j < |s|
        ensures LexOrder.Leq(title(x.frontmatter), title(s[j].frontmatter))
      {
        if j > 0 {
          LexOrder.LeqTransitive(title(x.frontmatter), title(s[0].frontmatter), title(s[j].frontmatter));
        }
      }
      ConsSorted(x, s, title);
      assert multiset([x] + s) == multiset(s) + multiset{x};
    }
  }

  /** A sorted list stays sorted under a head whose title sorts no later than any of its titles. */
  lemma ConsSorted<F>(h: Summary<F>, s: seq<Summary<F>>, title: F -> string)
    requires SortedByTitle(s, title)
    requires forall j :: 0 <= j < |s| ==> LexOrder.Leq(title(h.frontmatter), title(s[j].frontmatter))
    ensures SortedByTitle([h] + s, title)
  {
    var r := [h] + s;
    forall i, j | 0 <= i < j < |r| ensures LexOrder.Leq(title(r[i].frontmatter), title(r[j].frontmatter)) {
      assert r[j] == s[j - 1];
      if i > 0 {
        assert r[i] == s[i - 1];
      }
    }
  }

  /** Insertion adds exactly one slug. */
  lemma {:induction false} InsertPermutes<F>(x: Summary<F>, s: seq<Summary<F>>, title: F -> string)
    ensures multiset(SlugList(Insert(x, s, title))) == multiset(SlugList(s)) + multiset{x.slug}
    decreases |s|
  {
    if |s| == 0 {
      assert SlugList([x]) == [x.slug];
    } else if LexOrder.Leq(title(s[0].frontmatter), title(x.frontmatter)) {
      InsertPermutes(x, s[1..], title);
      assert SlugList([s[0]] + Insert(x, s[1..], title)) == [s[0].slug] + SlugList(Insert(x, s[1..], title));
      assert SlugList(s) == [s[0].slug] + SlugList(s[1..]);
    } else {
      assert SlugList([x] + s) == [x.slug] + SlugList(s);
    }
  }

  /** Stability: `x` lands after every summary that shares its title. */
  lemma {:induction false} InsertWithTitle<F>(x: Summary<F>, s: seq<Summary<F>>, title: F -> string, t: string)
    requires SortedByTitle(s, title)
    ensures WithTitle(Insert(x, s, title), title, t) == WithTitle(s, title, t) + WithTitle([x], title, t)
    decreases |s|
  {
    assert [x][1..] == [];
    if |s| == 0 {
    } else if LexOrder.Leq(title(s[0].frontmatter), title(x.frontmatter)) {
      InsertWithTitle(x, s[1..], title, t);
      var ins := Insert(x, s[1..], title);
      assert ([s[0]] + ins)[1..] == ins;
    } else {
      // every title in `s` sorts strictly after x's title, so none equals it
      forall j | 0 <= j < |s| ensures title(s[j].frontmatter) != title(x.frontmatter) {
        if title(s[j].frontmatter) == title(x.frontmatter) {
          LexOrder.LeqReflexive(title(x.frontmatter));
          assert false;
        }
      }
      if title(x.frontmatter) == t {
        NoneWithTitle(s, title, t);
      }
      assert ([x] + s)[1..] == s;
    }
  }

  lemma {:induction false} NoneWithTitle<F>(s: seq<Summary<F>>, title: F -> string, t: string)
    requires forall j :: 0 <= j < |s| ==> title(s[j].frontmatter) != t
    ensures WithTitle(s, title, t) == []
    decreases |s|
  {
    if |s| > 0 {
      NoneWithTitle(s[1..], title, t);
    }
  }

  // ---------------------------------------------------------------------
  // The topic operations

  /** `getSummaries`: discover, read every entry's front matter, then sort by title. */
  function Summaries<F>(entries: seq<string>, files: map<string, string>, dir: string,
                        parse: string -> Option<F>, title: F -> string)
    : (r: Result<seq<Summary<F>>, Error>)
    ensures r.Success? <==> ReadSummaries(files, dir, parse, Slugs(entries)).Success?
    ensures r.Success? ==>
      && SortedByTitle(r.value, title)
      && |r.value| == |Slugs(entries)|
      && multiset(SlugList(r.value)) == multiset(Slugs(entries))
      && (forall x :: x in r.value ==> ParsedFrom(files, dir, parse, x))
      && forall t :: WithTitle(r.value, title, t) == WithTitle(ReadSummaries(files, dir, parse, Slugs(entries)).value, title, t)
    ensures r.Failure? ==> r == ReadSummaries(files, dir, parse, Slugs(entries))
  {
    var read := ReadSummaries(files, dir, parse, Slugs(entries));
    if read.Failure? then Failure(read.error)
    else
      SortedSummariesCorrect(files, dir, parse, title, Slugs(entries));
      Success(SortByTitle(read.value, title))
  }

  /** Sorting a successful read of `slugs` gives a title-sorted, stable permutation of those slugs' own summaries. */
  lemma SortedSummariesCorrect<F>(files: map<string, string>, dir: string, parse: string -> Option<F>,
                                  title: F -> string, slugs: seq<string>)
    requires ReadSummaries(files, dir, parse, slugs).Success?
    ensures var read := ReadSummaries(files, dir, parse, slugs).value;
            var sorted := SortByTitle(read, title);
            && SortedByTitle(sorted, title)
            && |sorted| == |slugs|
            && multiset(SlugList(sorted)) == multiset(slugs)
            && (forall x :: x in sorted ==> ParsedFrom(files, dir, parse, x))
            && forall t :: WithTitle(sorted, title, t) == WithTitle(read, title, t)
  {
    var read := ReadSummaries(files, dir, parse, slugs).value;
    var sorted := SortByTitle(read, title);
    SortByTitleCorrect(read, title);
    assert SlugList(read) == slugs;
    SortedEntriesParsed(files, dir, parse, slugs, read, sorted);
  }

  /** Every member of a permutation of the read summaries carries its own file's front matter. */
  lemma SortedEntriesParsed<F>(files: map<string, string>, dir: string, parse: string -> Option<F>,
                               slugs: seq<string>, read: seq<Summary<F>>, sorted: seq<Summary<F>>)
    requires ReadSummaries(files, dir, parse, slugs) == Success(read)
    requires multiset(sorted) == multiset(read)
    ensures forall x :: x in sorted ==> ParsedFrom(files, dir, parse, x)
  {
    forall x | x in sorted ensures ParsedFrom(files, dir, parse, x) {
      assert x in multiset(read);
      var i :| 0 <= i < |read| && read[i] == x;
    }
  }

  /** `getBySlug`: read exactly the slug's file, compile it, and echo the slug. */
  function BySlug<F>(files: map<string, string>, dir: string, slug: string,
                     compile: string -> Option<(F, seq<Block>)>)
    : (r: Result<Entry<F>, Error>)
    ensures r.Success? <==> EntryPath(dir, slug) in files && compile(files[EntryPath(dir, slug)]).Some?
    ensures r.Success? ==>
      r.value == Entry(slug, compile(files[EntryPath(dir, slug)]).value.0, compile(files[EntryPath(dir, slug)]).value.1)
    ensures EntryPath(dir, slug) !in files ==> r == Failure(NotFound(EntryPath(dir, slug)))
    ensures EntryPath(dir, slug) in files && compile(files[EntryPath(dir, slug)]).None? ==>
      r == Failure(MalformedContent(EntryPath(dir, slug)))
  {
    match ReadEntry(files, dir, slug)
    case Failure(e) => Failure(e)
    case Success(source) =>
      match compile(source)
      case None => Failure(MalformedContent(EntryPath(dir, slug)))
      case Some(compiled) => Success(Entry(slug, compiled.0, compiled.1))
  }

  /**
   * `<article>{content}</article>`: rendering a loaded entry binds every
   * invocation to its registered component.
   */
  function RenderContent<F>(e: Entry<F>): (r: Result<seq<Node>, Error>)
    ensures r.Success? <==> AllRegistered(e.content)
    ensures r.Success? ==> |r.value| == |e.content| && forall i :: 0 <= i < |e.content| ==> Compiles(e.content[i], r.value[i])
    ensures r.Failure? ==> r.error.UnknownComponent? && r.error.name !in Names
  {
    Resolve(e.content)
  }

  /**
   * An unregistered component does not stop an entry from loading: the entry
   * loads with that invocation in its content, and rendering it fails with
   * the unknown name.
   */
  lemma UnknownComponentFailsAtRender<F>(files: map<string, string>, dir: string, slug: string,
                                         compile: string -> Option<(F, seq<Block>)>, i: nat)
    requires EntryPath(dir, slug) in files && compile(files[EntryPath(dir, slug)]).Some?
    requires var blocks := compile(files[EntryPath(dir, slug)]).value.1;
             i < |blocks| && blocks[i].Invocation? && blocks[i].name !in Names
    ensures BySlug(files, dir, slug, compile).Success?
    ensures BySlug(files, dir, slug, compile).value.content[i] == compile(files[EntryPath(dir, slug)]).value.1[i]
    ensures RenderContent(BySlug(files, dir, slug, compile).value).Failure?
    ensures RenderContent(BySlug(files, dir, slug, compile).value).error.UnknownComponent?
  {
  }

  /** A loaded entry whose invocations are all registered renders one node per block, in order. */
  lemma RegisteredContentRenders<F>(e: Entry<F>)
    requires AllRegistered(e.content)
    ensures RenderContent(e).Success?
    ensures |RenderContent(e).value| == |e.content|
    ensures forall i :: 0 <= i < |e.content| ==> Compiles(e.content[i], RenderContent(e).value[i])
  {
  }

  /** Loading by slug depends on the slug's own file and nothing else in the store. */
  lemma BySlugReadsOnlyItsFile<F>(files1: map<string, string>, files2: map<string, string>, dir: string,
                                  slug: string, compile: string -> Option<(F, seq<Block>)>)
    requires EntryPath(dir, slug) in files1 <==> EntryPath(dir, slug) in files2
    requires EntryPath(dir, slug) in files1 ==> files1[EntryPath(dir, slug)] == files2[EntryPath(dir, slug)]
    ensures BySlug(files1, dir, slug, compile) == BySlug(files2, dir, slug, compile)
  {
  }
}
