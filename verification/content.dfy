/**
 * The content store: a topic directory listing and the files it holds.
 * `fs.readdir` becomes a sequence of entry names and `fs.readFile` a lookup in
 * a map from path to file text; a missing key is the not-found error.
 */
module Content {
  import opened Wrappers
  import opened Strings

  /** The storage suffix of every content entry. */
  const Extension: string := ".mdx"

  /** The ways loading or compiling an entry can fail. */
  datatype Error =
    | NotFound(path: string)
    | MalformedContent(path: string)
    | UnknownComponent(name: string)

  /** Front matter items shared by both topics. */
  datatype Snippet = Snippet(lang: string, file: string)
  datatype Reference = Reference(caption: string, url: string)

  /** Directory entries kept by slug discovery. */
  predicate IsEntryFile(name: string) {
    EndsWith(name, Extension)
  }

  /** `name.replace(/\.mdx$/, "")`: drops one trailing `.mdx`, if there is one. */
  function SlugOf(name: string): (slug: string)
    ensures IsEntryFile(name) ==> slug + Extension == name
    ensures !IsEntryFile(name) ==> slug == name
  {
    if IsEntryFile(name) then
      assert name == name[..|name| - |Extension|] + name[|name| - |Extension|..];
      name[..|name| - |Extension|]
    else
      name
  }

  /** Number of directory entries that are content files. */
  function CountEntryFiles(entries: seq<string>): nat {
    if |entries| == 0 then 0
    else (if IsEntryFile(entries[0]) then 1 else 0) + CountEntryFiles(entries[1..])
  }

  /** Slug discovery: keep the `.mdx` entries, in listing order, and strip the suffix. */
  function Slugs(entries: seq<string>): (slugs: seq<string>)
    ensures |slugs| == CountEntryFiles(entries)
    ensures forall s :: s in slugs ==> s + Extension in entries
    ensures forall e :: e in entries && IsEntryFile(e) ==> SlugOf(e) in slugs
  {
    if |entries| == 0 then []
    else
      var rest := Slugs(entries[1..]);
      assert forall e :: e in entries ==> e == entries[0] || e in entries[1..];
      if IsEntryFile(entries[0]) then [SlugOf(entries[0])] + rest else rest
  }

  /** Slug discovery distributes over concatenation of listings: listing order is kept. */
  lemma {:induction false} SlugsAppend(a: seq<string>, b: seq<string>)
    ensures Slugs(a + b) == Slugs(a) + Slugs(b)
    decreases |a|
  {
    if |a| == 0 {
      assert a + b == b;
    } else {
      assert (a + b)[0] == a[0];
      assert (a + b)[1..] == a[1..] + b;
      SlugsAppend(a[1..], b);
    }
  }

  /** A single entry contributes its stripped name when it is a content file, and nothing otherwise. */
  lemma SlugsOfOne(name: string)
    ensures Slugs([name]) == if IsEntryFile(name) then [SlugOf(name)] else []
  {
  }

  /** Round trip: the file name of a slug is discovered as exactly that slug. */
  lemma SlugRoundTrip(slug: string)
    ensures IsEntryFile(slug + Extension)
    ensures SlugOf(slug + Extension) == slug
    ensures Slugs([slug + Extension]) == [slug]
  {
  }

  /** Only one trailing suffix is removed. */
  lemma StripsOnce()
    ensures Slugs(["a.mdx.mdx"]) == ["a.mdx"]
  {
    SlugRoundTrip("a.mdx");
    assert "a.mdx" + Extension == "a.mdx.mdx";
  }

  /** The discovery example: a non-content file is ignored and order follows the listing. */
  lemma DiscoveryExample()
    ensures Slugs(["singleton.mdx", "observer.mdx", "not-content.txt"]) == ["singleton", "observer"]
  {
    var listing := ["singleton.mdx", "observer.mdx", "not-content.txt"];
    assert listing == ["singleton.mdx"] + (["observer.mdx"] + ["not-content.txt"]);
    SlugsAppend(["singleton.mdx"], ["observer.mdx"] + ["not-content.txt"]);
    SlugsAppend(["observer.mdx"], ["not-content.txt"]);
    SlugRoundTrip("singleton");
    assert "singleton" + Extension == "singleton.mdx";
    SlugRoundTrip("observer");
    assert "observer" + Extension == "observer.mdx";
    SlugsOfOne("not-content.txt");
    assert !IsEntryFile("not-content.txt") by {
      assert "not-content.txt"[|"not-content.txt"| - 4..] == ".txt";
    }
  }

  /** `path.join(dir, `${slug}.mdx`)` for a normalised directory and a plain slug. */
  function EntryPath(dir: string, slug: string): (path: string)
    ensures |path| == |dir| + 1 + |slug| + |Extension|
    ensures path[..|dir|] == dir && path[|dir|] == '/'
    ensures path[|dir| + 1..|dir| + 1 + |slug|] == slug
    ensures IsEntryFile(path)
  {
    var p := dir + "/" + slug + Extension;
    assert p[|p| - |Extension|..] == Extension;
    assert p[|dir| + 1..|dir| + 1 + |slug|] == slug;
    p
  }

  /**
   * Different plain slugs of one topic are stored at different paths. A slug
   * without `/` is a single path segment ending in `.mdx`, so `path.join`
   * has nothing to normalise in it.
   */
  lemma EntryPathInjective(dir: string, a: string, b: string)
    requires '/' !in a && '/' !in b
    requires EntryPath(dir, a) == EntryPath(dir, b)
    ensures a == b
  {
  }

  /** Directory entry names hold no `/`, so neither does any discovered slug. */
  lemma DiscoveredSlugsArePlain(entries: seq<string>)
    requires forall i :: 0 <= i < |entries| ==> '/' !in entries[i]
    ensures forall s :: s in Slugs(entries) ==> '/' !in s
  {
    forall s | s in Slugs(entries) ensures '/' !in s {
      var i :| 0 <= i < |entries| && entries[i] == s + Extension;
      assert (s + Extension)[..|s|] == s;
    }
  }

  /** `readFile(path.join(dir, `${slug}.mdx`))`: the file text, or not-found. */
  function ReadEntry(files: map<string, string>, dir: string, slug: string): (r: Result<string, Error>)
    ensures r.Success? <==> EntryPath(dir, slug) in files
    ensures r.Success? ==> r.value == files[EntryPath(dir, slug)]
    ensures r.Failure? ==> r.error == NotFound(EntryPath(dir, slug))
  {
    var path := EntryPath(dir, slug);
    if path in files then Success(files[path]) else Failure(NotFound(path))
  }
}
