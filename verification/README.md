# PatternKit content pipeline and page logic, in Dafny

PatternKit is a read-only documentation site about design patterns and data
structures. Its articles are `.mdx` files with a front matter block. This
project models the logic that sits among the site's markup:

- **Content catalog** (`lib/patterns.ts`, `lib/data-structures.ts`). Slug discovery keeps the `.mdx` entries of a directory listing and strips one trailing `.mdx`. An entry is read from `<dir>/<slug>.mdx`. An entry body is compiled, and its component invocations are bound to a closed registry of five components when the page renders it. The summaries are one `{slug, frontmatter}` per slug, sorted by title with a stable sort. The logic both topics share lives in `Content`, `Registry` and `Catalog`. The modules `Patterns` and `DataStructures` instantiate it with each topic's directory and front matter record.
- **Code tabs** (`components/patterns/code-tabs.tsx`). This is an event-driven state machine. Its state is the active language, the "copied" flag, the copy-reset timer and the highlighted markup per language. The events are tab selection, highlighting done, clipboard write resolved, timer fired and unmount. Its invariant is that at most one reset timer is ever pending.
- **Editorial components** (`components/patterns/editorial.tsx`). This covers badge normalisation and tone defaults, and the parts of the narrative and comparison sections that are shown only under a condition. It also covers the fixed editorial example.
- **Index pages and shell** (`app/patterns/page.tsx`, `app/data-structures/page.tsx`, `components/layouts/docs-shell.tsx`). This covers sidebar and card derivation, tag truncation, operation-name capitalisation and the Big-O table. It also covers mobile-nav flattening, the search placeholder default and the `aria-current` marker.
- **Singleton example** (`code-examples/patterns/singleton/js.ts`). `getInstance` initialises the logger lazily and is idempotent.

The file system becomes values. A directory listing is a `seq<string>`. The files are a `map<string, string>` from path to text, and a missing key is the not-found error. gray-matter and compileMDX are function parameters, where `None` stands for a file whose front matter or body cannot be parsed or compiled. The syntax highlighter is also a function parameter, where `None` stands for a failed call. The order of `localeCompare` is modelled as plain lexicographic order on characters (`LexOrder.Leq`), which is a total order. Three source field names are Dafny keywords, so they are renamed here. `label` becomes `caption`. The diagram's `static` becomes `still`. The data-structure front matter's `type` becomes `kind`.

Behaviour of the code that the model keeps, and that a reader might not expect:

- The two fallbacks of the code tabs differ. A failed highlight stores the raw code as the "markup", with no wrapper. A language missing from the map renders `<pre><code>` + code + `</code></pre>`. Neither escapes the code.
- With two samples of one language, `find` picks the first one and `Object.fromEntries` keeps the last one. So the caption shows the first sample and the copy button copies it, while the markup comes from the second (`CodeTabs.DuplicateLangShowsLastMarkup`). Selecting the second tab still activates the first.
- When the reset timer fires, it does not clear `copyTimeout.current`. The component keeps a reference to a timer that has already fired.
- A clipboard write that resolves after unmount still arms a new timer. The model keeps this: `CopyResolved` does not look at `mounted`.
- A present but empty `bigO` record still renders the Big-O block, with no rows. An empty `label` on a tab is shown as is, because `??` falls back only on a missing label.
- Slugs come back in directory-listing order. Discovery neither sorts nor deduplicates them.
- An unregistered component in an entry body does not stop the entry from loading. `compileMDX` only builds the content. The missing component fails when a detail page renders `<article>{content}</article>` (`Catalog.UnknownComponentFailsAtRender`).

## Model

| member | source | states |
|---|---|---|
| LexOrder.LeqReflexive | lib/patterns.ts:89 | every title compares equal to itself under the title order |
| LexOrder.LeqTotal | lib/patterns.ts:89 | any two titles are comparable, so the comparator orders every pair |
| LexOrder.LeqTransitive | lib/patterns.ts:89 | the title order is transitive |
| LexOrder.LeqAntisymmetric | lib/patterns.ts:89 | two titles that sort no later than each other are the same title |
| Content.SlugOf | lib/patterns.ts:49 | stripping removes exactly one trailing `.mdx`: the slug plus `.mdx` is the file name; other names are untouched |
| Content.Slugs | lib/patterns.ts:45-50 | one slug per `.mdx` entry (count equals the number of `.mdx` entries); every slug plus `.mdx` is a listed entry; every `.mdx` entry's stripped name is a slug |
| Content.SlugsAppend | lib/patterns.ts:47-49 | discovery over a concatenated listing is the concatenation of the discoveries: slug order is listing order |
| Content.SlugsOfOne | lib/patterns.ts:47-49 | a single entry contributes its stripped name when it ends in `.mdx` and nothing otherwise |
| Content.SlugRoundTrip | lib/patterns.ts:47-49 | the file name of any slug is discovered as exactly that slug |
| Content.StripsOnce | lib/patterns.ts:49 | `a.mdx.mdx` is discovered as `a.mdx` |
| Content.DiscoveryExample | lib/patterns.ts:45-50 | a listing `singleton.mdx`, `observer.mdx`, `not-content.txt` yields `singleton`, `observer` |
| Content.EntryPath | lib/patterns.ts:41 | the path of a slug is the directory, a slash, the slug and `.mdx`, and it ends in `.mdx` |
| Content.EntryPathInjective | lib/patterns.ts:41 | different slugs without `/` (every discovered slug) are read from different paths of one topic |
| Content.DiscoveredSlugsArePlain | lib/patterns.ts:46-49 | when no directory entry name holds `/`, no discovered slug does |
| Content.ReadEntry | lib/patterns.ts:40-43 | reading succeeds exactly when the slug's path is stored, returns that file's text, and otherwise fails with not-found for that path |
| Registry.Lookup | lib/patterns.ts:60-66 | a name resolves exactly when it is one of the registered names, and resolves to the component of that name |
| Registry.RegistryIsClosed | lib/patterns.ts:60-66 | exactly five names are registered, one per component, and lookup inverts naming |
| Registry.Resolve | lib/patterns.ts:60-66 | binding a compiled body to the components passed to `compileMDX` succeeds exactly when every invocation names a registered one, and keeps block order and props; otherwise it fails with an unregistered name, the first in block order |
| Registry.UnknownNameFails | lib/patterns.ts:60-66 | any invocation of a name outside the component map makes binding fail with an unknown-component error |
| Catalog.ReadSummaries | lib/patterns.ts:77-87 | succeeds exactly when every slug's file exists and parses; then one summary per slug in slug order, carrying the slug and its own file's front matter; otherwise the first failing slug's error |
| Catalog.InsertSorted | lib/patterns.ts:89 | inserting into a title-sorted list keeps it sorted and adds exactly that element |
| Catalog.InsertPermutes | lib/patterns.ts:89 | inserting adds exactly one slug to the multiset of slugs |
| Catalog.InsertWithTitle | lib/patterns.ts:89 | the inserted summary lands after every summary with the same title (stability) |
| Catalog.SortByTitleCorrect | lib/patterns.ts:89 | the sort returns a title-sorted permutation (of summaries and of slugs) that keeps the relative order of summaries with equal titles |
| Catalog.Summaries | lib/patterns.ts:76-90 | the listing fails exactly when reading fails; on success it is sorted by title, is a permutation of the discovered slugs, every summary carries its own file's front matter, and equal titles keep discovery order |
| Catalog.SortedSummariesCorrect | lib/patterns.ts:89 | sorting a successful read gives a title-sorted permutation of the read slugs, each with its own file's front matter, stable on equal titles |
| Catalog.BySlug | lib/patterns.ts:52-74 | succeeds exactly when the slug's file exists and compiles; then it echoes the slug with that file's compiled front matter and body; a missing file is not-found and an uncompilable one malformed |
| Catalog.UnknownComponentFailsAtRender | lib/patterns.ts:55-73 | an existing, compilable entry that invokes an unregistered component still loads, with that invocation in its content; rendering it (`<article>{content}</article>` on the slug page) fails with an unknown-component error |
| Catalog.RenderContent | lib/patterns.ts:55-73 | rendering a loaded entry (`<article>{content}</article>` on the slug pages, patterns page line 60 and data-structures page line 80) is `Registry.Resolve` of its compiled body: it succeeds exactly when every invocation is registered, then one bound node per block in order, else an unknown-component error for a name outside the registry |
| Catalog.RegisteredContentRenders | lib/patterns.ts:60-66 | a loaded entry whose invocations are all registered renders one node per block, in order, each bound to the named component with the same props |
| Catalog.BySlugReadsOnlyItsFile | lib/patterns.ts:40-53 | loading by slug depends only on the file at that slug's path |
| Patterns.GetPatternSlugs | lib/patterns.ts:45-50 | pattern slugs: one per `.mdx` entry, each with its file listed, every `.mdx` entry represented |
| Patterns.ReadPatternFile | lib/patterns.ts:40-43 | reads exactly `content/patterns/<slug>.mdx`, not-found when absent |
| Patterns.GetPatternBySlug | lib/patterns.ts:52-74 | succeeds exactly when `content/patterns/<slug>.mdx` exists and compiles; then the given slug, that file's front matter and its compiled body; otherwise not-found or malformed |
| Patterns.GetPatternSummaries | lib/patterns.ts:76-90 | succeeds exactly when every discovered pattern loads; then sorted by title, a permutation of the slugs, each with its own front matter, stable on equal titles |
| Patterns.SummariesExample | lib/patterns.ts:45-90 | with `singleton.mdx`, `observer.mdx`, `not-content.txt` the summaries are Observer then Singleton |
| DataStructures.GetDataStructureSlugs | lib/data-structures.ts:41-46 | data-structure slugs: one per `.mdx` entry, each with its file listed, every `.mdx` entry represented |
| DataStructures.ReadDataStructureFile | lib/data-structures.ts:36-39 | reads exactly `content/data-structures/<slug>.mdx`, not-found when absent |
| DataStructures.GetDataStructureBySlug | lib/data-structures.ts:48-70 | succeeds exactly when `content/data-structures/<slug>.mdx` exists and compiles; then the given slug, that file's front matter and its compiled body; otherwise not-found or malformed |
| DataStructures.GetDataStructureSummaries | lib/data-structures.ts:72-87 | succeeds exactly when every discovered structure loads; then sorted by title, a permutation of the slugs, each with its own front matter, stable on equal titles |
| DataStructures.TopicsAreDisjoint | lib/data-structures.ts:14 | no data-structure path of a slug without `/` coincides with a pattern path |
| CodeTabs.AtMostOnePendingTimer | components/patterns/code-tabs.tsx:58-65 | in every valid state at most one reset timer is pending |
| CodeTabs.FirstWithLang | components/patterns/code-tabs.tsx:24 | finds the first sample with the language, and finds none exactly when no sample has it |
| CodeTabs.ActiveSample | components/patterns/code-tabs.tsx:23-24 | present exactly when there are samples; always one of the samples; the first with the active language when there is one, else the first sample |
| CodeTabs.TabCaptions | components/patterns/code-tabs.tsx:85-92 | a tab shows its given label as is (even empty); without one, the language upper-cased, of the same length |
| CodeTabs.MarkupFallbacks | components/patterns/code-tabs.tsx:104 | the active sample shows the highlighted markup for its language when there is one, else its code wrapped in `<pre><code>` |
| CodeTabs.LoadHighlight | components/patterns/code-tabs.tsx:27-43 | nothing is started without samples; otherwise one `[lang, markup]` pair per sample in order, each the highlighter's output or that sample's raw code |
| CodeTabs.FromEntries | components/patterns/code-tabs.tsx:45 | the map has exactly the entries' languages as keys, and a language's value is its last entry's |
| CodeTabs.Init | components/patterns/code-tabs.tsx:17-20 | the first sample's language is active (empty without samples) so the first sample is the active one; not copied, no timer, no markup; the invariant holds |
| CodeTabs.Step | components/patterns/code-tabs.tsx:44-78 | every event keeps the invariant (one pending timer at most, fresh ids, active language among the samples') and keeps the samples |
| CodeTabs.Run | components/patterns/code-tabs.tsx:58-65 | any sequence of events keeps the invariant |
| CodeTabs.OneTimerAlways | components/patterns/code-tabs.tsx:58-65 | after mounting, whatever events follow, at most one timer is pending |
| CodeTabs.CopyRequest | components/patterns/code-tabs.tsx:58-60 | nothing is written without a clipboard; otherwise the code of the active sample is written |
| CodeTabs.Render | components/patterns/code-tabs.tsx:67-106 | nothing without samples; else one button per sample in order marked active exactly when its language is active, the active sample's caption and markup, and "Copiado"/"Copiar" by the flag |
| CodeTabs.FirstRender | components/patterns/code-tabs.tsx:17-104 | right after mounting the first tab is active, its caption shown, its code wrapped in `<pre><code>` (for a language that is not an `Object.prototype` member name), and the button reads "Copiar" |
| CodeTabs.SelectTabOnlyChangesActive | components/patterns/code-tabs.tsx:78 | selecting a tab changes only the active language, to that tab's; with distinct languages that tab's sample becomes the active one |
| CodeTabs.CopyTwiceKeepsOneTimer | components/patterns/code-tabs.tsx:58-65 | two resolved copies leave only the second timer pending; the first timer's firing changes nothing; the second resets the flag |
| CodeTabs.UnmountDiscards | components/patterns/code-tabs.tsx:44-55 | unmounting clears the pending timer, and a later highlight result changes nothing |
| CodeTabs.HighlightedMarkupIsPerSample | components/patterns/code-tabs.tsx:31-45 | with distinct languages each sample shows its own highlighting outcome, unaffected by the others' failures |
| CodeTabs.MixedHighlightExample | components/patterns/code-tabs.tsx:31-43 | a `ts` sample shows its highlighted markup while an `xx` sample the highlighter rejects shows its raw code |
| CodeTabs.DuplicateLangShowsLastMarkup | components/patterns/code-tabs.tsx:23-45 | with two `ts` samples the first one's code is copied while the second one's markup is shown |
| Editorial.ToneClassInjective | components/patterns/editorial.tsx:39-43 | the three tones map to three different class lists |
| Editorial.NormalizeBadges | components/patterns/editorial.tsx:54-59 | non-empty author badges are used as is; absent or empty yields the category badge and the `Nivel <level>` badge; never empty |
| Editorial.NormalizeBadgesIdempotent | components/patterns/editorial.tsx:54-59 | normalising already normalised badges changes nothing |
| Editorial.UntonedBadgeIsNeutral | components/patterns/editorial.tsx:64 | a rendered badge keeps its label; one without a tone is drawn neutral, otherwise in its own tone |
| Editorial.RenderIntro | components/patterns/editorial.tsx:45-95 | one badge view per normalised badge with its tone's class; the call to action exactly when given |
| Editorial.IntroDefaultBadges | components/patterns/editorial.tsx:54-64 | without badges the intro shows the category with the primary class, then `Nivel <level>` with the neutral class |
| Editorial.RenderNarrative | components/patterns/editorial.tsx:97-123 | label, title and body as given; the bullet list exactly when bullets are present and non-empty; the aside exactly when it is present and non-empty (`aside &&` is falsy on `""`) |
| Editorial.RenderColumn | components/patterns/editorial.tsx:149-150 | the accent is emerald exactly when the variant is absent or left |
| Editorial.RenderDualList | components/patterns/editorial.tsx:125-141 | the left column (emerald) then the right column (rose), then the footnote only when given |
| Editorial.EditorialExample | components/patterns/editorial.tsx:168-194 | the example's intro shows the two default badges (Creacional primary, Nivel básico neutral); left then right column; the footnote |
| DocsShell.TopNavFixed | components/layouts/docs-shell.tsx:4-8 | three top links with distinct targets |
| DocsShell.FlatMobileNav | components/layouts/docs-shell.tsx:34 | its length is the total number of items, and every item comes from some section |
| DocsShell.FlatAppend | components/layouts/docs-shell.tsx:34 | flattening and item counts distribute over concatenated section lists |
| DocsShell.FlatPosition | components/layouts/docs-shell.tsx:34 | item `j` of section `k` sits at the number of items before section `k` plus `j` |
| DocsShell.RenderSidebar | components/layouts/docs-shell.tsx:83-106 | every section and item in order, each link current exactly when its item is active |
| DocsShell.RenderShell | components/layouts/docs-shell.tsx:27-125 | the fixed links; the given search placeholder, else `Buscar…`; the sidebar; one mobile link per flattened item in order |
| PatternsIndex.VisibleTags | app/patterns/page.tsx:79 | at most the first two tags, exactly `min(2, n)` of them, none without tags |
| PatternsIndex.Sidebar | app/patterns/page.tsx:15-27 | two sections: the introduction with one `#intro` item, then one catalog item per pattern in order, titled and linked to `/patterns/<slug>` |
| PatternsIndex.CardOf | app/patterns/page.tsx:61-93 | a card shows the title, `Nivel <level>`, the visible tags and links to `/patterns/<slug>` |
| PatternsIndex.RenderPage | app/patterns/page.tsx:13-98 | the count is the number of patterns; one card per pattern in order; the sidebar is rendered; the placeholder is `Buscar patrón…` |
| PatternsIndex.CardMatchesSidebar | app/patterns/page.tsx:22-87 | a pattern's card and its sidebar item share title and link, and no item is marked current |
| PatternsIndex.PatternHrefInjective | app/patterns/page.tsx:24 | different slugs get different links |
| DataStructuresIndex.FormatOperation | app/data-structures/page.tsx:30-31 | the first character upper-cased, the rest kept, length preserved, empty stays empty |
| DataStructuresIndex.FormatOperationIdempotent | app/data-structures/page.tsx:30-31 | formatting twice equals formatting once |
| DataStructuresIndex.Sidebar | app/data-structures/page.tsx:16-28 | two sections: the introduction, then one catalog item per structure in order linked to `/data-structures/<slug>` |
| DataStructuresIndex.BigOBlock | app/data-structures/page.tsx:88-102 | the block exactly when `bigO` is present, one formatted row per operation in order with its cost |
| DataStructuresIndex.CardOf | app/data-structures/page.tsx:63-112 | a card shows at most two tags, the Big-O block, and links to `/data-structures/<slug>` |
| DataStructuresIndex.RenderPage | app/data-structures/page.tsx:13-117 | the count is the number of structures; one card per structure in order; the placeholder is `Buscar estructura…` |
| DataStructuresIndex.CardMatchesSidebar | app/data-structures/page.tsx:25-106 | a structure's card and its sidebar item share title and link |
| Singleton.GetInstance | code-examples/patterns/singleton/js.ts:5-10 | afterwards the instance is set and is the returned logger; an existing instance is returned with nothing changed; a logger is constructed only when there was none |
| Singleton.UseLogger | code-examples/patterns/singleton/js.ts:12-20 | leaves an instance in place, constructs at most one logger, and changes nothing once the instance exists (logging included) |
| Singleton.GetInstanceIdempotent | code-examples/patterns/singleton/js.ts:5-10 | a second call returns the same logger and changes nothing |
| Singleton.StableAfterFirst | code-examples/patterns/singleton/js.ts:5-10 | once the instance exists, any number of further uses change nothing |
| Singleton.UseLoggerConstructsOnce | code-examples/patterns/singleton/js.ts:1-20 | starting from a null instance, any positive number of uses constructs exactly one logger |
| Singleton.ReachableValid | code-examples/patterns/singleton/js.ts:1-20 | from the initial runtime, every constructed logger is the instance |

## Left out

- File-system I/O: `fs.readdir` and `fs.readFile` become a listing and a map. Read errors other than a missing file are not modelled, and neither is a missing directory.
- Content.EntryPath: `path.join` normalisation is not modelled, and the `process.cwd()` prefix is dropped. A slug with `/` (such as `./a` or `../patterns/x`, which a caller could pass by hand) is therefore not resolved as the file system would resolve it. For this reason Content.EntryPathInjective and DataStructures.TopicsAreDisjoint are stated only for slugs without `/`, which covers every discovered slug.
- gray-matter, YAML and compileMDX internals: these are opaque function parameters. How a body becomes blocks is left to the compile parameter. Only the registry resolution is modelled. Lower-case JSX tags are HTML elements, not components, and they belong to prose blocks.
- Registry.Resolve: component props are an untyped string map, because binding is structural and unchecked. A render-time failure of a component given the wrong props is not modelled. When several invocations are unregistered, which name the error reports is decided inside MDX's compiled output, which is not part of this model. The model reports the first unregistered invocation in block order.
- Catalog.Summaries: `localeCompare` collation is replaced by lexicographic order on character codes. This reorders ordinary titles, not only ties. Every upper-case letter sorts before every lower-case one, so "Singleton" comes before "observer". An accented initial sorts after every unaccented letter, so "Zeta" comes before "Árbol". Collation puts "observer" and "Árbol" first.
- Catalog.Summaries: front matter is cast without a check (`data as PatternFrontmatter`). The model types every title as a string. A file with no front matter, or with a non-string title, makes the source's comparator throw a TypeError, or compare against "undefined", depending on which side of the comparison it is. That outcome depends on the engine's sort algorithm and is not modelled.
- Patterns.GetPatternSummaries: inherits both Catalog.Summaries gaps, the character-code order and the unchecked title.
- DataStructures.GetDataStructureSummaries: inherits both Catalog.Summaries gaps, the character-code order and the unchecked title.
- Catalog.ReadSummaries: `Promise.all` rejects with the first failure in time. The model reports the first failing slug in listing order.
- DataStructuresIndex.BigOBlock: `Object.entries` lists integer-like keys before other keys. The model keeps the record's own key order for every key. Operation names are capitalised by DataStructuresIndex.FormatOperation, for ASCII letters only.
- CodeTabs.TabCaptions: `toUpperCase` is modelled for ASCII letters only. Characters outside ASCII, such as `ß` becoming `SS`, are left out.
- CodeTabs.MarkupFallbacks: `highlighted` is a plain object, so the lookup `highlighted[lang]` also finds `Object.prototype` members. A sample whose language is `constructor` or `toString` shows a stringified function, not the `<pre><code>` fallback, before highlighting resolves or after it fails. The model's map has no inherited keys.
- CodeTabs.Render: inherits both the CodeTabs.TabCaptions gap and the CodeTabs.MarkupFallbacks gap. A default caption is upper-cased for ASCII letters only, and the markup lookup finds no inherited `Object.prototype` keys.
- CodeTabs.FirstRender: inherits both the CodeTabs.TabCaptions gap and the CodeTabs.MarkupFallbacks gap. The first caption is upper-cased for ASCII letters only. The `<pre><code>` wrapper it states is what the source shows only when the first sample's language is not an `Object.prototype` member name such as `toString`.
- DataStructuresIndex.CardOf: inherits the DataStructuresIndex.BigOBlock gaps. Operation names are capitalised for ASCII letters only, so `último` stays lower-case. The record's key order is kept instead of the `Object.entries` order.
- DataStructuresIndex.FormatOperation: upper-cases the first character for ASCII letters only, as CodeTabs.TabCaptions does. A first character outside ASCII is left unchanged.
- CodeTabs: React rendering, hooks, re-rendering with a new `samples` prop, CSS classes, `dangerouslySetInnerHTML` and the 1500 ms delay are left out. The timer's firing is the `TimerFired` event. A clipboard write that rejects changes nothing, so it is not an event.
- Shiki highlighting: the grammar and the theme are not modelled. `codeToHtml` is a function parameter that succeeds or fails per sample.
- Editorial: the markup, CSS class strings and React keys are not modelled. Only the badge tone classes are kept as values. `aside` is modelled as optional text, not as an arbitrary React node.
- The detail pages `app/patterns/[slug]/page.tsx` and `app/data-structures/[slug]/page.tsx` are markup around the loaded entry. Only their `<article>{content}</article>` is modelled, by `Catalog.RenderContent`. The home page and the footer are static markup and are not part of this model.
- Singleton: the `console.info` output of `log` is not modelled.
