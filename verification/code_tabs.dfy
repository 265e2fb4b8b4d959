/**
 * The multi-language code tabs: an event-driven state machine holding the
 * active language, the copy confirmation flag, the copy-reset timer and the
 * highlighted markup per language.
 *
 * Timers are explicit: `timerRef` is what the component remembers of its last
 * timer (`copyTimeout.current`), `pending` is the set of timers the runtime
 * still has scheduled. A fired timer is no longer pending but stays in
 * `timerRef`, as in the component, which never resets the reference when the
 * timer fires.
 */
module CodeTabs {
  import opened Wrappers
  import opened Strings

  /** One tab: `{ lang, label?, code }`. */
  datatype Sample = Sample(lang: string, caption: Option<string>, code: string)

  type TimerId = nat

  datatype State = State(
    samples: seq<Sample>,
    active: string,
    copied: bool,
    timerRef: Option<TimerId>,
    pending: set<TimerId>,
    nextTimer: TimerId,
    highlighted: map<string, string>,
    mounted: bool)

  /** Some sample has language `lang`. */
  predicate HasLang(samples: seq<Sample>, lang: string) {
    exists i :: 0 <= i < |samples| && samples[i].lang == lang
  }

  /** No two samples share a language. */
  predicate DistinctLangs(samples: seq<Sample>) {
    forall i, j :: 0 <= i < j < |samples| ==> samples[i].lang != samples[j].lang
  }

  /**
   * The state invariant: only the remembered timer can be pending, timer ids
   * are allocated fresh, and the active language is one of the samples' (or
   * empty when there are none).
   */
  predicate Valid(s: State) {
    && (forall id :: id in s.pending ==> s.timerRef == Some(id))
    && (forall id :: id in s.pending ==> id < s.nextTimer)
    && (s.timerRef.Some? ==> s.timerRef.value < s.nextTimer)
    && (if |s.samples| == 0 then s.active == "" else HasLang(s.samples, s.active))
  }

  /** At most one copy-reset timer is ever pending. */
  lemma AtMostOnePendingTimer(s: State)
    requires Valid(s)
    ensures |s.pending| <= 1
  {
    if s.timerRef.Some? && s.timerRef.value in s.pending {
      assert s.pending == {s.timerRef.value};
    } else {
      assert s.pending == {};
    }
  }

  // ---------------------------------------------------------------------
  // Derived values

  /** `samples.findIndex(sample => sample.lang === lang)`, as an option. */
  function FirstWithLang(samples: seq<Sample>, lang: string): (r: Option<nat>)
    ensures r.Some? <==> HasLang(samples, lang)
    ensures r.Some? ==>
      && r.value < |samples|
      && samples[r.value].lang == lang
      && forall j :: 0 <= j < r.value ==> samples[j].lang != lang
  {
    if |samples| == 0 then None
    else if samples[0].lang == lang then Some(0)
    else
      match FirstWithLang(samples[1..], lang)
      case None => None
      case Some(k) =>
        assert forall j :: 1 <= j <= k ==> samples[j] == samples[1..][j - 1];
        Some(k + 1)
  }

  /** `samples.find(sample => sample.lang === active) ?? samples[0]`; absent when there are no samples. */
  function ActiveSample(samples: seq<Sample>, active: string): (r: Option<Sample>)
    ensures r.Some? <==> |samples| > 0
    ensures r.Some? ==> r.value in samples
    ensures r.Some? && HasLang(samples, active) ==>
      exists i :: 0 <= i < |samples| && samples[i] == r.value && r.value.lang == active
                  && forall j :: 0 <= j < i ==> samples[j].lang != active
    ensures r.Some? && !HasLang(samples, active) ==> r.value == samples[0]
  {
    match FirstWithLang(samples, active)
    case Some(i) => Some(samples[i])
    case None => if |samples| > 0 then Some(samples[0]) else None
  }

  /** A tab's caption: its label when given (even an empty one), else its language upper-cased. */
  function TabLabel(sample: Sample): string {
    sample.caption.GetOr(ToUpper(sample.lang))
  }

  /** The markup shown for a sample: its highlighted entry, or its code wrapped in `<pre><code>`. */
  function Markup(highlighted: map<string, string>, sample: Sample): string {
    if sample.lang in highlighted then highlighted[sample.lang] else "<pre><code>" + sample.code + "</code></pre>"
  }

  // ---------------------------------------------------------------------
  // Highlighting

  /** The outcome of highlighting one sample: the highlighter's markup, or the raw code when it throws. */
  function HighlightOne(sample: Sample, highlight: (string, string) -> Option<string>): string {
    highlight(sample.code, sample.lang).GetOr(sample.code)
  }

  /**
   * The effect's `Promise.all`: one `[lang, markup]` pair per sample, in
   * sample order; nothing is started when there are no samples.
   */
  function LoadHighlight(samples: seq<Sample>, highlight: (string, string) -> Option<string>)
    : (r: Option<seq<(string, string)>>)
    ensures r.Some? <==> |samples| > 0
    ensures r.Some? ==> |r.value| == |samples|
    ensures r.Some? ==> forall i :: 0 <= i < |samples| ==> r.value[i] == (samples[i].lang, HighlightOne(samples[i], highlight))
  {
    if |samples| == 0 then None
    else Some(seq(|samples|, i requires 0 <= i < |samples| => (samples[i].lang, HighlightOne(samples[i], highlight))))
  }

  /** The keys occurring in an entry list. */
  function KeysOf(entries: seq<(string, string)>): set<string>
  {
    set i | 0 <= i < |entries| :: entries[i].0
  }

  /** `entries[i]` is the last entry carrying its key. */
  predicate IsLastOfKey(entries: seq<(string, string)>, i: int)
  {
    0 <= i < |entries| && forall j :: i < j < |entries| ==> entries[j].0 != entries[i].0
  }

  /** `Object.fromEntries`: every key present, and a repeated key keeps its last value. */
  function FromEntries(entries: seq<(string, string)>): (m: map<string, string>)
    ensures m.Keys == KeysOf(entries)
    ensures forall i :: IsLastOfKey(entries, i) ==> m[entries[i].0] == entries[i].1
  {
    if |entries| == 0 then map[]
    else
      var init := entries[..|entries| - 1];
      var last := entries[|entries| - 1];
      var m := FromEntries(init);
      assert entries == init + [last];
      FromEntriesStep(init, last, m);
      m[last.0 := last.1]
  }

  /** Adding a final entry to the map of all earlier ones keeps both properties of `FromEntries`. */
  lemma FromEntriesStep(init: seq<(string, string)>, last: (string, string), m: map<string, string>)
    requires m.Keys == KeysOf(init)
    requires forall i :: IsLastOfKey(init, i) ==> m[init[i].0] == init[i].1
    ensures m[last.0 := last.1].Keys == KeysOf(init + [last])
    ensures forall i :: IsLastOfKey(init + [last], i) ==> m[last.0 := last.1][(init + [last])[i].0] == (init + [last])[i].1
  {
    var entries := init + [last];
    var r := m[last.0 := last.1];
    assert entries[..|entries| - 1] == init;
    LastKeyJoins(entries);
    forall i | IsLastOfKey(entries, i) ensures r[entries[i].0] == entries[i].1 {
      if i < |init| {
        LastOfKeyInInit(entries, i);
      }
    }
  }

  /** An entry that is last of its key, and not the final entry, is also last of its key without the final entry. */
  lemma LastOfKeyInInit(entries: seq<(string, string)>, i: int)
    requires IsLastOfKey(entries, i) && i < |entries| - 1
    ensures IsLastOfKey(entries[..|entries| - 1], i)
    ensures entries[..|entries| - 1][i] == entries[i]
    ensures entries[i].0 != entries[|entries| - 1].0
  {
  }

  /** The keys of a non-empty entry list are those of all but its last entry, plus the last key. */
  lemma LastKeyJoins(entries: seq<(string, string)>)
    requires |entries| > 0
    ensures KeysOf(entries) == KeysOf(entries[..|entries| - 1]) + {entries[|entries| - 1].0}
  {
  }

  // ---------------------------------------------------------------------
  // Events

  datatype Event =
    | SelectTab(index: nat)                      // a click on the tab of `samples[index]`
    | HighlightDone(entries: seq<(string, string)>)  // the highlighting effect resolved
    | CopyResolved                               // the clipboard write resolved
    | TimerFired(id: TimerId)                    // a scheduled reset timer ran
    | Unmount                                    // the effect's cleanup ran

  /** The initial state: the first sample's language is active, nothing is copied or pending. */
  function Init(samples: seq<Sample>): (s: State)
    ensures Valid(s)
    ensures s.active == (if |samples| > 0 then samples[0].lang else "")
    ensures |samples| > 0 ==> ActiveSample(samples, s.active) == Some(samples[0])
    ensures !s.copied && s.pending == {} && s.highlighted == map[] && s.mounted
  {
    var s := State(samples, if |samples| > 0 then samples[0].lang else "", false, None, {}, 0, map[], true);
    assert |samples| > 0 ==> samples[0].lang == s.active;
    s
  }

  /** Clears the remembered timer, if any: `clearTimeout(copyTimeout.current)`. */
  function ClearRemembered(s: State): set<TimerId> {
    if s.timerRef.Some? then s.pending - {s.timerRef.value} else s.pending
  }

  /** The component's reaction to one event. */
  function Step(s: State, e: Event): (r: State)
    requires Valid(s)
    ensures Valid(r)
    ensures r.samples == s.samples
  {
    match e
    case SelectTab(i) =>
      if i < |s.samples| then s.(active := s.samples[i].lang) else s
    case HighlightDone(entries) =>
      if s.mounted then s.(highlighted := FromEntries(entries)) else s
    case CopyResolved =>
      s.(copied := true, timerRef := Some(s.nextTimer),
         pending := ClearRemembered(s) + {s.nextTimer}, nextTimer := s.nextTimer + 1)
    case TimerFired(id) =>
      if id in s.pending then s.(copied := false, pending := s.pending - {id}) else s
    case Unmount =>
      s.(mounted := false, timerRef := None, pending := ClearRemembered(s))
  }

  /** The state after a sequence of events. */
  function Run(s: State, events: seq<Event>): (r: State)
    requires Valid(s)
    ensures Valid(r)
    decreases |events|
  {
    if |events| == 0 then s else Run(Step(s, events[0]), events[1..])
  }

  /** Whatever happens after mounting, at most one reset timer is pending. */
  lemma OneTimerAlways(samples: seq<Sample>, events: seq<Event>)
    ensures |Run(Init(samples), events).pending| <= 1
  {
    AtMostOnePendingTimer(Run(Init(samples), events));
  }

  /** `handleCopy`: with a clipboard and a rendered sample, the text written is the active sample's code. */
  function CopyRequest(s: State, clipboard: bool): (r: Option<string>)
    ensures r.Some? <==> clipboard && |s.samples| > 0
    ensures r.Some? ==> exists i :: 0 <= i < |s.samples| && r.value == s.samples[i].code
                          && s.samples[i] == ActiveSample(s.samples, s.active).value
  {
    if !clipboard || |s.samples| == 0 then None
    else
      var sample := ActiveSample(s.samples, s.active).value;
      assert exists i :: 0 <= i < |s.samples| && s.samples[i] == sample;
      Some(sample.code)
  }

  // ---------------------------------------------------------------------
  // Rendering

  datatype TabButton = TabButton(text: string, isActive: bool)

  datatype View = View(tabs: seq<TabButton>, caption: string, copyLabel: string, markup: string)

  /** What the component renders: nothing without samples, else one button per sample and the active sample's figure. */
  function Render(s: State): (v: Option<View>)
    ensures v.None? <==> |s.samples| == 0
    ensures v.Some? ==>
      && |v.value.tabs| == |s.samples|
      && (forall i :: 0 <= i < |s.samples| ==>
            v.value.tabs[i] == TabButton(TabLabel(s.samples[i]), s.samples[i].lang == s.active))
      && v.value.caption == TabLabel(ActiveSample(s.samples, s.active).value)
      && v.value.copyLabel == (if s.copied then "Copiado" else "Copiar")
      && v.value.markup == Markup(s.highlighted, ActiveSample(s.samples, s.active).value)
  {
    if |s.samples| == 0 then None
    else
      var sample := ActiveSample(s.samples, s.active).value;
      Some(View(
        seq(|s.samples|, i requires 0 <= i < |s.samples| => TabButton(TabLabel(s.samples[i]), s.samples[i].lang == s.active)),
        TabLabel(sample),
        if s.copied then "Copiado" else "Copiar",
        Markup(s.highlighted, sample)))
  }

  // ---------------------------------------------------------------------
  // Properties of the state machine

  /** A tab reads its label when one is given, even an empty one, and otherwise its language upper-cased. */
  lemma TabCaptions(s: State, i: nat)
    requires i < |s.samples|
    ensures var tab := Render(s).value.tabs[i];
            && (s.samples[i].caption.Some? ==> tab.text == s.samples[i].caption.value)
            && (s.samples[i].caption.None? ==> tab.text == ToUpper(s.samples[i].lang) && |tab.text| == |s.samples[i].lang|)
  {
  }

  /**
   * The figure shows the active sample's highlighted entry once there is one;
   * before that (or if its language has no entry) its code inside `<pre><code>`.
   */
  lemma MarkupFallbacks(s: State)
    requires |s.samples| > 0
    ensures var a := ActiveSample(s.samples, s.active).value;
            && (a.lang in s.highlighted ==> Render(s).value.markup == s.highlighted[a.lang])
            && (a.lang !in s.highlighted ==> Render(s).value.markup == "<pre><code>" + a.code + "</code></pre>")
  {
  }

  /** Right after mounting, the first tab is shown with its code wrapped in `<pre><code>` and the button reads "Copiar". */
  lemma FirstRender(samples: seq<Sample>)
    requires |samples| > 0
    ensures Render(Init(samples)).value.markup == "<pre><code>" + samples[0].code + "</code></pre>"
    ensures Render(Init(samples)).value.caption == TabLabel(samples[0])
    ensures Render(Init(samples)).value.copyLabel == "Copiar"
    ensures Render(Init(samples)).value.tabs[0].isActive
  {
  }

  /** Selecting a tab makes its language active and changes nothing else. */
  lemma SelectTabOnlyChangesActive(s: State, i: nat)
    requires Valid(s) && i < |s.samples|
    ensures Step(s, SelectTab(i)) == s.(active := s.samples[i].lang)
    ensures ActiveSample(s.samples, Step(s, SelectTab(i)).active).value.lang == s.samples[i].lang
    ensures DistinctLangs(s.samples) ==> ActiveSample(s.samples, Step(s, SelectTab(i)).active) == Some(s.samples[i])
  {
  }

  /**
   * Copying twice leaves only the second timer pending: the first timer's
   * firing is a no-op, and the confirmation resets only when the second fires.
   */
  lemma CopyTwiceKeepsOneTimer(s: State)
    requires Valid(s)
    ensures var s1 := Step(s, CopyResolved);
            var s2 := Step(s1, CopyResolved);
            && s1.pending == {s.nextTimer}
            && s2.pending == {s.nextTimer + 1}
            && s2.copied
            && Step(s2, TimerFired(s.nextTimer)) == s2
            && !Step(s2, TimerFired(s.nextTimer + 1)).copied
            && Step(s2, TimerFired(s.nextTimer + 1)).pending == {}
  {
  }

  /** Unmounting leaves no pending timer, and a highlight result arriving later is discarded. */
  lemma UnmountDiscards(s: State, entries: seq<(string, string)>)
    requires Valid(s)
    ensures Step(s, Unmount).pending == {}
    ensures !Step(s, Unmount).mounted
    ensures Step(Step(s, Unmount), HighlightDone(entries)) == Step(s, Unmount)
  {
  }

  /**
   * With distinct languages, once highlighting has resolved, the markup shown
   * for any sample is that sample's own highlighting outcome: its highlighted
   * markup, or its raw code when the highlighter failed for it.
   */
  lemma HighlightedMarkupIsPerSample(s: State, highlight: (string, string) -> Option<string>, i: nat)
    requires Valid(s) && s.mounted && |s.samples| > 0 && DistinctLangs(s.samples) && i < |s.samples|
    ensures var r := Step(s, HighlightDone(LoadHighlight(s.samples, highlight).value));
            var sample := s.samples[i];
            && (highlight(sample.code, sample.lang).Some? ==> Markup(r.highlighted, sample) == highlight(sample.code, sample.lang).value)
            && (highlight(sample.code, sample.lang).None? ==> Markup(r.highlighted, sample) == sample.code)
  {
  }

  /**
   * The worked example: TypeScript highlights, an unknown language falls back
   * to its raw code, and neither affects the other.
   */
  lemma MixedHighlightExample(highlight: (string, string) -> Option<string>, html: string)
    requires highlight("let x=1", "ts") == Some(html)
    requires highlight("bad", "xx") == None
    ensures var s := Init([Sample("ts", None, "let x=1"), Sample("xx", None, "bad")]);
            var r := Step(s, HighlightDone(LoadHighlight(s.samples, highlight).value));
            && Markup(r.highlighted, s.samples[0]) == html
            && Markup(r.highlighted, s.samples[1]) == "bad"
  {
  }

  /**
   * Duplicate languages: the tab shows and copies the FIRST sample with the
   * active language while the markup comes from the LAST one.
   */
  lemma DuplicateLangShowsLastMarkup()
    ensures var s := Init([Sample("ts", None, "A"), Sample("ts", None, "B")]);
            var r := Step(s, HighlightDone(LoadHighlight(s.samples, (code, lang) => None).value));
            && CopyRequest(r, true) == Some("A")
            && Render(r).value.markup == "B"
  {
  }
}
