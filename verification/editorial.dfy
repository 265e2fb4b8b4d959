/**
 * The editorial components an entry body can invoke: the intro banner with
 * its badges, the narrative section, the two-column comparison list and the
 * fixed editorial example. Each is modelled by the parts it decides to show.
 */
module Editorial {
  import opened Wrappers

  datatype Tone = Neutral | Primary | Accent

  /** `{ label, tone? }` */
  datatype Badge = Badge(caption: string, tone: Option<Tone>)

  /** `{ label, href }` of the intro's call to action. */
  datatype Cta = Cta(caption: string, href: string)

  /** The class list of each badge tone. */
  function ToneClass(t: Tone): string {
    match t
    case Neutral => "border-slate-200 bg-white text-slate-600"
    case Primary => "border-indigo-200 bg-indigo-50 text-indigo-600"
    case Accent => "border-emerald-200 bg-emerald-50 text-emerald-600"
  }

  /** Each tone has its own class list. */
  lemma ToneClassInjective(a: Tone, b: Tone)
    requires ToneClass(a) == ToneClass(b)
    ensures a == b
  {
  }

  /** The two badges shown when the author gives none. */
  function DefaultBadges(category: string, level: string): seq<Badge> {
    [Badge(category, Some(Primary)), Badge("Nivel " + level, Some(Neutral))]
  }

  /** `badges.length ? badges : defaults`, with `badges` defaulting to `[]`. */
  function NormalizeBadges(badges: Option<seq<Badge>>, category: string, level: string): (r: seq<Badge>)
    ensures |r| > 0
    ensures badges.Some? && |badges.value| > 0 ==> r == badges.value
    ensures badges.None? || |badges.value| == 0 ==> |r| == 2 && r[0].caption == category && r[1].caption == "Nivel " + level
  {
    var given := badges.GetOr([]);
    if |given| > 0 then given else DefaultBadges(category, level)
  }

  /** Normalising twice changes nothing, whatever category and level the second pass sees. */
  lemma NormalizeBadgesIdempotent(badges: Option<seq<Badge>>, category: string, level: string, c: string, l: string)
    ensures NormalizeBadges(Some(NormalizeBadges(badges, category, level)), c, l) == NormalizeBadges(badges, category, level)
  {
  }

  /** `tone = "neutral"` when destructuring a badge. */
  function EffectiveTone(b: Badge): Tone {
    b.tone.GetOr(Neutral)
  }

  datatype BadgeView = BadgeView(caption: string, toneClass: string)

  datatype IntroProps = IntroProps(
    title: string, category: string, level: string, summary: string, problem: string,
    badges: Option<seq<Badge>>, cta: Option<Cta>)

  datatype IntroView = IntroView(badges: seq<BadgeView>, title: string, summary: string, problem: string, cta: Option<Cta>)

  /** `PatternIntro`: the normalised badges with their tone classes, the text, and the call to action when given. */
  function RenderIntro(p: IntroProps): (v: IntroView)
    ensures var nb := NormalizeBadges(p.badges, p.category, p.level);
            && |v.badges| == |nb|
            && forall i :: 0 <= i < |nb| ==> v.badges[i] == BadgeView(nb[i].caption, ToneClass(EffectiveTone(nb[i])))
    ensures v.cta == p.cta
    ensures (v.title, v.summary, v.problem) == (p.title, p.summary, p.problem)
  {
    var nb := NormalizeBadges(p.badges, p.category, p.level);
    IntroView(
      seq(|nb|, i requires 0 <= i < |nb| => BadgeView(nb[i].caption, ToneClass(EffectiveTone(nb[i])))),
      p.title, p.summary, p.problem, p.cta)
  }

  /** A badge given without a tone is drawn with the neutral class; one with a tone, with that tone's class. */
  lemma UntonedBadgeIsNeutral(p: IntroProps, i: nat)
    requires p.badges.Some? && i < |p.badges.value|
    ensures RenderIntro(p).badges[i].caption == p.badges.value[i].caption
    ensures p.badges.value[i].tone.None? ==> RenderIntro(p).badges[i].toneClass == ToneClass(Neutral)
    ensures p.badges.value[i].tone.Some? ==> RenderIntro(p).badges[i].toneClass == ToneClass(p.badges.value[i].tone.value)
  {
  }

  /** Without author badges the intro shows the category as a primary badge, then the level as a neutral one. */
  lemma IntroDefaultBadges(p: IntroProps)
    requires p.badges.None? || p.badges == Some([])
    ensures RenderIntro(p).badges == [BadgeView(p.category, ToneClass(Primary)), BadgeView("Nivel " + p.level, ToneClass(Neutral))]
  {
  }

  /** A text prop rendered through `{text && ...}`: shown only when present and non-empty. */
  function Shown(text: Option<string>): Option<string> {
    if text.Some? && text.value != "" then text else None
  }

  datatype NarrativeProps = NarrativeProps(
    caption: string, title: string, body: string, bullets: Option<seq<string>>, aside: Option<string>)

  datatype NarrativeView = NarrativeView(caption: string, title: string, body: string,
                                         bullets: Option<seq<string>>, aside: Option<string>)

  /** `PatternNarrativeSection`: the bullet list only when non-empty, the aside only when truthy. */
  function RenderNarrative(p: NarrativeProps): (v: NarrativeView)
    ensures v.bullets.Some? <==> p.bullets.Some? && |p.bullets.value| > 0
    ensures v.bullets.Some? ==> v.bullets == p.bullets
    ensures v.aside.Some? <==> p.aside.Some? && p.aside.value != ""
    ensures v.aside.Some? ==> v.aside == p.aside
    ensures (v.caption, v.title, v.body) == (p.caption, p.title, p.body)
  {
    NarrativeView(p.caption, p.title, p.body,
                  if p.bullets.Some? && |p.bullets.value| > 0 then p.bullets else None,
                  Shown(p.aside))
  }

  datatype Variant = Left | Right

  datatype AccentColor = Emerald | Rose

  datatype ColumnView = ColumnView(title: string, items: seq<string>, accent: AccentColor)

  /** `PatternListColumn`: the variant defaults to left; left is emerald and anything else rose. */
  function RenderColumn(title: string, items: seq<string>, variant: Option<Variant>): (v: ColumnView)
    ensures v.accent == Emerald <==> variant.None? || variant == Some(Left)
    ensures v.title == title && v.items == items
  {
    ColumnView(title, items, if variant.GetOr(Left) == Left then Emerald else Rose)
  }

  datatype DualListProps = DualListProps(
    leftTitle: string, leftItems: seq<string>, rightTitle: string, rightItems: seq<string>, footnote: Option<string>)

  datatype DualListView = DualListView(columns: seq<ColumnView>, footnote: Option<string>)

  /** `PatternDualList`: the left column (emerald), then the right one (rose), then the footnote when given. */
  function RenderDualList(p: DualListProps): (v: DualListView)
    ensures |v.columns| == 2
    ensures v.columns[0] == ColumnView(p.leftTitle, p.leftItems, Emerald)
    ensures v.columns[1] == ColumnView(p.rightTitle, p.rightItems, Rose)
    ensures v.footnote.Some? <==> p.footnote.Some? && p.footnote.value != ""
    ensures v.footnote.Some? ==> v.footnote == p.footnote
  {
    DualListView([RenderColumn(p.leftTitle, p.leftItems, None), RenderColumn(p.rightTitle, p.rightItems, Some(Right))],
                 Shown(p.footnote))
  }

  datatype ExampleView = ExampleView(intro: IntroView, narrative: NarrativeView, comparison: DualListView)

  /** The intro of the editorial example: no badges are passed. */
  const ExampleIntro: IntroProps := IntroProps(
    "Singleton", "Creacional", "básico",
    "Garantiza una única instancia global y provee una forma controlada de acceder a ella.",
    "Cuando múltiples componentes intentan crear sus propias instancias, se duplican recursos y se rompen invariantes compartidos.",
    None, Some(Cta("Ver ejemplos", "/patrones/singleton#ejemplos")))

  const ExampleNarrative: NarrativeProps := NarrativeProps(
    "Por qué existe", "Coordinación centralizada",
    "Aparece cuando un recurso debe ser único — ya sea una conexión, un logger o un registro de configuración.",
    Some(["Evita doble inicialización", "Ofrece punto de acceso controlado"]), None)

  const ExampleComparison: DualListProps := DualListProps(
    "Ventajas", ["Reduce consumo de memoria", "Simplifica orquestación"],
    "Desventajas", ["Aumenta acoplamiento", "Complica pruebas"],
    Some("Evalúa alternativas como inyección de dependencias antes de adoptarlo."))

  /** `PatternEditorialExample`: the fixed Singleton walkthrough; it takes no parameters and passes no badges. */
  function EditorialExample(): (v: ExampleView)
    ensures v.intro.badges == [BadgeView("Creacional", ToneClass(Primary)), BadgeView("Nivel básico", ToneClass(Neutral))]
    ensures v.narrative.bullets == ExampleNarrative.bullets && v.narrative.aside.None?
    ensures |v.comparison.columns| == 2 && v.comparison.columns[0].accent == Emerald && v.comparison.columns[1].accent == Rose
    ensures v.comparison.footnote == ExampleComparison.footnote
  {
    IntroDefaultBadges(ExampleIntro);
    assert "Nivel " + ExampleIntro.level == "Nivel básico";
    ExampleView(RenderIntro(ExampleIntro), RenderNarrative(ExampleNarrative), RenderDualList(ExampleComparison))
  }
}
