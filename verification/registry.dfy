/**
 * The closed set of components an entry body may invoke, and the resolution
 * of a parsed body against it. Both topics pass the same five components to
 * the MDX compiler.
 */
module Registry {
  import opened Wrappers
  import opened Content

  datatype Component =
    | PatternIntro
    | PatternNarrativeSection
    | PatternDualList
    | PatternEditorialExample
    | PatternCodeTabs

  /** The name under which a component is registered. */
  function Name(c: Component): string {
    match c
    case PatternIntro => "PatternIntro"
    case PatternNarrativeSection => "PatternNarrativeSection"
    case PatternDualList => "PatternDualList"
    case PatternEditorialExample => "PatternEditorialExample"
    case PatternCodeTabs => "PatternCodeTabs"
  }

  const Names: set<string> :=
    {"PatternIntro", "PatternNarrativeSection", "PatternDualList", "PatternEditorialExample", "PatternCodeTabs"}

  /** Resolves a component name in the registry. */
  function Lookup(name: string): (r: Option<Component>)
    ensures r.Some? <==> name in Names
    ensures r.Some? ==> Name(r.value) == name
  {
    if name == "PatternIntro" then Some(PatternIntro)
    else if name == "PatternNarrativeSection" then Some(PatternNarrativeSection)
    else if name == "PatternDualList" then Some(PatternDualList)
    else if name == "PatternEditorialExample" then Some(PatternEditorialExample)
    else if name == "PatternCodeTabs" then Some(PatternCodeTabs)
    else None
  }

  /** The registry holds exactly five names, one per component, and lookup inverts naming. */
  lemma RegistryIsClosed()
    ensures |Names| == 5
    ensures forall c: Component :: Name(c) in Names && Lookup(Name(c)) == Some(c)
    ensures forall n :: n in Names ==> exists c: Component :: Name(c) == n
  {
    assert forall n :: n in Names ==> Name(Lookup(n).value) == n;
  }

  /** Component properties, bound structurally and never validated. */
  type Props = map<string, string>

  /** A block of a parsed body: prose, or an invocation of a capitalised JSX component. */
  datatype Block = Prose(text: string) | Invocation(name: string, props: Props)

  /** A block of a compiled document: prose, or an element bound to a registered component. */
  datatype Node = Text(text: string) | Element(component: Component, props: Props)

  /** Every invocation in `blocks` names a registered component. */
  predicate AllRegistered(blocks: seq<Block>) {
    forall i :: 0 <= i < |blocks| && blocks[i].Invocation? ==> blocks[i].name in Names
  }

  /** A compiled node stands for a parsed block: same prose, or the named component with the same props. */
  predicate Compiles(b: Block, n: Node) {
    match b
    case Prose(t) => n == Text(t)
    case Invocation(name, props) => n.Element? && Name(n.component) == name && n.props == props
  }

  /** Block `i` is the first invocation of an unregistered name, and that name is `name`. */
  predicate FirstUnknownAt(blocks: seq<Block>, i: nat, name: string)
    requires i < |blocks|
  {
    && blocks[i].Invocation?
    && blocks[i].name == name
    && name !in Names
    && AllRegistered(blocks[..i])
  }

  /** Binds every invocation to its component; an unregistered name fails the whole body. */
  function Resolve(blocks: seq<Block>): (r: Result<seq<Node>, Error>)
    ensures r.Success? <==> AllRegistered(blocks)
    ensures r.Success? ==> |r.value| == |blocks| && forall i :: 0 <= i < |blocks| ==> Compiles(blocks[i], r.value[i])
    ensures r.Failure? ==>
      && r.error.UnknownComponent?
      && r.error.name !in Names
      && exists i :: 0 <= i < |blocks| && FirstUnknownAt(blocks, i, r.error.name)
  {
    if |blocks| == 0 then Success([])
    else
      var head := match blocks[0]
        case Prose(t) => Success(Text(t))
        case Invocation(name, props) =>
          match Lookup(name)
          case Some(c) => Success(Element(c, props))
          case None => Failure(UnknownComponent(name));
      if head.Failure? then
        assert FirstUnknownAt(blocks, 0, head.error.name);
        Failure(head.error)
      else
        var rest := Resolve(blocks[1..]);
        if rest.Failure? then
          assert exists i :: 0 <= i < |blocks| && FirstUnknownAt(blocks, i, rest.error.name) by {
            var k :| 0 <= k < |blocks[1..]| && FirstUnknownAt(blocks[1..], k, rest.error.name);
            assert blocks[k + 1] == blocks[1..][k];
            assert blocks[..k + 1][1..] == blocks[1..][..k];
            assert FirstUnknownAt(blocks, k + 1, rest.error.name);
          }
          Failure(rest.error)
        else
          assert forall i :: 1 <= i < |blocks| ==> blocks[i] == blocks[1..][i - 1];
          Success([head.value] + rest.value)
  }

  /** An unregistered invocation anywhere in a body makes compilation fail. */
  lemma UnknownNameFails(blocks: seq<Block>, i: nat)
    requires i < |blocks| && blocks[i].Invocation? && blocks[i].name !in Names
    ensures Resolve(blocks).Failure?
    ensures Resolve(blocks).error.UnknownComponent?
  {
  }
}
