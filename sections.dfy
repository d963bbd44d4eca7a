/** Page sections and the renderer that turns a list of them into components:
    invisible sections and unknown types contribute nothing. */
module Sections {
  import opened Json
  import Sequences

  /** A `Section` record: `content` is the untyped payload of its type. */
  datatype Section = Section(
    id: string, pageId: string, sectionType: string, content: Json,
    visible: bool, order: int, createdAt: int)

  /** The ten section components. */
  datatype Component =
    | Hero | ServicesGrid | CtaBand | RichText | Faq
    | Testimonials | ImportadoraTeaser | Stats | ImageText | ContactBlock

  /** One rendered component: which one, its React key and the content it receives. */
  datatype View = View(component: Component, key: string, content: Json)

  /** The type tag each component is registered under. */
  function TagOf(c: Component): string
  {
    match c
    case Hero => "HERO"
    case ServicesGrid => "SERVICES_GRID"
    case CtaBand => "CTA_BAND"
    case RichText => "RICH_TEXT"
    case Faq => "FAQ"
    case Testimonials => "TESTIMONIALS"
    case ImportadoraTeaser => "IMPORTADORA_TEASER"
    case Stats => "STATS"
    case ImageText => "IMAGE_TEXT"
    case ContactBlock => "CONTACT_BLOCK"
  }

  /** The renderer's `switch` on the type tag; `None` is the `default` branch. */
  function ComponentFor(tag: string): Option<Component>
  {
    match tag
    case "HERO" => Some(Hero)
    case "SERVICES_GRID" => Some(ServicesGrid)
    case "CTA_BAND" => Some(CtaBand)
    case "RICH_TEXT" => Some(RichText)
    case "FAQ" => Some(Faq)
    case "TESTIMONIALS" => Some(Testimonials)
    case "IMPORTADORA_TEASER" => Some(ImportadoraTeaser)
    case "STATS" => Some(Stats)
    case "IMAGE_TEXT" => Some(ImageText)
    case "CONTACT_BLOCK" => Some(ContactBlock)
    case _ => None
  }

  /** Each component is found under its own tag, and only under it: the switch
      and the registry are inverse to one another. */
  lemma ComponentForTag(c: Component, tag: string)
    ensures ComponentFor(TagOf(c)) == Some(c)
    ensures ComponentFor(tag) == Some(c) ==> tag == TagOf(c)
  {
  }

  /** The callback of `sections.map`: `null` for an invisible section or an unknown type. */
  function RenderOne(s: Section): Option<View>
  {
    if !s.visible then None
    else match ComponentFor(s.sectionType)
      case Some(c) => Some(View(c, s.id, s.content))
      case None => None
  }

  /** `SectionRenderer`: `null` (no output) for a missing or empty list, otherwise
      the mapped components with the `null`s dropped. */
  function Render(sections: Option<seq<Section>>): seq<View>
  {
    if sections.None? then [] else RenderAll(sections.value)
  }

  function RenderAll(ss: seq<Section>): seq<View>
  {
    if ss == [] then []
    else (match RenderOne(ss[0]) case Some(v) => [v] case None => []) + RenderAll(ss[1..])
  }

  /** The sections that produce output: visible and of a known type. */
  predicate Shown(s: Section)
  {
    s.visible && ComponentFor(s.sectionType).Some?
  }

  function ViewOf(s: Section): View
    requires Shown(s)
  {
    View(ComponentFor(s.sectionType).value, s.id, s.content)
  }

  lemma RenderSingle(s: Section)
    ensures RenderAll([s]) == if Shown(s) then [ViewOf(s)] else []
  {
    assert [s][1..] == [];
  }

  lemma {:induction false} RenderConcat(a: seq<Section>, b: seq<Section>)
    ensures RenderAll(a + b) == RenderAll(a) + RenderAll(b)
  {
    if a == [] {
      assert a + b == b;
    } else {
      assert (a + b)[0] == a[0] && (a + b)[1..] == a[1..] + b;
      RenderConcat(a[1..], b);
    }
  }

  /** The output is the input restricted to visible sections of known types, in
      input order, each passed to its component with its content unchanged. */
  lemma {:induction false} RenderIsShownInOrder(ss: seq<Section>)
    ensures var shown := Sequences.Filter(ss, Shown);
      |RenderAll(ss)| == |shown| &&
      forall i :: 0 <= i < |shown| ==> Shown(shown[i]) && RenderAll(ss)[i] == ViewOf(shown[i])
  {
    if ss != [] {
      RenderIsShownInOrder(ss[1..]);
      assert ss == [ss[0]] + ss[1..];
      RenderConcat([ss[0]], ss[1..]);
      RenderSingle(ss[0]);
      Sequences.FilterConcat([ss[0]], ss[1..], Shown);
      assert Sequences.Filter([ss[0]], Shown) == if Shown(ss[0]) then [ss[0]] else [] by {
        assert [ss[0]][1..] == [];
      }
    }
  }

  /** A missing or empty list renders nothing. */
  lemma RenderNothing(sections: Option<seq<Section>>)
    requires sections.None? || sections == Some([])
    ensures Render(sections) == []
  {
  }

  /** An invisible section contributes nothing, whatever its type or position. */
  lemma InvisibleContributesNothing(a: seq<Section>, s: Section, b: seq<Section>)
    requires !s.visible
    ensures RenderAll(a + [s] + b) == RenderAll(a) + RenderAll(b)
  {
    RenderConcat(a + [s], b);
    RenderConcat(a, [s]);
    RenderSingle(s);
  }

  /** A section of an unknown type contributes nothing, and rendering it is still defined. */
  lemma UnknownContributesNothing(a: seq<Section>, s: Section, b: seq<Section>)
    requires ComponentFor(s.sectionType).None?
    ensures RenderAll(a + [s] + b) == RenderAll(a) + RenderAll(b)
  {
    RenderConcat(a + [s], b);
    RenderConcat(a, [s]);
    RenderSingle(s);
  }

  /** A visible section of a known type renders as exactly its component, keyed by its id. */
  lemma KnownRendersOnce(s: Section, c: Component)
    requires s.visible && s.sectionType == TagOf(c)
    ensures RenderAll([s]) == [View(c, s.id, s.content)]
  {
    ComponentForTag(c, s.sectionType);
    assert [s][1..] == [];
  }
}
