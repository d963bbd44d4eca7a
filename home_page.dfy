/** The home page: its data query, its metadata fallbacks, and the composition
    that renders the first HERO section ahead of the others. */
module HomePage {
  import opened Json
  import opened Sections
  import Sequences

  /** A `Page` record. */
  datatype Page = Page(
    id: string, slug: string, title: string,
    seoTitle: Option<string>, seoDescription: Option<string>, ogImageUrl: Option<string>,
    published: bool)

  /** What `getPageData` returns: the page with the sections the query included. */
  datatype PageData = PageData(page: Page, sections: seq<Section>)

  const NotFoundMessage: string := "Página no encontrada"
  const DefaultTitle: string := "Custom's & Comex CO"
  const DefaultDescription: string := "Servicios profesionales de comercio exterior"

  /** `findUnique({ where: { slug } })`; slugs are unique, so the first match is the match. */
  function FindBySlug(pages: seq<Page>, slug: string): (r: Option<Page>)
    ensures r.Some? ==> r.value in pages && r.value.slug == slug
    ensures r.None? ==> forall p :: p in pages ==> p.slug != slug
  {
    if pages == [] then None
    else if pages[0].slug == slug then Some(pages[0])
    else FindBySlug(pages[1..], slug)
  }

  /** The `orderBy: { order: 'asc' }` comparison. */
  predicate OrderLte(a: Section, b: Section)
  {
    a.order <= b.order
  }

  /** `getPageData`: the home page with its visible sections, ordered by `order`
      ascending, ties kept in store order. */
  function GetPageData(pages: seq<Page>, sections: seq<Section>): Option<PageData>
  {
    match FindBySlug(pages, "home")
    case None => None
    case Some(p) =>
      Some(PageData(p, Sequences.SortBy(Sequences.Filter(sections, (s: Section) => s.pageId == p.id && s.visible), OrderLte)))
  }

  /** The query returns exactly the home page's visible sections (as a
      multiset), sorted by `order`, and sections that share an `order` keep
      their store order. */
  lemma PageDataShape(pages: seq<Page>, sections: seq<Section>, v: int)
    ensures var d := GetPageData(pages, sections);
      d.Some? ==>
        var home := (s: Section) => s.pageId == d.value.page.id && s.visible;
        d.value.page.slug == "home" &&
        multiset(d.value.sections) == multiset(Sequences.Filter(sections, home)) &&
        Sequences.SortedBy(d.value.sections, OrderLte) &&
        Sequences.Filter(d.value.sections, (s: Section) => s.order == v) ==
          Sequences.Filter(Sequences.Filter(sections, home), (s: Section) => s.order == v)
  {
    var d := GetPageData(pages, sections);
    if d.Some? {
      var home := (s: Section) => s.pageId == d.value.page.id && s.visible;
      var picked := Sequences.Filter(sections, home);
      assert Sequences.TotalPreorder(OrderLte);
      Sequences.SortBySorted(picked, OrderLte);
      Sequences.SortByPermutes(picked, OrderLte);
      Sequences.SortByStable(picked, OrderLte, (s: Section) => s.order == v);
    }
  }

  /** Every section the query returns is visible. */
  lemma PageDataVisible(pages: seq<Page>, sections: seq<Section>)
    ensures var d := GetPageData(pages, sections);
      d.Some? ==> forall s :: s in d.value.sections ==> s.visible && s.pageId == d.value.page.id
  {
    var d := GetPageData(pages, sections);
    if d.Some? {
      var home := (s: Section) => s.pageId == d.value.page.id && s.visible;
      var picked := Sequences.Filter(sections, home);
      Sequences.SortByPermutes(picked, OrderLte);
      forall s | s in d.value.sections ensures s.visible && s.pageId == d.value.page.id {
        assert s in multiset(d.value.sections);
        assert s in multiset(picked);
        Sequences.FilterMembership(sections, home, s);
      }
    }
  }

  /** `a || b` on an optional string. */
  function OrElse(a: Option<string>, b: string): string
  {
    if a.Some? && a.value != "" then a.value else b
  }

  datatype Metadata = Metadata(
    title: string, description: string,
    ogTitle: string, ogDescription: string, ogImages: seq<string>)

  /** `generateMetadata`. */
  function GenerateMetadata(data: Option<PageData>): Metadata
  {
    var title := if data.None? then DefaultTitle
                 else OrElse(data.value.page.seoTitle, OrElse(Some(data.value.page.title), DefaultTitle));
    var description := if data.None? then DefaultDescription
                       else OrElse(data.value.page.seoDescription, DefaultDescription);
    var images := if data.Some? && data.value.page.ogImageUrl.Some? && data.value.page.ogImageUrl.value != ""
                  then [data.value.page.ogImageUrl.value] else [];
    Metadata(title, description, title, description, images)
  }

  /** The title falls back from the SEO title to the page title to the site's
      name, so it is never empty; the description falls back likewise, and
      there is one Open Graph image exactly when an image URL is set. */
  lemma MetadataFallbacks(data: Option<PageData>)
    ensures var m := GenerateMetadata(data);
      m.title != "" && m.description != "" && m.ogTitle == m.title && m.ogDescription == m.description &&
      (data.None? ==> m.title == DefaultTitle && m.ogImages == []) &&
      (data.Some? ==>
        var p := data.value.page;
        (p.seoTitle.Some? && p.seoTitle.value != "" ==> m.title == p.seoTitle.value) &&
        (OrElse(p.seoTitle, "") == "" && p.title != "" ==> m.title == p.title) &&
        (OrElse(p.seoTitle, "") == "" && p.title == "" ==> m.title == DefaultTitle) &&
        (|m.ogImages| == 1 <==> OrElse(p.ogImageUrl, "") != "") &&
        (|m.ogImages| != 1 ==> m.ogImages == []))
  {
  }

  /** `page.sections.find(s => s.type === 'HERO')`. */
  function FirstHero(ss: seq<Section>): (r: Option<Section>)
    ensures r.Some? ==> r.value.sectionType == "HERO"
  {
    if ss == [] then None
    else if ss[0].sectionType == "HERO" then Some(ss[0])
    else FirstHero(ss[1..])
  }

  predicate NotHero(s: Section)
  {
    s.sectionType != "HERO"
  }

  /** What `HomePage` renders: the not-found message, or the hero (wrapped in
      its parallax scene, when there is one) followed by the other sections. */
  datatype HomeView =
    | NotFound(message: string)
    | Home(hero: Option<seq<View>>, rest: seq<View>)

  /** `HomePage`. */
  function Compose(data: Option<PageData>): HomeView
  {
    match data
    case None => NotFound(NotFoundMessage)
    case Some(d) =>
      var hero := FirstHero(d.sections);
      var heroView := if hero.Some? then Some(Render(Some([hero.value]))) else None;
      Home(heroView, Render(Some(Sequences.Filter(d.sections, NotHero))))
  }

  /** The components in document order. */
  function Output(v: HomeView): seq<View>
  {
    match v
    case NotFound(_) => []
    case Home(hero, rest) => (if hero.Some? then hero.value else []) + rest
  }

  /** A missing home page yields the not-found message. */
  lemma MissingPage()
    ensures Compose(None) == NotFound(NotFoundMessage)
  {
  }

  /** The not-found text as the page's source file holds it: the two UTF-8 bytes
      of the accented letter were decoded once more, one character per byte. */
  const NotFoundAsWritten: string := "P\U{C3}\U{A1}gina no encontrada"

  /** The UTF-8 encoding of a character that takes two bytes. */
  function Utf8Pair(c: char): (r: seq<int>)
    requires 0x80 <= c as int < 0x800
    ensures |r| == 2 && 0xC0 <= r[0] < 0xE0 && 0x80 <= r[1] < 0xC0
  {
    [0xC0 + c as int / 64, 0x80 + c as int % 64]
  }

  /** Bytes read as Latin-1: each byte becomes the character with that code. */
  function Latin1(bytes: seq<int>): (r: string)
    requires forall i :: 0 <= i < |bytes| ==> 0 <= bytes[i] < 256
    ensures |r| == |bytes| && forall i :: 0 <= i < |bytes| ==> r[i] as int == bytes[i]
  {
    seq(|bytes|, i requires 0 <= i < |bytes| => bytes[i] as char)
  }

  /** The text the page shows differs from the intended one exactly by the
      double decoding of its `á`. */
  lemma NotFoundMisencoded()
    ensures NotFoundAsWritten != NotFoundMessage
    ensures NotFoundMessage[1] == 'á' && |NotFoundAsWritten| == |NotFoundMessage| + 1
    ensures NotFoundAsWritten[..1] == NotFoundMessage[..1]
    ensures NotFoundAsWritten[1..3] == Latin1(Utf8Pair(NotFoundMessage[1]))
    ensures NotFoundAsWritten[3..] == NotFoundMessage[2..]
  {
    assert NotFoundAsWritten[1] != NotFoundMessage[1];
    SameTail();
    assert NotFoundAsWritten[..1] == "P" == NotFoundMessage[..1];
    assert NotFoundAsWritten[1..3] == "\U{C3}\U{A1}" == Latin1(Utf8Pair('á'));
  }

  /** After the accented letter both texts read "gina no encontrada". */
  lemma SameTail()
    ensures |NotFoundAsWritten| == |NotFoundMessage| + 1
    ensures NotFoundAsWritten[3..] == NotFoundMessage[2..]
  {
    assert NotFoundAsWritten[3..] == "gina no encontrada";
  }

  lemma {:induction false} FirstHeroIsFirst(ss: seq<Section>)
    ensures FirstHero(ss).Some? <==> exists i :: 0 <= i < |ss| && ss[i].sectionType == "HERO"
    ensures FirstHero(ss).Some? ==>
      (exists i :: 0 <= i < |ss| && ss[i] == FirstHero(ss).value &&
         (forall j :: 0 <= j < i ==> ss[j].sectionType != "HERO"))
  {
    if ss != [] && ss[0].sectionType != "HERO" {
      FirstHeroIsFirst(ss[1..]);
      if FirstHero(ss).Some? {
        var i :| 0 <= i < |ss[1..]| && ss[1..][i] == FirstHero(ss).value &&
          forall j :: 0 <= j < i ==> ss[1..][j].sectionType != "HERO";
        assert ss[i + 1] == FirstHero(ss).value;
        forall j | 0 <= j < i + 1 ensures ss[j].sectionType != "HERO" {
          if j > 0 { assert ss[j] == ss[1..][j - 1]; }
        }
      } else {
        forall i | 0 <= i < |ss| ensures ss[i].sectionType != "HERO" {
          if i > 0 { assert ss[i] == ss[1..][i - 1]; }
        }
      }
    } else if ss != [] {
      assert ss[0] == FirstHero(ss).value;
    }
  }

  /** No component other than the hero's is a HERO: the non-HERO group renders none. */
  lemma {:induction false} RestHasNoHero(ss: seq<Section>)
    ensures forall v :: v in RenderAll(Sequences.Filter(ss, NotHero)) ==> v.component != Sections.Hero
  {
    var rest := Sequences.Filter(ss, NotHero);
    RenderIsShownInOrder(rest);
    var shown := Sequences.Filter(rest, Shown);
    forall v | v in RenderAll(rest) ensures v.component != Sections.Hero {
      var i :| 0 <= i < |RenderAll(rest)| && RenderAll(rest)[i] == v;
      var s := shown[i];
      Sequences.FilterMembership(rest, Shown, s);
      Sequences.FilterMembership(ss, NotHero, s);
      ComponentForTag(Sections.Hero, s.sectionType);
    }
  }

  /** When the page has a visible HERO section, the first one is rendered ahead
      of everything else; every HERO component in the output is that one, so a
      second HERO section is never rendered. */
  lemma HeroFirstAndOnly(d: PageData)
    ensures var out := Output(Compose(Some(d)));
      var hero := FirstHero(d.sections);
      (hero.Some? && hero.value.visible ==>
        |out| > 0 && out[0] == View(Sections.Hero, hero.value.id, hero.value.content)) &&
      (forall v :: v in out && v.component == Sections.Hero ==>
        hero.Some? && v == View(Sections.Hero, hero.value.id, hero.value.content))
  {
    var hero := FirstHero(d.sections);
    RestHasNoHero(d.sections);
    if hero.Some? {
      RenderSingle(hero.value);
      ComponentForTag(Sections.Hero, hero.value.sectionType);
    }
  }

  /** The sections after the hero are the non-HERO sections in fetched order,
      restricted to those that render. */
  lemma RestInFetchedOrder(d: PageData)
    ensures Compose(Some(d)).Home?
    ensures var rest := Compose(Some(d)).rest;
      var shown := Sequences.Filter(Sequences.Filter(d.sections, NotHero), Shown);
      |rest| == |shown| && forall i :: 0 <= i < |shown| ==> Shown(shown[i]) && rest[i] == ViewOf(shown[i])
  {
    RenderIsShownInOrder(Sequences.Filter(d.sections, NotHero));
  }

  /** The worked example: HERO (visible), FAQ (hidden), CTA_BAND (visible)
      renders the hero and then the band. */
  lemma ExampleHomePage(p: Page, c: Json)
    ensures var ss := [
        Section("h", p.id, "HERO", c, true, 0, 0),
        Section("f", p.id, "FAQ", c, false, 1, 0),
        Section("b", p.id, "CTA_BAND", c, true, 2, 0)];
      Output(Compose(Some(PageData(p, ss)))) == [View(Sections.Hero, "h", c), View(CtaBand, "b", c)]
  {
    var h := Section("h", p.id, "HERO", c, true, 0, 0);
    var f := Section("f", p.id, "FAQ", c, false, 1, 0);
    var b := Section("b", p.id, "CTA_BAND", c, true, 2, 0);
    var ss := [h, f, b];
    assert FirstHero(ss) == Some(h);
    var rest := Sequences.Filter(ss, NotHero);
    assert rest == [f, b] by {
      assert ss[1..] == [f, b] && ss[1..][1..] == [b] && ss[1..][1..][1..] == [];
      assert Sequences.Filter([b], NotHero) == [b];
      assert Sequences.Filter([f, b], NotHero) == [f, b];
    }
    assert RenderAll([h]) == [View(Sections.Hero, "h", c)] by {
      RenderSingle(h);
    }
    assert RenderAll(rest) == [View(CtaBand, "b", c)] by {
      RenderSingle(f);
      RenderSingle(b);
      assert rest == [f] + [b];
      RenderConcat([f], [b]);
    }
  }
}
