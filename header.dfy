/** The site header: the WhatsApp link built from the site settings, the navigation
    links with the active-link rule, and the mobile menu's open/closed state. */
module Header {
  import opened Json
  import opened Web
  import opened Sequences

  const DefaultWhatsApp := "+5491112345678"
  const DefaultSiteName := "Custom's & Comex CO"
  const WaPrefix := "https://wa.me/"

  /** `\d` without the Unicode flag: the ASCII digits only. */
  predicate IsDigit(c: char)
  {
    '0' <= c <= '9'
  }

  /** `replace(/\D/g, '')`: every character that is not a digit is dropped. */
  function Digits(s: string): string
  {
    Filter(s, IsDigit)
  }

  /** `settings?.whatsappNumber || '+5491112345678'`. */
  function WhatsAppNumber(settings: Json): Json
  {
    var n := Field(Some(settings), "whatsappNumber");
    if Present(n) then n.value else JStr(DefaultWhatsApp)
  }

  /** The link; a truthy number that is not a string has no `replace`, so the
      render throws. */
  function WhatsAppLink(settings: Json): Outcome<string>
  {
    var n := WhatsAppNumber(settings);
    if n.JStr? then Done(WaPrefix + Digits(n.s))
    else Threw(Thrown(None, "whatsappNumber.replace is not a function"))
  }

  /** `settings?.siteName || "Custom's & Comex CO"`. */
  function SiteName(settings: Json): Json
  {
    var n := Field(Some(settings), "siteName");
    if Present(n) then n.value else JStr(DefaultSiteName)
  }

  /** Without a usable number in the settings the default one is used. */
  lemma DefaultNumber(settings: Json)
    ensures !Present(Field(Some(settings), "whatsappNumber")) ==>
      WhatsAppLink(settings) == Done(WaPrefix + Digits(DefaultWhatsApp))
    ensures Present(Field(Some(settings), "whatsappNumber")) ==>
      WhatsAppNumber(settings) == settings.fields["whatsappNumber"]
  {
  }

  /** The default number's link: the leading '+' is dropped. */
  lemma DefaultLink()
    ensures Digits(DefaultWhatsApp) == "5491112345678"
  {
    var t := "5491112345678";
    assert DefaultWhatsApp == ['+'] + t;
    assert forall i :: 0 <= i < |t| ==> IsDigit(t[i]);
    PlusDropped(t);
  }

  lemma PlusDropped(t: string)
    requires forall i :: 0 <= i < |t| ==> IsDigit(t[i])
    ensures Digits(['+'] + t) == t
  {
    FilterConcat(['+'], t, IsDigit);
    assert Filter(['+'], IsDigit) == [];
    FilterAll(t, IsDigit);
  }

  /** The link's suffix consists of the number's digits only, all of them, in their
      original order. */
  lemma DigitsOnly(s: string)
    ensures forall c :: c in Digits(s) ==> IsDigit(c)
    ensures forall c :: c in s && IsDigit(c) ==> c in Digits(s)
    ensures Subsequence(Digits(s), s)
  {
    forall c
      ensures c in Digits(s) <==> c in s && IsDigit(c)
    {
      FilterMembership(s, IsDigit, c);
    }
    FilterSubsequence(s, IsDigit);
  }

  /** Stripping twice strips nothing more. */
  lemma DigitsIdempotent(s: string)
    ensures Digits(Digits(s)) == Digits(s)
  {
    FilterIdempotent(s, IsDigit);
  }

  /** A number written with separators gives the same link as the bare digits. */
  lemma DigitsOfJoin(a: string, b: string)
    ensures Digits(a + b) == Digits(a) + Digits(b)
  {
    FilterConcat(a, b, IsDigit);
  }

  /** The link of a string number. */
  lemma LinkOfNumber(settings: Json)
    requires WhatsAppNumber(settings).JStr?
    ensures WhatsAppLink(settings).Done?
    ensures var link := WhatsAppLink(settings).value;
      |link| >= |WaPrefix| && link[..|WaPrefix|] == WaPrefix &&
      (forall i :: |WaPrefix| <= i < |link| ==> IsDigit(link[i])) &&
      link[|WaPrefix|..] == Digits(WhatsAppNumber(settings).s)
  {
    var d := Digits(WhatsAppNumber(settings).s);
    assert WhatsAppLink(settings) == Done(WaPrefix + d);
    DigitsOnly(WhatsAppNumber(settings).s);
    PrefixThenDigits(WaPrefix, d);
  }

  lemma PrefixThenDigits(p: string, d: string)
    requires forall c :: c in d ==> IsDigit(c)
    ensures var link := p + d;
      link[..|p|] == p && link[|p|..] == d && forall i :: |p| <= i < |link| ==> IsDigit(link[i])
  {
    var link := p + d;
    forall i | |p| <= i < |link| ensures IsDigit(link[i]) {
      assert link[i] == d[i - |p|];
    }
  }

  /** The site name falls back to the default when the settings are missing or
      carry no truthy name. */
  lemma SiteNameFallback(settings: Json)
    ensures !Present(Field(Some(settings), "siteName")) ==> SiteName(settings) == JStr(DefaultSiteName)
    ensures settings == JNull ==> SiteName(settings) == JStr(DefaultSiteName)
    ensures Present(Field(Some(settings), "siteName")) ==>
      SiteName(settings) == settings.fields["siteName"] && Truthy(SiteName(settings))
  {
  }

  // ------------------------------------------------------------ navigation

  datatype NavLink = NavLink(href: string, caption: string)

  const NavLinks := [
    NavLink("/", "Inicio"),
    NavLink("/servicios", "Servicios"),
    NavLink("/sobre-mi", "Sobre Mí"),
    NavLink("/noticias", "Noticias"),
    NavLink("/importadora", "Importadora"),
    NavLink("/contacto", "Contacto")
  ]

  /** A link gets the active style exactly when the path equals its href. */
  predicate Active(pathname: string, link: NavLink)
  {
    pathname == link.href
  }

  /** The indices of the links shown as active. */
  function ActiveIndices(pathname: string): (r: set<nat>)
    ensures forall i: nat :: i in r <==> i < |NavLinks| && Active(pathname, NavLinks[i])
  {
    set i: nat | i < |NavLinks| && Active(pathname, NavLinks[i])
  }

  /** The hrefs are pairwise distinct. */
  lemma HrefsDistinct()
    ensures forall i, j :: 0 <= i < j < |NavLinks| ==> NavLinks[i].href != NavLinks[j].href
  {
  }

  /** At most one link is active, and one is active exactly when the path is one of
      the six hrefs; a sub-path such as "/noticias/x" activates none. */
  lemma AtMostOneActive(pathname: string)
    ensures |ActiveIndices(pathname)| <= 1
    ensures ActiveIndices(pathname) != {} <==> exists i :: 0 <= i < |NavLinks| && NavLinks[i].href == pathname
  {
    HrefsDistinct();
    var r := ActiveIndices(pathname);
    if r != {} {
      var i :| i in r;
      assert r == {i};
    }
  }

  // ------------------------------------------------------------ component state

  class HeaderView {
    var pathname: string
    var settings: Json
    var mobileMenuOpen: bool

    /** The first render: no settings yet and the menu closed. */
    constructor (path: string)
      ensures pathname == path && settings == JNull && !mobileMenuOpen
    {
      pathname := path;
      settings := JNull;
      mobileMenuOpen := false;
    }

    /** The settings fetch: its JSON replaces the settings; any failure is swallowed. */
    method SettingsLoaded(fetched: Outcome<Json>)
      modifies this
      ensures fetched.Done? ==> settings == fetched.value
      ensures fetched.Threw? ==> settings == old(settings)
      ensures pathname == old(pathname) && mobileMenuOpen == old(mobileMenuOpen)
    {
      if fetched.Done? {
        settings := fetched.value;
      }
    }

    /** The menu button flips the menu. */
    method ToggleMenu()
      modifies this
      ensures mobileMenuOpen == !old(mobileMenuOpen)
      ensures pathname == old(pathname) && settings == old(settings)
      ensures MobileLinks() == (if old(mobileMenuOpen) then [] else NavLinks)
    {
      mobileMenuOpen := !mobileMenuOpen;
    }

    /** A route change: the effect keyed on the path closes the menu; staying on the
        same path does not re-run it. */
    method Navigate(path: string)
      modifies this
      ensures pathname == path && settings == old(settings)
      ensures path != old(pathname) ==> !mobileMenuOpen && MobileLinks() == []
      ensures path == old(pathname) ==> mobileMenuOpen == old(mobileMenuOpen)
    {
      if path != pathname {
        pathname := path;
        mobileMenuOpen := false;
      }
    }

    /** The links listed by the mobile menu: all of them when open, none when closed. */
    function MobileLinks(): (r: seq<NavLink>)
      reads this
      ensures r == (if mobileMenuOpen then NavLinks else [])
    {
      if mobileMenuOpen then NavLinks else []
    }
  }
}
