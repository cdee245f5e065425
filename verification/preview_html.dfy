/** The static preview renderer of `buildPreviewHtml.ts`: a page record whose
    every part may be missing, serialized to one HTML string by template
    concatenation. Nothing is escaped: labels, links and texts are inserted
    verbatim. */
module PreviewHtml {
  import opened Wrappers
  import opened JsText

  /** `label` is a reserved word here, so a link's label is its `caption`. */
  datatype PageLink = PageLink(caption: Option<string>, link: Option<string>)
  datatype Feature = Feature(icon: Option<string>, title: Option<string>, description: Option<string>)
  /** `kind` is the media record's `type`. */
  datatype Media = Media(name: Option<string>, kind: Option<string>, features: Option<seq<Feature>>)
  datatype SectionWelcome = SectionWelcome(title: Option<string>, description: Option<string>)
  datatype SectionAbout = SectionAbout(title: Option<string>, description: Option<string>, media: Option<Media>)
  datatype Navigation = Navigation(items: Option<seq<PageLink>>)
  datatype Footer = Footer(copy: Option<string>, legal: Option<seq<PageLink>>)
  datatype PageMeta = PageMeta(title: Option<string>, description: Option<string>)
  datatype Brand = Brand(logo: Option<string>, name: Option<string>, link: Option<string>)
  datatype Sections = Sections(welcome: Option<SectionWelcome>, about: Option<SectionAbout>)
  datatype PageData = PageData(
    meta: Option<PageMeta>,
    brand: Option<Brand>,
    navigation: Option<Navigation>,
    sections: Option<Sections>,
    footer: Option<Footer>)

  /** `toText`: a missing text is the empty string; a present one is kept. */
  function ToText(value: Option<string>): (r: string)
    ensures value.None? ==> r == ""
    ensures value.Some? ==> r == value.value
  {
    value.GetOr("")
  }

  /** `s || fallback` on a string: the empty string is falsy. */
  function OrElse(s: string, fallback: string): (r: string)
    ensures s != "" ==> r == s
    ensures s == "" ==> r == fallback
  {
    if s != "" then s else fallback
  }

  /** Where a link points: its `link`, or `#` when it has none. */
  function Href(link: Option<string>): (r: string)
    ensures link.None? ==> r == "#"
    ensures link.Some? ==> r == link.value
  {
    link.GetOr("#")
  }

  const NavigationLinkClass: string := "text-gray-700 hover:text-gray-900"
  const FooterLinkClass: string := "text-gray-400 hover:text-white"

  /** One link as an anchor with the given class. */
  function Anchor(l: PageLink, style: string): (r: string)
    ensures StartsWith(r, "<a href=\"" + Href(l.link) + "\"")
    ensures EndsWith(r, ">" + ToText(l.caption) + "</a>")
  {
    var open := "<a href=\"" + Href(l.link) + "\"";
    var r := open + " class=\"" + style + "\">" + ToText(l.caption) + "</a>";
    assert r[..|open|] == open;
    assert r[|r| - |">" + ToText(l.caption) + "</a>"|..] == ">" + ToText(l.caption) + "</a>";
    r
  }

  /** The anchor renderer for one link class. */
  function AnchorWith(style: string): PageLink -> string {
    l => Anchor(l, style)
  }

  /** `links.map(anchor).join('')`. */
  function RenderLinks(links: seq<PageLink>, style: string): (r: string)
    ensures r == "" <==> |links| == 0
  {
    MapJoin(links, AnchorWith(style))
  }

  /** `renderNavigation`. */
  function RenderNavigation(items: seq<PageLink>): string {
    RenderLinks(items, NavigationLinkClass)
  }

  /** `renderFooterLinks`. */
  function RenderFooterLinks(links: seq<PageLink>): string {
    RenderLinks(links, FooterLinkClass)
  }

  /** Rendering links is a homomorphism from lists to strings: the output
      for a concatenation is the concatenation of the outputs, so links
      appear in input order. */
  lemma {:induction false} RenderLinksConcat(a: seq<PageLink>, b: seq<PageLink>, style: string)
    ensures RenderLinks(a + b, style) == RenderLinks(a, style) + RenderLinks(b, style)
  {
    MapJoinConcat(a, b, AnchorWith(style));
  }

  /** A single link renders as its own anchor and nothing else. */
  lemma {:induction false} RenderLinksSingle(l: PageLink, style: string)
    ensures RenderLinks([l], style) == Anchor(l, style)
  {
    MapJoinSingle(l, AnchorWith(style));
  }

  /** `renderWelcome`. */
  function RenderWelcome(section: Option<SectionWelcome>): (r: string)
    ensures r == "" <==> section.None?
  {
    match section
    case None => ""
    case Some(s) =>
      WelcomeOpen + WelcomeContainer + WelcomeHeading + ToText(s.title)
      + WelcomeTitleClose + ToText(s.description) + WelcomeClose
  }

  const WelcomeOpen: string := "\n  <section class=\"bg-linear-to-r from-blue-500 to-purple-600 text-white py-20\">"
  const WelcomeContainer: string := "\n    <div class=\"container mx-auto px-4 text-center\">"
  const WelcomeHeading: string := "\n      <h1 class=\"text-5xl font-bold mb-4\">"
  const WelcomeTitleClose: string := "</h1>\n      <p class=\"text-xl\">"
  const WelcomeClose: string := "</p>\n    </div>\n  </section>"

  const DefaultIcon: string := "\U{1F4CC}"

  /** The icon shown for a feature: its own, or the pin when it has none
      or an empty one. */
  function FeatureIcon(f: Feature): (r: string)
    ensures f.icon.None? || f.icon == Some("") ==> r == DefaultIcon
    ensures f.icon.Some? && f.icon.value != "" ==> r == f.icon.value
  {
    OrElse(ToText(f.icon), DefaultIcon)
  }

  function RenderFeature(f: Feature): string {
    FeatureOpen + FeatureIconOpen + FeatureIcon(f) + FeatureIconClose
    + FeatureHeading + ToText(f.title) + FeatureHeadingClose
    + ToText(f.description) + FeatureClose
  }

  const FeatureOpen: string := "\n              <div class=\"flex items-start gap-3 mt-4\">"
  const FeatureIconOpen: string := "\n                <span class=\"text-2xl\">"
  const FeatureIconClose: string := "</span>\n                <div>"
  const FeatureHeading: string := "\n                  <h4 class=\"font-semibold\">"
  const FeatureHeadingClose: string := "</h4>\n                  <p class=\"text-gray-600\">"
  const FeatureClose: string := "</p>\n                </div>\n              </div>\n            "

  /** `features.map(...).join('')`. */
  function RenderFeatures(fs: seq<Feature>): (r: string)
    ensures r == "" <==> |fs| == 0
  {
    MapJoin(fs, RenderFeature)
  }

  /** One block per feature, in order: the output for a concatenation is
      the concatenation of the outputs. */
  lemma {:induction false} RenderFeaturesConcat(a: seq<Feature>, b: seq<Feature>)
    ensures RenderFeatures(a + b) == RenderFeatures(a) + RenderFeatures(b)
  {
    MapJoinConcat(a, b, RenderFeature);
  }

  /** A single feature renders as its own block and nothing else. */
  lemma {:induction false} RenderFeaturesSingle(f: Feature)
    ensures RenderFeatures([f]) == RenderFeature(f)
  {
    MapJoinSingle(f, RenderFeature);
  }

  /** A block shows the feature's icon, falling back to the pin. */
  lemma {:induction false} FeatureBlockShowsIcon(f: Feature)
    ensures StartsWith(RenderFeature(f), FeatureOpen + FeatureIconOpen + FeatureIcon(f) + FeatureIconClose)
  {
    PrefixOfChain(FeatureOpen + FeatureIconOpen + FeatureIcon(f) + FeatureIconClose,
      FeatureHeading, ToText(f.title), FeatureHeadingClose, ToText(f.description), FeatureClose);
  }

  /** `renderAboutMedia`. */
  function RenderAboutMedia(media: Option<Media>): (r: string)
    ensures r == "" <==> media.None?
  {
    match media
    case None => ""
    case Some(m) =>
      MediaOpen + MediaInner + MediaHeading + ToText(m.name) + MediaHeadingClose
      + ToText(m.kind) + MediaKindClose + RenderFeatures(m.features.GetOr([])) + MediaClose
  }

  const MediaOpen: string := "\n        <div class=\"mt-8 grid grid-cols-1 md:grid-cols-2 gap-4\">"
  const MediaInner: string := "\n          <div>"
  const MediaHeading: string := "\n            <h3 class=\"text-xl font-semibold mb-2\">"
  const MediaHeadingClose: string := "</h3>\n            <p class=\"text-gray-600\">"
  const MediaKindClose: string := "</p>\n            "
  const MediaClose: string := "\n          </div>\n        </div>"

  /** `renderAbout`. */
  function RenderAbout(section: Option<SectionAbout>): (r: string)
    ensures r == "" <==> section.None?
  {
    match section
    case None => ""
    case Some(s) =>
      AboutOpen + AboutContainer + AboutHeading + ToText(s.title) + AboutHeadingClose
      + ToText(s.description) + AboutProseClose + RenderAboutMedia(s.media) + AboutClose
  }

  const AboutOpen: string := "\n  <section class=\"py-16\">"
  const AboutContainer: string := "\n    <div class=\"container mx-auto px-4\">"
  const AboutHeading: string := "\n      <h2 class=\"text-3xl font-bold mb-6\">"
  const AboutHeadingClose: string := "</h2>\n      <div class=\"prose max-w-none\">"
  const AboutProseClose: string := "</div>\n      "
  const AboutClose: string := "\n    </div>\n  </section>"

  /** The footer up to where the link container would go. */
  function FooterHead(copy: string): string {
    FooterOpen + FooterContainer + "\n      <p>" + copy + "</p>\n      "
  }

  const FooterOpen: string := "\n  <footer class=\"bg-gray-900 text-white py-8 mt-auto\">"
  const FooterContainer: string := "\n    <div class=\"container mx-auto px-4 text-center\">"
  const LinkContainerOpen: string := "\n        <div class=\"flex justify-center gap-4 mt-4\">\n          "
  const LinkContainerClose: string := "\n        </div>\n      "
  const FooterTail: string := "\n    </div>\n  </footer>"

  /** `renderFooter`: always a footer; the link container only when there
      is at least one legal link. */
  function RenderFooter(footer: Option<Footer>): (r: string)
    ensures StartsWith(r, FooterHead(FooterCopy(footer)))
    ensures EndsWith(r, FooterTail)
    ensures |FooterLegal(footer)| > 0
        <==> StartsWith(r[|FooterHead(FooterCopy(footer))|..], LinkContainerOpen)
  {
    var head := FooterHead(FooterCopy(footer));
    var links := RenderFooterLinks(FooterLegal(footer));
    FooterFrame(head, links);
    head + (if links != "" then LinkContainerOpen + links + LinkContainerClose else "") + FooterTail
  }

  /** Where the link container sits in a footer: right after the head,
      present exactly when there are links. */
  lemma {:induction false} FooterFrame(head: string, links: string)
    ensures var r := head + (if links != "" then LinkContainerOpen + links + LinkContainerClose else "") + FooterTail;
      && StartsWith(r, head)
      && EndsWith(r, FooterTail)
      && (links != "" <==> StartsWith(r[|head|..], LinkContainerOpen))
  {
    var container := if links != "" then LinkContainerOpen + links + LinkContainerClose else "";
    var r := head + container + FooterTail;
    assert r == head + (container + FooterTail);
    PrefixOfConcat(head, container + FooterTail);
    SuffixOfConcat(head + container, FooterTail);
    assert r[|head|..] == container + FooterTail;
    if links != "" {
      assert container == LinkContainerOpen + (links + LinkContainerClose);
      PrefixOfConcat(LinkContainerOpen, links + LinkContainerClose);
      StartsWithConcat(container, FooterTail, LinkContainerOpen);
    } else {
      assert container + FooterTail == FooterTail;
      assert |FooterTail| < |LinkContainerOpen|;
    }
  }

  /** The copyright text: the footer's own, or nothing. */
  function FooterCopy(footer: Option<Footer>): (r: string)
    ensures footer.Some? && footer.value.copy.Some? ==> r == footer.value.copy.value
    ensures footer.None? || footer.value.copy.None? ==> r == ""
  {
    if footer.Some? then ToText(footer.value.copy) else ""
  }

  /** `footer?.legal ?? []`. */
  function FooterLegal(footer: Option<Footer>): (r: seq<PageLink>)
    ensures footer.Some? && footer.value.legal.Some? ==> r == footer.value.legal.value
    ensures footer.None? || footer.value.legal.None? ==> r == []
  {
    if footer.Some? then footer.value.legal.GetOr([]) else []
  }

  const Doctype: string := "<!DOCTYPE html>"
  const HtmlOpen: string := "\n<html lang=\"es\">\n<head>"
  const Charset: string := "\n  <meta charset=\"UTF-8\">"
  const Viewport: string := "\n  <meta name=\"viewport\" content=\"width=device-width, initial-scale=1.0\">"
  const TitleOpen: string := "\n  <title>"
  const TitlePreamble: string := HtmlOpen + Charset + Viewport + TitleOpen

  /** The document title: the page's own, or `Preview` when it has none or
      an empty one. */
  function PageTitle(meta: PageMeta): (r: string)
    ensures r != ""
    ensures meta.title.Some? && meta.title.value != "" ==> r == meta.title.value
    ensures meta.title.None? || meta.title == Some("") ==> r == "Preview"
  {
    OrElse(ToText(meta.title), "Preview")
  }

  /** The head of the page after the document type, up to the end of the
      title. */
  function HeadTitle(meta: PageMeta): string {
    TitlePreamble + PageTitle(meta) + "</title>"
  }

  /** The rest of the head and the start of the header, up to the logo. */
  function HeadRest(meta: PageMeta): string {
    DescriptionOpen + ToText(meta.description) + "\">"
    + Script + StyleOpen + StyleRule + StyleClose
    + BodyOpen + HeaderOpen + NavOpen + NavRow + BrandRow + "\n          "
  }

  const DescriptionOpen: string := "\n  <meta name=\"description\" content=\""
  const Script: string := "\n  <script src=\"https://cdn.tailwindcss.com\"></script>"
  const StyleOpen: string := "\n  <style>"
  const StyleRule: string := "\n    body { font-family: system-ui, -apple-system, sans-serif; }"
  const StyleClose: string := "\n  </style>\n</head>"
  const BodyOpen: string := "\n<body class=\"min-h-screen bg-gray-50\">"
  const HeaderOpen: string := "\n  <header class=\"bg-white shadow\">"
  const NavOpen: string := "\n    <nav class=\"container mx-auto px-4 py-4\">"
  const NavRow: string := "\n      <div class=\"flex items-center justify-between\">"
  const BrandRow: string := "\n        <div class=\"flex items-center gap-3\">"

  /** The logo image, present only for a non-empty logo. */
  function Logo(brand: Brand): (r: string)
    ensures r != "" <==> brand.logo.Some? && brand.logo.value != ""
    ensures r != "" ==> StartsWith(r, LogoOpen + brand.logo.value + "\"")
  {
    if ToText(brand.logo) != "" then
      var open := LogoOpen + brand.logo.value + "\"";
      var rest := " alt=\"" + ToText(brand.name) + "\" class=\"h-10 w-auto\">";
      PrefixOfConcat(open, rest);
      open + rest
    else ""
  }

  const LogoOpen: string := "<img src=\""

  /** The brand text: the brand's own name, or `Brand` when it has none or
      an empty one. */
  function BrandName(brand: Brand): (r: string)
    ensures r != ""
    ensures brand.name.Some? && brand.name.value != "" ==> r == brand.name.value
    ensures brand.name.None? || brand.name == Some("") ==> r == "Brand"
  {
    OrElse(ToText(brand.name), "Brand")
  }

  /** The brand link that follows the logo. */
  function BrandLink(brand: Brand): (r: string)
    ensures StartsWith(r, BrandLinkOpen + Href(brand.link) + "\"")
    ensures EndsWith(r, ">" + BrandName(brand) + "</a>")
  {
    var open := BrandLinkOpen + Href(brand.link) + "\"";
    var close := ">" + BrandName(brand) + "</a>";
    var r := open + BrandLinkStyle + close;
    assert r == open + (BrandLinkStyle + close);
    PrefixOfConcat(open, BrandLinkStyle + close);
    SuffixOfConcat(open + BrandLinkStyle, close);
    r
  }

  const BrandLinkOpen: string := "\n          <a href=\""
  const BrandLinkStyle: string := " class=\"text-xl font-bold text-gray-900\""

  const NavItemsOpen: string := "\n        </div>\n        <div class=\"flex gap-4\">\n          "
  const HeaderClose: string := "\n        </div>\n      </div>\n    </nav>\n  </header>\n\n  "
  const PageClose: string := "\n</body>\n</html>"

  /** The template before `.trim()`, without its leading newline and
      trailing newline-and-indent. */
  function Page(d: PageData): string {
    Doctype + PageMiddle(d) + PageClose
  }

  function PageMiddle(d: PageData): string {
    var meta := d.meta.GetOr(PageMeta(None, None));
    HeadTitle(meta) + HeadRest(meta) + PageBody(d) + RenderFooter(d.footer)
  }

  /** Everything between the head and the footer. */
  function PageBody(d: PageData): string {
    var brand := d.brand.GetOr(Brand(None, None, None));
    var items := if d.navigation.Some? then d.navigation.value.items.GetOr([]) else [];
    var welcome := if d.sections.Some? then d.sections.value.welcome else None;
    var about := if d.sections.Some? then d.sections.value.about else None;
    Logo(brand) + BrandLink(brand) + NavItemsOpen + RenderNavigation(items) + HeaderClose
    + RenderWelcome(welcome) + "\n  " + RenderAbout(about) + "\n  "
  }

  /** `buildPreviewHtml`: the trimmed template. */
  function BuildPreviewHtml(d: PageData): (r: string)
    ensures StartsWith(r, "<!DOCTYPE html>")
    ensures EndsWith(r, "</html>")
  {
    PageIsTrimmed(d);
    Trim("\n" + Page(d) + "\n  ")
  }

  /** The document title, with its fallback, is the first thing the page
      prints after the fixed head preamble. */
  lemma {:induction false} PageShowsTitle(d: PageData)
    ensures StartsWith(Page(d), Doctype + HeadTitle(d.meta.GetOr(PageMeta(None, None))))
    ensures EndsWith(HeadTitle(d.meta.GetOr(PageMeta(None, None))),
                     PageTitle(d.meta.GetOr(PageMeta(None, None))) + "</title>")
  {
    var meta := d.meta.GetOr(PageMeta(None, None));
    PageFrame(Doctype, HeadTitle(meta), HeadRest(meta), PageBody(d), RenderFooter(d.footer), PageClose);
    SuffixOfTwo(TitlePreamble, PageTitle(meta), "</title>");
  }

  /** The brand block follows the head: the logo when there is one, then
      the brand link. */
  lemma {:induction false} PageShowsBrand(d: PageData)
    ensures var brand := d.brand.GetOr(Brand(None, None, None));
      StartsWith(PageBody(d), Logo(brand) + BrandLink(brand))
  {
    var brand := d.brand.GetOr(Brand(None, None, None));
    var items := if d.navigation.Some? then d.navigation.value.items.GetOr([]) else [];
    var welcome := if d.sections.Some? then d.sections.value.welcome else None;
    var about := if d.sections.Some? then d.sections.value.about else None;
    var head := Logo(brand) + BrandLink(brand);
    var header := head + NavItemsOpen + RenderNavigation(items);
    PrefixOfChain(header, HeaderClose, RenderWelcome(welcome), "\n  ", RenderAbout(about), "\n  ");
    PrefixOfConcat(head, NavItemsOpen);
    StartsWithConcat(head + NavItemsOpen, RenderNavigation(items), head);
    StartsWithTransitive(PageBody(d), header, head);
  }

  /** The footer is always printed, right before the page closes, even for
      a page without footer data. */
  lemma {:induction false} PageEndsWithFooter(d: PageData)
    ensures EndsWith(Page(d), RenderFooter(d.footer) + PageClose)
  {
    var meta := d.meta.GetOr(PageMeta(None, None));
    PageFrame(Doctype, HeadTitle(meta), HeadRest(meta), PageBody(d), RenderFooter(d.footer), PageClose);
  }

  /** How the page's first and last parts sit in the whole. */
  lemma {:induction false} PageFrame(a: string, b: string, c: string, d: string, e: string, f: string)
    ensures StartsWith(a + (b + c + d + e) + f, a + b)
    ensures EndsWith(a + (b + c + d + e) + f, e + f)
  {
    assert a + (b + c + d + e) + f == (a + b) + (c + d + e + f);
    PrefixOfConcat(a + b, c + d + e + f);
    assert a + (b + c + d + e) + f == (a + b + c + d) + (e + f);
    SuffixOfConcat(a + b + c + d, e + f);
  }

  /** Media without a feature list prints no feature blocks, exactly as
      media with an empty one. */
  lemma {:induction false} AbsentFeaturesRenderNone(m: Media)
    requires m.features.None?
    ensures RenderAboutMedia(Some(m)) == RenderAboutMedia(Some(m.(features := Some([]))))
    ensures RenderFeatures(m.features.GetOr([])) == ""
  {
  }

  /** Trimming the template removes exactly its outer white space. */
  lemma {:induction false} PageIsTrimmed(d: PageData)
    ensures Trim("\n" + Page(d) + "\n  ") == Page(d)
    ensures StartsWith(Page(d), Doctype) && EndsWith(Page(d), "</html>")
  {
    assert EndsWith(PageClose, "</html>");
    FramedTrim(Doctype, PageMiddle(d), PageClose, "</html>");
  }

  /** A text framed by a document type and a closing tag is left alone by
      trimming, once its one leading newline and trailing indent are gone. */
  lemma {:induction false} FramedTrim(open: string, middle: string, close: string, last: string)
    requires |open| > 0 && open[0] == '<'
    requires EndsWith(close, last) && |last| > 0 && last[|last| - 1] == '>'
    ensures Trim("\n" + (open + middle + close) + "\n  ") == open + middle + close
    ensures StartsWith(open + middle + close, open)
    ensures EndsWith(open + middle + close, last)
  {
    var page := open + middle + close;
    assert page == open + (middle + close);
    assert StartsWith(open, open);
    StartsWithConcat(open, middle + close, open);
    EndsWithConcat(open + middle, close, last);
    assert page[0] == '<';
    assert page[|page| - 1] == last[|last| - 1];
    TrimFrame("\n", page, "\n  ");
  }

  lemma {:induction false} PrefixOfConcat(a: string, b: string)
    ensures StartsWith(a + b, a)
  {
    assert (a + b)[..|a|] == a;
  }

  lemma {:induction false} PrefixOfChain(p: string, a: string, b: string, c: string, d: string, e: string)
    ensures StartsWith(p + a + b + c + d + e, p)
  {
    PrefixOfConcat(p, a);
    StartsWithConcat(p + a, b, p);
    StartsWithConcat(p + a + b, c, p);
    StartsWithConcat(p + a + b + c, d, p);
    StartsWithConcat(p + a + b + c + d, e, p);
  }

  lemma {:induction false} SuffixOfTwo(a: string, b: string, c: string)
    ensures EndsWith(a + b + c, b + c)
  {
    assert a + b + c == a + (b + c);
    SuffixOfConcat(a, b + c);
  }

  lemma {:induction false} SuffixOfConcat(a: string, b: string)
    ensures EndsWith(a + b, b)
  {
    assert (a + b)[|a|..] == b;
  }

  lemma {:induction false} StartsWithTransitive(s: string, p: string, q: string)
    requires StartsWith(s, p) && StartsWith(p, q)
    ensures StartsWith(s, q)
  {
    assert s[..|q|] == s[..|p|][..|q|];
  }

  lemma {:induction false} StartsWithConcat(a: string, b: string, p: string)
    requires StartsWith(a, p)
    ensures StartsWith(a + b, p)
  {
    assert (a + b)[..|p|] == a[..|p|];
  }

  lemma {:induction false} EndsWithConcat(a: string, b: string, p: string)
    requires EndsWith(b, p)
    ensures EndsWith(a + b, p)
  {
    assert (a + b)[|a + b| - |p|..] == b[|b| - |p|..];
  }
}
