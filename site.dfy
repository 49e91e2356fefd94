/** What index.js reads from s.to's markup, as records that the HTML parser
    has already extracted, and the site's base URL. */
module Site {
  import opened Options
  import opened Text

  /** `BASE_URL`. */
  const BaseUrl: string := "https://s.to"

  /** `link.startsWith('http') ? link : BASE_URL + link`: a site-relative
      link made absolute. */
  function Absolute(link: string): (url: string)
    ensures StartsWith(url, "http")
    ensures StartsWith(link, "http") ==> url == link
    ensures !StartsWith(link, "http") ==> url == BaseUrl + link
  {
    if StartsWith(link, "http") then link
    else
      assert (BaseUrl + link)[..4] == "http";
      BaseUrl + link
  }

  /** One `<a>` of the search response: its `href` attribute (absent when the
      anchor has none) and its text content. */
  datatype Anchor = Anchor(href: Option<string>, text: string)

  /** An element matched by the first or the second hoster selector: its
      `data-lang-key` and `data-link-id` attributes, the text of its `h4`
      descendants, and a second name candidate — the text of its `.name`
      descendants (first selector) or its own text (second selector). */
  datatype KeyedElement = KeyedElement(
    langKey: Option<string>, linkId: Option<string>, headingText: string, altText: string)

  /** An anchor whose `href` contains `/redirect/` (third selector) and its text. */
  datatype RedirectAnchor = RedirectAnchor(href: string, text: string)

  /** A fetched episode or movie page, as the three hoster selectors see it,
      each list in document order:
      `.hosterSiteVideo .generateInlinePlayer`, `a[data-link-id]` and
      `a[href*="/redirect/"]`. */
  datatype HosterPage = HosterPage(
    players: seq<KeyedElement>, linkAnchors: seq<KeyedElement>, redirectAnchors: seq<RedirectAnchor>)

  /** The response to a `/redirect/<id>` request: the final URL after
      following HTTP redirects, when the client reports one, and what each
      body scan finds — the capture of `location.href = "…"` and of
      `window.location = "…"` in the scripts' text (these patterns capture
      at least one character, so an empty capture counts as no match), the
      first `data-url`
      attribute, the capture of `url=(.+)` in the first refresh meta tag's
      `content`, and the first iframe's `src`. */
  datatype RedirectPage = RedirectPage(
    responseUrl: Option<string>,
    locationHref: Option<string>,
    windowLocation: Option<string>,
    dataUrl: Option<string>,
    metaRefreshUrl: Option<string>,
    iframeSrc: Option<string>)
}
