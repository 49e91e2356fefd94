/** `resolveRedirect`: where a hoster's `/redirect/<id>` URL leads. */
module Redirects {
  import opened Options
  import opened Text
  import opened Seqs
  import opened Site
  import opened Net

  /** The off-site test of index.js: a plain substring check for `s.to`. */
  predicate MentionsSite(url: string) {
    Includes(url, "s.to")
  }

  /** `resolveRedirect(redirectUrl)`: the final URL of the request when it
      moved off the site; otherwise the first body scan that finds a target;
      `None` (JavaScript's `null`) when the request failed or nothing is found. */
  function ResolveRedirect(redirectUrl: string, reply: Reply<RedirectPage>): Option<string>
  {
    match reply
    case Failed => None
    case Received(p) =>
      if p.responseUrl.Some? && p.responseUrl.value != ""
         && p.responseUrl.value != redirectUrl && !MentionsSite(p.responseUrl.value)
      then p.responseUrl
      else if p.locationHref.Some? && p.locationHref.value != "" then p.locationHref
      else if p.windowLocation.Some? && p.windowLocation.value != "" then p.windowLocation
      else if p.dataUrl.Some? && p.dataUrl.value != "" then p.dataUrl
      else if p.metaRefreshUrl.Some? then Some(Trim(p.metaRefreshUrl.value))
      else if p.iframeSrc.Some? && p.iframeSrc.value != "" && !MentionsSite(p.iframeSrc.value) then p.iframeSrc
      else None
  }

  /** The six strategies, each judged on its own, in the order they are tried. */
  function Strategies(redirectUrl: string, p: RedirectPage): (s: seq<Option<string>>)
    ensures |s| == 6
  {
    [ match p.responseUrl
      case Some(u) => if u != "" && u != redirectUrl && !MentionsSite(u) then Some(u) else None
      case None => None,
      match p.locationHref
      case Some(u) => if u != "" then Some(u) else None
      case None => None,
      match p.windowLocation
      case Some(u) => if u != "" then Some(u) else None
      case None => None,
      match p.dataUrl
      case Some(d) => if d != "" then Some(d) else None
      case None => None,
      match p.metaRefreshUrl
      case Some(c) => Some(Trim(c))
      case None => None,
      match p.iframeSrc
      case Some(src) => if src != "" && !MentionsSite(src) then Some(src) else None
      case None => None ]
  }

  /** The result is the first strategy that yields a candidate, in the
      order final URL, `location.href`, `window.location`, `data-url`, meta
      refresh, iframe; `None` when none does. */
  lemma ResolveRedirectFirstApplicable(redirectUrl: string, p: RedirectPage)
    ensures ResolveRedirect(redirectUrl, Received(p)) == FirstSome(Strategies(redirectUrl, p))
    ensures ResolveRedirect(redirectUrl, Received(p)).None? <==>
      forall k :: 0 <= k < 6 ==> Strategies(redirectUrl, p)[k].None?
    ensures ResolveRedirect(redirectUrl, Received(p)).Some? ==>
      exists k :: 0 <= k < 6 && Strategies(redirectUrl, p)[k] == ResolveRedirect(redirectUrl, Received(p))
        && forall j :: 0 <= j < k ==> Strategies(redirectUrl, p)[j].None?
  {
    var s := Strategies(redirectUrl, p);
    assert FirstSome(s[5..]) == s[5] by { assert s[5..][1..] == []; }
    assert FirstSome(s[4..]) == if s[4].Some? then s[4] else FirstSome(s[5..]) by { assert s[4..][1..] == s[5..]; }
    assert FirstSome(s[3..]) == if s[3].Some? then s[3] else FirstSome(s[4..]) by { assert s[3..][1..] == s[4..]; }
    assert FirstSome(s[2..]) == if s[2].Some? then s[2] else FirstSome(s[3..]) by { assert s[2..][1..] == s[3..]; }
    assert FirstSome(s[1..]) == if s[1].Some? then s[1] else FirstSome(s[2..]) by { assert s[1..][1..] == s[2..]; }
  }

  /** A final URL that moved off the site wins whatever the body holds. */
  lemma OffSiteFinalUrlWins(redirectUrl: string, p: RedirectPage, q: RedirectPage)
    requires p.responseUrl == q.responseUrl && p.responseUrl.Some?
    requires p.responseUrl.value != "" && p.responseUrl.value != redirectUrl && !MentionsSite(p.responseUrl.value)
    ensures ResolveRedirect(redirectUrl, Received(p)) == ResolveRedirect(redirectUrl, Received(q)) == p.responseUrl
  {
  }

  /** A meta refresh whose `url=` is blank resolves to the empty string,
      which shadows an iframe further down the page. */
  lemma BlankMetaRefreshShadowsIframe(redirectUrl: string, p: RedirectPage)
    requires Strategies(redirectUrl, p)[..4] == [None, None, None, None]
    requires p.metaRefreshUrl.Some? && AllSpace(p.metaRefreshUrl.value)
    ensures ResolveRedirect(redirectUrl, Received(p)) == Some("")
  {
    var s := Strategies(redirectUrl, p);
    assert s[0] == None && s[1] == None && s[2] == None && s[3] == None;
    TrimEmptyIffAllSpace(p.metaRefreshUrl.value);
  }
}
