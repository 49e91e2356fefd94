/** `getHosters`: the page to scrape for a title (or one of its episodes)
    and the three-tier selector cascade that lists its hosters. */
module Hosters {
  import opened Options
  import opened Text
  import opened Numbers
  import opened Seqs
  import opened Site
  import opened Net

  const GermanDub: string := "German Dub"
  const GermanSub: string := "German Sub"
  const German: string := "German"
  const UnknownName: string := "Unknown"

  /** One hoster offered by the page. */
  datatype Hoster = Hoster(name: string, redirectUrl: string, language: string)

  /** `x || y` on strings: `x` unless it is empty. */
  function OrElse(x: string, y: string): (r: string)
    ensures r == x || r == y
    ensures r == "" <==> x == "" && y == ""
  {
    if x != "" then x else y
  }

  /** The page to fetch: the title's page, with `/staffel-S/episode-E`
      appended when both season and episode are given. */
  function EpisodeUrl(pageUrl: string, season: Option<Num>, episode: Option<Num>): (url: string)
    ensures StartsWith(url, pageUrl)
    ensures url == pageUrl <==> season.None? || episode.None?
  {
    if season.Some? && episode.Some? then
      var url := pageUrl + "/staffel-" + NumText(season.value) + "/episode-" + NumText(episode.value);
      assert url[..|pageUrl|] == pageUrl;
      url
    else pageUrl
  }

  /** What a tier-1 or tier-2 element contributes: a hoster when its language
      key is `1` (German dub) or `3` (German sub) and its link id is
      non-empty; named by its heading text, else its second name candidate,
      else `Unknown`. */
  function KeyedHoster(e: KeyedElement): (r: Option<Hoster>)
    ensures r.Some? <==>
      (e.langKey == Some("1") || e.langKey == Some("3")) && e.linkId.Some? && e.linkId.value != ""
    ensures r.Some? ==> r.value.redirectUrl == BaseUrl + "/redirect/" + e.linkId.value
    ensures r.Some? ==> (r.value.language == GermanDub <==> e.langKey == Some("1"))
    ensures r.Some? ==> r.value.language in {GermanDub, GermanSub}
  {
    if e.langKey == Some("1") || e.langKey == Some("3") then
      var name := OrElse(Trim(e.headingText), OrElse(Trim(e.altText), UnknownName));
      if e.linkId.Some? && e.linkId.value != "" then
        Some(Hoster(name, BaseUrl + "/redirect/" + e.linkId.value,
                    if e.langKey == Some("1") then GermanDub else GermanSub))
      else None
    else None
  }

  /** What a tier-3 anchor contributes: always a hoster, language `German`. */
  function RedirectHoster(a: RedirectAnchor): Hoster
  {
    Hoster(OrElse(Trim(a.text), UnknownName), Absolute(a.href), German)
  }

  function Tier1(page: HosterPage): seq<Hoster> { FilterMap(KeyedHoster, page.players) }

  function Tier2(page: HosterPage): seq<Hoster> { FilterMap(KeyedHoster, page.linkAnchors) }

  function Tier3(page: HosterPage): seq<Hoster>
  {
    seq(|page.redirectAnchors|, i requires 0 <= i < |page.redirectAnchors| => RedirectHoster(page.redirectAnchors[i]))
  }

  /** The cascade: a looser tier is consulted only when every stricter tier
      produced nothing. */
  function Cascade(page: HosterPage): seq<Hoster>
  {
    if Tier1(page) != [] then Tier1(page)
    else if Tier2(page) != [] then Tier2(page)
    else Tier3(page)
  }

  /** The hosters `getHosters` returns for a page request: none when the
      request failed. */
  function HostersOf(reply: Reply<HosterPage>): seq<Hoster>
  {
    match reply
    case Failed => []
    case Received(page) => Cascade(page)
  }

  /** `getHosters(pageUrl, season, episode)`. */
  method GetHosters(pageUrl: string, season: Option<Num>, episode: Option<Num>, net: Network)
    returns (hosters: seq<Hoster>)
    ensures hosters == HostersOf(net.page(EpisodeUrl(pageUrl, season, episode)))
  {
    var targetUrl := pageUrl;
    if season.Some? && episode.Some? {
      targetUrl := pageUrl + "/staffel-" + NumText(season.value) + "/episode-" + NumText(episode.value);
    }
    var reply := net.page(targetUrl);
    if reply.Failed? {
      return [];
    }
    var page := reply.body;
    hosters := CollectKeyed(page.players);
    if |hosters| == 0 {
      hosters := CollectKeyed(page.linkAnchors);
    }
    if |hosters| == 0 {
      hosters := CollectRedirects(page.redirectAnchors);
    }
  }

  /** One pass of the first or second selector: push a hoster for every
      accepted element. */
  method CollectKeyed(elements: seq<KeyedElement>) returns (found: seq<Hoster>)
    ensures found == FilterMap(KeyedHoster, elements)
  {
    found := [];
    var i := 0;
    while i < |elements|
      invariant 0 <= i <= |elements|
      invariant found == FilterMap(KeyedHoster, elements[..i])
    {
      var entry := KeyedHoster(elements[i]);
      if entry.Some? {
        found := found + [entry.value];
      }
      assert elements[..i + 1][..i] == elements[..i];
      i := i + 1;
    }
    assert elements[..i] == elements;
  }

  /** The pass of the third selector: push a hoster for every anchor. */
  method CollectRedirects(anchors: seq<RedirectAnchor>) returns (found: seq<Hoster>)
    ensures |found| == |anchors|
    ensures forall i :: 0 <= i < |anchors| ==> found[i] == RedirectHoster(anchors[i])
  {
    found := [];
    var i := 0;
    while i < |anchors|
      invariant 0 <= i <= |anchors|
      invariant |found| == i
      invariant forall k :: 0 <= k < i ==> found[k] == RedirectHoster(anchors[k])
    {
      found := found + [RedirectHoster(anchors[i])];
      i := i + 1;
    }
  }

  /** Every returned hoster comes from a single tier: the first non-empty one. */
  lemma CascadeSingleTier(page: HosterPage)
    ensures || (Tier1(page) != [] && Cascade(page) == Tier1(page))
            || (Tier1(page) == [] && Tier2(page) != [] && Cascade(page) == Tier2(page))
            || (Tier1(page) == [] && Tier2(page) == [] && Cascade(page) == Tier3(page))
  {
  }

  /** A hoster from the first two tiers comes from an element with language
      key `1` or `3` and a non-empty link id, and redirects through
      `/redirect/<link id>`. */
  lemma KeyedTierMember(elements: seq<KeyedElement>, h: Hoster)
    requires h in FilterMap(KeyedHoster, elements)
    ensures h.language in {GermanDub, GermanSub} && h.name != ""
    ensures exists i :: (
      && 0 <= i < |elements| && KeyedHoster(elements[i]) == Some(h)
      && (elements[i].langKey == Some("1") || elements[i].langKey == Some("3"))
      && elements[i].linkId.Some? && elements[i].linkId.value != ""
      && h.redirectUrl == BaseUrl + "/redirect/" + elements[i].linkId.value
      && (h.language == GermanDub <==> elements[i].langKey == Some("1"))
      && h.name == OrElse(Trim(elements[i].headingText), OrElse(Trim(elements[i].altText), UnknownName)))
  {
    FilterMapMember(KeyedHoster, elements, h);
  }

  /** Every hoster of the cascade has a name; a tier-3 hoster is labelled
      `German` and redirects to an absolute URL. */
  lemma CascadeEntries(page: HosterPage, h: Hoster)
    requires h in Cascade(page)
    ensures h.name != ""
    ensures h.language in {GermanDub, GermanSub} || (h.language == German && StartsWith(h.redirectUrl, "http"))
  {
    if Tier1(page) != [] {
      KeyedTierMember(page.players, h);
    } else if Tier2(page) != [] {
      KeyedTierMember(page.linkAnchors, h);
    }
  }

  /** Tier entries keep document order: the k-th hoster comes from the k-th
      accepted element, and no accepted element is skipped. */
  lemma KeyedTierInDocumentOrder(elements: seq<KeyedElement>)
    ensures var r, idx := FilterMap(KeyedHoster, elements), Accepted(KeyedHoster, elements);
      && |idx| == |r|
      && (forall k :: 0 <= k < |idx| ==> idx[k] < |elements| && KeyedHoster(elements[idx[k]]) == Some(r[k]))
      && (forall k, l :: 0 <= k < l < |idx| ==> idx[k] < idx[l])
      && (forall i :: 0 <= i < |elements| && KeyedHoster(elements[i]).Some? ==> i in idx)
  {
    FilterMapInOrder(KeyedHoster, elements);
  }

  /** Different seasons or episodes are fetched from different pages. */
  lemma EpisodeUrlInjective(pageUrl: string, s1: Num, e1: Num, s2: Num, e2: Num)
    requires EpisodeUrl(pageUrl, Some(s1), Some(e1)) == EpisodeUrl(pageUrl, Some(s2), Some(e2))
    ensures s1 == s2 && e1 == e2
  {
    NumTextNoSlash(s1);
    NumTextNoSlash(s2);
    EpisodePathInjective(pageUrl, NumText(s1), NumText(e1), NumText(s2), NumText(e2));
    NumTextInjective(s1, s2);
    NumTextInjective(e1, e2);
  }

  lemma EpisodePathInjective(pageUrl: string, a1: string, b1: string, a2: string, b2: string)
    requires '/' !in a1 && '/' !in a2
    requires pageUrl + "/staffel-" + a1 + "/episode-" + b1 == pageUrl + "/staffel-" + a2 + "/episode-" + b2
    ensures a1 == a2 && b1 == b2
  {
    var prefix := pageUrl + "/staffel-";
    var tail1, tail2 := a1 + "/episode-" + b1, a2 + "/episode-" + b2;
    assert prefix + tail1 == pageUrl + "/staffel-" + a1 + "/episode-" + b1;
    assert prefix + tail2 == pageUrl + "/staffel-" + a2 + "/episode-" + b2;
    assert tail1 == (prefix + tail1)[|prefix|..];
    assert tail2 == (prefix + tail2)[|prefix|..];
    EpisodeSuffixInjective(a1, b1, a2, b2);
  }

  lemma EpisodeSuffixInjective(a1: string, b1: string, a2: string, b2: string)
    requires '/' !in a1 && '/' !in a2
    requires a1 + "/episode-" + b1 == a2 + "/episode-" + b2
    ensures a1 == a2 && b1 == b2
  {
    var tail1, tail2 := a1 + "/episode-" + b1, a2 + "/episode-" + b2;
    SplitWithoutSeparator(a1, '/');
    SplitWithoutSeparator(a2, '/');
    assert tail1 == a1 + ['/'] + ("episode-" + b1);
    assert tail2 == a2 + ['/'] + ("episode-" + b2);
    SplitAppend(a1, '/', "episode-" + b1);
    SplitAppend(a2, '/', "episode-" + b2);
    assert a1 == Split(tail1, '/')[0];
    assert a2 == Split(tail2, '/')[0];
    assert b1 == tail1[|a1| + 9..];
    assert b2 == tail2[|a2| + 9..];
  }

  lemma NumTextNoSlash(x: Num)
    ensures '/' !in NumText(x)
  {
    if x.Int? {
      var m: nat := if x.value < 0 then -x.value else x.value;
      var d := NatText(m);
      forall i | 0 <= i < |d| ensures d[i] != '/' { assert DigitValue(d[i]) < 10; }
    }
  }
}
