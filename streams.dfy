/** `handleStream`: the whole request, from a Stremio id to the list of
    Real-Debrid streams, with the requests it sends on the way. */
module Streams {
  import opened Options
  import opened Seqs
  import opened StreamId
  import opened Net
  import opened Search
  import opened Hosters
  import opened Redirects
  import opened Meta
  import opened Debrid

  const StreamName: string := "German Dub"

  /** One stream offered to Stremio. The displayed title is made of the
      hoster's name and, when Real-Debrid reports one, the file size; both
      are kept as they are rather than rendered. */
  datatype Stream = Stream(
    name: string, hosterName: string, fileSize: int, url: string, bingeGroup: string, notWebReady: bool)

  /** The streams returned and the requests sent, in order. */
  datatype Run = Run(streams: seq<Stream>, calls: seq<Request>)

  function BingeGroup(imdbId: string): string { "germandub-" + imdbId }

  /** Where a hoster's redirect leads, when that is usable: a `null` or
      empty result is skipped (`if (!actualUrl) continue`). */
  function ResolvedTarget(h: Hoster, net: Network): Option<string>
  {
    var actual := ResolveRedirect(h.redirectUrl, net.redirect(h.redirectUrl));
    if actual.Some? && actual.value != "" then actual else None
  }

  /** The stream one hoster yields: resolve, then unrestrict; nothing when
      either step fails. */
  function HosterStream(h: Hoster, imdbId: string, key: string, net: Network): Option<Stream>
  {
    match ResolvedTarget(h, net)
    case None => None
    case Some(target) =>
      match UnrestrictWithRD(net.debrid(key, target))
      case None => None
      case Some(rd) => Some(Stream(StreamName, h.name, rd.filesize, rd.url, BingeGroup(imdbId), false))
  }

  function StreamOf(imdbId: string, key: string, net: Network): Hoster -> Option<Stream>
  {
    h => HosterStream(h, imdbId, key, net)
  }

  /** The requests sent for one hoster: the redirect, then the unrestrict
      call when the redirect resolved. */
  function HosterCalls(h: Hoster, net: Network): seq<Request>
  {
    [RedirectFetch(h.redirectUrl)] + match ResolvedTarget(h, net) case None => [] case Some(t) => [Unrestrict(t)]
  }

  function LoopCalls(hosters: seq<Hoster>, net: Network): seq<Request>
  {
    if hosters == [] then [] else LoopCalls(hosters[..|hosters| - 1], net) + HosterCalls(hosters[|hosters| - 1], net)
  }

  /** What `handleStream(type, id)` does with the API key `key`. */
  function Pipeline(kind: string, id: string, key: string, net: Network): Run
  {
    if key == "" then Run([], [])
    else
      var ref := ParseId(id);
      var lookup := LookupMeta(ref.imdbId, net);
      var metaCalls := lookup.calls;
      match lookup.info
      case None => Run([], metaCalls)
      case Some(meta) =>
        var results := SearchResults(kind, net.search(meta.title));
        var searched := metaCalls + [SiteSearch(meta.title)];
        if results == [] then Run([], searched)
        else
          var target := EpisodeUrl(results[0].url, ref.season, ref.episode);
          var hosters := HostersOf(net.page(target));
          Run(FilterMap(StreamOf(ref.imdbId, key, net), hosters),
              searched + [PageFetch(target)] + LoopCalls(hosters, net))
  }

  /** `handleStream(type, id)`: no key, no work; then metadata, the search
      (its first hit only), the hosters of the page, and one resolve and
      unrestrict attempt per hoster, skipping those that fail. */
  method HandleStream(kind: string, id: string, key: string, net: Network)
    returns (streams: seq<Stream>, calls: seq<Request>)
    ensures Run(streams, calls) == Pipeline(kind, id, key, net)
  {
    if key == "" {
      return [], [];
    }
    streams := [];
    var ref := ParseId(id);
    var imdbId := ref.imdbId;
    var lookup := LookupMeta(imdbId, net);
    var metaInfo := lookup.info;
    calls := lookup.calls;
    if metaInfo.None? {
      return;
    }
    calls := calls + [SiteSearch(metaInfo.value.title)];
    var searchResults := SearchSto(metaInfo.value.title, kind, net);
    if |searchResults| == 0 {
      return;
    }
    var bestMatch := searchResults[0];
    calls := calls + [PageFetch(EpisodeUrl(bestMatch.url, ref.season, ref.episode))];
    var hosters := GetHosters(bestMatch.url, ref.season, ref.episode, net);
    var hosterStreams, hosterCalls := ProcessHosters(hosters, imdbId, key, net);
    streams := hosterStreams;
    calls := calls + hosterCalls;
  }

  /** The `for (const hoster of hosters)` loop of `handleStream`: resolve,
      skip on failure, unrestrict, push on success. */
  method ProcessHosters(hosters: seq<Hoster>, imdbId: string, key: string, net: Network)
    returns (streams: seq<Stream>, calls: seq<Request>)
    ensures streams == FilterMap(StreamOf(imdbId, key, net), hosters)
    ensures calls == LoopCalls(hosters, net)
  {
    streams, calls := [], [];
    var i := 0;
    while i < |hosters|
      invariant 0 <= i <= |hosters|
      invariant streams == FilterMap(StreamOf(imdbId, key, net), hosters[..i])
      invariant calls == LoopCalls(hosters[..i], net)
    {
      var hoster := hosters[i];
      calls := calls + [RedirectFetch(hoster.redirectUrl)];
      var actualUrl := ResolveRedirect(hoster.redirectUrl, net.redirect(hoster.redirectUrl));
      if actualUrl.Some? && actualUrl.value != "" {
        calls := calls + [Unrestrict(actualUrl.value)];
        var rdResult := UnrestrictWithRD(net.debrid(key, actualUrl.value));
        if rdResult.Some? {
          streams := streams + [Stream(StreamName, hoster.name, rdResult.value.filesize, rdResult.value.url,
                                       BingeGroup(imdbId), false)];
        }
      }
      assert hosters[..i + 1][..i] == hosters[..i];
      i := i + 1;
    }
    assert hosters[..i] == hosters;
  }

  /** Without an API key the result is empty and no request is sent. */
  lemma NoKeyNoRequests(kind: string, id: string, net: Network)
    ensures Pipeline(kind, id, "", net) == Run([], [])
  {
  }

  /** Without metadata, or without a search hit, the result is empty and no
      page is fetched. */
  lemma EarlyExits(kind: string, id: string, key: string, net: Network)
    requires key != ""
    ensures var imdbId := ParseId(id).imdbId;
      GetMetaInfo(imdbId, net).None? ==> Pipeline(kind, id, key, net) == Run([], LookupMeta(imdbId, net).calls)
    ensures var imdbId := ParseId(id).imdbId;
      (&& GetMetaInfo(imdbId, net).Some?
       && SearchResults(kind, net.search(GetMetaInfo(imdbId, net).value.title)) == [])
      ==>
      Pipeline(kind, id, key, net) == Run([], LookupMeta(imdbId, net).calls + [SiteSearch(GetMetaInfo(imdbId, net).value.title)])
  {
  }

  /** Only the first search hit matters: two searches that agree on it give
      the same streams and the same requests. */
  lemma OnlyFirstHitUsed(kind: string, id: string, key: string, net: Network,
                         search: string -> Reply<seq<Site.Anchor>>)
    requires var meta := GetMetaInfo(ParseId(id).imdbId, net);
      meta.Some? ==>
        var r1, r2 := SearchResults(kind, net.search(meta.value.title)), SearchResults(kind, search(meta.value.title));
        r1 != [] && r2 != [] && r1[0] == r2[0]
    ensures Pipeline(kind, id, key, net.(search := search)) == Pipeline(kind, id, key, net)
  {
    var ref := ParseId(id);
    var other := net.(search := search);
    assert GetMetaInfo(ref.imdbId, other) == GetMetaInfo(ref.imdbId, net);
    assert LookupMeta(ref.imdbId, other) == LookupMeta(ref.imdbId, net);
    var meta := GetMetaInfo(ref.imdbId, net);
    if meta.Some? {
      var hit := SearchResults(kind, net.search(meta.value.title))[0];
      var hosters := HostersOf(net.page(EpisodeUrl(hit.url, ref.season, ref.episode)));
      assert other.page == net.page;
      forall h | h in hosters
        ensures StreamOf(ref.imdbId, key, other)(h) == StreamOf(ref.imdbId, key, net)(h)
      {
        assert ResolvedTarget(h, other) == ResolvedTarget(h, net);
      }
      FilterMapCongruent(StreamOf(ref.imdbId, key, other), StreamOf(ref.imdbId, key, net), hosters);
      LoopCallsOtherSearch(hosters, net, search);
    }
  }

  lemma {:induction false} LoopCallsOtherSearch(hosters: seq<Hoster>, net: Network, search: string -> Reply<seq<Site.Anchor>>)
    ensures LoopCalls(hosters, net.(search := search)) == LoopCalls(hosters, net)
  {
    if hosters != [] {
      LoopCallsOtherSearch(hosters[..|hosters| - 1], net, search);
      var h := hosters[|hosters| - 1];
      assert ResolvedTarget(h, net.(search := search)) == ResolvedTarget(h, net);
    }
  }

  /** A hoster yields a stream exactly when its redirect resolved to a
      non-empty URL and Real-Debrid unrestricted that URL; the stream plays
      Real-Debrid's download and is grouped by the IMDb id. */
  lemma HosterStreamIff(h: Hoster, imdbId: string, key: string, net: Network)
    ensures HosterStream(h, imdbId, key, net).Some? <==>
      var actual := ResolveRedirect(h.redirectUrl, net.redirect(h.redirectUrl));
      && actual.Some? && actual.value != ""
      && UnrestrictWithRD(net.debrid(key, actual.value)).Some?
    ensures HosterStream(h, imdbId, key, net).Some? ==>
      var s := HosterStream(h, imdbId, key, net).value;
      var t := ResolvedTarget(h, net).value;
      && net.debrid(key, t).Received?
      && net.debrid(key, t).body.download == Some(s.url)
      && s.name == StreamName && s.hosterName == h.name && s.bingeGroup == BingeGroup(imdbId)
  {
  }

  /** A failure on one hoster does not stop the later ones: the streams and
      requests of a list of hosters are those of its parts, in order. */
  lemma {:induction false} LaterHostersUnaffected(a: seq<Hoster>, b: seq<Hoster>, imdbId: string, key: string, net: Network)
    ensures FilterMap(StreamOf(imdbId, key, net), a + b)
      == FilterMap(StreamOf(imdbId, key, net), a) + FilterMap(StreamOf(imdbId, key, net), b)
    ensures LoopCalls(a + b, net) == LoopCalls(a, net) + LoopCalls(b, net)
  {
    FilterMapAppend(StreamOf(imdbId, key, net), a, b);
    LoopCallsAppend(a, b, net);
  }

  lemma {:induction false} LoopCallsAppend(a: seq<Hoster>, b: seq<Hoster>, net: Network)
    ensures LoopCalls(a + b, net) == LoopCalls(a, net) + LoopCalls(b, net)
  {
    if b == [] {
      assert a + b == a;
    } else {
      LoopCallsAppend(a, b[..|b| - 1], net);
      assert (a + b)[..|a + b| - 1] == a + b[..|b| - 1];
    }
  }

  /** Every stream is named `German Dub` and carries the binge group of the
      IMDb id (the text of the request id before its first colon). */
  lemma StreamsOfSuccessfulHosters(kind: string, id: string, key: string, net: Network, s: Stream)
    requires s in Pipeline(kind, id, key, net).streams
    ensures s.name == StreamName && s.bingeGroup == "germandub-" + ParseId(id).imdbId
    ensures ':' !in ParseId(id).imdbId
  {
    var ref := ParseId(id);
    var meta := GetMetaInfo(ref.imdbId, net);
    var results := SearchResults(kind, net.search(meta.value.title));
    var hosters := HostersOf(net.page(EpisodeUrl(results[0].url, ref.season, ref.episode)));
    FilterMapMember(StreamOf(ref.imdbId, key, net), hosters, s);
    ParseIdImdbId(id);
  }

  /** The per-hoster loop over two hosters, of which only the first resolves
      and unrestricts: exactly one stream, from the first, and the second
      hoster's redirect is still requested. */
  lemma OneOfTwoHosters(h1: Hoster, h2: Hoster, imdbId: string, key: string, net: Network)
    requires HosterStream(h1, imdbId, key, net).Some?
    requires ResolvedTarget(h2, net).None?
    ensures FilterMap(StreamOf(imdbId, key, net), [h1, h2]) == [HosterStream(h1, imdbId, key, net).value]
    ensures LoopCalls([h1, h2], net)
      == [RedirectFetch(h1.redirectUrl), Unrestrict(ResolvedTarget(h1, net).value), RedirectFetch(h2.redirectUrl)]
  {
    var f := StreamOf(imdbId, key, net);
    assert [h1, h2][..1] == [h1];
    assert [h1][..0] == [];
    assert f(h2) == None;
    assert FilterMap(f, [h1]) == [HosterStream(h1, imdbId, key, net).value];
    assert ResolvedTarget(h1, net).Some?;
    assert LoopCalls([h1], net) == HosterCalls(h1, net);
    assert HosterCalls(h2, net) == [RedirectFetch(h2.redirectUrl)];
  }
}
