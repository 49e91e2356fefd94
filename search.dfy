/** `searchSto`: the site's search, filtered to the requested kind of title. */
module Search {
  import opened Options
  import opened Text
  import opened Seqs
  import opened Site
  import opened Net

  /** One kept search result: the anchor's trimmed text and its absolute URL. */
  datatype SearchHit = SearchHit(title: string, url: string)

  /** What one anchor contributes for the requested `kind`: a hit when its
      `href` and trimmed text are non-empty and the `href` names the kind's
      path (`/filme/` for `movie`, `/serie/` for `series`). */
  function Classify(kind: string, a: Anchor): Option<SearchHit>
  {
    match a.href
    case None => None
    case Some(link) =>
      var title := Trim(a.text);
      if link == "" || title == "" then None
      else if (kind == "movie" && Includes(link, "/filme/")) || (kind == "series" && Includes(link, "/serie/"))
      then Some(SearchHit(title, Absolute(link)))
      else None
  }

  function ClassifierFor(kind: string): Anchor -> Option<SearchHit>
  {
    a => Classify(kind, a)
  }

  /** The results `searchSto` returns for a search response: none when the
      request failed, otherwise the hits of the anchors in document order. */
  function SearchResults(kind: string, reply: Reply<seq<Anchor>>): seq<SearchHit>
  {
    match reply
    case Failed => []
    case Received(anchors) => FilterMap(ClassifierFor(kind), anchors)
  }

  /** `searchSto(query, type)`: post the keyword, walk the anchors of the
      answer and push a hit for each one of the requested kind. */
  method SearchSto(query: string, kind: string, net: Network) returns (results: seq<SearchHit>)
    ensures results == SearchResults(kind, net.search(query))
  {
    var reply := net.search(query);
    if reply.Failed? {
      return [];
    }
    var anchors := reply.body;
    results := [];
    var i := 0;
    while i < |anchors|
      invariant 0 <= i <= |anchors|
      invariant results == FilterMap(ClassifierFor(kind), anchors[..i])
    {
      var a := anchors[i];
      if a.href.Some? {
        var link := a.href.value;
        var title := Trim(a.text);
        if link != "" && title != "" {
          var isMovie := Includes(link, "/filme/");
          var isSeries := Includes(link, "/serie/");
          if (kind == "movie" && isMovie) || (kind == "series" && isSeries) {
            results := results + [SearchHit(title, Absolute(link))];
          }
        }
      }
      assert anchors[..i + 1][..i] == anchors[..i];
      i := i + 1;
    }
    assert anchors[..i] == anchors;
  }

  /** A hit is kept exactly when some anchor has a non-empty `href` of the
      requested kind and non-blank text; its title is that text trimmed and
      its URL the `href` made absolute. */
  lemma SearchResultMember(kind: string, anchors: seq<Anchor>, h: SearchHit)
    ensures h in SearchResults(kind, Received(anchors)) <==>
      exists i :: 0 <= i < |anchors| && anchors[i].href.Some?
        && var link := anchors[i].href.value;
        && link != "" && Trim(anchors[i].text) != ""
        && ((kind == "movie" && Includes(link, "/filme/")) || (kind == "series" && Includes(link, "/serie/")))
        && h == SearchHit(Trim(anchors[i].text), Absolute(link))
  {
    FilterMapMember(ClassifierFor(kind), anchors, h);
  }

  /** A kind other than `movie` or `series` finds nothing. */
  lemma SearchOtherKindIsEmpty(kind: string, reply: Reply<seq<Anchor>>)
    requires kind != "movie" && kind != "series"
    ensures SearchResults(kind, reply) == []
  {
    if reply.Received? {
      var r := SearchResults(kind, reply);
      if r != [] {
        FilterMapMember(ClassifierFor(kind), reply.body, r[0]);
      }
    }
  }

  /** Results keep document order: the k-th result comes from the k-th kept
      anchor, and no kept anchor is skipped. */
  lemma SearchInDocumentOrder(kind: string, anchors: seq<Anchor>)
    ensures var r, idx := SearchResults(kind, Received(anchors)), Accepted(ClassifierFor(kind), anchors);
      && |idx| == |r|
      && (forall k :: 0 <= k < |idx| ==> idx[k] < |anchors| && Classify(kind, anchors[idx[k]]) == Some(r[k]))
      && (forall k, l :: 0 <= k < l < |idx| ==> idx[k] < idx[l])
      && (forall i :: 0 <= i < |anchors| && Classify(kind, anchors[i]).Some? ==> i in idx)
  {
    FilterMapInOrder(ClassifierFor(kind), anchors);
  }
}
