/** The outbound services index.js talks to, as oracle functions, and the
    log of requests a run sends. */
module Net {
  import opened Options
  import opened Site

  /** An HTTP exchange: `Failed` when the request throws (network error,
      timeout, error status), otherwise the parsed response. */
  datatype Reply<+T> = Failed | Received(body: T)

  /** The OMDb response fields read: `Response`, `Title`, `Year`, `Type`. */
  datatype OmdbData = OmdbData(response: Option<string>, title: string, year: string, kind: Option<string>)

  /** Cinemeta's `meta` object: `name`, `year`, `type`. */
  datatype CinemetaMeta = CinemetaMeta(name: string, year: string, kind: string)
  datatype CinemetaData = CinemetaData(meta: Option<CinemetaMeta>)

  /** Real-Debrid's unrestrict answer: `download`, `filename`, `filesize`
      (0 when absent) and `host`. */
  datatype RdData = RdData(download: Option<string>, filename: Option<string>, filesize: int, host: Option<string>)

  /** One outbound request. */
  datatype Request =
    | OmdbLookup(imdbId: string)
    | CinemetaLookup(imdbId: string)
    | SiteSearch(keyword: string)
    | PageFetch(url: string)
    | RedirectFetch(url: string)
    | Unrestrict(link: string)

  /** What each service answers: OMDb and Cinemeta by IMDb id, the site's
      search by keyword (the anchors of the response), a content page by URL,
      a redirect by URL, and Real-Debrid by API key and link. */
  datatype Network = Network(
    omdb: string -> Reply<OmdbData>,
    cinemeta: string -> Reply<CinemetaData>,
    search: string -> Reply<seq<Anchor>>,
    page: string -> Reply<HosterPage>,
    redirect: string -> Reply<RedirectPage>,
    debrid: (string, string) -> Reply<RdData>)
}
