/** `getMetaInfo`: the title, year and kind of an IMDb id, from OMDb, else
    from Cinemeta. */
module Meta {
  import opened Options
  import opened Net

  datatype MetaInfo = MetaInfo(title: string, year: string, kind: string)

  /** OMDb answered and found the title (`Response === 'True'`). */
  predicate OmdbFound(reply: Reply<OmdbData>) {
    reply.Received? && reply.body.response == Some("True")
  }

  /** What `getMetaInfo` found, and the requests it sent to find it. */
  datatype Lookup = Lookup(info: Option<MetaInfo>, calls: seq<Request>)

  /** `getMetaInfo(imdbId)`, logging each request where it is sent. An OMDb
      request that throws ends the lookup with `null` (one `try` covers both
      requests); an OMDb miss falls back to Cinemeta. */
  function LookupMeta(imdbId: string, net: Network): Lookup
  {
    var omdbCalls := [OmdbLookup(imdbId)];
    match net.omdb(imdbId)
    case Failed => Lookup(None, omdbCalls)
    case Received(o) =>
      if o.response == Some("True") then
        Lookup(Some(MetaInfo(o.title, o.year, if o.kind == Some("movie") then "movie" else "series")), omdbCalls)
      else
        var calls := omdbCalls + [CinemetaLookup(imdbId)];
        match net.cinemeta(imdbId)
        case Failed => Lookup(None, calls)
        case Received(c) =>
          match c.meta
          case None => Lookup(None, calls)
          case Some(m) => Lookup(Some(MetaInfo(m.name, m.year, m.kind)), calls)
  }

  /** The metadata `getMetaInfo` returns. */
  function GetMetaInfo(imdbId: string, net: Network): Option<MetaInfo>
  {
    LookupMeta(imdbId, net).info
  }

  /** An OMDb hit is the answer, with every type but `movie` normalised to
      `series`, and Cinemeta is neither asked nor able to change it. */
  lemma OmdbHitWins(imdbId: string, net: Network, cinemeta: string -> Reply<CinemetaData>)
    requires OmdbFound(net.omdb(imdbId))
    ensures var o := net.omdb(imdbId).body;
      && GetMetaInfo(imdbId, net) == Some(MetaInfo(o.title, o.year, if o.kind == Some("movie") then "movie" else "series"))
      && GetMetaInfo(imdbId, net).value.kind in {"movie", "series"}
      && LookupMeta(imdbId, net.(cinemeta := cinemeta)) == LookupMeta(imdbId, net)
  {
  }

  /** After an OMDb miss the answer is Cinemeta's `meta`, its type passed on
      unchanged. */
  lemma CinemetaFallback(imdbId: string, net: Network)
    requires net.omdb(imdbId).Received? && !OmdbFound(net.omdb(imdbId))
    ensures GetMetaInfo(imdbId, net) ==
      match net.cinemeta(imdbId)
      case Failed => None
      case Received(c) => if c.meta.Some? then Some(MetaInfo(c.meta.value.name, c.meta.value.year, c.meta.value.kind)) else None
  {
  }

  /** No metadata exactly when OMDb failed, or it missed and Cinemeta failed
      or had no `meta`. */
  lemma MetaAbsentIff(imdbId: string, net: Network)
    ensures GetMetaInfo(imdbId, net).None? <==>
      || net.omdb(imdbId).Failed?
      || (!OmdbFound(net.omdb(imdbId))
          && (net.cinemeta(imdbId).Failed? || net.cinemeta(imdbId).body.meta.None?))
  {
  }

  /** OMDb is always asked first and Cinemeta exactly when OMDb answered
      without a hit; nothing else is requested. */
  lemma MetaRequestsOrder(imdbId: string, net: Network)
    ensures var calls := LookupMeta(imdbId, net).calls;
      && 1 <= |calls| <= 2 && calls[0] == OmdbLookup(imdbId)
      && (CinemetaLookup(imdbId) in calls <==> net.omdb(imdbId).Received? && !OmdbFound(net.omdb(imdbId)))
      && (|calls| == 2 ==> calls[1] == CinemetaLookup(imdbId))
  {
  }
}
