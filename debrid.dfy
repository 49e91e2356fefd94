/** `unrestrictWithRD`: Real-Debrid's answer for a hoster link. */
module Debrid {
  import opened Options
  import opened Net

  /** A direct link: `url` is Real-Debrid's `download`. */
  datatype RdLink = RdLink(url: string, filename: Option<string>, filesize: int, host: Option<string>)

  /** `unrestrictWithRD(link)` given the service's reply: a link exactly when
      the request succeeded with a non-empty `download`. */
  function UnrestrictWithRD(reply: Reply<RdData>): (r: Option<RdLink>)
    ensures r.Some? <==> reply.Received? && reply.body.download.Some? && reply.body.download.value != ""
    ensures r.Some? ==> r.value.url == reply.body.download.value && r.value.filesize == reply.body.filesize
  {
    match reply
    case Failed => None
    case Received(d) =>
      if d.download.Some? && d.download.value != "" then
        Some(RdLink(d.download.value, d.filename, d.filesize, d.host))
      else None
  }
}
