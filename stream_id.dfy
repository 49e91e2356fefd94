/** The Stremio id of a stream request, `tt…[:season[:episode]]`, split as
    `handleStream` splits it. */
module StreamId {
  import opened Options
  import opened Text
  import opened Numbers

  /** `imdbId`, and `season`/`episode` as `parseInt` leaves them (`None` is
      JavaScript's `null`: the part is missing). */
  datatype ContentRef = ContentRef(imdbId: string, season: Option<Num>, episode: Option<Num>)

  /** `id.split(':')`, then the first part, and `parseInt` of the second and
      third parts when there are that many. */
  function ParseId(id: string): ContentRef
  {
    var parts := Split(id, ':');
    ContentRef(
      parts[0],
      if |parts| > 1 then Some(ParseInt(parts[1])) else None,
      if |parts| > 2 then Some(ParseInt(parts[2])) else None)
  }

  /** The IMDb id is the text before the first colon (all of `id` when it has none). */
  lemma ParseIdImdbId(id: string)
    ensures ':' !in ParseId(id).imdbId
    ensures ParseId(id).imdbId == id || StartsWith(id, ParseId(id).imdbId + ":")
  {
    var parts := Split(id, ':');
    JoinSplit(id, ':');
    if |parts| > 1 {
      assert id == parts[0] + [':'] + Join(parts[1..], ':');
      assert id[..|parts[0]| + 1] == parts[0] + ":";
    }
  }

  /** The season is present exactly when `id` has a colon, the episode exactly
      when it has at least two. */
  lemma ParseIdPresence(id: string)
    ensures ParseId(id).season.Some? <==> ':' in id
    ensures ParseId(id).episode.Some? <==> Count(id, ':') >= 2
  {
    CountZero(id, ':');
  }

  /** Parts after the third are ignored. */
  lemma ParseIdIgnoresTail(id: string, tail: string)
    requires Count(id, ':') >= 2
    ensures ParseId(id + ":" + tail) == ParseId(id)
  {
    SplitAppend(id, ':', tail);
  }

  /** An id assembled from an IMDb id without colons and two numbers' texts
      parses back to exactly those parts. */
  lemma ParseIdOfParts(imdbId: string, season: Num, episode: Num)
    requires ':' !in imdbId
    ensures ParseId(imdbId + ":" + NumText(season) + ":" + NumText(episode))
      == ContentRef(imdbId, Some(season), Some(episode))
  {
    var s, e := NumText(season), NumText(episode);
    var rest := s + [':'] + e;
    var id := imdbId + [':'] + rest;
    assert id == imdbId + ":" + s + ":" + e;
    NumTextNoColon(season);
    NumTextNoColon(episode);
    SplitWithoutSeparator(imdbId, ':');
    SplitWithoutSeparator(s, ':');
    SplitWithoutSeparator(e, ':');
    SplitAppend(s, ':', e);
    assert Split(rest, ':') == [s, e];
    SplitAppend(imdbId, ':', rest);
    assert Split(id, ':') == [imdbId, s, e];
    ParseIntNumText(season);
    ParseIntNumText(episode);
  }

  lemma NumTextNoColon(x: Num)
    ensures ':' !in NumText(x)
  {
    if x.Int? {
      var m: nat := if x.value < 0 then -x.value else x.value;
      var d := NatText(m);
      assert forall i :: 0 <= i < |d| ==> d[i] != ':' by {
        forall i | 0 <= i < |d| ensures d[i] != ':' { assert DigitValue(d[i]) < 10; }
      }
    }
  }
}
