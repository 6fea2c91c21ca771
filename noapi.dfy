/**
 * The key-less YouTube view counter (scrapers/noAPIUnrecommended.py):
 * `get_yt_views` after its page fetch, a text search for the `viewCount`
 * member in the watch page's HTML. The page text is a parameter.
 */
module NoApi {
  import opened Wrappers
  import opened Strings

  const WatchBase: string := "https://www.youtube.com/watch?v="

  /** The text that precedes the view count in the page's embedded JSON. */
  const Marker: string := "viewCount\":\""

  /** The address `get_yt_views` fetches: the id appended verbatim. */
  function WatchUrl(vid: string): (u: string)
    ensures |u| == |WatchBase| + |vid|
    ensures u[..|WatchBase|] == WatchBase && u[|WatchBase|..] == vid
  {
    WatchBase + vid
  }

  /** `html.split(marker)[1].split('"')[0]`. */
  function Candidate(html: string): (c: string)
    requires Contains(html, Marker)
    ensures '"' !in c
  {
    SplitHasSecondPiece(html, Marker);
    assert "\"" == ['"'];
    FirstPieceHasNoChar(Split(html, Marker)[1], '"');
    Split(Split(html, Marker)[1], "\"")[0]
  }

  /**
   * `get_yt_views(session, vid)` with `html` the fetched page: `None` (the
   * function falls off its end) when the marker is absent; otherwise the
   * candidate as an integer, or 0 when it is not one.
   */
  function GetYtViews(html: string): (r: Option<int>)
    ensures r.None? <==> !Contains(html, Marker)
    ensures r.Some? && ParseInt(Candidate(html)).Some? ==> r.value == ParseInt(Candidate(html)).value
    ensures r.Some? && ParseInt(Candidate(html)).None? ==> r.value == 0
  {
    if Contains(html, Marker) then
      var parts := Split(html, Marker);
      SplitHasSecondPiece(html, Marker);
      if |parts| > 1 then
        var viewCount := Split(parts[1], "\"")[0];
        match ParseInt(viewCount)
        case Some(n) => Some(n)
        case None => Some(0)
      else None
    else None
  }

  /** The `len(parts) > 1` test never fails once the marker is present. */
  lemma SplitGuardHolds(html: string)
    requires Contains(html, Marker)
    ensures |Split(html, Marker)| > 1
  {
    SplitHasSecondPiece(html, Marker);
  }

  /**
   * The candidate is the text right after the first marker, up to the first
   * `"`, the next occurrence of the marker, or the end of the page, whichever
   * comes first: it holds no `"` and no marker starts inside it. `i` is the
   * first occurrence of the marker.
   */
  lemma CandidateBounds(html: string, i: nat) returns (e: nat)
    requires IndexFrom(html, Marker, 0) == Some(i)
    ensures OccursAt(html, Marker, i) && forall j :: 0 <= j < i ==> !OccursAt(html, Marker, j)
    ensures i + |Marker| <= e <= |html| && Candidate(html) == html[i + |Marker|..e]
    ensures forall k :: i + |Marker| <= k < e ==> html[k] != '"'
    ensures forall k :: i + |Marker| <= k < e ==> !OccursAt(html, Marker, k)
    ensures e == |html| || html[e] == '"' || OccursAt(html, Marker, e)
  {
    IndexFromLeftmost(html, Marker, 0);
    assert "\"" == ['"'];
    e := FieldAfter(html, Marker, '"', i);
  }
}
