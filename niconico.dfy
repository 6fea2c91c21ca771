/**
 * The NicoNico statistics scraper (scrapers/niconicoVideoStatistics.py):
 * the request URL, the classification of a `getthumbinfo` XML document and
 * the result shape of a run over many ids. XML parsing is abstracted to the
 * three values the code reads; the HTTP exchange is a parameter.
 */
module NicoNicoStatistics {
  import opened Wrappers
  import opened Constants
  import opened Strings

  const BaseUrl: string := "https://ext.nicovideo.jp/api/getthumbinfo/"

  /** `_get_video_url`: the id is appended as given, without normalisation. */
  function VideoUrl(vid: string): (u: string)
    ensures |u| == |BaseUrl| + |vid|
    ensures u[..|BaseUrl|] == BaseUrl && u[|BaseUrl|..] == vid
  {
    BaseUrl + vid
  }

  /**
   * A parsed `getthumbinfo` document, reduced to what the code reads: the
   * root's `status` attribute and the texts `findtext` returns for
   * `thumb/view_counter` and `error/code`. `None` is an absent attribute or
   * element; a present element without text is `Some("")`.
   */
  datatype Document = Document(status: Option<string>, viewCounter: Option<string>, errorCode: Option<string>)

  /** What `ET.fromstring` makes of a body: a document, or a `ParseError`. */
  datatype Xml = Malformed | WellFormed(doc: Document)

  /** What one request yields: the body, or a failure on the way to it. */
  datatype Response = Failed | Received(xml: Xml)

  /**
   * The view count of a successful lookup: `int` of the counter's text,
   * `"0"` when the element is absent, and 0 when the text is not an integer.
   */
  function ViewCount(counter: Option<string>): (v: int)
    ensures counter.None? ==> v == 0
    ensures counter.Some? && ParseInt(counter.value).Some? ==> v == ParseInt(counter.value).value
    ensures counter.Some? && ParseInt(counter.value).None? ==> v == 0
  {
    match ParseInt(counter.GetOr("0"))
    case Some(n) => n
    case None => 0
  }

  predicate StatusIs(xml: Xml, status: string)
  {
    xml.WellFormed? && xml.doc.status == Some(status)
  }

  predicate FailedWith(xml: Xml, code: string)
  {
    StatusIs(xml, "fail") && xml.doc.errorCode == Some(code)
  }

  /**
   * `_parse_xml_tree`: "ok" is a success with the view count, "fail" with
   * error code "DELETED" or "NOT_FOUND" a deleted or missing video, and
   * everything else (a parse error, an absent or other status, another
   * error code) an unknown outcome.
   */
  function ParseXmlTree(xml: Xml): (r: Parsed)
    ensures r.state == Success <==> StatusIs(xml, "ok")
    ensures r.state == Deleted <==> FailedWith(xml, "DELETED")
    ensures r.state == NotFound <==> FailedWith(xml, "NOT_FOUND")
    ensures r.state == Success ==> r.stats == map["views" := ViewCount(xml.doc.viewCounter)]
    ensures r.state == Deleted ==> r.stats == map["views" := 0]
    ensures r.state in {NotFound, Unknown} ==> r.stats == map[]
  {
    match xml
    case Malformed => Parsed(Unknown, map[])
    case WellFormed(doc) =>
      var status := doc.status.GetOr("unknown");
      if status == "ok" then
        Parsed(Success, map["views" := ViewCount(doc.viewCounter)])
      else if status == "fail" && doc.errorCode.GetOr("unknown") == "DELETED" then
        Parsed(Deleted, map["views" := 0])
      else if status == "fail" && doc.errorCode.GetOr("unknown") == "NOT_FOUND" then
        Parsed(NotFound, map[])
      else
        Parsed(Unknown, map[])
  }

  /** `_get_single_video_data`: the parsed body, or `(vid, UNKNOWN, {})` when the request fails. */
  function SingleVideoData(vid: string, response: Response): (r: VideoResult)
    ensures r.vid == vid
    ensures response.Failed? ==> r.state == Unknown && r.stats == map[]
    ensures response.Received? ==> Parsed(r.state, r.stats) == ParseXmlTree(response.xml)
  {
    match response
    case Failed => VideoResult(vid, Unknown, map[])
    case Received(xml) =>
      var parsed := ParseXmlTree(xml);
      VideoResult(vid, parsed.state, parsed.stats)
  }

  /**
   * `get_videos_data`: one result per id, in the order of the ids;
   * `responses[i]` is what the request for `ids[i]` received.
   */
  function GetVideosData(ids: seq<string>, responses: seq<Response>): (r: seq<VideoResult>)
    requires |responses| == |ids|
    ensures |r| == |ids|
    ensures forall i :: 0 <= i < |r| ==> r[i].vid == ids[i]
    ensures forall i :: 0 <= i < |r| && responses[i].Failed? ==> r[i].state == Unknown && r[i].stats == map[]
    ensures forall i :: 0 <= i < |r| && responses[i].Received? ==>
              Parsed(r[i].state, r[i].stats) == ParseXmlTree(responses[i].xml)
  {
    seq(|ids|, i requires 0 <= i < |ids| => SingleVideoData(ids[i], responses[i]))
  }
}
