/**
 * The Bilibili statistics scraper (scrapers/bilibiliVideoStatistics.py):
 * the user-agent choice made at construction, the request URL, the
 * classification of a decoded view-API response and the result shape of a
 * run over many ids. The HTTP exchange itself is a parameter: each id comes
 * with the response its request received.
 */
module BilibiliStatistics {
  import opened Wrappers
  import opened Constants
  import opened Strings
  import Bvid

  const BaseUrl: string := "https://api.bilibili.com/x/web-interface/view?bvid="

  type Headers = map<string, string>

  const UserAgentKey: string := "User-Agent"

  /** The browser identification sent when the caller supplies none. */
  const DefaultHeaders: Headers := map[UserAgentKey :=
    "Mozilla/5.0 (Windows NT 10.0; Win64; x64) AppleWebKit/537.36 (KHTML, like Gecko) Chrome/135.0.0.0 Safari/537.36"]

  /**
   * `__init__`'s choice of headers. A missing or empty dictionary, or one
   * whose "User-Agent" is the empty string, keeps the default; any other
   * dictionary replaces it wholesale; a non-empty dictionary without the
   * "User-Agent" key makes the subscript raise `KeyError`.
   */
  function ResolveUserAgent(userAgent: Option<Headers>): (r: Result<Headers>)
    ensures r.Raised? <==> userAgent.Some? && |userAgent.value| > 0 && UserAgentKey !in userAgent.value
    ensures r.Raised? ==> r.error == KeyError
    ensures r.Ok? ==> UserAgentKey in r.value && r.value[UserAgentKey] != ""
    ensures r.Ok? && r.value != DefaultHeaders ==> userAgent == Some(r.value)
    ensures (userAgent.Some? && UserAgentKey in userAgent.value && userAgent.value[UserAgentKey] != "") ==>
              r == Ok(userAgent.value)
  {
    match userAgent
    case None => Ok(DefaultHeaders)
    case Some(ua) =>
      if |ua| == 0 then Ok(DefaultHeaders)
      else if UserAgentKey !in ua then Raised(KeyError)
      else if ua[UserAgentKey] == "" then Ok(DefaultHeaders)
      else Ok(ua)
  }

  /** A scraper: the only state is the header dictionary fixed at construction. */
  class BilibiliScraper {
    var userAgent: Headers

    /** `__init__`: start from the default headers and overwrite them when the caller's are usable. */
    constructor(userAgent: Option<Headers>)
      requires ResolveUserAgent(userAgent).Ok?
      ensures this.userAgent == ResolveUserAgent(userAgent).value
    {
      this.userAgent := DefaultHeaders;
      if userAgent.Some? && |userAgent.value| > 0 && userAgent.value[UserAgentKey] == "" {
      } else if userAgent.Some? && |userAgent.value| > 0 {
        this.userAgent := userAgent.value;
      }
    }

    /** `__init__` as a whole: the `KeyError` of headers without a "User-Agent" key, or a scraper. */
    static method Create(userAgent: Option<Headers>) returns (r: Result<BilibiliScraper>)
      ensures r.Raised? <==> ResolveUserAgent(userAgent).Raised?
      ensures r.Raised? ==> r.error == KeyError
      ensures r.Ok? ==> fresh(r.value) && r.value.userAgent == ResolveUserAgent(userAgent).value
    {
      var resolved := ResolveUserAgent(userAgent);
      if resolved.Raised? {
        return Raised(resolved.error);
      }
      var s := new BilibiliScraper(userAgent);
      return Ok(s);
    }
  }

  /** `_get_video_url`: the view API address for the normalised id. */
  function VideoUrl(vid: string): (u: string)
    ensures |u| >= |BaseUrl| && u[..|BaseUrl|] == BaseUrl
    ensures u[|BaseUrl|..] == Bvid.GetBv(vid)
  {
    BaseUrl + Bvid.GetBv(vid)
  }

  /** Normalising an id before asking for its URL changes nothing. */
  lemma VideoUrlOfNormalised(vid: string)
    ensures VideoUrl(Bvid.GetBv(vid)) == VideoUrl(vid)
  {
    Bvid.GetBvIdempotent(vid);
  }

  /**
   * An av id is requested under the BV id that `av_to_bv` computes for it,
   * and that BV id decodes back to the av id.
   */
  lemma VideoUrlOfAvId(n: nat)
    requires Bvid.Transform(n) < Bvid.Pow58(6)
    ensures VideoUrl("av" + IntToString(n)) == BaseUrl + Bvid.BvOf(Bvid.Transform(n))
    ensures Bvid.Decode(VideoUrl("av" + IntToString(n))[|BaseUrl|..]) == Some("av" + IntToString(n))
  {
    Bvid.GetBvOfAvId(n);
    Bvid.RoundTrip(n);
    assert VideoUrl("av" + IntToString(n))[|BaseUrl|..] == Bvid.BvOf(Bvid.Transform(n));
  }

  // ---------------------------------------------------------------------------
  // The decoded response

  /**
   * A member of a decoded JSON object that the code reads with `.get(key, {})`:
   * absent, present but not an object (`null`, a list, a number ...), or an object.
   */
  datatype Member<T> = Absent | NotObject | Object(value: T)

  /** The `data` object of a response: only its `stat` member is read. */
  datatype Data = Data(stat: Member<map<string, int>>)

  /**
   * A decoded response body. `code` is `None` when the member is absent or
   * `null`; both make `json.get("code", None)` return `None`.
   */
  datatype Json = Json(code: Option<int>, data: Member<Data>)

  /** What one request yields: a decoded object, or a failure (transport error, or a body that is not a JSON object). */
  datatype Response = Failed | Received(json: Json)

  const StatKeys: set<string> := {"views", "likes", "dislikes", "favorites"}

  predicate CodeIn(json: Json, codes: set<int>)
  {
    json.code.Some? && json.code.value in codes
  }

  /**
   * The statistics object that `data.get("stat", {})` yields, or `None`
   * where one of the two `.get` calls is made on a value that is not an object.
   */
  function StatObject(json: Json): Option<map<string, int>>
  {
    match json.data
    case Absent => Some(map[])
    case NotObject => None
    case Object(d) =>
      match d.stat
      case Absent => Some(map[])
      case NotObject => None
      case Object(stat) => Some(stat)
  }

  /** `stats.get(key, 0)`. */
  function Counter(stat: map<string, int>, key: string): int
  {
    if key in stat then stat[key] else 0
  }

  /**
   * `_parse_json`; `Raised(AttributeError)` where a successful response
   * carries a `data` or `stat` member that is not an object.
   */
  function ParseJson(json: Json): (r: Result<Parsed>)
    ensures r.Raised? <==> CodeIn(json, {0}) && StatObject(json).None?
    ensures r.Raised? ==> r.error == AttributeError
    ensures r.Ok? ==> (r.value.state == Success <==> CodeIn(json, {0}))
    ensures r.Ok? ==> (r.value.state == NotFound <==> CodeIn(json, {-400, -404}))
    ensures r.Ok? ==> (r.value.state == Deleted <==> CodeIn(json, {62002, 62012, -403}))
    ensures r.Ok? ==> (r.value.state in {Success, Deleted} <==> r.value.stats.Keys == StatKeys)
    ensures r.Ok? && r.value.state in {NotFound, Unknown} ==> r.value.stats == map[]
    ensures r.Ok? && r.value.state == Deleted ==> forall k :: k in r.value.stats ==> r.value.stats[k] == 0
    ensures r.Ok? && r.value.state == Success ==>
              var stat := StatObject(json).value;
              r.value.stats["views"] == Counter(stat, "view") && r.value.stats["likes"] == Counter(stat, "like") &&
              r.value.stats["dislikes"] == Counter(stat, "dislike") && r.value.stats["favorites"] == Counter(stat, "favorite")
  {
    match json.code
    case None => Ok(Parsed(Unknown, map[]))
    case Some(code) =>
      if code == 0 then
        match StatObject(json)
        case None => Raised(AttributeError)
        case Some(stat) =>
          Ok(Parsed(Success, map["views" := Counter(stat, "view"), "likes" := Counter(stat, "like"),
                                 "dislikes" := Counter(stat, "dislike"), "favorites" := Counter(stat, "favorite")]))
      else if code in [-400, -404] then Ok(Parsed(NotFound, map[]))
      else if code in [62002, 62012, -403] then
        Ok(Parsed(Deleted, map["views" := 0, "likes" := 0, "dislikes" := 0, "favorites" := 0]))
      else Ok(Parsed(Unknown, map[]))
  }

  /**
   * `_get_single_video_data`: the parsed response, or `(vid, UNKNOWN, {})`
   * when anything on the way raises.
   */
  function SingleVideoData(vid: string, response: Response): (r: VideoResult)
    ensures r.vid == vid
    ensures response.Failed? ==> r.state == Unknown && r.stats == map[]
    ensures response.Received? && ParseJson(response.json).Raised? ==> r.state == Unknown && r.stats == map[]
    ensures response.Received? && ParseJson(response.json).Ok? ==> Parsed(r.state, r.stats) == ParseJson(response.json).value
  {
    match response
    case Failed => VideoResult(vid, Unknown, map[])
    case Received(json) =>
      match ParseJson(json)
      case Raised(_) => VideoResult(vid, Unknown, map[])
      case Ok(Parsed(state, stats)) => VideoResult(vid, state, stats)
  }

  /**
   * `get_videos_data`: one result per id, in the order of the ids;
   * `responses[i]` is what the request for `ids[i]` received.
   */
  function GetVideosData(ids: seq<string>, responses: seq<Response>): (r: seq<VideoResult>)
    requires |responses| == |ids|
    ensures |r| == |ids|
    ensures forall i :: 0 <= i < |r| ==> r[i].vid == ids[i]
    ensures forall i :: 0 <= i < |r| && responses[i].Failed? ==> r[i].state == Unknown && r[i].stats == map[]
    ensures forall i :: 0 <= i < |r| && responses[i].Received? && ParseJson(responses[i].json).Raised? ==>
              r[i].state == Unknown && r[i].stats == map[]
    ensures forall i :: 0 <= i < |r| && responses[i].Received? && ParseJson(responses[i].json).Ok? ==>
              Parsed(r[i].state, r[i].stats) == ParseJson(responses[i].json).value
  {
    seq(|ids|, i requires 0 <= i < |ids| => SingleVideoData(ids[i], responses[i]))
  }
}
