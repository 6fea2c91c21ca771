/**
 * The two enumerations shared by the scrapers and the repository:
 * the outcome of one statistics lookup, and the video services with the
 * names under which their URLs are stored.
 */
module Constants {

  /** Outcome of one statistics lookup (constants/states.py). */
  datatype ResponseState = Unknown | Success | Deleted | NotFound

  /** Video services known to the catalog (constants/services.py). */
  datatype Service = UnknownService | YouTube | NicoNico | Bilibili

  /** Statistics of a video, as the dictionary the scrapers return. */
  type Stats = map<string, int>

  /** What a scraper makes of one response: the state of the lookup and its statistics. */
  datatype Parsed = Parsed(state: ResponseState, stats: Stats)

  /** The `(vid, state, data)` triple a scraper returns for one id. */
  datatype VideoResult = VideoResult(vid: string, state: ResponseState, stats: Stats)

  /**
   * `service_names_map`: the name stored in the `service` column for each
   * service that has one; the unknown service has no entry.
   */
  function ServiceName(s: Service): (r: string)
    requires s != UnknownService
    ensures s == YouTube ==> r == "Youtube"
    ensures s == NicoNico ==> r == "NicoNicoDouga"
    ensures s == Bilibili ==> r == "Bilibili"
  {
    match s
    case YouTube => "Youtube"
    case NicoNico => "NicoNicoDouga"
    case Bilibili => "Bilibili"
  }

  /** Distinct services are stored under distinct names. */
  lemma ServiceNamesDistinct(s: Service, t: Service)
    requires s != UnknownService && t != UnknownService
    ensures ServiceName(s) == ServiceName(t) <==> s == t
  {
  }
}
