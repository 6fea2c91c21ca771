/**
 * The ingestion side of scrapers/vocaDBScraper.py: the page URLs of the
 * VocaDB songs API, the page arithmetic of `gen_urls`, the fallback of
 * `fetch_url`, and the flattening of a page's songs into song-URL records
 * in `process_url`. Fetching is a parameter (the response, or a failure),
 * and database inserts are returned as the list of calls made.
 */
module VocaDb {
  import opened Wrappers
  import opened Strings
  import opened Seqs

  const UrlHead: string := "https://vocadb.net/api/songs?childTags=false&unifyTypesAndTags=false&childVoicebanks=false&includeMembers=true&onlyWithPvs=false&start="
  const UrlMiddle: string := "&maxResults="
  const UrlTail: string := "&" + "getTotalCount=true&sort=None&preferAccurateMatches=false&fields=AdditionalNames,PVs,Artists,Bpm,Tags"

  /** `gen_url(start, size)`: the query with `start` and `maxResults` filled in. */
  function GenUrl(start: int, size: int): (u: string)
    ensures |u| > |UrlHead| && u[..|UrlHead|] == UrlHead
  {
    var query := IntToString(start) + UrlMiddle + IntToString(size) + UrlTail;
    HeadOf(UrlHead, query);
    UrlHead + query
  }

  lemma HeadOf(h: string, x: string)
    requires |x| > 0
    ensures |h + x| > |h| && (h + x)[..|h|] == h
  {
  }

  /** Different arguments give different URLs: the numbers can be read back. */
  lemma GenUrlInjective(start: int, size: int, start': int, size': int)
    requires GenUrl(start, size) == GenUrl(start', size')
    ensures start == start' && size == size'
  {
    NoAmpersand(start);
    NoAmpersand(start');
    NoAmpersand(size);
    NoAmpersand(size');
    assert UrlMiddle[0] == '&' && UrlTail[0] == '&';
    TemplateFields(UrlHead, UrlMiddle, UrlTail, IntToString(start), IntToString(size), IntToString(start'), IntToString(size'), '&');
    ParseIntToString(start);
    ParseIntToString(start');
    ParseIntToString(size);
    ParseIntToString(size');
  }

  /** A template `h + a + m + b + t` whose fields lack the character that starts `m` and `t` can be read back. */
  lemma TemplateFields(h: string, m: string, t: string, a: string, b: string, a': string, b': string, c: char)
    requires |m| > 0 && |t| > 0 && m[0] == c && t[0] == c
    requires c !in a && c !in b && c !in a' && c !in b'
    requires h + (a + m + b + t) == h + (a' + m + b' + t)
    ensures a == a' && b == b'
  {
    StripPrefix(h, a + m + b + t, a' + m + b' + t);
    Regroup(a, m, b, t);
    Regroup(a', m, b', t);
    SplitAtMark(a, a', m + (b + t), m + (b' + t), c);
    StripPrefix(m, b + t, b' + t);
    SplitAtMark(b, b', t, t, c);
  }

  lemma Regroup(a: string, m: string, b: string, t: string)
    ensures a + m + b + t == a + (m + (b + t))
  {
  }

  lemma StripPrefix(p: string, x: string, y: string)
    requires p + x == p + y
    ensures x == y
  {
    assert x == (p + x)[|p|..];
    assert y == (p + y)[|p|..];
  }

  lemma NoAmpersand(n: int)
    ensures '&' !in IntToString(n)
  {
    forall i | 0 <= i < |IntToString(n)| ensures IntToString(n)[i] != '&' {
      IntToStringAlphabet(n, i);
    }
  }

  /** Two texts free of `c`, each followed by a text that starts with `c`, split the same way. */
  lemma SplitAtMark(x: string, x': string, r: string, r': string, c: char)
    requires c !in x && c !in x' && |r| > 0 && |r'| > 0 && r[0] == c && r'[0] == c
    requires x + r == x' + r'
    ensures x == x' && r == r'
  {
    FirstMark(x, r, c);
    FirstMark(x', r', c);
    assert x == (x + r)[..|x|];
    assert x' == (x' + r')[..|x|];
    assert r == (x + r)[|x|..];
    assert r' == (x' + r')[|x|..];
  }

  /** The first `c` of `x + r` is where `r` begins. */
  lemma FirstMark(x: string, r: string, c: char)
    requires c !in x && |r| > 0 && r[0] == c
    ensures CharIndex(x + r, c) == Some(|x|)
  {
    assert (x + r)[|x|] == c;
    forall j | 0 <= j < |x| ensures (x + r)[j] != c {
      assert (x + r)[j] == x[j];
    }
  }

  /** `math.ceil(a / b)` for a non-zero divisor, in exact integer arithmetic. */
  function CeilDiv(a: int, b: int): (q: int)
    requires b != 0
    ensures b > 0 ==> q * b >= a && (q - 1) * b < a
    ensures b < 0 ==> q * b <= a && (q - 1) * b > a
  {
    if b > 0 then CeilDivPos(a, b) else CeilDivPos(-a, -b)
  }

  function CeilDivPos(a: int, b: nat): (q: int)
    requires b > 0
    ensures q * b >= a && (q - 1) * b < a
  {
    var q := (a + b - 1) / b;
    var r := (a + b - 1) % b;
    assert a + b - 1 == q * b + r;
    assert q * b == a + b - 1 - r;
    assert (q - 1) * b == q * b - b;
    q
  }

  /** One song of a page; `pvs` is absent when the item has no such member. */
  datatype Pv = Pv(id: int, url: string, service: string, publishDate: Option<string>)
  datatype SongItem = SongItem(id: int, pvs: Option<seq<Pv>>)

  /** A decoded page: its `totalCount` and `items` members, each possibly absent. */
  datatype Page = Page(totalCount: Option<int>, items: Option<seq<SongItem>>)

  /** What a request gets: a decoded body, or any failure (network, status, decoding). */
  datatype FetchResult = Fetched(page: Page) | FetchFailed

  /** `fetch_url`: any failure is replaced by `{"items": []}`. */
  function FetchUrl(response: FetchResult): (p: Page)
    ensures response.FetchFailed? ==> p == Page(None, Some([]))
    ensures response.Fetched? ==> p == response.page
  {
    match response
    case Fetched(page) => page
    case FetchFailed => Page(None, Some([]))
  }

  /** `range(n)` is empty for a negative `n`. */
  function RangeLength(n: int): (k: nat)
    ensures n <= 0 ==> k == 0
    ensures n >= 0 ==> k == n
  {
    if n < 0 then 0 else n
  }

  /**
   * `gen_urls(start, size)`, given `response`, the answer to its first
   * request, the one for `GenUrl(start, size)`: a missing `totalCount` (a failed fetch included) raises
   * `KeyError`, a zero size `ZeroDivisionError`; otherwise
   * `ceil((total - start + 1) / size) + 1` URLs, the `i`-th asking for the
   * 100 songs from `i * 100`, whatever `start` and `size` were.
   */
  function GenUrls(start: int, size: int, response: FetchResult): (r: Result<seq<string>>)
    ensures r.Raised? && r.error == KeyError <==> FetchUrl(response).totalCount.None?
    ensures r.Raised? && r.error == ZeroDivisionError <==> FetchUrl(response).totalCount.Some? && size == 0
    ensures r.Ok? <==> FetchUrl(response).totalCount.Some? && size != 0
    ensures r.Ok? ==> |r.value| == RangeLength(CeilDiv(FetchUrl(response).totalCount.value - start + 1, size) + 1)
    ensures r.Ok? ==> forall i :: 0 <= i < |r.value| ==> r.value[i] == GenUrl(i * 100, 100)
  {
    var page := FetchUrl(response);
    if page.totalCount.None? then Raised(KeyError)
    else if size == 0 then Raised(ZeroDivisionError)
    else
      var pages := CeilDiv(page.totalCount.value - start + 1, size);
      Ok(seq(RangeLength(pages + 1), i requires 0 <= i => GenUrl(i * 100, 100)))
  }

  /**
   * With the defaults `start = 0, size = 100`, the pages requested cover
   * every song index from 0 to the total count, and no page is requested twice.
   */
  lemma GenUrlsCover(response: FetchResult, k: int)
    requires FetchUrl(response).totalCount.Some? && 0 <= k <= FetchUrl(response).totalCount.value
    ensures GenUrls(0, 100, response).Ok?
    ensures exists i :: 0 <= i < |GenUrls(0, 100, response).value| && i * 100 <= k < i * 100 + 100
    ensures forall i, j :: 0 <= i < j < |GenUrls(0, 100, response).value| ==>
              GenUrls(0, 100, response).value[i] != GenUrls(0, 100, response).value[j]
  {
    var urls := GenUrls(0, 100, response).value;
    var i := k / 100;
    var total := FetchUrl(response).totalCount.value;
    var pages := CeilDiv(total + 1, 100);
    assert i * 100 <= k < i * 100 + 100;
    assert i <= pages by {
      assert (pages - 1) * 100 < total + 1;
      assert i * 100 <= total;
    }
    forall i, j | 0 <= i < j < |urls| ensures urls[i] != urls[j] {
      if urls[i] == urls[j] {
        GenUrlInjective(i * 100, 100, j * 100, 100);
      }
    }
  }

  /** The record `process_url` builds for one pv of an item. */
  datatype SongUrlRecord = SongUrlRecord(pvId: int, songId: int, url: string, service: string, publishedAt: Option<string>)

  function RecordOf(item: SongItem, pv: Pv): SongUrlRecord
  {
    SongUrlRecord(pv.id, item.id, pv.url, pv.service, pv.publishDate)
  }

  /** The list comprehension over `item["pvs"]`. */
  function RecordsOf(item: SongItem): (rs: seq<SongUrlRecord>)
    requires item.pvs.Some?
    ensures |rs| == |item.pvs.value|
    ensures forall j :: 0 <= j < |rs| ==> rs[j] == RecordOf(item, item.pvs.value[j])
  {
    seq(|item.pvs.value|, j requires 0 <= j < |item.pvs.value| => RecordOf(item, item.pvs.value[j]))
  }

  predicate AllHavePvs(items: seq<SongItem>)
  {
    forall k :: 0 <= k < |items| ==> items[k].pvs.Some?
  }

  function RecordLists(items: seq<SongItem>): (ls: seq<seq<SongUrlRecord>>)
    requires AllHavePvs(items)
    ensures |ls| == |items| && forall k :: 0 <= k < |items| ==> ls[k] == RecordsOf(items[k])
  {
    seq(|items|, k requires 0 <= k < |items| => RecordsOf(items[k]))
  }

  /**
   * The song-URL records of a page, item by item and pv by pv; an item
   * without `pvs` raises `KeyError`.
   */
  function SongUrlsOf(items: seq<SongItem>): (r: Result<seq<SongUrlRecord>>)
    ensures r.Ok? <==> AllHavePvs(items)
    ensures r.Raised? ==> r.error == KeyError
  {
    if AllHavePvs(items) then Ok(Flatten(RecordLists(items))) else Raised(KeyError)
  }

  /** The loop of `process_url` that extends `song_urls_total` item by item. */
  method FlattenSongUrls(items: seq<SongItem>) returns (r: Result<seq<SongUrlRecord>>)
    ensures r == SongUrlsOf(items)
  {
    var total: seq<SongUrlRecord> := [];
    var k := 0;
    while k < |items|
      invariant 0 <= k <= |items| && AllHavePvs(items[..k])
      invariant total == Flatten(RecordLists(items[..k]))
    {
      var item := items[k];
      if item.pvs.None? {
        return Raised(KeyError);
      }
      var songUrls := RecordsOf(item);
      assert items[..k + 1] == items[..k] + [item];
      assert RecordLists(items[..k + 1]) == RecordLists(items[..k]) + [songUrls];
      FlattenSnoc(RecordLists(items[..k]), songUrls);
      if |songUrls| > 0 {
        total := total + songUrls;
      }
      k := k + 1;
    }
    assert items[..k] == items;
    return Ok(total);
  }

  /** A record is produced exactly for each pv of each item. */
  lemma SongUrlsMember(items: seq<SongItem>, x: SongUrlRecord)
    requires AllHavePvs(items)
    ensures x in SongUrlsOf(items).value <==>
              exists k, j :: 0 <= k < |items| && 0 <= j < |items[k].pvs.value| && x == RecordOf(items[k], items[k].pvs.value[j])
  {
    var ls := RecordLists(items);
    FlattenMember(ls, x);
    if x in SongUrlsOf(items).value {
      var k :| 0 <= k < |ls| && x in ls[k];
      var j :| 0 <= j < |ls[k]| && ls[k][j] == x;
      assert x == RecordOf(items[k], items[k].pvs.value[j]);
    }
    if exists k, j :: 0 <= k < |items| && 0 <= j < |items[k].pvs.value| && x == RecordOf(items[k], items[k].pvs.value[j]) {
      var k, j :| 0 <= k < |items| && 0 <= j < |items[k].pvs.value| && x == RecordOf(items[k], items[k].pvs.value[j]);
      assert ls[k][j] == x;
    }
  }

  /** The number of pvs over all items. */
  function PvCount(items: seq<SongItem>): nat
    requires AllHavePvs(items)
  {
    if |items| == 0 then 0 else |items[0].pvs.value| + PvCount(items[1..])
  }

  /** One record per pv. */
  lemma {:induction false} SongUrlsLength(items: seq<SongItem>)
    requires AllHavePvs(items)
    ensures |SongUrlsOf(items).value| == PvCount(items)
  {
    if |items| > 0 {
      SongUrlsLength(items[1..]);
      assert RecordLists(items) == [RecordsOf(items[0])] + RecordLists(items[1..]);
      assert RecordLists(items)[1..] == RecordLists(items[1..]);
    }
  }

  /** The database calls `process_url` makes, in order. */
  datatype Insert = InsertSongs(songs: seq<SongItem>) | InsertSongUrls(records: seq<SongUrlRecord>)

  /**
   * `process_url` for one page: no call for an empty page; otherwise the
   * songs are inserted, then their song-URL records unless there are none
   * or an item lacks `pvs` (the `KeyError` is caught and logged).
   */
  function ProcessedInserts(response: FetchResult): (calls: seq<Insert>)
    ensures FetchUrl(response).items.GetOr([]) == [] <==> calls == []
    ensures calls != [] ==> calls[0] == InsertSongs(FetchUrl(response).items.GetOr([])) && |calls| <= 2
    ensures |calls| == 2 ==> calls[1].InsertSongUrls? && calls[1].records != []
    ensures |calls| == 2 <==>
              var items := FetchUrl(response).items.GetOr([]);
              items != [] && SongUrlsOf(items).Ok? && SongUrlsOf(items).value != []
    ensures |calls| == 2 ==> calls[1].records == SongUrlsOf(FetchUrl(response).items.GetOr([])).value
  {
    var items := FetchUrl(response).items.GetOr([]);
    if items == [] then []
    else
      [InsertSongs(items)]
        + match SongUrlsOf(items)
          case Raised(_) => []
          case Ok(records) => if records == [] then [] else [InsertSongUrls(records)]
  }

  /** `process_url`, computing the records with the loop. */
  method ProcessUrl(response: FetchResult) returns (calls: seq<Insert>)
    ensures calls == ProcessedInserts(response)
  {
    var items := FetchUrl(response).items.GetOr([]);
    calls := [];
    if items != [] {
      calls := calls + [InsertSongs(items)];
      var songUrlsTotal := FlattenSongUrls(items);
      if songUrlsTotal.Ok? && songUrlsTotal.value != [] {
        calls := calls + [InsertSongUrls(songUrlsTotal.value)];
      }
    }
  }
}
