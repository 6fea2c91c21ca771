# VocaDBScraper core, modelled in Dafny

VocaDBScraper copies the song catalogue of VocaDB into a PostgreSQL database. It then enriches every stored
video link (YouTube, NicoNico, Bilibili) with view statistics fetched from each platform. This project models
the deterministic middle of that pipeline. The HTTP, SQL and asyncio layers are replaced by parameters and
in-memory values. Properties of the model are proved with the Dafny verifier.

| module (file) | models |
|---|---|
| `Bvid` (bvid.dfy), `Patterns` (patterns.dfy) | `utils/bvid.py`: the base-58 alphabet and its inverse `tr`, `av_to_bv`, `bv_to_av`, and the id normaliser `get_bv`, with its two regular expressions as leftmost, greedy matchers |
| `BilibiliStatistics` (bilibili.dfy) | the user-agent choice of the constructor, the request URL, `_parse_json`, and the result shape of a run over many ids |
| `NicoNicoStatistics` (niconico.dfy) | the request URL, `_parse_xml_tree` over an abstract document, and the result shape of a run |
| `YouTubeStatistics` (youtube.dfy) | the key pool as a class: `itertools.cycle` becomes an index into the key list. Also the retry loop of `_fetch_chunk`, the chunking, and the concatenation of `fetch_videos_stats` |
| `Db` (db.dfy) | `SongRepository` as a class holding the two tables (sequences in primary-key order) and the cursors `_last_id` / `_last_ids`. Covers the batch queries, resets and updates, and the grouping loop of `fetch_joined_views_in_batches` |
| `VocaDb` (vocadb.dfy) | `gen_url`, the page arithmetic of `gen_urls`, the fallback of `fetch_url`, and the pv-to-record flattening and insert calls of `process_url` |
| `NoApi` (noapi.dfy) | `get_yt_views` after its page fetch: the marker split and the integer parse |
| `Constants` (constants.dfy) | `ResponseState`, `Service` and `service_names_map` |
| `Strings`, `Seqs`, `Arith`, `Wrappers` | Python's `find`/`in`/`split`/`join`/`int`/`str`, sequence helpers, and the result types `Option` / `Result` |

The model follows the code where the code and the repository's descriptions differ:

- `get_yt_views` takes `split(marker)[1]`. So its candidate stops at the first `"`, or at the next occurrence of
  the marker, whichever comes first; not only at the next `"` (`NoApi.CandidateBounds`).
- The per-service song-URL fetch filters on `SongURL.id > 0`. The stored cursor `_last_ids[service]` is written
  but never read, so repeating the call without writes returns the same rows (`Db.ServiceUrlsBatch`).
- Its guard `self._last_id is not None` tests the song cursor, and that cursor is never `None`.
- `gen_urls` requests `ceil((total - start + 1) / size) + 1` pages, each of the 100 songs from `i * 100`, whatever
  `start` and `size` are.
- `fetch_videos_stats` rejects only a batch size over 50. A size of 0 makes `range` raise `ValueError`. A negative
  size gives an empty range and an empty result (`YouTubeStatistics.VideosStats`).
- Bilibili's constructor indexes `user_agent["User-Agent"]`. A non-empty dictionary without that key therefore
  raises `KeyError` (`BilibiliStatistics.ResolveUserAgent`).
- `[0-9a-zA-Z]` under `re.IGNORECASE` also matches U+0130, U+0131, U+017F and U+212A, as Python's `re` does
  (`Bvid.IsIdChar`).

Inputs that the original program obtains from outside become parameters:

- HTTP responses: a status plus decoded body, an abstract XML document, an HTML string, or a failure.
- Table contents.
- The sequence of responses that each YouTube chunk receives.

## Model

| member | source | states |
|---|---|---|
| Constants.ServiceName | constants/services.py:9-13 | YouTube is stored as "Youtube", NicoNico as "NicoNicoDouga", Bilibili as "Bilibili" |
| Constants.ServiceNamesDistinct | constants/services.py:9-13 | two services share a stored name only if they are the same service |
| Bvid.TableDistinct | utils/bvid.py:3 | the alphabet has 58 characters, pairwise distinct |
| Bvid.TableAlnum | utils/bvid.py:3 | every alphabet character is an ASCII letter or digit |
| Bvid.TableIndex | utils/bvid.py:8-9 | `tr.get(c)`: a found index holds `c` in the alphabet; no index exactly when `c` is not in the alphabet |
| Bvid.TableIndexAt | utils/bvid.py:8-9 | `tr[table[i]] == i` for every i below 58 |
| Bvid.BuildTr | utils/bvid.py:4-9 | the module loop builds a dictionary whose keys are exactly the alphabet characters, with `tr[table[i]] == i` |
| Bvid.XorNatInvolution | utils/bvid.py:13-23 | `(a ^ b) ^ b == a` for natural numbers |
| Bvid.XorInt | utils/bvid.py:13-23 | Python's `^` with a non-negative mask keeps the sign of the left operand |
| Bvid.XorIntInvolution | utils/bvid.py:13-23 | `(a ^ m) ^ m == a` for every integer `a`, so `bv_to_av` undoes the mask of `av_to_bv` |
| Bvid.Encode | utils/bvid.py:11-17 | `av_to_bv` succeeds exactly when `av[2:]` is a decimal integer |
| Bvid.AvToBv | utils/bvid.py:11-17 | the in-place loop over the 12-character list computes `Encode` |
| Bvid.PlacedAt | utils/bvid.py:14-16 | after k rounds, position `s[i]` (i < k) holds `table[x // 58**i % 58]`, and every position not yet written still holds the template character |
| Bvid.BvOfShape | utils/bvid.py:14-17 | every result has length 12, starts with "BV1", has '4', '1', '7' at positions 5, 7, 9, and holds digit i of x at position `s[i]` |
| Bvid.Decode | utils/bvid.py:19-23 | `bv_to_av` succeeds exactly when no lookup raises, and its result starts with "av" |
| Bvid.AvOfSum | utils/bvid.py:23 | the final formatting yields a result exactly when the digit sum exists, and it starts with "av" |
| Bvid.BvToAv | utils/bvid.py:19-23 | the accumulating loop over the dictionary computes the decode of `bv` through that dictionary |
| Bvid.RoundsOfTr | utils/bvid.py:8-22 | with the dictionary the module builds, reading digits through `tr` equals reading them through the alphabet |
| Bvid.BvToAvWithTr | utils/bvid.py:19-23 | with the module's `tr`, `bv_to_av` equals `Decode` |
| Bvid.RoundsStayNone | utils/bvid.py:21-22 | once one lookup of the loop raises, the whole conversion fails |
| Bvid.RoundsAllSome | utils/bvid.py:21-22 | for a 12-character id, every round succeeds exactly when each of the read positions has a digit |
| Bvid.DecodableIff | utils/bvid.py:19-22 | a BV id converts exactly when it has at least 12 characters and alphabet characters at positions 11, 10, 3, 8, 4, 6 |
| Bvid.RoundsOfBvOf | utils/bvid.py:16-22 | reading back the digits `av_to_bv` placed yields `x mod 58**k` after k rounds |
| Bvid.EncodeOfRendering | utils/bvid.py:11-13 | `av_to_bv("av" + str(n))` is the BV id of `(n ^ xor) + add` |
| Bvid.DecodeOfBvOf | utils/bvid.py:19-23 | decoding the BV id of x (0 <= x < 58**6) gives `"av" + str((x - add) ^ xor)` |
| Bvid.RoundTrip | utils/bvid.py:11-23 | `bv_to_av(av_to_bv("av" + str(n))) == "av" + str(n)` whenever `(n ^ xor) + add` is in [0, 58**6) |
| Bvid.RoundsInjective | utils/bvid.py:19-22 | base-58 digits are unique: two ids whose digits sum alike hold the same digits |
| Bvid.BvOfOnTemplate | utils/bvid.py:14-17 | every `av_to_bv` result is on the template: "BV1", '4', '1', '7' fixed and alphabet characters at the six digit positions |
| Bvid.DecodeThenEncode | utils/bvid.py:11-23 | `av_to_bv(bv_to_av(bv)) == bv` for every id on the template, so the two conversions are inverse bijections there |
| Bvid.DecodeThenEncodeOffTemplate | utils/bvid.py:11-23 | an id off the template that still decodes (another third character, a thirteenth character) re-encodes to a different id |
| Patterns.RunEnd | utils/bvid.py:26-29 | the greedy `+` stops at the first character outside the class, or at the end of the text |
| Patterns.SearchFrom | utils/bvid.py:26-29 | `re.search` finds the leftmost match start, and none exactly when there is no match |
| Patterns.MatchText | utils/bvid.py:28-31 | `group(0)`: the match from its start through the greedy run, at least three characters long |
| Bvid.EncodeAvMatch | utils/bvid.py:29-31 | an `av[0-9]+` match always converts, to the BV id of its digits' value |
| Bvid.GetBvFindsBv | utils/bvid.py:26-28 | when the text contains a case-insensitive `BV[0-9a-zA-Z]+`, the result is the leftmost match, unchanged |
| Bvid.GetBvFindsAv | utils/bvid.py:29-31 | otherwise, when it contains `av[0-9]+`, the result is `av_to_bv` of the leftmost match |
| Bvid.GetBvFallback | utils/bvid.py:32 | a text with neither kind of id is returned verbatim |
| Bvid.GetBvOfWholeMatch | utils/bvid.py:26-28 | a text that is one whole BV match normalises to itself |
| Bvid.BvOfAllIdChars | utils/bvid.py:14-26 | every `av_to_bv` result is a whole `BV[0-9a-zA-Z]+` match |
| Bvid.GetBvIdempotent | utils/bvid.py:25-32 | `get_bv(get_bv(v)) == get_bv(v)` |
| Bvid.GetBvOfAvId | utils/bvid.py:29-31 | `get_bv("av" + str(n))` is the BV id that `av_to_bv` computes for it |
| Bvid.GetBv | utils/bvid.py:25-32 | the result is the text unchanged, or an id that starts with a case-insensitive "BV" |
| BilibiliStatistics.ResolveUserAgent | scrapers/bilibiliVideoStatistics.py:18-29 | `None`, an empty dictionary or an empty "User-Agent" keeps the default; any other dictionary that has the key replaces it; a non-empty dictionary without the key raises `KeyError` |
| BilibiliStatistics.BilibiliScraper.constructor | scrapers/bilibiliVideoStatistics.py:14-29 | the header field ends up as `ResolveUserAgent` decides |
| BilibiliStatistics.BilibiliScraper.Create | scrapers/bilibiliVideoStatistics.py:14-29 | `__init__` raises `KeyError` exactly when `ResolveUserAgent` does; otherwise a new scraper holding the resolved headers |
| BilibiliStatistics.VideoUrl | scrapers/bilibiliVideoStatistics.py:31-32 | the request URL is `BASE_URL` followed by the normalised id |
| BilibiliStatistics.VideoUrlOfNormalised | scrapers/bilibiliVideoStatistics.py:31-32 | passing an already normalised id gives the same URL |
| BilibiliStatistics.VideoUrlOfAvId | scrapers/bilibiliVideoStatistics.py:31-32 | an av id is requested under its BV id, and that BV id decodes back to the av id |
| BilibiliStatistics.ParseJson | scrapers/bilibiliVideoStatistics.py:34-63 | a missing code gives `(UNKNOWN, {})`; 0 gives SUCCESS with the four counters from `data.stat`, each defaulting to 0; -400/-404 give NOT_FOUND with `{}`; 62002/62012/-403 give DELETED with four zeros; any other code gives `(UNKNOWN, {})`; a non-object `data`/`stat` raises |
| BilibiliStatistics.SingleVideoData | scrapers/bilibiliVideoStatistics.py:65-73 | the triple carries the id; a failed request or a raising parse gives `(UNKNOWN, {})`, otherwise the parse result |
| BilibiliStatistics.GetVideosData | scrapers/bilibiliVideoStatistics.py:75-87 | one triple per id, in input order, with the id as first component; a failed request or a response whose parse raises gives `(UNKNOWN, {})`, any other response its parse result |
| NicoNicoStatistics.VideoUrl | scrapers/niconicoVideoStatistics.py:23-24 | the request URL is `BASE_URL` followed by the id, with no normalisation |
| NicoNicoStatistics.ViewCount | scrapers/niconicoVideoStatistics.py:32-36 | an absent counter counts 0, a decimal text its value, any other text 0 |
| NicoNicoStatistics.ParseXmlTree | scrapers/niconicoVideoStatistics.py:26-55 | SUCCESS exactly for status "ok", with the view count; DELETED (views 0) exactly for "fail" with code "DELETED"; NOT_FOUND with `{}` exactly for "fail" with "NOT_FOUND"; everything else, a parse error included, `(UNKNOWN, {})` |
| NicoNicoStatistics.SingleVideoData | scrapers/niconicoVideoStatistics.py:57-65 | the triple carries the id; a failed request gives `(UNKNOWN, {})`, otherwise the parse result |
| NicoNicoStatistics.GetVideosData | scrapers/niconicoVideoStatistics.py:67-76 | one triple per id, in input order, with the id as first component; a failed request gives `(vid, UNKNOWN, {})`, a received one the parse of its body |
| YouTubeStatistics.QuotaRun | scrapers/youtubeVideoStatistics.py:38-42 | counts the leading 403/429 responses: all before it are quota responses, the next one is not |
| YouTubeStatistics.Settle | scrapers/youtubeVideoStatistics.py:35-47 | 200 yields `items` (default `[]`), 404 yields `[]`, any other status that is not a quota status is the fatal `RuntimeError` |
| YouTubeStatistics.ChunkResult | scrapers/youtubeVideoStatistics.py:33-47 | a chunk is decided by its first non-quota response; it stays undecided exactly when every supplied response is a quota response |
| YouTubeStatistics.RequestCount | scrapers/youtubeVideoStatistics.py:33-47 | a chunk sends one request per quota response, plus the deciding one when there is one |
| YouTubeStatistics.ChunkRequests | scrapers/youtubeVideoStatistics.py:27-41 | every retry keeps `part` and `",".join(ids)`; the j-th request carries the key the cycle yields after `r0 + j` switches |
| YouTubeStatistics.NextIndex | scrapers/youtubeVideoStatistics.py:21-22 | one `next` of the cycle advances the index by one and wraps to 0 after the last key |
| YouTubeStatistics.YouTubeScraper.constructor | scrapers/youtubeVideoStatistics.py:14-22 | the current key is `api_keys[0]`, with no switches and no requests yet |
| YouTubeStatistics.YouTubeScraper.Create | scrapers/youtubeVideoStatistics.py:14-22 | raises `ValueError` exactly for an empty key list; otherwise a fresh scraper whose current key is `api_keys[0]` |
| YouTubeStatistics.YouTubeScraper.Rotate | scrapers/youtubeVideoStatistics.py:38-41 | after k switches the current key is `api_keys[k mod n]` |
| YouTubeStatistics.YouTubeScraper.FetchChunk | scrapers/youtubeVideoStatistics.py:26-47 | the loop's outcome is `ChunkResult`; N leading quota responses make exactly N key switches; the requests sent are `ChunkRequests` |
| YouTubeStatistics.YouTubeScraper.FetchBatches | scrapers/youtubeVideoStatistics.py:65-70 | the chunks, fetched in order, give one outcome per chunk; the switches add up over the chunks; each chunk's requests start from the key the previous chunk left |
| YouTubeStatistics.YouTubeScraper.FetchVideosStats | scrapers/youtubeVideoStatistics.py:49-75 | the result is `VideosStats`, and the key switches and requests are those of its batches |
| YouTubeStatistics.Extend | scrapers/youtubeVideoStatistics.py:72-73 | the `extend` loop concatenates the batch results in order |
| YouTubeStatistics.Chunks | scrapers/youtubeVideoStatistics.py:58 | there are no chunks exactly when there are no ids |
| YouTubeStatistics.ChunksFlatten | scrapers/youtubeVideoStatistics.py:58 | the chunks concatenate back to the id list |
| YouTubeStatistics.ChunksSizes | scrapers/youtubeVideoStatistics.py:58 | every chunk is non-empty and at most `batch_size` long; all but the last are exactly `batch_size` long |
| YouTubeStatistics.ChunkAt | scrapers/youtubeVideoStatistics.py:58 | chunk k is the slice `ids[k*size : (k+1)*size]`, cut at the end |
| YouTubeStatistics.ChunksCount | scrapers/youtubeVideoStatistics.py:58 | there are `ceil(len(ids) / size)` chunks |
| YouTubeStatistics.BatchIds | scrapers/youtubeVideoStatistics.py:55-58 | a size in 1..50 chunks the ids; a size that raises, or a negative one, requests nothing |
| YouTubeStatistics.BatchResponses | scrapers/youtubeVideoStatistics.py:69-70 | one response list per batch, the k-th being supplied one (empty when missing) |
| YouTubeStatistics.ChunkResults | scrapers/youtubeVideoStatistics.py:69-70 | one outcome per batch, each that batch's `ChunkResult` |
| YouTubeStatistics.Gather | scrapers/youtubeVideoStatistics.py:70-73 | any fatal batch makes the whole call raise `RuntimeError`; the call returns items exactly when every batch has finished, and they are the batches' item lists concatenated in batch order |
| YouTubeStatistics.VideosStats | scrapers/youtubeVideoStatistics.py:55-58 | a batch size over 50, or 0, raises `ValueError` before any request; a negative one returns `[]` |
| YouTubeStatistics.VideosStatsItems | scrapers/youtubeVideoStatistics.py:58-75 | with a valid size, the result is the chunks' item lists concatenated in chunk order, and an item is returned exactly when the decisive response of some chunk holds it |
| Db.SongRepository.constructor | db/db.py:88-94 | both cursors start at -1 (every service's cursor reads -1), over ordered tables |
| Db.SongRepository.FetchUnprocessedSongsBatch | db/db.py:110-130 | returns the first `batch_size` songs with no views, non-empty pvs and id past `_last_id`; the cursor moves to the last returned id, or stays when none; nothing else changes |
| Db.SongRepository.ResetSongsBatches | db/db.py:142-143 | sets `_last_id` to -1 and changes nothing else |
| Db.SongRepository.FetchUnprocessedServiceSongUrlsBatch | db/db.py:165-185 | returns the first `batch_size` rows of the service with no views and id > 0, whatever the cursor; records the last id under the service when non-empty |
| Db.SongRepository.ResetServiceSongUrlsBatches | db/db.py:187-188 | this service's cursor reads -1; every other service's cursor is unchanged |
| Db.SongRepository.FetchUnprocessedYtBatch | db/db.py:192-196 | the service fetch for "Youtube" |
| Db.SongRepository.FetchUnprocessedNnBatch | db/db.py:198-202 | the service fetch for "NicoNicoDouga" |
| Db.SongRepository.FetchUnprocessedBbBatch | db/db.py:204-208 | the service fetch for "Bilibili" |
| Db.SongRepository.ResetYtBatches | db/db.py:220-223 | resets only the "Youtube" cursor |
| Db.SongRepository.ResetNnBatches | db/db.py:225-228 | resets only the "NicoNicoDouga" cursor |
| Db.SongRepository.ResetBbBatches | db/db.py:230-233 | resets only the "Bilibili" cursor |
| Db.SongRepository.UpdateSongsBatch | db/db.py:132-140 | an empty list changes nothing; otherwise each update, in order, sets the views of the song with its id; the table stays ordered; the cursors are untouched |
| Db.SongRepository.UpdateSongUrlsBatch | db/db.py:210-218 | the same for the song-URL table |
| Db.ApplyUpdatesAt | db/db.py:132-140 | after an update list, each row holds the value of the last update addressed to its id, or is untouched when there is none |
| Db.ApplyUpdatesOrdered | db/db.py:210-218 | updates leave the primary keys, and therefore the table order, unchanged |
| Db.SongsBatchShape | db/db.py:110-125 | a song batch has at most `batch_size` rows, ascending by id, each a table row with no views, non-empty pvs and id past the cursor |
| Db.SongsBatchComplete | db/db.py:112-125 | a short batch holds every such song; with a positive size, an empty batch means there is none |
| Db.SongsBatchesAscend | db/db.py:110-130 | a batch taken from the cursor the previous batch left has only larger ids, so successive batches are disjoint and increasing |
| Db.SongsBatchEmptyStays | db/db.py:121-143 | after an empty batch the cursor stays put and every later batch is empty until a reset |
| Db.SongsBatch | db/db.py:110-125 | the query returns at most `batch_size` songs, each a table row with no views, non-empty pvs and id past the cursor |
| Db.ServiceUrlsBatch | db/db.py:165-185 | the query returns at most `batch_size` rows, each of that service with no views and `id > 0`: the stored cursor takes no part |
| Db.ServiceUrlsBatchShape | db/db.py:165-185 | a service batch has at most `batch_size` rows, ascending, each of that service with no views and id > 0 |
| Db.SongRepository.FetchJoinedViewsInBatches | db/db.py:237-293 | the `while` loop yields exactly `JoinedBatches` from cursor -1 |
| Db.GroupBySong | db/db.py:267-272 | the `setdefault` loop builds `Grouped(rows)` |
| Db.GroupServices | db/db.py:276-284 | the loop over `pvs` builds `ServicesOf` |
| Db.BuildBatch | db/db.py:256-289 | one pass of the outer loop builds `JoinedBatch` of the page |
| Db.Keys | db/db.py:256 | `song_ids` lists the page's ids in page order |
| Db.RelatedUrls | db/db.py:259-264 | the join query returns exactly the rows whose song is on the page |
| Db.GroupedAt | db/db.py:267-272 | `urls_by_song[k][url]` exists exactly when some row is for song k and that url, and then holds the views and service of the last such row |
| Db.GroupedKeys | db/db.py:267-272 | `urls_by_song` has an entry for a song exactly when some row is for that song |
| Db.PageIndexRows | db/db.py:256-279 | for a song of the page, the index has a URL exactly when the table has a row for that song and URL |
| Db.ServicesAt | db/db.py:276-284 | a service appears in an entry exactly when some pv's url has a row of that service, and then it lists those pvs, in `pvs` order, with the row's views |
| Db.ServicesEmpty | db/db.py:276-289 | a song with no matching rows gets an empty `services` map |
| Db.JoinedBatch | db/db.py:274-289 | one entry per song of the page, in page order, carrying that song's id |
| Db.AboveMember | db/db.py:247 | `id > last_id` keeps exactly the songs past the cursor |
| Db.AboveIncreasing | db/db.py:244-251 | the songs past the cursor stay in ascending id order |
| Db.AboveShrinks | db/db.py:253-293 | a non-empty page moves the cursor past at least one song, so the loop ends |
| Db.JoinedBatches | db/db.py:240-293 | a zero batch size yields nothing; every yielded batch has between 1 and `batch_size` entries |
| Db.NextCursor | db/db.py:244-293 | in an ascending table, the cursor a page leaves selects exactly the songs after that page |
| Db.JoinedBatchesCover | db/db.py:240-293 | over an ascending table, the batches together list every song past the cursor exactly once, in ascending id order |
| VocaDb.GenUrl | scrapers/vocaDBScraper.py:16-18 | the URL starts with the fixed query prefix |
| VocaDb.GenUrlInjective | scrapers/vocaDBScraper.py:16-18 | `start` and `maxResults` can be read back: different arguments give different URLs |
| VocaDb.CeilDiv | scrapers/vocaDBScraper.py:28 | `math.ceil(a / b)` is the least q with `q * b >= a` for positive b, and with `q * b <= a` for negative b |
| VocaDb.FetchUrl | scrapers/vocaDBScraper.py:32-39 | any failure is replaced by `{"items": []}`; a body is passed through |
| VocaDb.RangeLength | scrapers/vocaDBScraper.py:29 | `range(n)` has n elements, none when n is negative |
| VocaDb.GenUrls | scrapers/vocaDBScraper.py:20-30 | given the response to its first request, the one for `gen_url(start, size)`: a missing `totalCount` raises `KeyError`, size 0 `ZeroDivisionError`; it succeeds exactly when `totalCount` is present and the size is non-zero, and then returns `ceil((total - start + 1) / size) + 1` URLs, the i-th for start `i*100` and size 100 |
| VocaDb.GenUrlsCover | scrapers/vocaDBScraper.py:28-29 | with the defaults, every song index 0..total falls in some requested page, and no page is requested twice |
| VocaDb.RecordsOf | scrapers/vocaDBScraper.py:49-55 | one record per pv, in pv order, with `pv_id`, the item's `song_id`, url, service and `publishDate` or None |
| VocaDb.SongUrlsOf | scrapers/vocaDBScraper.py:47-57 | records exist exactly when every item has `pvs`; otherwise `KeyError` |
| VocaDb.FlattenSongUrls | scrapers/vocaDBScraper.py:47-57 | the `extend` loop computes `SongUrlsOf` |
| VocaDb.SongUrlsMember | scrapers/vocaDBScraper.py:47-57 | a record is produced exactly for each pv of each item |
| VocaDb.SongUrlsLength | scrapers/vocaDBScraper.py:47-57 | there are as many records as pvs over all items |
| VocaDb.ProcessedInserts | scrapers/vocaDBScraper.py:41-61 | an empty page makes no call; otherwise the songs are inserted first; a second call is made exactly when every item has `pvs` and there is at least one record, and it inserts exactly `SongUrlsOf` of the items |
| VocaDb.ProcessUrl | scrapers/vocaDBScraper.py:41-61 | the method with its loop makes exactly the calls of `ProcessedInserts` |
| NoApi.WatchUrl | scrapers/noAPIUnrecommended.py:19 | the watch-page URL is the base followed by the id, verbatim |
| NoApi.GetYtViews | scrapers/noAPIUnrecommended.py:18-28 | `None` exactly when the marker is absent; otherwise the candidate's integer value, or 0 when it is not an integer |
| NoApi.SplitGuardHolds | scrapers/noAPIUnrecommended.py:21-23 | the `len(parts) > 1` test always passes once the marker is present |
| NoApi.Candidate | scrapers/noAPIUnrecommended.py:21-24 | `parts[1].split('"')[0]` holds no `"` |
| NoApi.CandidateBounds | scrapers/noAPIUnrecommended.py:21-24 | the candidate is the text after the first marker, up to the first `"`, the next marker or the end of the page, whichever comes first: it contains no `"` and no marker starts inside it |
| Strings.IndexFromLeftmost | scrapers/noAPIUnrecommended.py:21-22 | `find` returns the leftmost occurrence; none means the pattern does not occur |
| Strings.SplitHasSecondPiece | scrapers/noAPIUnrecommended.py:21-23 | `split` yields more than one piece exactly when the separator occurs |
| Strings.FieldAfter | scrapers/noAPIUnrecommended.py:22-24 | `s.split(sep)[1].split(c)[0]` is the text after the first `sep` up to the first `c`, the next `sep` or the end, whichever comes first: neither a `c` nor the start of a `sep` lies inside it |
| Strings.ParseInt | scrapers/noAPIUnrecommended.py:25-28 | `int(text)` succeeds exactly for an optional sign followed by decimal digits, with the value they denote |
| Strings.ParseIntToString | utils/bvid.py:12-23 | `int(str(n)) == n` |

## Left out

- Network I/O. This covers `aiohttp` sessions, `session.get`, `res.json()`/`res.text()`, `raise_for_status`,
  `timeout`, `fetch_text` and `fetch_json`. Every response is a parameter: a decoded body, an abstract document,
  an HTML string, or a failure.
- Concurrency. `asyncio.gather`, `Semaphore`, `asyncio.sleep(quota_retry_wait)` and `max_concurrent_batches` are
  not modelled. Chunks and ids are processed one after another. The race on `current_key` between concurrent
  YouTube chunks is therefore not modelled.
- YouTubeStatistics.ChunkResult: a retry loop whose supplied responses run out ends as "undecided" (`Pending` /
  `Unfinished`). The real loop would keep sending requests.
- YouTubeStatistics.Gather: `asyncio.gather` raises the exception of the first task to fail in time. Every fatal
  outcome is the same `RuntimeError`, so the model does not say which batch raised it.
- SQL engine, sessions and the ORM. `init_models`, `insert_songs`, `insert_song`, `insert_song_urls` and
  `insert_song_url` are plumbing. `process_url` returns the insert calls it would make instead.
- `get_songurls_by_urls` (db/db.py:147-154) is a plain lookup, outside the batch cursors and the grouping that
  this model covers.
- Db.SongRepository.UpdateSongsBatch: each update dictionary is modelled as a primary key plus the `views`
  column. Other columns are not modelled. A key with no row changes nothing; the ORM's own error reporting for
  that case is not modelled.
- Db.SongRepository.FetchUnprocessedSongsBatch: `batch_size` is a natural number. A negative `LIMIT` (a database
  error) is not modelled. The same holds for the other batch sizes of the repository.
- Db.RelatedUrls: the join query has no `ORDER BY`. Rows are taken in table (primary-key) order, and the "last
  row wins" rule of the grouping refers to that order.
- `jsonb_array_length` on a `pvs` value that is not an array: pvs are a list or absent.
- A pv entry without a `"url"` member: the `KeyError` in the grouping loop is not modelled.
- VocaDb.RecordsOf: `pv["id"]`, `pv["url"]`, `pv["service"]` and `item["id"]` are always present
  in the model, so only a missing `item["pvs"]` raises.
- VocaDb.GenUrls: a `totalCount` that is `null` makes the subtraction raise `TypeError`. The model folds it into
  the missing-member `KeyError` case.
- VocaDb.CeilDiv: `math.ceil` is applied to a float quotient. The model's exact division can differ for counts
  beyond 2**53.
- `VocaDBScraper.run` and its `__init__` (the semaphore and the repository), `main.py` (environment variable, event
  loop policy), and the notebook that drives enrichment end to end: orchestration and I/O.
- Strings.ParseInt: Python's `int()` also strips surrounding whitespace, accepts underscores between digits and
  non-ASCII decimal digits. The model accepts an optional sign and ASCII digits only. This affects
  `av_to_bv`, the NicoNico view counter and `get_yt_views`. In the other direction, recent Python versions
  raise `ValueError` for a decimal string longer than 4300 digits, where the model parses any length.
- BilibiliStatistics.ParseJson: the four counters are integers. A counter of another JSON type is not modelled.
- Logging, `tqdm` progress bars, and the contents of the default user-agent string beyond its key.
- `quota_retry_wait`: a delay only.
- Bvid.XorInt: the mask is non-negative, as both uses are.
