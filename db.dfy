/**
 * The repository of db/db.py over in-memory tables: the `songs` and
 * `songurls` tables are sequences of rows in ascending primary-key order,
 * a `SELECT ... WHERE ... ORDER BY id LIMIT n` is `Take(Where(...), n)`,
 * and `jsonb_array_length(pvs) > 0` is a present, non-empty list. The
 * repository's own state is the pair of batch cursors `_last_id` and
 * `_last_ids`.
 */
module Db {
  import opened Wrappers
  import opened Constants
  import opened Seqs

  /** One entry of a song's `pvs` list; only its `url` member is read. */
  datatype Pv = Pv(url: string)

  /** The view counts stored in a song's `views` column. */
  type ViewsRecord = map<string, int>

  /** A `songs` row, reduced to the columns the repository reads. */
  datatype Song = Song(id: int, pvs: Option<seq<Pv>>, views: Option<ViewsRecord>)

  /** A `songurls` row, reduced to the columns the repository reads. */
  datatype SongUrl = SongUrl(id: int, songId: int, url: Option<string>, service: Option<string>, views: Option<int>)

  function SongKey(s: Song): int { s.id }

  function UrlKey(u: SongUrl): int { u.id }

  /** A song still to be scraped after the cursor `after`. */
  predicate UnprocessedSong(s: Song, after: int)
  {
    s.views.None? && s.pvs.Some? && |s.pvs.value| > 0 && s.id > after
  }

  /** The query of `fetch_unprocessed_songs_batch` with the cursor at `after`. */
  function SongsBatch(songs: seq<Song>, after: int, n: nat): (b: seq<Song>)
    ensures |b| <= n
    ensures forall s :: s in b ==> s in songs && UnprocessedSong(s, after)
  {
    Take(Where(songs, s => UnprocessedSong(s, after)), n)
  }

  /** A song URL of `service` whose views are still unknown, with a positive id. */
  predicate UnprocessedUrl(u: SongUrl, service: string)
  {
    u.service == Some(service) && u.views.None? && u.id > 0
  }

  /**
   * The query of `_fetch_unprocessed_service_song_URLs_batch`: it filters on
   * `id > 0`, so the service's stored cursor takes no part in it.
   */
  function ServiceUrlsBatch(songUrls: seq<SongUrl>, service: string, n: nat): (b: seq<SongUrl>)
    ensures |b| <= n
    ensures forall u :: u in b ==> u in songUrls && u.service == Some(service) && u.views.None? && u.id > 0
  {
    Take(Where(songUrls, u => UnprocessedUrl(u, service)), n)
  }

  /** The new high-water mark after a batch: its last id, or the old mark when it is empty. */
  function Advance<R>(rows: seq<R>, key: R -> int, mark: int): int
  {
    if |rows| == 0 then mark else key(rows[|rows| - 1])
  }

  /** One element of a `update(...)` parameter list: the primary key and the new `views`. */
  datatype Update<V> = Update(id: int, value: V)

  /** Executing one update: every row with that key gets the new value. */
  function ApplyUpdate<R, V>(rows: seq<R>, u: Update<V>, key: R -> int, put: (R, V) -> R): (r: seq<R>)
    ensures |r| == |rows|
  {
    seq(|rows|, i requires 0 <= i < |rows| => if key(rows[i]) == u.id then put(rows[i], u.value) else rows[i])
  }

  /** Executing a list of updates in order. */
  function ApplyUpdates<R, V>(rows: seq<R>, updates: seq<Update<V>>, key: R -> int, put: (R, V) -> R): (r: seq<R>)
    ensures |r| == |rows|
  {
    if |updates| == 0 then rows
    else ApplyUpdate(ApplyUpdates(rows, updates[..|updates| - 1], key, put), updates[|updates| - 1], key, put)
  }

  /** The value of the last update addressed to `id`, if any. */
  function LastUpdateFor<V>(updates: seq<Update<V>>, id: int): Option<V>
  {
    if |updates| == 0 then None
    else if updates[|updates| - 1].id == id then Some(updates[|updates| - 1].value)
    else LastUpdateFor(updates[..|updates| - 1], id)
  }

  /** `put` models setting one column: it keeps the key, and a second setting overrides the first. */
  ghost predicate SetsColumn<R(!new), V(!new)>(key: R -> int, put: (R, V) -> R)
  {
    (forall r: R, v: V :: key(put(r, v)) == key(r)) &&
    (forall r: R, v: V, w: V :: put(put(r, v), w) == put(r, w))
  }

  /**
   * After a list of updates, a row holds the value of the last update
   * addressed to its key, and is untouched when there is none.
   */
  lemma {:induction false} ApplyUpdatesAt<R(!new), V(!new)>(rows: seq<R>, updates: seq<Update<V>>, key: R -> int, put: (R, V) -> R, i: nat)
    requires SetsColumn(key, put)
    requires i < |rows|
    ensures key(ApplyUpdates(rows, updates, key, put)[i]) == key(rows[i])
    ensures ApplyUpdates(rows, updates, key, put)[i]
            == match LastUpdateFor(updates, key(rows[i]))
               case None => rows[i]
               case Some(v) => put(rows[i], v)
    decreases |updates|
  {
    if |updates| > 0 {
      var n := |updates| - 1;
      ApplyUpdatesAt(rows, updates[..n], key, put, i);
      var before := ApplyUpdates(rows, updates[..n], key, put);
      if updates[n].id == key(rows[i]) {
        assert ApplyUpdates(rows, updates, key, put)[i] == put(before[i], updates[n].value);
        assert key(put(before[i], updates[n].value)) == key(before[i]);
        match LastUpdateFor(updates[..n], key(rows[i]))
        case None =>
        case Some(v) =>
          assert put(put(rows[i], v), updates[n].value) == put(rows[i], updates[n].value);
      }
    }
  }

  /** Updates keep the keys, so an ordered table stays ordered. */
  lemma ApplyUpdatesOrdered<R(!new), V(!new)>(rows: seq<R>, updates: seq<Update<V>>, key: R -> int, put: (R, V) -> R)
    requires SetsColumn(key, put)
    requires IncreasingBy(rows, key)
    ensures IncreasingBy(ApplyUpdates(rows, updates, key, put), key)
  {
    var after := ApplyUpdates(rows, updates, key, put);
    forall i | 0 <= i < |rows| ensures key(after[i]) == key(rows[i]) {
      ApplyUpdatesAt(rows, updates, key, put, i);
    }
  }

  lemma SetViewsSetsColumn()
    ensures SetsColumn(SongKey, SetSongViews) && SetsColumn(UrlKey, SetUrlViews)
  {
  }

  function SetSongViews(s: Song, v: Option<ViewsRecord>): Song { s.(views := v) }

  function SetUrlViews(u: SongUrl, v: Option<int>): SongUrl { u.(views := v) }

  /** `SongRepository`: the two tables and the batch cursors. */
  class SongRepository {
    var songs: seq<Song>
    var songUrls: seq<SongUrl>
    /** `_last_id`: the high-water mark of the song batches. */
    var lastId: int
    /** `_last_ids`: one high-water mark per service name; a missing name reads as -1. */
    var lastIds: map<string, int>

    /** Both tables are in ascending primary-key order. */
    ghost predicate Valid()
      reads this
    {
      IncreasingBy(songs, SongKey) && IncreasingBy(songUrls, UrlKey)
    }

    /** `_last_ids[service]` of the `defaultdict(lambda: -1)`. */
    function LastIdFor(service: string): int
      reads this
    {
      if service in lastIds then lastIds[service] else -1
    }

    constructor(songs: seq<Song>, songUrls: seq<SongUrl>)
      requires IncreasingBy(songs, SongKey) && IncreasingBy(songUrls, UrlKey)
      ensures Valid() && this.songs == songs && this.songUrls == songUrls
      ensures lastId == -1 && lastIds == map[]
      ensures forall service :: LastIdFor(service) == -1
    {
      this.songs := songs;
      this.songUrls := songUrls;
      lastId := -1;
      lastIds := map[];
    }

    /**
     * `fetch_unprocessed_songs_batch`: the first `batchSize` unprocessed
     * songs past the cursor, which then moves to the last of them.
     */
    method FetchUnprocessedSongsBatch(batchSize: nat) returns (rows: seq<Song>)
      modifies this
      ensures rows == SongsBatch(songs, old(lastId), batchSize)
      ensures lastId == Advance(rows, SongKey, old(lastId))
      ensures songs == old(songs) && songUrls == old(songUrls) && lastIds == old(lastIds)
    {
      rows := SongsBatch(songs, lastId, batchSize);
      if |rows| > 0 {
        lastId := rows[|rows| - 1].id;
      }
    }

    /** `reset_songs_batches`. */
    method ResetSongsBatches()
      modifies this
      ensures lastId == -1
      ensures songs == old(songs) && songUrls == old(songUrls) && lastIds == old(lastIds)
    {
      lastId := -1;
    }

    /**
     * `_fetch_unprocessed_service_song_URLs_batch`: the first `batchSize`
     * unprocessed URLs of the service; the service's cursor is recorded but
     * not consulted.
     */
    method FetchUnprocessedServiceSongUrlsBatch(service: string, batchSize: nat) returns (rows: seq<SongUrl>)
      modifies this
      ensures rows == ServiceUrlsBatch(songUrls, service, batchSize)
      ensures lastIds == if |rows| > 0 then old(lastIds)[service := rows[|rows| - 1].id] else old(lastIds)
      ensures songs == old(songs) && songUrls == old(songUrls) && lastId == old(lastId)
    {
      rows := ServiceUrlsBatch(songUrls, service, batchSize);
      if |rows| > 0 {
        lastIds := lastIds[service := rows[|rows| - 1].id];
      }
    }

    /** `_reset_service_song_URLs_batches`: only this service's cursor goes back to -1. */
    method ResetServiceSongUrlsBatches(service: string)
      modifies this
      ensures lastIds == old(lastIds)[service := -1]
      ensures LastIdFor(service) == -1
      ensures forall other :: other != service ==> LastIdFor(other) == old(LastIdFor(other))
      ensures songs == old(songs) && songUrls == old(songUrls) && lastId == old(lastId)
    {
      lastIds := lastIds[service := -1];
    }

    method FetchUnprocessedYtBatch(batchSize: nat) returns (rows: seq<SongUrl>)
      modifies this
      ensures rows == ServiceUrlsBatch(songUrls, "Youtube", batchSize)
      ensures lastIds == if |rows| > 0 then old(lastIds)["Youtube" := rows[|rows| - 1].id] else old(lastIds)
      ensures songs == old(songs) && songUrls == old(songUrls) && lastId == old(lastId)
    {
      rows := FetchUnprocessedServiceSongUrlsBatch(ServiceName(YouTube), batchSize);
    }

    method FetchUnprocessedNnBatch(batchSize: nat) returns (rows: seq<SongUrl>)
      modifies this
      ensures rows == ServiceUrlsBatch(songUrls, "NicoNicoDouga", batchSize)
      ensures lastIds == if |rows| > 0 then old(lastIds)["NicoNicoDouga" := rows[|rows| - 1].id] else old(lastIds)
      ensures songs == old(songs) && songUrls == old(songUrls) && lastId == old(lastId)
    {
      rows := FetchUnprocessedServiceSongUrlsBatch(ServiceName(NicoNico), batchSize);
    }

    method FetchUnprocessedBbBatch(batchSize: nat) returns (rows: seq<SongUrl>)
      modifies this
      ensures rows == ServiceUrlsBatch(songUrls, "Bilibili", batchSize)
      ensures lastIds == if |rows| > 0 then old(lastIds)["Bilibili" := rows[|rows| - 1].id] else old(lastIds)
      ensures songs == old(songs) && songUrls == old(songUrls) && lastId == old(lastId)
    {
      rows := FetchUnprocessedServiceSongUrlsBatch(ServiceName(Bilibili), batchSize);
    }

    method ResetYtBatches()
      modifies this
      ensures lastIds == old(lastIds)["Youtube" := -1]
      ensures songs == old(songs) && songUrls == old(songUrls) && lastId == old(lastId)
    {
      ResetServiceSongUrlsBatches(ServiceName(YouTube));
    }

    method ResetNnBatches()
      modifies this
      ensures lastIds == old(lastIds)["NicoNicoDouga" := -1]
      ensures songs == old(songs) && songUrls == old(songUrls) && lastId == old(lastId)
    {
      ResetServiceSongUrlsBatches(ServiceName(NicoNico));
    }

    method ResetBbBatches()
      modifies this
      ensures lastIds == old(lastIds)["Bilibili" := -1]
      ensures songs == old(songs) && songUrls == old(songUrls) && lastId == old(lastId)
    {
      ResetServiceSongUrlsBatches(ServiceName(Bilibili));
    }

    /**
     * `update_songs_batch`: an empty list returns at once; otherwise each
     * update sets the `views` of the song with its id.
     */
    method UpdateSongsBatch(updates: seq<Update<Option<ViewsRecord>>>)
      requires Valid()
      modifies this
      ensures Valid()
      ensures songs == ApplyUpdates(old(songs), updates, SongKey, SetSongViews)
      ensures updates == [] ==> songs == old(songs)
      ensures songUrls == old(songUrls) && lastId == old(lastId) && lastIds == old(lastIds)
    {
      if |updates| == 0 {
        return;
      }
      var i := 0;
      while i < |updates|
        invariant 0 <= i <= |updates|
        invariant songs == ApplyUpdates(old(songs), updates[..i], SongKey, SetSongViews)
        invariant songUrls == old(songUrls) && lastId == old(lastId) && lastIds == old(lastIds)
      {
        assert updates[..i + 1][..i] == updates[..i];
        songs := ApplyUpdate(songs, updates[i], SongKey, SetSongViews);
        i := i + 1;
      }
      assert updates[..i] == updates;
      SetViewsSetsColumn();
      ApplyUpdatesOrdered(old(songs), updates, SongKey, SetSongViews);
    }

    /**
     * `update_song_urls_batch`: an empty list returns at once; otherwise each
     * update sets the `views` of the song URL with its id.
     */
    method UpdateSongUrlsBatch(updates: seq<Update<Option<int>>>)
      requires Valid()
      modifies this
      ensures Valid()
      ensures songUrls == ApplyUpdates(old(songUrls), updates, UrlKey, SetUrlViews)
      ensures updates == [] ==> songUrls == old(songUrls)
      ensures songs == old(songs) && lastId == old(lastId) && lastIds == old(lastIds)
    {
      if |updates| == 0 {
        return;
      }
      var i := 0;
      while i < |updates|
        invariant 0 <= i <= |updates|
        invariant songUrls == ApplyUpdates(old(songUrls), updates[..i], UrlKey, SetUrlViews)
        invariant songs == old(songs) && lastId == old(lastId) && lastIds == old(lastIds)
      {
        assert updates[..i + 1][..i] == updates[..i];
        songUrls := ApplyUpdate(songUrls, updates[i], UrlKey, SetUrlViews);
        i := i + 1;
      }
      assert updates[..i] == updates;
      SetViewsSetsColumn();
      ApplyUpdatesOrdered(old(songUrls), updates, UrlKey, SetUrlViews);
    }

    /**
     * `fetch_joined_views_in_batches`, with the batches it yields collected
     * in order: pages of at most `batchSize` songs by ascending id, each
     * joined with its song URL rows, until a page comes back empty.
     */
    method FetchJoinedViewsInBatches(batchSize: nat) returns (batches: seq<seq<JoinedEntry>>)
      ensures batches == JoinedBatches(songs, songUrls, batchSize, -1)
    {
      batches := [];
      var last := -1;
      while true
        invariant batches + JoinedBatches(songs, songUrls, batchSize, last) == JoinedBatches(songs, songUrls, batchSize, -1)
        decreases |Above(songs, last)|
      {
        var page := Take(Above(songs, last), batchSize);
        if |page| == 0 {
          break;
        }
        var batch := BuildBatch(page, songUrls);
        var next := page[|page| - 1].id;
        AboveMember(songs, last, page[|page| - 1]);
        AboveShrinks(songs, last, page[|page| - 1]);
        JoinedBatchesStep(songs, songUrls, batchSize, last);
        AppendStep(batches, [batch], JoinedBatches(songs, songUrls, batchSize, next), JoinedBatches(songs, songUrls, batchSize, last));
        batches := batches + [batch];
        last := next;
      }
    }
  }

  /** The `setdefault` loop that builds `urls_by_song`. */
  method GroupBySong(rows: seq<SongUrl>) returns (index: UrlIndex)
    ensures index == Grouped(rows)
  {
    index := map[];
    for i := 0 to |rows|
      invariant index == Grouped(rows[..i])
    {
      assert rows[..i + 1][..i] == rows[..i];
      var u := rows[i];
      var inner := if u.songId in index then index[u.songId] else map[];
      index := index[u.songId := inner[u.url := UrlInfo(u.views, u.service)]];
    }
    assert rows[..|rows|] == rows;
  }

  /** The loop over a song's pvs that fills its `services` map. */
  method GroupServices(pvs: seq<Pv>, infos: map<Option<string>, UrlInfo>) returns (services: map<Option<string>, seq<UrlViews>>)
    ensures services == ServicesOf(pvs, infos)
  {
    services := map[];
    for i := 0 to |pvs|
      invariant services == ServicesOf(pvs[..i], infos)
    {
      assert pvs[..i + 1][..i] == pvs[..i];
      var url := pvs[i].url;
      if Some(url) in infos {
        var info := infos[Some(url)];
        var list := if info.service in services then services[info.service] else [];
        services := services[info.service := list + [UrlViews(url, info.views)]];
      }
    }
    assert pvs[..|pvs|] == pvs;
  }

  /** One pass of the outer loop: join a page of songs with their song URL rows. */
  method BuildBatch(page: seq<Song>, songUrls: seq<SongUrl>) returns (batch: seq<JoinedEntry>)
    ensures batch == JoinedBatch(page, songUrls)
  {
    var songIds := Keys(page);
    var index := GroupBySong(RelatedUrls(songUrls, songIds));
    batch := [];
    for i := 0 to |page|
      invariant batch == seq(i, j requires 0 <= j < i => Entry(page[j], index))
    {
      var s := page[i];
      var infos := if s.id in index then index[s.id] else map[];
      var services := GroupServices(PvList(s.pvs), infos);
      batch := batch + [JoinedEntry(s.id, services)];
    }
  }

  // ---------------------------------------------------------------------------
  // Properties of the batch queries

  /**
   * A song batch holds at most `n` songs, in ascending id order, each of
   * them unprocessed and past the cursor.
   */
  lemma SongsBatchShape(songs: seq<Song>, after: int, n: nat)
    requires IncreasingBy(songs, SongKey)
    ensures |SongsBatch(songs, after, n)| <= n
    ensures IncreasingBy(SongsBatch(songs, after, n), SongKey)
    ensures forall s :: s in SongsBatch(songs, after, n) ==> s in songs && UnprocessedSong(s, after)
  {
    var keep := s => UnprocessedSong(s, after);
    WhereIncreasing(songs, keep, SongKey);
    TakeIncreasing(Where(songs, keep), n, SongKey);
    forall s | s in SongsBatch(songs, after, n) ensures s in Where(songs, keep) {
    }
  }

  /**
   * A batch shorter than `n` holds every unprocessed song past the cursor;
   * in particular an empty batch with `n > 0` means there is none.
   */
  lemma SongsBatchComplete(songs: seq<Song>, after: int, n: nat)
    requires |SongsBatch(songs, after, n)| < n
    ensures forall s :: s in songs && UnprocessedSong(s, after) ==> s in SongsBatch(songs, after, n)
  {
  }

  /**
   * Successive batches, each starting from the cursor the previous one left,
   * are disjoint and ascend: every id of the second exceeds every id of the
   * first.
   */
  lemma SongsBatchesAscend(songs: seq<Song>, after: int, n: nat, m: nat)
    requires IncreasingBy(songs, SongKey)
    ensures var first := SongsBatch(songs, after, n);
            var second := SongsBatch(songs, Advance(first, SongKey, after), m);
            forall x, y :: x in first && y in second ==> x.id < y.id
  {
    var first := SongsBatch(songs, after, n);
    var mark := Advance(first, SongKey, after);
    SongsBatchShape(songs, after, n);
    forall x | x in first ensures x.id <= mark {
      var i :| 0 <= i < |first| && first[i] == x;
      assert i == |first| - 1 || SongKey(first[i]) < SongKey(first[|first| - 1]);
    }
    var later := Where(songs, s => UnprocessedSong(s, mark));
    forall y | y in SongsBatch(songs, mark, m) ensures y.id > mark {
      assert y in later;
    }
  }

  /** Once a batch comes back empty the cursor stays put, so every later batch is empty too. */
  lemma SongsBatchEmptyStays(songs: seq<Song>, after: int, n: nat, m: nat)
    requires n > 0 && SongsBatch(songs, after, n) == []
    ensures Advance(SongsBatch(songs, after, n), SongKey, after) == after
    ensures SongsBatch(songs, after, m) == []
  {
    var keep := s => UnprocessedSong(s, after);
    assert Where(songs, keep) == [];
  }

  /**
   * A service batch holds at most `n` URLs of that service with unknown
   * views and positive ids, ascending; it does not depend on any cursor, so
   * repeating the call without writes returns the same rows.
   */
  lemma ServiceUrlsBatchShape(songUrls: seq<SongUrl>, service: string, n: nat)
    requires IncreasingBy(songUrls, UrlKey)
    ensures |ServiceUrlsBatch(songUrls, service, n)| <= n
    ensures IncreasingBy(ServiceUrlsBatch(songUrls, service, n), UrlKey)
    ensures forall u :: u in ServiceUrlsBatch(songUrls, service, n) ==>
              u in songUrls && u.service == Some(service) && u.views.None? && u.id > 0
  {
    var keep := u => UnprocessedUrl(u, service);
    WhereIncreasing(songUrls, keep, UrlKey);
    TakeIncreasing(Where(songUrls, keep), n, UrlKey);
    forall u | u in ServiceUrlsBatch(songUrls, service, n) ensures u in Where(songUrls, keep) {
    }
  }

  // ---------------------------------------------------------------------------
  // fetch_joined_views_in_batches

  /** What `urls_by_song` keeps of a song URL row. */
  datatype UrlInfo = UrlInfo(views: Option<int>, service: Option<string>)

  /** One URL listed under a service in a batch entry. */
  datatype UrlViews = UrlViews(url: string, views: Option<int>)

  /** One element of a yielded batch: a song id and its URLs grouped by service. */
  datatype JoinedEntry = JoinedEntry(songId: int, services: map<Option<string>, seq<UrlViews>>)

  /** `urls_by_song`: song id, then URL, to the row's views and service. */
  type UrlIndex = map<int, map<Option<string>, UrlInfo>>

  /** The songs with an id past `after`, in table order. */
  function Above(songs: seq<Song>, after: int): (r: seq<Song>)
    ensures |r| <= |songs|
  {
    if |songs| == 0 then []
    else (if songs[0].id > after then [songs[0]] else []) + Above(songs[1..], after)
  }

  /** `Above` keeps exactly the songs with an id past the cursor. */
  lemma {:induction false} AboveMember(songs: seq<Song>, after: int, s: Song)
    ensures s in Above(songs, after) <==> s in songs && s.id > after
  {
    if |songs| > 0 {
      AboveMember(songs[1..], after, s);
    }
  }

  /** `[s.id for s in songs]`. */
  function Keys(songs: seq<Song>): (ids: seq<int>)
    ensures |ids| == |songs| && forall i :: 0 <= i < |songs| ==> ids[i] == songs[i].id
  {
    seq(|songs|, i requires 0 <= i < |songs| => songs[i].id)
  }

  /** The song URL rows whose song is among `ids` (`song_id.in_(song_ids)`), in table order. */
  function RelatedUrls(songUrls: seq<SongUrl>, ids: seq<int>): (r: seq<SongUrl>)
    ensures forall u :: u in r <==> u in songUrls && u.songId in ids
  {
    if |songUrls| == 0 then []
    else (if songUrls[0].songId in ids then [songUrls[0]] else []) + RelatedUrls(songUrls[1..], ids)
  }

  /** The song URL row `u` is one for song `k` and URL `url`. */
  predicate RowFor(u: SongUrl, k: int, url: Option<string>)
  {
    u.songId == k && u.url == url
  }

  /** `urls_by_song` after the `setdefault` loop over `rows`: a later row overwrites an earlier one. */
  function Grouped(rows: seq<SongUrl>): (g: UrlIndex)
  {
    if |rows| == 0 then map[]
    else
      var g := Grouped(rows[..|rows| - 1]);
      var u := rows[|rows| - 1];
      var inner := if u.songId in g then g[u.songId] else map[];
      g[u.songId := inner[u.url := UrlInfo(u.views, u.service)]]
  }

  /**
   * `urls_by_song[k][url]` is present exactly when some row is for song `k`
   * and that URL, and then holds the views and service of the last such row.
   */
  lemma {:induction false} GroupedAt(rows: seq<SongUrl>, k: int, url: Option<string>)
    ensures (k in Grouped(rows) && url in Grouped(rows)[k]) <==> exists j :: 0 <= j < |rows| && RowFor(rows[j], k, url)
    ensures k in Grouped(rows) && url in Grouped(rows)[k] ==>
              exists j :: 0 <= j < |rows| && RowFor(rows[j], k, url)
                && Grouped(rows)[k][url] == UrlInfo(rows[j].views, rows[j].service)
                && forall j' :: j < j' < |rows| ==> !RowFor(rows[j'], k, url)
  {
    if |rows| > 0 {
      var n := |rows| - 1;
      var prefix := rows[..n];
      GroupedAt(prefix, k, url);
      GroupedStep(rows, k, url);
      var u := rows[n];
      if !RowFor(u, k, url) {
        if k in Grouped(prefix) && url in Grouped(prefix)[k] {
          var j :| 0 <= j < n && RowFor(prefix[j], k, url)
                   && Grouped(prefix)[k][url] == UrlInfo(prefix[j].views, prefix[j].service)
                   && forall j' :: j < j' < n ==> !RowFor(prefix[j'], k, url);
          assert rows[j] == prefix[j];
        }
        if exists j :: 0 <= j < |rows| && RowFor(rows[j], k, url) {
          var j :| 0 <= j < |rows| && RowFor(rows[j], k, url);
          assert prefix[j] == rows[j];
        }
      }
    }
  }

  /** `urls_by_song` has an entry for song `k` exactly when some row is for song `k`. */
  lemma {:induction false} GroupedKeys(rows: seq<SongUrl>, k: int)
    ensures k in Grouped(rows) <==> exists j :: 0 <= j < |rows| && rows[j].songId == k
  {
    if |rows| > 0 {
      var n := |rows| - 1;
      var prefix := rows[..n];
      GroupedKeys(prefix, k);
      assert k in Grouped(rows) <==> k in Grouped(prefix) || rows[n].songId == k;
      if exists j :: 0 <= j < n && prefix[j].songId == k {
        var j :| 0 <= j < n && prefix[j].songId == k;
        assert rows[j] == prefix[j];
      }
      if exists j :: 0 <= j < |rows| && rows[j].songId == k {
        var j :| 0 <= j < |rows| && rows[j].songId == k;
        if j < n {
          assert prefix[j] == rows[j];
        }
      }
    }
  }

  /** What the last row of the `setdefault` loop does to the entry for song `k` and URL `url`. */
  lemma GroupedStep(rows: seq<SongUrl>, k: int, url: Option<string>)
    requires |rows| > 0
    ensures var g, gp, u := Grouped(rows), Grouped(rows[..|rows| - 1]), rows[|rows| - 1];
            if RowFor(u, k, url) then k in g && url in g[k] && g[k][url] == UrlInfo(u.views, u.service)
            else (k in g && url in g[k] <==> k in gp && url in gp[k])
                 && (k in g && url in g[k] ==> g[k][url] == gp[k][url])
  {
  }

  /**
   * For a song of the page, `urls_by_song` has an entry for a URL exactly
   * when the `songurls` table has a row for that song and URL: restricting
   * the query to the page's ids loses none of them.
   */
  lemma PageIndexRows(page: seq<Song>, songUrls: seq<SongUrl>, i: nat, url: Option<string>)
    requires i < |page|
    ensures var index := Grouped(RelatedUrls(songUrls, Keys(page)));
            (page[i].id in index && url in index[page[i].id]) <==> exists u :: u in songUrls && RowFor(u, page[i].id, url)
  {
    var rows := RelatedUrls(songUrls, Keys(page));
    var k := page[i].id;
    GroupedAt(rows, k, url);
    assert Keys(page)[i] == k;
    if exists u :: u in songUrls && RowFor(u, k, url) {
      var u :| u in songUrls && RowFor(u, k, url);
      assert u in rows;
      var j :| 0 <= j < |rows| && rows[j] == u;
      assert RowFor(rows[j], k, url);
    }
    if exists j :: 0 <= j < |rows| && RowFor(rows[j], k, url) {
      var j :| 0 <= j < |rows| && RowFor(rows[j], k, url);
      assert rows[j] in rows;
    }
  }

  /** `s.pvs or []`. */
  function PvList(pvs: Option<seq<Pv>>): seq<Pv>
  {
    if pvs.Some? then pvs.value else []
  }

  /**
   * `services` after the loop over `pvs`: each pv whose URL the song has a
   * row for is appended to the list of that row's service.
   */
  function ServicesOf(pvs: seq<Pv>, infos: map<Option<string>, UrlInfo>): map<Option<string>, seq<UrlViews>>
  {
    if |pvs| == 0 then map[]
    else
      var prev := ServicesOf(pvs[..|pvs| - 1], infos);
      var p := pvs[|pvs| - 1];
      if Some(p.url) in infos then
        var info := infos[Some(p.url)];
        prev[info.service := (if info.service in prev then prev[info.service] else []) + [UrlViews(p.url, info.views)]]
      else prev
  }

  /** The pvs, in order, whose URL has a row of service `sv`, with that row's views. */
  function Matches(pvs: seq<Pv>, infos: map<Option<string>, UrlInfo>, sv: Option<string>): seq<UrlViews>
  {
    if |pvs| == 0 then []
    else MatchOf(pvs[0], infos, sv) + Matches(pvs[1..], infos, sv)
  }

  function MatchOf(p: Pv, infos: map<Option<string>, UrlInfo>, sv: Option<string>): seq<UrlViews>
  {
    if Some(p.url) in infos && infos[Some(p.url)].service == sv then [UrlViews(p.url, infos[Some(p.url)].views)] else []
  }

  lemma {:induction false} MatchesSnoc(pvs: seq<Pv>, infos: map<Option<string>, UrlInfo>, sv: Option<string>)
    requires |pvs| > 0
    ensures Matches(pvs, infos, sv) == Matches(pvs[..|pvs| - 1], infos, sv) + MatchOf(pvs[|pvs| - 1], infos, sv)
  {
    if |pvs| > 1 {
      MatchesSnoc(pvs[1..], infos, sv);
      assert pvs[1..][..|pvs| - 2] == pvs[..|pvs| - 1][1..];
    }
  }

  /**
   * A service appears in an entry exactly when one of the song's pvs has a
   * row of that service, and it lists those pvs in `pvs` order.
   */
  lemma {:induction false} ServicesAt(pvs: seq<Pv>, infos: map<Option<string>, UrlInfo>, sv: Option<string>)
    ensures sv in ServicesOf(pvs, infos) <==> Matches(pvs, infos, sv) != []
    ensures sv in ServicesOf(pvs, infos) ==> ServicesOf(pvs, infos)[sv] == Matches(pvs, infos, sv)
  {
    if |pvs| > 0 {
      var n := |pvs| - 1;
      ServicesAt(pvs[..n], infos, sv);
      MatchesSnoc(pvs, infos, sv);
    }
  }

  /** A song none of whose pvs has a row gets an empty `services` map. */
  lemma {:induction false} ServicesEmpty(pvs: seq<Pv>, infos: map<Option<string>, UrlInfo>)
    requires forall i :: 0 <= i < |pvs| ==> Some(pvs[i].url) !in infos
    ensures ServicesOf(pvs, infos) == map[]
  {
    if |pvs| > 0 {
      ServicesEmpty(pvs[..|pvs| - 1], infos);
    }
  }

  /** The entry of one song in a batch. */
  function Entry(s: Song, index: UrlIndex): JoinedEntry
  {
    JoinedEntry(s.id, ServicesOf(PvList(s.pvs), if s.id in index then index[s.id] else map[]))
  }

  /** The batch yielded for the songs of one page. */
  function JoinedBatch(page: seq<Song>, songUrls: seq<SongUrl>): (b: seq<JoinedEntry>)
    ensures |b| == |page| && forall i :: 0 <= i < |page| ==> b[i].songId == page[i].id
  {
    var index := Grouped(RelatedUrls(songUrls, Keys(page)));
    seq(|page|, i requires 0 <= i < |page| => Entry(page[i], index))
  }

  /** A non-empty page moves the cursor past at least one song. */
  lemma {:induction false} AboveShrinks(songs: seq<Song>, after: int, x: Song)
    requires x in songs && x.id > after
    ensures |Above(songs, x.id)| < |Above(songs, after)|
  {
    if songs[0] == x {
      AboveMonotone(songs[1..], after, x.id);
    } else {
      AboveShrinks(songs[1..], after, x);
    }
  }

  lemma {:induction false} AboveMonotone(songs: seq<Song>, a: int, b: int)
    requires a <= b
    ensures |Above(songs, b)| <= |Above(songs, a)|
  {
    if |songs| > 0 {
      AboveMonotone(songs[1..], a, b);
    }
  }

  /**
   * The batches `fetch_joined_views_in_batches` yields from the cursor
   * `after` on: one per page of at most `n` songs, until a page is empty.
   */
  function JoinedBatches(songs: seq<Song>, songUrls: seq<SongUrl>, n: nat, after: int): (bs: seq<seq<JoinedEntry>>)
    ensures n == 0 ==> bs == []
    ensures forall k :: 0 <= k < |bs| ==> 0 < |bs[k]| <= n
    decreases |Above(songs, after)|
  {
    var page := Take(Above(songs, after), n);
    if |page| == 0 then []
    else
      AboveMember(songs, after, page[|page| - 1]);
      AboveShrinks(songs, after, page[|page| - 1]);
      var rest := JoinedBatches(songs, songUrls, n, page[|page| - 1].id);
      var batch := JoinedBatch(page, songUrls);
      assert 0 < |batch| <= n;
      [batch] + rest
  }

  /** The song ids of a run of batches, batch after batch. */
  function SongIdsOf(bs: seq<seq<JoinedEntry>>): seq<int>
  {
    if |bs| == 0 then [] else EntryIds(bs[0]) + SongIdsOf(bs[1..])
  }

  function EntryIds(b: seq<JoinedEntry>): (ids: seq<int>)
    ensures |ids| == |b| && forall i :: 0 <= i < |b| ==> ids[i] == b[i].songId
  {
    seq(|b|, i requires 0 <= i < |b| => b[i].songId)
  }

  lemma {:induction false} AboveAll(songs: seq<Song>, after: int)
    requires forall i :: 0 <= i < |songs| ==> songs[i].id > after
    ensures Above(songs, after) == songs
  {
    if |songs| > 0 {
      AboveAll(songs[1..], after);
    }
  }

  /** Moving the cursor further only drops more songs. */
  lemma {:induction false} AboveAbove(songs: seq<Song>, a: int, b: int)
    requires a <= b
    ensures Above(Above(songs, a), b) == Above(songs, b)
  {
    if |songs| > 0 {
      AboveAbove(songs[1..], a, b);
      var head := if songs[0].id > a then [songs[0]] else [];
      var rest := Above(songs[1..], a);
      AboveAppend(head, rest, b);
    }
  }

  lemma {:induction false} AboveAppend(xs: seq<Song>, ys: seq<Song>, b: int)
    ensures Above(xs + ys, b) == Above(xs, b) + Above(ys, b)
  {
    if |xs| > 0 {
      assert (xs + ys)[1..] == xs[1..] + ys;
      AboveAppend(xs[1..], ys, b);
    } else {
      assert xs + ys == ys;
    }
  }

  /** In an ascending table, the songs past the `p`-th one's id are those after it. */
  lemma {:induction false} AboveSorted(rows: seq<Song>, p: nat)
    requires IncreasingBy(rows, SongKey) && 0 < p <= |rows|
    ensures Above(rows, rows[p - 1].id) == rows[p..]
  {
    var c := rows[p - 1].id;
    if p == 1 {
      AboveAll(rows[1..], c);
    } else {
      assert rows[1..][p - 2] == rows[p - 1];
      AboveSorted(rows[1..], p - 1);
      assert rows[1..][p - 1..] == rows[p..];
    }
  }

  lemma KeysAppend(xs: seq<Song>, ys: seq<Song>)
    ensures Keys(xs + ys) == Keys(xs) + Keys(ys)
  {
  }

  /**
   * Over an ascending table and a positive batch size, the batches together
   * list every song past the cursor exactly once, in ascending id order;
   * so successive batches have disjoint, increasing ids.
   */
  lemma {:induction false} JoinedBatchesCover(songs: seq<Song>, songUrls: seq<SongUrl>, n: nat, after: int)
    requires IncreasingBy(songs, SongKey) && n > 0
    ensures SongIdsOf(JoinedBatches(songs, songUrls, n, after)) == Keys(Above(songs, after))
    decreases |Above(songs, after)|
  {
    var all := Above(songs, after);
    var page := Take(all, n);
    if |page| > 0 {
      var mark := page[|page| - 1].id;
      AboveMember(songs, after, page[|page| - 1]);
      AboveShrinks(songs, after, page[|page| - 1]);
      JoinedBatchesCover(songs, songUrls, n, mark);
      NextCursor(songs, after, n);
      JoinedBatchesUnfold(songs, songUrls, n, after);
      KeysAppend(page, all[|page|..]);
    }
  }

  /** A non-empty page yields its batch first, then the batches from its last id. */
  lemma JoinedBatchesStep(songs: seq<Song>, songUrls: seq<SongUrl>, n: nat, after: int)
    requires |Take(Above(songs, after), n)| > 0
    ensures var page := Take(Above(songs, after), n);
            JoinedBatches(songs, songUrls, n, after)
            == [JoinedBatch(page, songUrls)] + JoinedBatches(songs, songUrls, n, page[|page| - 1].id)
  {
    var page := Take(Above(songs, after), n);
    var rest := JoinedBatches(songs, songUrls, n, page[|page| - 1].id);
    assert JoinedBatches(songs, songUrls, n, after) == [JoinedBatch(page, songUrls)] + rest;
  }

  /** A non-empty page yields its batch, and the batches from its last id follow. */
  lemma JoinedBatchesUnfold(songs: seq<Song>, songUrls: seq<SongUrl>, n: nat, after: int)
    requires |Take(Above(songs, after), n)| > 0
    ensures var page := Take(Above(songs, after), n);
            SongIdsOf(JoinedBatches(songs, songUrls, n, after))
            == Keys(page) + SongIdsOf(JoinedBatches(songs, songUrls, n, page[|page| - 1].id))
  {
    var page := Take(Above(songs, after), n);
    var bs := JoinedBatches(songs, songUrls, n, after);
    assert bs[0] == JoinedBatch(page, songUrls);
    assert bs[1..] == JoinedBatches(songs, songUrls, n, page[|page| - 1].id);
    assert EntryIds(bs[0]) == Keys(page);
  }

  /** In an ascending table, the cursor a page leaves selects the rest of the songs. */
  lemma NextCursor(songs: seq<Song>, after: int, n: nat)
    requires IncreasingBy(songs, SongKey)
    requires |Take(Above(songs, after), n)| > 0
    ensures var all := Above(songs, after);
            var page := Take(all, n);
            Above(songs, page[|page| - 1].id) == all[|page|..] && all == page + all[|page|..]
  {
    var all := Above(songs, after);
    var page := Take(all, n);
    AboveIncreasing(songs, after);
    CursorAt(songs, after, all, |page|);
    assert page[|page| - 1] == all[|page| - 1];
    assert all == all[..|page|] + all[|page|..];
  }

  lemma CursorAt(songs: seq<Song>, after: int, all: seq<Song>, p: nat)
    requires all == Above(songs, after) && IncreasingBy(all, SongKey) && 0 < p <= |all|
    ensures Above(songs, all[p - 1].id) == all[p..]
  {
    AboveMember(songs, after, all[p - 1]);
    AboveAbove(songs, after, all[p - 1].id);
    AboveSorted(all, p);
  }

  lemma {:induction false} AboveIncreasing(songs: seq<Song>, after: int)
    requires IncreasingBy(songs, SongKey)
    ensures IncreasingBy(Above(songs, after), SongKey)
  {
    if |songs| > 0 {
      AboveIncreasing(songs[1..], after);
      forall s | s in Above(songs[1..], after) ensures songs[0].id < s.id {
        AboveMember(songs[1..], after, s);
        var j :| 0 <= j < |songs[1..]| && songs[1..][j] == s;
        assert songs[j + 1] == s;
      }
    }
  }
}
