/**
 * The YouTube Data API scraper (scrapers/youtubeVideoStatistics.py): the
 * cyclic pool of API keys, the retry loop of one `videos` request that
 * switches keys when a quota runs out, the cutting of the id list into
 * batches and the concatenation of the batches' results. The HTTP exchange
 * is a parameter: each batch comes with the responses its requests receive,
 * in order; chunks are fetched one after another.
 */
module YouTubeStatistics {
  import opened Wrappers
  import opened Strings
  import opened Seqs
  import opened Arith

  const BaseUrl: string := "https://www.googleapis.com/youtube/v3/videos"

  /** The API accepts at most this many ids per request. */
  const MaxBatch: int := 50

  /** One resource of a response's `items` list, with its members kept as text. */
  datatype Item = Item(fields: map<string, string>)

  /** An HTTP response: its status and the `items` member of its body, `None` when absent. */
  datatype HttpResponse = HttpResponse(status: int, items: Option<seq<Item>>)

  /** The query parameters of one request. */
  datatype Params = Params(part: string, id: string, key: string)

  /**
   * How `_fetch_chunk` ends: with a list of items, with the `RuntimeError`
   * of an unexpected status, or (when the supplied responses run out while
   * it is still retrying) not yet.
   */
  datatype ChunkOutcome = Items(items: seq<Item>) | Fatal(status: int) | Pending

  /** Statuses that mean the current key's quota is used up. */
  predicate IsQuota(status: int)
  {
    status == 403 || status == 429
  }

  /** The number of leading quota responses: the key switches one chunk makes. */
  function QuotaRun(responses: seq<HttpResponse>): (n: nat)
    ensures n <= |responses|
    ensures forall j :: 0 <= j < n ==> IsQuota(responses[j].status)
    ensures n < |responses| ==> !IsQuota(responses[n].status)
  {
    if |responses| == 0 || !IsQuota(responses[0].status) then 0 else 1 + QuotaRun(responses[1..])
  }

  /** What a response that is not a quota response makes of the chunk. */
  function Settle(response: HttpResponse): (r: ChunkOutcome)
    requires !IsQuota(response.status)
    ensures r.Pending? == false
    ensures r.Items? <==> response.status in {200, 404}
    ensures response.status == 200 ==> r.items == response.items.GetOr([])
    ensures response.status == 404 ==> r.items == []
    ensures r.Fatal? ==> r.status == response.status
  {
    if response.status == 200 then Items(response.items.GetOr([]))
    else if response.status == 404 then Items([])
    else Fatal(response.status)
  }

  /** The outcome of a chunk: decided by the first response that is not a quota response. */
  function ChunkResult(responses: seq<HttpResponse>): (r: ChunkOutcome)
    ensures r.Pending? <==> QuotaRun(responses) == |responses|
    ensures !r.Pending? ==> r == Settle(responses[QuotaRun(responses)])
  {
    var n := QuotaRun(responses);
    if n == |responses| then Pending else Settle(responses[n])
  }

  /** The number of requests a chunk sends: one per response it reads. */
  function RequestCount(responses: seq<HttpResponse>): (m: nat)
    ensures m <= |responses|
    ensures QuotaRun(responses) < |responses| ==> m == QuotaRun(responses) + 1
    ensures QuotaRun(responses) == |responses| ==> m == |responses|
  {
    if QuotaRun(responses) == |responses| then |responses| else QuotaRun(responses) + 1
  }

  /**
   * The requests of a chunk: the same part and id list each time, with the
   * key that the pool yields after `r0 + j` switches for the `j`-th.
   */
  function ChunkRequests(part: string, id: string, keys: seq<string>, r0: nat, m: nat): (r: seq<Params>)
    requires |keys| > 0
    ensures |r| == m
    ensures forall j :: 0 <= j < m ==> r[j].part == part && r[j].id == id
    ensures forall j :: 0 <= j < m ==> r[j].key == keys[(r0 + j) % |keys|]
  {
    seq(m, j requires 0 <= j < m => Params(part, id, keys[(r0 + j) % |keys|]))
  }

  lemma ChunkRequestsSnoc(part: string, id: string, keys: seq<string>, r0: nat, m: nat)
    requires |keys| > 0
    ensures ChunkRequests(part, id, keys, r0, m + 1)
            == ChunkRequests(part, id, keys, r0, m) + [Params(part, id, keys[(r0 + m) % |keys|])]
  {
  }

  /** One step of the key ring: `(r + 1) mod n` from `r mod n`. */
  lemma NextIndex(r: nat, n: nat)
    requires n > 0
    ensures (r + 1) % n == if r % n + 1 == n then 0 else r % n + 1
  {
    var q := r / n;
    assert r == q * n + r % n;
    if r % n + 1 == n {
      DivModUnique(r + 1, n, q + 1, 0);
    } else {
      DivModUnique(r + 1, n, q, r % n + 1);
    }
  }

  /** The scraper: the key pool, its current key and the requests sent so far. */
  class YouTubeScraper {
    const apiKeys: seq<string>
    /** Position of the current key in the cycle. */
    var keyIndex: nat
    var currentKey: string
    /** How many times the pool has been advanced since construction. */
    ghost var rotations: nat
    /** The requests sent so far, in order. */
    ghost var sent: seq<Params>

    /** The pool is non-empty, and the current key is the one `itertools.cycle` yields after `rotations` switches. */
    ghost predicate Valid()
      reads this
    {
      |apiKeys| > 0 && keyIndex == rotations % |apiKeys| && currentKey == apiKeys[keyIndex]
    }

    constructor(apiKeys: seq<string>)
      requires |apiKeys| > 0
      ensures Valid() && this.apiKeys == apiKeys && currentKey == apiKeys[0]
      ensures rotations == 0 && sent == []
    {
      this.apiKeys := apiKeys;
      keyIndex := 0;
      currentKey := apiKeys[0];
      rotations := 0;
      sent := [];
    }

    /** `__init__`: an empty key list raises `ValueError`; otherwise the first key is current. */
    static method Create(apiKeys: seq<string>) returns (r: Result<YouTubeScraper>)
      ensures r.Raised? <==> |apiKeys| == 0
      ensures r.Raised? ==> r.error == ValueError
      ensures r.Ok? ==> fresh(r.value) && r.value.Valid() && r.value.apiKeys == apiKeys
      ensures r.Ok? ==> r.value.currentKey == apiKeys[0] && r.value.rotations == 0 && r.value.sent == []
    {
      if |apiKeys| == 0 {
        return Raised(ValueError);
      }
      var s := new YouTubeScraper(apiKeys);
      return Ok(s);
    }

    /** `self.current_key = next(self.api_keys)`. */
    method Rotate()
      requires Valid()
      modifies this
      ensures Valid() && rotations == old(rotations) + 1 && sent == old(sent)
      ensures currentKey == apiKeys[(old(rotations) + 1) % |apiKeys|]
    {
      NextIndex(rotations, |apiKeys|);
      keyIndex := if keyIndex + 1 == |apiKeys| then 0 else keyIndex + 1;
      currentKey := apiKeys[keyIndex];
      rotations := rotations + 1;
    }

    /**
     * `_fetch_chunk`: send the request, switch keys and resend on a quota
     * response, and stop at the first other response.
     */
    method FetchChunk(videoIds: seq<string>, part: string, responses: seq<HttpResponse>) returns (outcome: ChunkOutcome)
      requires Valid()
      modifies this
      ensures Valid()
      ensures outcome == ChunkResult(responses)
      ensures rotations == old(rotations) + QuotaRun(responses)
      ensures sent == old(sent) + ChunkRequests(part, Join(videoIds, ","), apiKeys, old(rotations), RequestCount(responses))
    {
      var params := Params(part, Join(videoIds, ","), currentKey);
      var i := 0;
      while i < |responses|
        invariant 0 <= i <= |responses| && Valid()
        invariant forall j :: 0 <= j < i ==> IsQuota(responses[j].status)
        invariant rotations == old(rotations) + i
        invariant params == Params(part, Join(videoIds, ","), currentKey)
        invariant sent == old(sent) + ChunkRequests(part, Join(videoIds, ","), apiKeys, old(rotations), i)
      {
        ChunkRequestsSnoc(part, Join(videoIds, ","), apiKeys, old(rotations), i);
        sent := sent + [params];
        var response := responses[i];
        if response.status == 200 {
          return Items(response.items.GetOr([]));
        } else if IsQuota(response.status) {
          Rotate();
          params := params.(key := currentKey);
        } else if response.status == 404 {
          return Items([]);
        } else {
          return Fatal(response.status);
        }
        i := i + 1;
      }
      return Pending;
    }

    /**
     * `fetch_videos_stats`: reject a batch size over the limit, cut the ids
     * into batches, fetch each batch and concatenate the items. The `k`-th
     * batch receives `responses[k]` (none when missing). The batches are
     * fetched one after another.
     */
    method FetchVideosStats(videoIds: seq<string>, batchSize: int, part: string, responses: seq<seq<HttpResponse>>)
      returns (r: StatsOutcome)
      requires Valid()
      modifies this
      ensures Valid()
      ensures r == VideosStats(videoIds, batchSize, responses)
      ensures rotations == old(rotations) + QuotaTotal(BatchResponses(videoIds, batchSize, responses))
      ensures sent == old(sent) + BatchRequests(part, BatchIds(videoIds, batchSize), BatchResponses(videoIds, batchSize, responses), apiKeys, old(rotations))
    {
      if batchSize > MaxBatch || batchSize == 0 {
        return Error(ValueError);
      }
      var outcomes := FetchBatches(BatchIds(videoIds, batchSize), part, BatchResponses(videoIds, batchSize, responses));
      r := Gather(outcomes);
      if r.Stats? {
        var results := Extend(ItemLists(outcomes));
        r := Stats(results);
      }
    }

    /** The batches of `fetch_videos_stats`, fetched in order, each with its responses. */
    method FetchBatches(chunks: seq<seq<string>>, part: string, rs: seq<seq<HttpResponse>>) returns (outcomes: seq<ChunkOutcome>)
      requires Valid() && |chunks| == |rs|
      modifies this
      ensures Valid()
      ensures outcomes == ChunkResults(rs)
      ensures rotations == old(rotations) + QuotaTotal(rs)
      ensures sent == old(sent) + BatchRequests(part, chunks, rs, apiKeys, old(rotations))
    {
      outcomes := [];
      var k := 0;
      while k < |chunks|
        invariant 0 <= k <= |chunks| && Valid()
        invariant outcomes == ChunkResults(rs[..k])
        invariant rotations == old(rotations) + QuotaTotal(rs[..k])
        invariant sent == old(sent) + BatchRequests(part, chunks[..k], rs[..k], apiKeys, old(rotations))
      {
        ghost var r, log := rotations, sent;
        var outcome := FetchChunk(chunks[k], part, rs[k]);
        BatchLogStep(part, chunks, rs, apiKeys, old(rotations), k, old(sent), log, r);
        outcomes := outcomes + [outcome];
        k := k + 1;
      }
      assert chunks[..k] == chunks && rs[..k] == rs;
    }
  }

  /** `for batch in all_results: results.extend(batch)`. */
  method Extend(batches: seq<seq<Item>>) returns (results: seq<Item>)
    ensures results == Flatten(batches)
  {
    results := [];
    var i := 0;
    while i < |batches|
      invariant 0 <= i <= |batches|
      invariant results == Flatten(batches[..i])
    {
      assert batches[..i + 1] == batches[..i] + [batches[i]];
      FlattenSnoc(batches[..i], batches[i]);
      results := results + batches[i];
      i := i + 1;
    }
    assert batches[..i] == batches;
  }

  /** `[ids[i:i + size] for i in range(0, len(ids), size)]` for a positive size. */
  function Chunks<T>(ids: seq<T>, size: nat): (cs: seq<seq<T>>)
    requires size > 0
    ensures |ids| == 0 <==> |cs| == 0
    decreases |ids|
  {
    if |ids| == 0 then []
    else if |ids| <= size then [ids]
    else [ids[..size]] + Chunks(ids[size..], size)
  }

  /** Concatenating the chunks gives back the ids. */
  lemma {:induction false} ChunksFlatten<T>(ids: seq<T>, size: nat)
    requires size > 0
    ensures Flatten(Chunks(ids, size)) == ids
    decreases |ids|
  {
    if |ids| > size {
      ChunksFlatten(ids[size..], size);
      var cs := Chunks(ids, size);
      assert cs[1..] == Chunks(ids[size..], size);
      assert ids == ids[..size] + ids[size..];
    }
  }

  /** Every chunk is non-empty and at most `size` long; all but the last are exactly `size` long. */
  lemma {:induction false} ChunksSizes<T>(ids: seq<T>, size: nat)
    requires size > 0
    ensures forall k :: 0 <= k < |Chunks(ids, size)| ==> 0 < |Chunks(ids, size)[k]| <= size
    ensures forall k :: 0 <= k < |Chunks(ids, size)| - 1 ==> |Chunks(ids, size)[k]| == size
    decreases |ids|
  {
    if |ids| > size {
      ChunksSizes(ids[size..], size);
      assert Chunks(ids, size)[1..] == Chunks(ids[size..], size);
    }
  }

  /** The `k`-th chunk is the slice `ids[k * size : (k + 1) * size]`, cut at the end. */
  lemma ChunkAt<T>(ids: seq<T>, size: nat, k: nat)
    requires size > 0 && k < |Chunks(ids, size)|
    ensures k * size < |ids|
    ensures Chunks(ids, size)[k] == ids[k * size..if (k + 1) * size <= |ids| then (k + 1) * size else |ids|]
  {
    ChunkAtOffset(ids, size, k);
    MulIs(k, size);
    MulIs(k + 1, size);
  }

  /** `k * size`, built up by additions so that the chunk proofs stay linear. */
  function Offset(k: nat, size: nat): nat
  {
    if k == 0 then 0 else Offset(k - 1, size) + size
  }

  lemma {:induction false} MulIs(k: nat, size: nat)
    ensures Offset(k, size) == k * size
  {
    if k > 0 {
      MulIs(k - 1, size);
      assert k * size == (k - 1) * size + size;
    }
  }

  lemma {:induction false} ChunkAtOffset<T>(ids: seq<T>, size: nat, k: nat)
    requires size > 0 && k < |Chunks(ids, size)|
    ensures Offset(k, size) < |ids|
    ensures Chunks(ids, size)[k] == ids[Offset(k, size)..if Offset(k + 1, size) <= |ids| then Offset(k + 1, size) else |ids|]
    decreases |ids|
  {
    if k == 0 {
      assert Offset(1, size) == size;
    } else {
      var rest := ids[size..];
      assert Chunks(ids, size)[k] == Chunks(rest, size)[k - 1];
      ChunkAtOffset(rest, size, k - 1);
      var lo, hi := Offset(k - 1, size), Offset(k, size);
      assert hi == lo + size && Offset(k + 1, size) == hi + size;
      var end := if hi <= |rest| then hi else |rest|;
      SliceOfSuffix(ids, size, lo, end);
    }
  }

  /** The number of chunks is `ceil(len(ids) / size)`. */
  lemma {:induction false} ChunksCount<T>(ids: seq<T>, size: nat)
    requires size > 0
    ensures |Chunks(ids, size)| * size >= |ids| > (|Chunks(ids, size)| - 1) * size
    decreases |ids|
  {
    if |ids| > size {
      ChunksCount(ids[size..], size);
      var n := |Chunks(ids[size..], size)|;
      assert (n + 1) * size == n * size + size;
      assert n * size == (n - 1) * size + size;
    }
  }

  /**
   * The id batches that `fetch_videos_stats` requests: none when the size
   * is rejected or not positive.
   */
  function BatchIds(videoIds: seq<string>, batchSize: int): (cs: seq<seq<string>>)
    ensures batchSize <= 0 || batchSize > MaxBatch ==> cs == []
    ensures 0 < batchSize <= MaxBatch ==> cs == Chunks(videoIds, batchSize)
  {
    if 0 < batchSize <= MaxBatch then Chunks(videoIds, batchSize) else []
  }

  /** The responses each batch receives: `responses[k]`, or none. */
  function BatchResponses(videoIds: seq<string>, batchSize: int, responses: seq<seq<HttpResponse>>): (rs: seq<seq<HttpResponse>>)
    ensures |rs| == |BatchIds(videoIds, batchSize)|
    ensures forall k :: 0 <= k < |rs| ==> rs[k] == if k < |responses| then responses[k] else []
  {
    seq(|BatchIds(videoIds, batchSize)|, k requires 0 <= k => if k < |responses| then responses[k] else [])
  }

  /** The key switches of a run of batches. */
  function QuotaTotal(rs: seq<seq<HttpResponse>>): nat
  {
    if |rs| == 0 then 0 else QuotaTotal(rs[..|rs| - 1]) + QuotaRun(rs[|rs| - 1])
  }

  /** The requests a run of batches sends, each batch starting from the keys the earlier ones left. */
  function BatchRequests(part: string, chunks: seq<seq<string>>, rs: seq<seq<HttpResponse>>, keys: seq<string>, r0: nat): (ps: seq<Params>)
    requires |keys| > 0 && |chunks| == |rs|
    decreases |rs|
  {
    if |rs| == 0 then []
    else
      var n := |rs| - 1;
      BatchRequests(part, chunks[..n], rs[..n], keys, r0)
        + ChunkRequests(part, Join(chunks[n], ","), keys, r0 + QuotaTotal(rs[..n]), RequestCount(rs[n]))
  }

  /** The outcome of each batch in a run. */
  function ChunkResults(rs: seq<seq<HttpResponse>>): (os: seq<ChunkOutcome>)
    ensures |os| == |rs| && forall k :: 0 <= k < |rs| ==> os[k] == ChunkResult(rs[k])
  {
    if |rs| == 0 then [] else ChunkResults(rs[..|rs| - 1]) + [ChunkResult(rs[|rs| - 1])]
  }

  lemma BatchStep(part: string, chunks: seq<seq<string>>, rs: seq<seq<HttpResponse>>, keys: seq<string>, r0: nat, k: nat)
    requires |keys| > 0 && |chunks| == |rs| && k < |rs|
    ensures QuotaTotal(rs[..k + 1]) == QuotaTotal(rs[..k]) + QuotaRun(rs[k])
    ensures ChunkResults(rs[..k + 1]) == ChunkResults(rs[..k]) + [ChunkResult(rs[k])]
    ensures BatchRequests(part, chunks[..k + 1], rs[..k + 1], keys, r0)
            == BatchRequests(part, chunks[..k], rs[..k], keys, r0)
               + ChunkRequests(part, Join(chunks[k], ","), keys, r0 + QuotaTotal(rs[..k]), RequestCount(rs[k]))
  {
    var q, cs := rs[..k + 1], chunks[..k + 1];
    assert q[..k] == rs[..k] && q[k] == rs[k];
    assert cs[..k] == chunks[..k] && cs[k] == chunks[k];
    QuotaTotalUnfold(q);
    ChunkResultsUnfold(q);
    BatchRequestsUnfold(part, cs, q, keys, r0);
  }

  /** One more batch of the loop of `FetchBatches`: its requests, switches and outcome join the run's. */
  lemma BatchLogStep(part: string, chunks: seq<seq<string>>, rs: seq<seq<HttpResponse>>, keys: seq<string>, r0: nat, k: nat,
                     start: seq<Params>, log: seq<Params>, r: nat)
    requires |keys| > 0 && |chunks| == |rs| && k < |rs|
    requires log == start + BatchRequests(part, chunks[..k], rs[..k], keys, r0)
    requires r == r0 + QuotaTotal(rs[..k])
    ensures log + ChunkRequests(part, Join(chunks[k], ","), keys, r, RequestCount(rs[k]))
            == start + BatchRequests(part, chunks[..k + 1], rs[..k + 1], keys, r0)
    ensures r + QuotaRun(rs[k]) == r0 + QuotaTotal(rs[..k + 1])
    ensures ChunkResults(rs[..k + 1]) == ChunkResults(rs[..k]) + [ChunkResult(rs[k])]
  {
    BatchStep(part, chunks, rs, keys, r0, k);
    AppendStep(start, BatchRequests(part, chunks[..k], rs[..k], keys, r0),
      ChunkRequests(part, Join(chunks[k], ","), keys, r, RequestCount(rs[k])),
      BatchRequests(part, chunks[..k + 1], rs[..k + 1], keys, r0));
  }

  lemma QuotaTotalUnfold(q: seq<seq<HttpResponse>>)
    requires |q| > 0
    ensures QuotaTotal(q) == QuotaTotal(q[..|q| - 1]) + QuotaRun(q[|q| - 1])
  {
  }

  lemma ChunkResultsUnfold(q: seq<seq<HttpResponse>>)
    requires |q| > 0
    ensures ChunkResults(q) == ChunkResults(q[..|q| - 1]) + [ChunkResult(q[|q| - 1])]
  {
  }

  lemma BatchRequestsUnfold(part: string, cs: seq<seq<string>>, q: seq<seq<HttpResponse>>, keys: seq<string>, r0: nat)
    requires |keys| > 0 && |cs| == |q| > 0
    ensures BatchRequests(part, cs, q, keys, r0)
            == BatchRequests(part, cs[..|q| - 1], q[..|q| - 1], keys, r0)
               + ChunkRequests(part, Join(cs[|q| - 1], ","), keys, r0 + QuotaTotal(q[..|q| - 1]), RequestCount(q[|q| - 1]))
  {
  }

  /** The result of `fetch_videos_stats`, or the exception it raises, or not yet decided. */
  datatype StatsOutcome = Stats(items: seq<Item>) | Error(error: Exception) | Unfinished

  /** The item lists of a run of finished batches. */
  function ItemLists(outcomes: seq<ChunkOutcome>): (ls: seq<seq<Item>>)
    requires forall k :: 0 <= k < |outcomes| ==> outcomes[k].Items?
    ensures |ls| == |outcomes| && forall k :: 0 <= k < |ls| ==> ls[k] == outcomes[k].items
  {
    seq(|outcomes|, k requires 0 <= k < |outcomes| => outcomes[k].items)
  }

  /**
   * `asyncio.gather` of the batches: the `RuntimeError` of any batch
   * propagates; otherwise, once every batch has its items, their
   * concatenation in batch order.
   */
  function Gather(outcomes: seq<ChunkOutcome>): (r: StatsOutcome)
    ensures r.Error? <==> exists k :: 0 <= k < |outcomes| && outcomes[k].Fatal?
    ensures r.Error? ==> r.error == RuntimeError
    ensures r.Stats? <==> forall k :: 0 <= k < |outcomes| ==> outcomes[k].Items?
    ensures r.Stats? ==> forall x :: x in r.items <==> exists k :: 0 <= k < |outcomes| && x in outcomes[k].items
    ensures r.Stats? ==> r.items == Flatten(ItemLists(outcomes))
  {
    if exists k :: 0 <= k < |outcomes| && outcomes[k].Fatal? then Error(RuntimeError)
    else if exists k :: 0 <= k < |outcomes| && outcomes[k].Pending? then Unfinished
    else
      var ls := ItemLists(outcomes);
      assert forall x :: x in Flatten(ls) <==> exists k :: 0 <= k < |ls| && x in ls[k] by {
        forall x ensures x in Flatten(ls) <==> exists k :: 0 <= k < |ls| && x in ls[k] {
          FlattenMember(ls, x);
        }
      }
      Stats(Flatten(ls))
  }

  /** What `fetch_videos_stats` yields for the ids, batch size and responses. */
  function VideosStats(videoIds: seq<string>, batchSize: int, responses: seq<seq<HttpResponse>>): (r: StatsOutcome)
    ensures batchSize > MaxBatch || batchSize == 0 ==> r == Error(ValueError)
    ensures batchSize < 0 ==> r == Stats([])
  {
    if batchSize > MaxBatch || batchSize == 0 then Error(ValueError)
    else
      Gather(ChunkResults(BatchResponses(videoIds, batchSize, responses)))
  }

  /**
   * When every batch is answered, the result is the batches' item lists
   * concatenated in batch order; so an item is returned exactly when some
   * batch's decisive response carries it.
   */
  lemma VideosStatsItems(videoIds: seq<string>, batchSize: int, responses: seq<seq<HttpResponse>>, x: Item)
    requires 0 < batchSize <= MaxBatch
    requires VideosStats(videoIds, batchSize, responses).Stats?
    ensures VideosStats(videoIds, batchSize, responses).items
            == Flatten(ItemLists(ChunkResults(BatchResponses(videoIds, batchSize, responses))))
    ensures x in VideosStats(videoIds, batchSize, responses).items
            <==> (exists k :: 0 <= k < |Chunks(videoIds, batchSize)| && ChunkResult(BatchResponses(videoIds, batchSize, responses)[k]).Items? &&
                   x in ChunkResult(BatchResponses(videoIds, batchSize, responses)[k]).items)
  {
  }
}
