/** The bookkeeping of `ExcelSKULoader.download_image` (nodes.py:509-545):
    a bounded url -> image cache with first-in-first-out eviction and hit/miss
    counters. The HTTP request and the image decoding are an oracle that may
    fail; the cache is an explicit value threaded through the calls instead of
    the class-wide dictionary. */
module ImageCache {
  import opened Wrappers
  import opened OrderedMaps

  type Pos = n: int | n >= 1 witness 1

  /** A decoded RGB image, known only by its size. */
  datatype Image = Image(width: Pos, height: Pos)

  type Cache = OrderedMap<string, Image>

  datatype Stats = Stats(hits: nat, misses: nat) {
    /** Every call of `download_image` counts as exactly one hit or miss. */
    function Calls(): nat {
      hits + misses
    }
  }

  /** The network: the decoded image the `n`-th request of a load obtains for
      a url, or `None` when the request, the status check or the decoding
      fails. */
  type Fetcher = (string, nat) -> Option<Image>

  datatype Download = Download(image: Option<Image>, cache: Cache, stats: Stats)

  function Max(a: int, b: int): int {
    if a < b then b else a
  }

  /** `download_image(url, use_cache)` with the cache capacity `capacity`.

      A hit (only with `useCache`) returns the cached image (the source
      returns a copy; images here are values) and counts a hit. Any other call
      counts a miss and asks the network; a failure returns `None` and leaves
      the cache alone. A fetched image is cached only with `useCache`: when the
      cache already holds `capacity` entries or more, the earliest-inserted one
      is evicted first, and only one. With an empty cache and capacity 0 the
      eviction itself raises (`next` of an empty iterator); that exception is
      swallowed like a failed download, so the image is lost. */
  function DownloadImage(cache: Cache, stats: Stats, capacity: nat, url: string, useCache: bool,
                         fetch: Fetcher): (d: Download)
    requires cache.Valid()
    ensures d.cache.Valid()
    ensures useCache && url in cache.values ==>
      d == Download(Some(cache.values[url]), cache, Stats(stats.hits + 1, stats.misses))
    ensures !(useCache && url in cache.values) ==>
      d.stats == Stats(stats.hits, stats.misses + 1)
      && (d.image.None? || d.image == fetch(url, stats.misses))
      && (fetch(url, stats.misses).None? ==> d.image.None?)
      && (!useCache || cache.Size() > 0 || capacity > 0 ==> d.image == fetch(url, stats.misses))
    ensures d.image.None? || !useCache ==> d.cache == cache
    ensures useCache && d.image.Some? ==> url in d.cache.values && d.cache.values[url] == d.image.value
    ensures d.cache.Size() <= Max(cache.Size(), capacity)
  {
    if useCache && url in cache.values then
      Download(Some(cache.values[url]), cache, Stats(stats.hits + 1, stats.misses))
    else
      var counted := Stats(stats.hits, stats.misses + 1);
      match fetch(url, stats.misses)
      case None => Download(None, cache, counted)
      case Some(img) =>
        if !useCache then Download(Some(img), cache, counted)
        else if cache.Size() >= capacity then
          if cache.Size() == 0 then Download(None, cache, counted)
          else Download(Some(img), Put(RemoveFirst(cache), url, img), counted)
        else Download(Some(img), Put(cache, url, img), counted)
  }

  /** What a successful, cached download does to the cache: the url goes to
      the end of the insertion order; when the cache already held `capacity`
      entries, exactly the oldest one left first; every other entry stays. */
  lemma DownloadInsertsAtEnd(cache: Cache, stats: Stats, capacity: nat, url: string, fetch: Fetcher)
    requires cache.Valid() && url !in cache.values && fetch(url, stats.misses).Some?
    requires cache.Size() > 0 || capacity > 0
    ensures var d := DownloadImage(cache, stats, capacity, url, true, fetch);
      && d.image == fetch(url, stats.misses)
      && d.cache.keys == (if cache.Size() >= capacity then cache.keys[1..] else cache.keys) + [url]
      && d.cache.values == (if cache.Size() >= capacity then cache.values - {cache.keys[0]} else cache.values)[url := d.image.value]
  {
  }

  datatype DownloadRun = DownloadRun(images: seq<Option<Image>>, cache: Cache, stats: Stats)

  /** `download_image` called on each url in turn, threading the cache and the
      counters: every call is counted once, the cache keeps its invariant and
      never grows past the larger of its starting size and the capacity. */
  function DownloadAll(cache: Cache, stats: Stats, capacity: nat, urls: seq<string>, useCache: bool,
                       fetch: Fetcher): (r: DownloadRun)
    requires cache.Valid()
    ensures r.cache.Valid()
    ensures |r.images| == |urls|
    ensures r.stats.Calls() == stats.Calls() + |urls|
    ensures r.stats.hits >= stats.hits && r.stats.misses >= stats.misses
    ensures r.cache.Size() <= Max(cache.Size(), capacity)
    ensures !useCache ==> r.cache == cache && r.stats.hits == stats.hits
    decreases |urls|
  {
    if |urls| == 0 then
      assert cache.keys + urls == cache.keys;
      DownloadRun([], cache, stats)
    else
      var d := DownloadImage(cache, stats, capacity, urls[0], useCache, fetch);
      var rest := DownloadAll(d.cache, d.stats, capacity, urls[1..], useCache, fetch);
      DownloadRun([d.image] + rest.images, rest.cache, rest.stats)
  }

  /** Running a list of urls is running its first part and then, from the
      cache and counters that left, the second part. */
  lemma {:induction false} DownloadAllAppend(cache: Cache, stats: Stats, capacity: nat, a: seq<string>, b: seq<string>,
                                             useCache: bool, fetch: Fetcher)
    requires cache.Valid()
    ensures var ra := DownloadAll(cache, stats, capacity, a, useCache, fetch);
      var rb := DownloadAll(ra.cache, ra.stats, capacity, b, useCache, fetch);
      DownloadAll(cache, stats, capacity, a + b, useCache, fetch) == DownloadRun(ra.images + rb.images, rb.cache, rb.stats)
    decreases |a|
  {
    if |a| == 0 {
      assert a + b == b;
    } else {
      var d := DownloadImage(cache, stats, capacity, a[0], useCache, fetch);
      var ra' := DownloadAll(d.cache, d.stats, capacity, a[1..], useCache, fetch);
      var rb := DownloadAll(ra'.cache, ra'.stats, capacity, b, useCache, fetch);
      DownloadAllAppend(d.cache, d.stats, capacity, a[1..], b, useCache, fetch);
      assert (a + b)[0] == a[0] && (a + b)[1..] == a[1..] + b;
      DownloadAllCons(cache, stats, capacity, a, useCache, fetch);
      DownloadAllCons(cache, stats, capacity, a + b, useCache, fetch);
      ConsAppend(d.image, ra'.images, rb.images);
    }
  }

  lemma ConsAppend<T>(x: T, a: seq<T>, b: seq<T>)
    ensures [x] + (a + b) == ([x] + a) + b
  {
  }

  /** The `i`-th image of a run is what `download_image` returns for the
      `i`-th url against the cache and counters the first `i` calls left. */
  lemma DownloadAllStepwise(cache: Cache, stats: Stats, capacity: nat, urls: seq<string>, useCache: bool,
                            fetch: Fetcher, i: nat)
    requires cache.Valid() && i < |urls|
    ensures var pre := DownloadAll(cache, stats, capacity, urls[..i], useCache, fetch);
      DownloadAll(cache, stats, capacity, urls, useCache, fetch).images[i]
        == DownloadImage(pre.cache, pre.stats, capacity, urls[i], useCache, fetch).image
  {
    var pre := DownloadAll(cache, stats, capacity, urls[..i], useCache, fetch);
    DownloadAllAppend(cache, stats, capacity, urls[..i], urls[i..], useCache, fetch);
    assert urls[..i] + urls[i..] == urls;
    DownloadAllCons(pre.cache, pre.stats, capacity, urls[i..], useCache, fetch);
  }

  /** With the cache off, the `i`-th image is the `i`-th request's answer for
      the `i`-th url, and the cache is not touched. */
  lemma DownloadAllUncached(cache: Cache, stats: Stats, capacity: nat, urls: seq<string>, fetch: Fetcher)
    requires cache.Valid()
    ensures var r := DownloadAll(cache, stats, capacity, urls, false, fetch);
      && r.cache == cache && r.stats == Stats(stats.hits, stats.misses + |urls|)
      && forall i :: 0 <= i < |urls| ==> r.images[i] == fetch(urls[i], stats.misses + i)
  {
    forall i | 0 <= i < |urls|
      ensures DownloadAll(cache, stats, capacity, urls, false, fetch).images[i] == fetch(urls[i], stats.misses + i)
    {
      DownloadAllStepwise(cache, stats, capacity, urls, false, fetch, i);
    }
  }

  /** With the cache on, a url that is cached when its turn comes is served
      from the cache: its image is the cached one. */
  lemma DownloadAllServesCached(cache: Cache, stats: Stats, capacity: nat, urls: seq<string>, fetch: Fetcher,
                                i: nat)
    requires cache.Valid() && i < |urls|
    requires urls[i] in DownloadAll(cache, stats, capacity, urls[..i], true, fetch).cache.values
    ensures DownloadAll(cache, stats, capacity, urls, true, fetch).images[i]
      == Some(DownloadAll(cache, stats, capacity, urls[..i], true, fetch).cache.values[urls[i]])
  {
    DownloadAllStepwise(cache, stats, capacity, urls, true, fetch, i);
  }

  /** The newest `capacity` entries of an insertion order: all of them while
      there are at most `capacity`, otherwise the oldest ones are dropped. */
  function Newest(keys: seq<string>, capacity: nat): seq<string>
    decreases |keys|
  {
    if |keys| <= capacity then keys else Newest(keys[1..], capacity)
  }

  /** `Newest` is the suffix of length `min(|keys|, capacity)`. */
  lemma {:induction false} NewestIsSuffix(keys: seq<string>, capacity: nat)
    ensures |Newest(keys, capacity)| == if |keys| <= capacity then |keys| else capacity
    ensures Newest(keys, capacity) == keys[|keys| - |Newest(keys, capacity)|..]
    decreases |keys|
  {
    if |keys| > capacity {
      NewestIsSuffix(keys[1..], capacity);
      assert keys[1..][|keys| - 1 - capacity..] == keys[|keys| - capacity..];
    }
  }

  /** Keeping the newest entries, appending more and keeping the newest again
      is keeping the newest of everything. */
  lemma {:induction false} NewestOfNewest(a: seq<string>, b: seq<string>, capacity: nat)
    ensures Newest(Newest(a, capacity) + b, capacity) == Newest(a + b, capacity)
    decreases |a|
  {
    if |a| > capacity {
      NewestOfNewest(a[1..], b, capacity);
      assert (a + b)[1..] == a[1..] + b;
    }
  }

  /** First in, first out: caching new, distinct urls whose downloads all
      succeed leaves exactly the `capacity` most recently inserted keys, in
      insertion order, and every one of those calls is a miss. */
  lemma {:induction false} DownloadAllKeepsNewest(cache: Cache, stats: Stats, capacity: nat, urls: seq<string>,
                                                  fetch: Fetcher)
    requires FifoReady(cache, capacity, urls, fetch)
    ensures var r := DownloadAll(cache, stats, capacity, urls, true, fetch);
      r.cache.keys == Newest(cache.keys + urls, capacity) && r.stats.hits == stats.hits
    decreases |urls|
  {
    if |urls| == 0 {
      assert cache.keys + urls == cache.keys;
    } else {
      var d := DownloadImage(cache, stats, capacity, urls[0], true, fetch);
      var rest := DownloadAll(d.cache, d.stats, capacity, urls[1..], true, fetch);
      FifoRestReady(cache, stats, capacity, urls, fetch);
      DownloadAllKeepsNewest(d.cache, d.stats, capacity, urls[1..], fetch);
      FifoFirst(cache, stats, capacity, urls, fetch);
      FifoStep(cache.keys, urls, capacity, d.cache.keys, rest.cache.keys);
      DownloadAllCons(cache, stats, capacity, urls, true, fetch);
    }
  }

  /** A run is its first call followed by the run over the remaining urls. */
  lemma DownloadAllCons(cache: Cache, stats: Stats, capacity: nat, urls: seq<string>, useCache: bool, fetch: Fetcher)
    requires cache.Valid() && |urls| > 0
    ensures var d := DownloadImage(cache, stats, capacity, urls[0], useCache, fetch);
      var rest := DownloadAll(d.cache, d.stats, capacity, urls[1..], useCache, fetch);
      DownloadAll(cache, stats, capacity, urls, useCache, fetch) == DownloadRun([d.image] + rest.images, rest.cache, rest.stats)
  {
  }

  /** The conditions under which `DownloadAll` keeps the newest keys: room for
      at least one entry, a cache no fuller than its capacity, and urls that
      are distinct, not cached yet and always downloadable. */
  ghost predicate FifoReady(cache: Cache, capacity: nat, urls: seq<string>, fetch: Fetcher) {
    && cache.Valid() && 0 < capacity && cache.Size() <= capacity
    && (forall i, j :: 0 <= i < j < |urls| ==> urls[i] != urls[j])
    && (forall u :: u in urls ==> u !in cache.values)
    && (forall u, n :: u in urls ==> fetch(u, n).Some?)
  }

  /** The first call of a first-in-first-out run: a miss that puts the url at
      the end of the order and evicts at most the oldest entry. */
  lemma FifoFirst(cache: Cache, stats: Stats, capacity: nat, urls: seq<string>, fetch: Fetcher)
    requires FifoReady(cache, capacity, urls, fetch) && |urls| > 0
    ensures var d := DownloadImage(cache, stats, capacity, urls[0], true, fetch);
      d.cache.keys == Newest(cache.keys + [urls[0]], capacity) && d.stats.hits == stats.hits
  {
    var u := urls[0];
    assert u !in cache.values && fetch(u, stats.misses).Some? by {
      assert u in urls;
    }
    DownloadInsertsAtEnd(cache, stats, capacity, u, fetch);
    EvictOneKeepsNewest(cache.keys, u, capacity);
  }

  /** After the first call the remaining urls are ready for the rest of the
      run. */
  lemma FifoRestReady(cache: Cache, stats: Stats, capacity: nat, urls: seq<string>, fetch: Fetcher)
    requires FifoReady(cache, capacity, urls, fetch) && |urls| > 0
    ensures FifoReady(DownloadImage(cache, stats, capacity, urls[0], true, fetch).cache, capacity, urls[1..], fetch)
  {
    var u := urls[0];
    assert u !in cache.values && fetch(u, stats.misses).Some? by {
      assert u in urls;
    }
    DownloadInsertsAtEnd(cache, stats, capacity, u, fetch);
    var d := DownloadImage(cache, stats, capacity, u, true, fetch);
    RestStaysFresh(urls, cache.values.Keys, d.cache.values.Keys);
  }

  /** Evicting the oldest key of a full cache before appending is keeping the
      newest `capacity` keys. */
  lemma EvictOneKeepsNewest(keys: seq<string>, u: string, capacity: nat)
    requires 0 < capacity && |keys| <= capacity
    ensures (if |keys| >= capacity then keys[1..] else keys) + [u] == Newest(keys + [u], capacity)
  {
    if |keys| >= capacity {
      assert (keys + [u])[1..] == keys[1..] + [u];
    }
  }

  /** The inductive step of the first-in-first-out property: if the first
      call keeps the newest keys and so do the calls after it, all of them
      do. */
  lemma FifoStep(keys: seq<string>, urls: seq<string>, capacity: nat, mid: seq<string>, last: seq<string>)
    requires |urls| > 0
    requires mid == Newest(keys + [urls[0]], capacity)
    requires last == Newest(mid + urls[1..], capacity)
    ensures last == Newest(keys + urls, capacity)
  {
    NewestOfNewest(keys + [urls[0]], urls[1..], capacity);
    assert keys + [urls[0]] + urls[1..] == keys + urls;
  }

  /** The urls after the first are still distinct and still new to a cache
      that gained only the first one. */
  lemma RestStaysFresh(urls: seq<string>, before: set<string>, after: set<string>)
    requires |urls| > 0
    requires forall i, j :: 0 <= i < j < |urls| ==> urls[i] != urls[j]
    requires forall u :: u in urls ==> u !in before
    requires after <= before + {urls[0]}
    ensures forall u :: u in urls[1..] ==> u !in after
    ensures forall i, j :: 0 <= i < j < |urls[1..]| ==> urls[1..][i] != urls[1..][j]
  {
    var rest := urls[1..];
    forall v | v in rest
      ensures v != urls[0] && v in urls
    {
      var i :| 0 <= i < |rest| && rest[i] == v;
      assert rest[i] == urls[i + 1];
    }
  }

  /** Downloads that all fail leave the cache as it was and count one miss
      each, as long as none of the urls is served from the cache. */
  lemma {:induction false} FailedDownloadsKeepCache(cache: Cache, stats: Stats, capacity: nat, urls: seq<string>,
                                                    useCache: bool, fetch: Fetcher)
    requires cache.Valid()
    requires forall u, n :: u in urls ==> fetch(u, n).None?
    requires useCache ==> forall u :: u in urls ==> u !in cache.values
    ensures var r := DownloadAll(cache, stats, capacity, urls, useCache, fetch);
      && r.cache == cache && r.stats == Stats(stats.hits, stats.misses + |urls|)
      && forall i :: 0 <= i < |urls| ==> r.images[i].None?
    decreases |urls|
  {
    if |urls| > 0 {
      var d := DownloadImage(cache, stats, capacity, urls[0], useCache, fetch);
      assert urls[0] in urls;
      assert d.cache == cache && d.image.None? && d.stats == Stats(stats.hits, stats.misses + 1);
      forall u | u in urls[1..]
        ensures u in urls
      {
      }
      FailedDownloadsKeepCache(cache, d.stats, capacity, urls[1..], useCache, fetch);
    }
  }

  /** With room for two images, three new urls that all download leave the
      last two cached, in insertion order, after three misses: the first url
      has been evicted. */
  lemma ThreeUrlsCapacityTwo(u1: string, u2: string, u3: string, fetch: Fetcher)
    requires u1 != u2 && u2 != u3 && u1 != u3
    requires forall u, n :: fetch(u, n).Some?
    ensures var run := DownloadAll(Empty(), Stats(0, 0), 2, [u1, u2, u3], true, fetch);
      run.cache.keys == [u2, u3] && run.stats == Stats(0, 3)
  {
    var urls := [u1, u2, u3];
    assert FifoReady(Empty(), 2, urls, fetch) by {
      assert forall i, j :: 0 <= i < j < 3 ==> urls[i] != urls[j];
    }
    KeepLastTwo(urls, fetch);
    assert urls[1..] == [u2, u3];
  }

  lemma KeepLastTwo(urls: seq<string>, fetch: Fetcher)
    requires |urls| == 3 && FifoReady(Empty(), 2, urls, fetch)
    ensures var run := DownloadAll(Empty(), Stats(0, 0), 2, urls, true, fetch);
      run.cache.keys == urls[1..] && run.stats == Stats(0, 3)
  {
    var empty: Cache := Empty();
    DownloadAllKeepsNewest(empty, Stats(0, 0), 2, urls, fetch);
    assert empty.keys + urls == urls;
    assert Newest(urls, 2) == urls[1..];
  }
}
