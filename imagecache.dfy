/**
 * `ImageCacheManager`: three in-memory caches of images as data URLs
 * (website icons, background images, Bing wallpapers), each mirrored under
 * its own storage key. Fetching, blob reading, the clock and the calendar
 * day of a timestamp are parameters.
 */
module ImageCache {
  import opened Wrappers

  const IconsKey: string := "andy_tab_website_icons"
  const BackgroundsKey: string := "andy_tab_background_images"
  const BingKey: string := "andy_tab_bing_wallpapers"

  const ReadFailure: string := "Failed to read blob"

  /** Icons older than thirty days, in milliseconds, are swept. */
  const ExpiryAge: int := 30 * 24 * 60 * 60 * 1000

  /** Requests go out in batches of this many. */
  const BatchSize: nat := 5

  /**
   * `{ data, timestamp }`: the image as a data URL and when it was cached;
   * the data is `null` when the blob reader failed, since `onloadend` still
   * fires after `onerror` and stores the reader's empty result.
   */
  datatype Entry = Entry(data: Option<string>, timestamp: int)

  /** How a `cacheImage` promise settles: with the data URL or `null`, or rejected with a message. */
  datatype Settled = Fulfilled(value: Option<string>) | Refused(reason: string)

  /** The three caches and the stored copies under the three keys. */
  datatype Caches = Caches(icons: map<string, Entry>, backgrounds: map<string, Entry>, bing: map<string, Entry>,
                           stored: map<string, map<string, Entry>>)

  /** A save writes the whole map under its key; a failing write is swallowed and leaves the store as it was. */
  function Persist(stored: map<string, map<string, Entry>>, key: string, m: map<string, Entry>, writeOk: bool): map<string, map<string, Entry>> {
    if writeOk then stored[key := m] else stored
  }

  /**
   * `shouldUpdateBackgroundImage(entry)` with the current hour, today's
   * calendar day and the calendar day of a timestamp: a missing entry, or
   * one from another day, is stale. Both branches on the hour compare days.
   */
  function ShouldUpdateBackground(entry: Option<Entry>, hour: int, today: int, dayOf: int -> int): bool {
    if entry.None? then true
    else if hour >= 3 then today != dayOf(entry.value.timestamp)
    else today != dayOf(entry.value.timestamp)
  }

  /** `shouldUpdateBingWallpaper(entry)`: a missing entry, or one from another day, is stale. */
  function ShouldUpdateBing(entry: Option<Entry>, today: int, dayOf: int -> int): bool {
    entry.None? || today != dayOf(entry.value.timestamp)
  }

  /** The hour plays no part: the background rule is the Bing rule. */
  lemma BackgroundRuleIgnoresHour(entry: Option<Entry>, hour: int, today: int, dayOf: int -> int)
    ensures ShouldUpdateBackground(entry, hour, today, dayOf) == ShouldUpdateBing(entry, today, dayOf)
    ensures ShouldUpdateBackground(entry, hour, today, dayOf) <==> entry.None? || dayOf(entry.value.timestamp) != today
  {
  }

  function Lookup(m: map<string, Entry>, key: string): Option<Entry> {
    if key in m then Some(m[key]) else None
  }

  /** The data a blob read leaves in `reader.result`: the data URL, or `null` when the read failed. */
  function ReadResult(fetched: Option<string>, readOk: bool): Option<string> {
    if readOk then fetched else None
  }

  /**
   * How the promise of a call whose fetch succeeded settles: with the data
   * URL, or rejected by `onerror` before `onloadend` resolves.
   */
  function ReadSettled(fetched: Option<string>, readOk: bool): Settled {
    if readOk then Fulfilled(fetched) else Refused(ReadFailure)
  }

  /**
   * `cacheImage(url, isBackground, isBingWallpaper)`: `fetched` is the data
   * URL the response reads as, or none when the fetch fails or its status
   * is not ok; `readOk` says whether the blob reader succeeds. A failed
   * read rejects, and its `onloadend` still files a `null` entry.
   */
  function CacheStep(c: Caches, url: string, isBackground: bool, isBing: bool, fetched: Option<string>,
                     readOk: bool, now: int, writeOk: bool): (r: (Caches, Settled))
    ensures fetched.None? ==> r == (c, Fulfilled(None))
    ensures fetched.Some? && !readOk ==> r.1 == Refused(ReadFailure)
    ensures fetched.Some? && readOk ==> r.1 == Fulfilled(fetched)
  {
    if fetched.None? then (c, Fulfilled(None))
    else
      var e := Entry(ReadResult(fetched, readOk), now);
      var settled := ReadSettled(fetched, readOk);
      if isBing then
        var b := c.bing[url := e];
        (c.(bing := b, stored := Persist(c.stored, BingKey, b, writeOk)), settled)
      else if isBackground then
        var b := c.backgrounds[url := e];
        (c.(backgrounds := b, stored := Persist(c.stored, BackgroundsKey, b, writeOk)), settled)
      else
        var i := c.icons[url := e];
        (c.(icons := i, stored := Persist(c.stored, IconsKey, i, writeOk)), settled)
  }

  /** The map `cacheImage` files an entry in: Bing first, then backgrounds, else icons. */
  function Chosen(c: Caches, isBackground: bool, isBing: bool): map<string, Entry> {
    if isBing then c.bing else if isBackground then c.backgrounds else c.icons
  }

  /**
   * A fetched image lands in exactly one map, under its URL, stamped with
   * the time, its data `null` when the read failed; every other entry and
   * the other two maps stay as they were, and the chosen map is saved.
   */
  lemma CacheStepRouting(c: Caches, url: string, isBackground: bool, isBing: bool, fetched: Option<string>,
                         readOk: bool, now: int, writeOk: bool)
    requires fetched.Some?
    ensures var c' := CacheStep(c, url, isBackground, isBing, fetched, readOk, now, writeOk).0;
      var m := Chosen(c', isBackground, isBing);
      var m0 := Chosen(c, isBackground, isBing);
      url in m && m[url] == Entry(if readOk then fetched else None, now) && m.Keys == m0.Keys + {url} &&
      c'.stored == Persist(c.stored, if isBing then BingKey else if isBackground then BackgroundsKey else IconsKey, m, writeOk) &&
      (forall k :: k in m0 && k != url ==> m[k] == m0[k]) &&
      (isBing || c'.bing == c.bing) &&
      (isBing || !isBackground || c'.icons == c.icons) && (!isBing || c'.icons == c.icons) &&
      ((!isBing && isBackground) || c'.backgrounds == c.backgrounds)
  {
  }

  /**
   * `cacheImageWithKey(url, cacheKey, isBingWallpaper)`: with the Bing flag
   * the Bing map is cleared and holds the new entry under `cacheKey`, even
   * a `null` one after a failed read; without it no map changes.
   */
  function KeyedStep(c: Caches, cacheKey: string, isBing: bool, fetched: Option<string>,
                     readOk: bool, now: int, writeOk: bool): (r: (Caches, Settled))
    ensures fetched.None? ==> r == (c, Fulfilled(None))
    ensures fetched.Some? && !readOk ==> r.1 == Refused(ReadFailure)
    ensures fetched.Some? && readOk ==> r.1 == Fulfilled(fetched)
    ensures !isBing ==> r.0 == c
  {
    if fetched.None? then (c, Fulfilled(None))
    else if isBing then
      var b := map[cacheKey := Entry(ReadResult(fetched, readOk), now)];
      (c.(bing := b, stored := Persist(c.stored, BingKey, b, writeOk)), ReadSettled(fetched, readOk))
    else (c, ReadSettled(fetched, readOk))
  }

  /**
   * After a fetched Bing wallpaper is filed under a key, that key is the
   * only one in the Bing map and the map is saved; a failed read thus
   * replaces the previous wallpaper by a `null` entry.
   */
  lemma KeyedBingHoldsOne(c: Caches, cacheKey: string, fetched: Option<string>, readOk: bool, now: int, writeOk: bool)
    requires fetched.Some?
    ensures var c' := KeyedStep(c, cacheKey, true, fetched, readOk, now, writeOk).0;
      c'.bing.Keys == {cacheKey} && c'.bing[cacheKey].data == (if readOk then fetched else None) &&
      c'.stored == Persist(c.stored, BingKey, c'.bing, writeOk) &&
      c'.icons == c.icons && c'.backgrounds == c.backgrounds
  {
  }

  /** The icons a sweep at time `now` keeps: the ones cached at most thirty days before. */
  function Unexpired(icons: map<string, Entry>, now: int): (m: map<string, Entry>)
    ensures forall k :: k in m <==> k in icons && icons[k].timestamp >= now - ExpiryAge
    ensures forall k :: k in m ==> m[k] == icons[k]
  {
    map k | k in icons && icons[k].timestamp >= now - ExpiryAge :: icons[k]
  }

  /** A second sweep at the same time removes nothing more. */
  lemma UnexpiredIdempotent(icons: map<string, Entry>, now: int)
    ensures Unexpired(Unexpired(icons, now), now) == Unexpired(icons, now)
  {
  }

  /** `seq.flat()` */
  function Flatten<T>(chunks: seq<seq<T>>): (r: seq<T>)
  {
    if chunks == [] then [] else Flatten(chunks[..|chunks| - 1]) + chunks[|chunks| - 1]
  }

  lemma FlattenSnoc<T>(chunks: seq<seq<T>>, c: seq<T>)
    ensures Flatten(chunks + [c]) == Flatten(chunks) + c
  {
    assert (chunks + [c])[..|chunks|] == chunks;
  }

  /**
   * The caches after `cacheImage` on each URL in turn, and how each call
   * settled; call `i` sees `fetch(i)`, `readOk(i)` and `clock(i)`.
   */
  function BatchSpec(c: Caches, urls: seq<string>, isBackground: bool, fetch: nat -> Option<string>,
                     readOk: nat -> bool, clock: nat -> int, writeOk: bool): (r: (Caches, seq<Settled>))
    ensures |r.1| == |urls|
  {
    if urls == [] then (c, [])
    else
      var n := |urls| - 1;
      var (c1, rs) := BatchSpec(c, urls[..n], isBackground, fetch, readOk, clock, writeOk);
      var (c2, s) := CacheStep(c1, urls[n], isBackground, false, fetch(n), readOk(n), clock(n), writeOk);
      (c2, rs + [s])
  }

  /** One more URL of the list adds one more `cacheImage` call to the batch. */
  lemma BatchExtends(c: Caches, urls: seq<string>, k: nat, isBackground: bool, fetch: nat -> Option<string>,
                     readOk: nat -> bool, clock: nat -> int, writeOk: bool,
                     before: Caches, rs: seq<Settled>, after: Caches, r: Settled)
    requires k < |urls|
    requires (before, rs) == BatchSpec(c, urls[..k], isBackground, fetch, readOk, clock, writeOk)
    requires (after, r) == CacheStep(before, urls[k], isBackground, false, fetch(k), readOk(k), clock(k), writeOk)
    ensures (after, rs + [r]) == BatchSpec(c, urls[..k + 1], isBackground, fetch, readOk, clock, writeOk)
  {
    assert urls[..k + 1][..k] == urls[..k];
  }

  /**
   * A batch of icons never touches the background or Bing maps, and the
   * result of each call is that of its own fetch and read.
   */
  lemma {:induction false} BatchTouchesOnlyItsMap(c: Caches, urls: seq<string>, isBackground: bool,
                                                  fetch: nat -> Option<string>, readOk: nat -> bool,
                                                  clock: nat -> int, writeOk: bool)
    ensures var (c', rs) := BatchSpec(c, urls, isBackground, fetch, readOk, clock, writeOk);
      c'.bing == c.bing && (isBackground || c'.backgrounds == c.backgrounds) && (!isBackground || c'.icons == c.icons) &&
      forall i :: 0 <= i < |urls| ==>
        rs[i] == if fetch(i).None? then Fulfilled(None) else if !readOk(i) then Refused(ReadFailure) else Fulfilled(fetch(i))
  {
    if urls != [] {
      var n := |urls| - 1;
      BatchTouchesOnlyItsMap(c, urls[..n], isBackground, fetch, readOk, clock, writeOk);
      var (c1, rs) := BatchSpec(c, urls[..n], isBackground, fetch, readOk, clock, writeOk);
      assert BatchSpec(c, urls, isBackground, fetch, readOk, clock, writeOk).1 ==
        rs + [CacheStep(c1, urls[n], isBackground, false, fetch(n), readOk(n), clock(n), writeOk).1];
    }
  }

  /**
   * An icon is cached with the entry of the last call whose fetch succeeded
   * for its URL: that call's data URL, or `null` when its read failed.
   */
  lemma {:induction false} BatchCachesLastFetch(c: Caches, urls: seq<string>, fetch: nat -> Option<string>,
                                                readOk: nat -> bool, clock: nat -> int, writeOk: bool, i: nat)
    requires i < |urls| && fetch(i).Some?
    requires forall j :: i < j < |urls| && urls[j] == urls[i] ==> fetch(j).None?
    ensures var c' := BatchSpec(c, urls, false, fetch, readOk, clock, writeOk).0;
      urls[i] in c'.icons && c'.icons[urls[i]] == Entry(if readOk(i) then fetch(i) else None, clock(i))
  {
    var n := |urls| - 1;
    var (c1, rs) := BatchSpec(c, urls[..n], false, fetch, readOk, clock, writeOk);
    if i < n {
      BatchCachesLastFetch(c, urls[..n], fetch, readOk, clock, writeOk, i);
    }
  }

  class ImageCacheManager {
    var icons: map<string, Entry>
    var backgrounds: map<string, Entry>
    var bing: map<string, Entry>
    /** What `chrome.storage.local` holds under the three cache keys. */
    var stored: map<string, map<string, Entry>>

    function State(): Caches
      reads this
    {
      Caches(icons, backgrounds, bing, stored)
    }

    /** The manager starts with three empty maps, over what storage already holds. */
    constructor (persisted: map<string, map<string, Entry>>)
      ensures State() == Caches(map[], map[], map[], persisted)
    {
      icons := map[];
      backgrounds := map[];
      bing := map[];
      stored := persisted;
    }

    /**
     * `init`: the three loads, each with its own storage read. A map comes
     * from its stored object, `{}` when none is stored, and is empty when
     * its own read fails; the other two loads are unaffected.
     */
    method Load(iconsRead: bool, backgroundsRead: bool, bingRead: bool)
      modifies this
      ensures icons == (if iconsRead then StoredOr(stored, IconsKey) else map[])
      ensures backgrounds == (if backgroundsRead then StoredOr(stored, BackgroundsKey) else map[])
      ensures bing == (if bingRead then StoredOr(stored, BingKey) else map[])
      ensures stored == old(stored)
    {
      icons := if iconsRead then StoredOr(stored, IconsKey) else map[];
      backgrounds := if backgroundsRead then StoredOr(stored, BackgroundsKey) else map[];
      bing := if bingRead then StoredOr(stored, BingKey) else map[];
    }

    static function StoredOr(stored: map<string, map<string, Entry>>, key: string): (m: map<string, Entry>)
      ensures key in stored ==> m == stored[key]
      ensures key !in stored ==> m == map[]
    {
      if key in stored then stored[key] else map[]
    }

    method CacheImage(url: string, isBackground: bool, isBing: bool, fetched: Option<string>,
                      readOk: bool, now: int, writeOk: bool) returns (r: Settled)
      modifies this
      ensures (State(), r) == CacheStep(old(State()), url, isBackground, isBing, fetched, readOk, now, writeOk)
    {
      if fetched.None? {
        return Fulfilled(None);
      }
      var e := Entry(if readOk then fetched else None, now);
      if isBing {
        bing := bing[url := e];
        if writeOk { stored := stored[BingKey := bing]; }
      } else if isBackground {
        backgrounds := backgrounds[url := e];
        if writeOk { stored := stored[BackgroundsKey := backgrounds]; }
      } else {
        icons := icons[url := e];
        if writeOk { stored := stored[IconsKey := icons]; }
      }
      return if readOk then Fulfilled(fetched) else Refused(ReadFailure);
    }

    method CacheImageWithKey(cacheKey: string, isBing: bool, fetched: Option<string>,
                             readOk: bool, now: int, writeOk: bool) returns (r: Settled)
      modifies this
      ensures (State(), r) == KeyedStep(old(State()), cacheKey, isBing, fetched, readOk, now, writeOk)
    {
      if fetched.None? {
        return Fulfilled(None);
      }
      if isBing {
        bing := map[];
        bing := bing[cacheKey := Entry(if readOk then fetched else None, now)];
        if writeOk { stored := stored[BingKey := bing]; }
      }
      return if readOk then Fulfilled(fetched) else Refused(ReadFailure);
    }

    /**
     * `getCachedImage(url, isBackground, isBingWallpaper)`: icons whenever
     * present; backgrounds and Bing wallpapers only when cached today.
     */
    function CachedImage(url: string, isBackground: bool, isBing: bool, hour: int, today: int, dayOf: int -> int): (r: Option<string>)
      reads this
      ensures !isBing && !isBackground ==> r == if url in icons then icons[url].data else None
      ensures isBing ==> r == if url in bing && dayOf(bing[url].timestamp) == today then bing[url].data else None
      ensures !isBing && isBackground ==>
        r == if url in backgrounds && dayOf(backgrounds[url].timestamp) == today then backgrounds[url].data else None
    {
      if isBing then
        var e := Lookup(bing, url);
        if ShouldUpdateBing(e, today, dayOf) then None else e.value.data
      else if isBackground then
        var e := Lookup(backgrounds, url);
        if ShouldUpdateBackground(e, hour, today, dayOf) then None else e.value.data
      else
        var e := Lookup(icons, url);
        if e.Some? then e.value.data else None
    }

    /** `clearAllCache`: when the stored keys are removed, all three maps are emptied; otherwise nothing changes. */
    method ClearAllCache(removeOk: bool)
      modifies this
      ensures removeOk ==> (icons == map[] && backgrounds == map[] && bing == map[] &&
                            stored == map k | k in old(stored) && k != IconsKey && k != BackgroundsKey && k != BingKey :: old(stored)[k])
      ensures !removeOk ==> State() == old(State())
    {
      if !removeOk {
        return;
      }
      stored := map k | k in stored && k != IconsKey && k != BackgroundsKey && k != BingKey :: stored[k];
      icons := map[];
      backgrounds := map[];
      bing := map[];
    }

    /**
     * `clearExpiredCache` at time `now`: every icon cached more than thirty
     * days before is deleted while walking the map, then the icons are saved.
     */
    method ClearExpiredCache(now: int, writeOk: bool)
      modifies this
      ensures icons == Unexpired(old(icons), now)
      ensures backgrounds == old(backgrounds) && bing == old(bing)
      ensures stored == Persist(old(stored), IconsKey, icons, writeOk)
    {
      var cutoff := now - ExpiryAge;
      var remaining := icons.Keys;
      while remaining != {}
        invariant remaining <= old(icons).Keys
        invariant icons == map k | k in old(icons) && (k in remaining || old(icons)[k].timestamp >= cutoff) :: old(icons)[k]
        invariant backgrounds == old(backgrounds) && bing == old(bing) && stored == old(stored)
        decreases remaining
      {
        var url :| url in remaining;
        if icons[url].timestamp < cutoff {
          icons := icons - {url};
        }
        remaining := remaining - {url};
      }
      if writeOk {
        stored := stored[IconsKey := icons];
      }
    }

    /** The batches of `batchCacheImages`: consecutive runs of five URLs, the last one possibly shorter. */
    static method Chunks(urls: seq<string>) returns (batches: seq<seq<string>>)
      ensures Flatten(batches) == urls
      ensures |batches| == (|urls| + BatchSize - 1) / BatchSize
      ensures forall b :: 0 <= b < |batches| ==> 1 <= |batches[b]| <= BatchSize
      ensures forall b :: 0 <= b < |batches| - 1 ==> |batches[b]| == BatchSize
    {
      batches := [];
      var i := 0;
      while i < |urls|
        invariant ChunksSoFar(urls, batches, i)
      {
        ChunksStep(urls, batches, i);
        var end := if i + BatchSize <= |urls| then i + BatchSize else |urls|;
        batches := batches + [urls[i..end]];
        i := end;
      }
      assert urls[..|urls|] == urls;
    }

    /** `batches` cut the first `i` URLs into runs of five, only a final run being shorter. */
    static predicate ChunksSoFar(urls: seq<string>, batches: seq<seq<string>>, i: nat) {
      i <= |urls| && Flatten(batches) == urls[..i] &&
      |batches| == (i + BatchSize - 1) / BatchSize &&
      (i < |urls| ==> i == BatchSize * |batches|) &&
      (forall b :: 0 <= b < |batches| ==> 1 <= |batches[b]| <= BatchSize) &&
      (forall b :: 0 <= b < |batches| - 1 ==> |batches[b]| == BatchSize) &&
      (i < |urls| && |batches| > 0 ==> |batches[|batches| - 1]| == BatchSize)
    }

    /** The loop of `Chunks` cuts off the next run of at most five URLs. */
    static lemma ChunksStep(urls: seq<string>, batches: seq<seq<string>>, i: nat)
      requires ChunksSoFar(urls, batches, i) && i < |urls|
      ensures var end := if i + BatchSize <= |urls| then i + BatchSize else |urls|;
        ChunksSoFar(urls, batches + [urls[i..end]], end)
    {
      var end := if i + BatchSize <= |urls| then i + BatchSize else |urls|;
      FlattenSnoc(batches, urls[i..end]);
      assert urls[..end] == urls[..i] + urls[i..end];
      BatchCount(i, end, |batches|);
    }

    /**
     * `batchCacheImages(urls, isBackground)`: the URLs in batches of five,
     * each URL cached in turn; the results of all calls in URL order.
     */
    method BatchCacheImages(urls: seq<string>, isBackground: bool, fetch: nat -> Option<string>,
                            readOk: nat -> bool, clock: nat -> int, writeOk: bool) returns (results: seq<Settled>)
      modifies this
      ensures (State(), results) == BatchSpec(old(State()), urls, isBackground, fetch, readOk, clock, writeOk)
    {
      var batches := Chunks(urls);
      results := [];
      var b := 0;
      var done: nat := 0;
      while b < |batches|
        invariant b <= |batches| && done <= |urls|
        invariant urls[..done] == Flatten(batches[..b])
        invariant (State(), results) == BatchSpec(old(State()), urls[..done], isBackground, fetch, readOk, clock, writeOk)
      {
        var batch := batches[b];
        NextBatch(urls, batches, b, done);
        results := CacheBatch(urls, done, batch, isBackground, fetch, readOk, clock, writeOk, old(State()), results);
        ghost var reached := (State(), results);
        assert reached == BatchSpec(old(State()), urls[..done + |batch|], isBackground, fetch, readOk, clock, writeOk);
        done := done + |batch|;
        b := b + 1;
      }
      assert batches[..|batches|] == batches;
      assert urls[..|urls|] == urls;
    }

    /**
     * One batch of `batchCacheImages`: the calls for the URLs at `start`
     * onwards, their results appended to those of the earlier batches.
     */
    method CacheBatch(urls: seq<string>, start: nat, batch: seq<string>, isBackground: bool,
                      fetch: nat -> Option<string>, readOk: nat -> bool, clock: nat -> int, writeOk: bool,
                      ghost c0: Caches, prior: seq<Settled>) returns (all: seq<Settled>)
      requires start + |batch| <= |urls| && batch == urls[start..start + |batch|]
      requires (State(), prior) == BatchSpec(c0, urls[..start], isBackground, fetch, readOk, clock, writeOk)
      modifies this
      ensures (State(), all) == BatchSpec(c0, urls[..start + |batch|], isBackground, fetch, readOk, clock, writeOk)
    {
      all := prior;
      var j: nat := 0;
      while j < |batch|
        invariant j <= |batch|
        invariant (State(), all) == BatchSpec(c0, urls[..start + j], isBackground, fetch, readOk, clock, writeOk)
      {
        var k := start + j;
        SliceAt(urls, start, batch, j);
        ghost var before := State();
        var r := CacheImage(batch[j], isBackground, false, fetch(k), readOk(k), clock(k), writeOk);
        BatchExtends(c0, urls, k, isBackground, fetch, readOk, clock, writeOk, before, all, State(), r);
        all := all + [r];
        j := j + 1;
        assert urls[..start + j] == urls[..k + 1];
      }
    }

    static lemma SliceAt(urls: seq<string>, start: nat, batch: seq<string>, j: nat)
      requires start + |batch| <= |urls| && batch == urls[start..start + |batch|] && j < |batch|
      ensures batch[j] == urls[start + j]
    {
    }

    /** Batch `b` is the slice of the URLs that follows the earlier batches. */
    static lemma NextBatch(urls: seq<string>, batches: seq<seq<string>>, b: nat, done: nat)
      requires Flatten(batches) == urls && b < |batches| && done <= |urls|
      requires urls[..done] == Flatten(batches[..b])
      ensures done + |batches[b]| <= |urls|
      ensures batches[b] == urls[done..done + |batches[b]|]
      ensures urls[..done + |batches[b]|] == Flatten(batches[..b + 1])
    {
      var batch := batches[b];
      FlattenSnoc(batches[..b], batch);
      assert batches[..b + 1] == batches[..b] + [batch];
      FlattenPrefix(batches, b + 1);
      assert urls[..done + |batch|] == urls[..done] + batch;
      forall i | 0 <= i < |batch| ensures batch[i] == urls[done + i] {
        assert batch[i] == (urls[..done] + batch)[done + i];
      }
    }

    /** A batch that starts where the full batches end ends in the next batch's range. */
    static lemma BatchCount(i: nat, end: nat, k: nat)
      requires i == BatchSize * k && i < end <= i + BatchSize
      ensures (end + BatchSize - 1) / BatchSize == k + 1
    {
      assert BatchSize * (k + 1) <= end + BatchSize - 1 < BatchSize * (k + 2);
    }

    static lemma FlattenPrefix(batches: seq<seq<string>>, b: nat)
      requires b <= |batches|
      ensures |Flatten(batches[..b])| <= |Flatten(batches)|
      ensures Flatten(batches)[..|Flatten(batches[..b])|] == Flatten(batches[..b])
    {
      FlattenAppend(batches[..b], batches[b..]);
      assert batches == batches[..b] + batches[b..];
    }

    static lemma {:induction false} FlattenAppend(a: seq<seq<string>>, c: seq<seq<string>>)
      ensures Flatten(a + c) == Flatten(a) + Flatten(c)
      decreases |c|
    {
      if c == [] {
        assert a + c == a;
      } else {
        var last := c[|c| - 1];
        var init := c[..|c| - 1];
        assert a + c == (a + init) + [last];
        assert c == init + [last];
        FlattenSnoc(a + init, last);
        FlattenSnoc(init, last);
        FlattenAppend(a, init);
      }
    }
  }
}
